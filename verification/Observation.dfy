/** The normalized record of one observed tool call, and the two decisions taken about it from
    its own data alone: which operation it belongs to and which key it joins on. */
module Observation {
  import opened Text

  datatype Correlation = Correlated | Unattributed | Ambiguous

  datatype Status = StatusUnknown | StatusSuccess | StatusCancelled | StatusError

  datatype Availability = NotEmitted | Absent | Present | OmittedSize | RefusedRaw

  datatype Source = Source(
    observerType: string, observerID: string, observerVersion: string, transport: string,
    serviceName: string, protocolVersion: string, networkTransport: string, sessionID: string)

  /** One entry of Execution.Disagreements: the field and the two assertions that differ. */
  datatype Disagreement =
    | StatusConflict(baseSeen: seq<string>, base: Status, addSeen: seq<string>, add: Status)
    | FieldConflict(name: string, kept: string, objected: string)

  /** An instant is its signed 64-bit count of nanoseconds; 0 is the zero time. */
  type Instant = int

  datatype Execution = Execution(
    traceID: string, spanID: string, parentSpanID: string, spanKind: string,
    operationID: string, correlation: Correlation, correlationDetail: string,
    target: string, tool: string,
    startedAt: Instant, finishedAt: Instant, durationMS: int,
    status: Status, errorType: string, errorCode: string,
    argumentsFingerprint: string, argumentsFingerprintStatus: Availability,
    resultFingerprint: string, resultFingerprintStatus: Availability,
    readOnlyDeclared: bool, readOnlyAnnotationKnown: bool, annotationsVerified: bool,
    source: Source, seenFrom: seq<string>, disagreements: seq<Disagreement>)

  newtype byte = x: int | 0 <= x < 256

  /** What the model leaves to the platform: reading a decimal duration, and the record codec. */
  datatype Env = Env(
    parseDuration: string -> Option<int>,
    encode: Execution -> Option<seq<byte>>,
    decode: seq<byte> -> Option<Execution>)

  // ---------------------------------------------------------------- join keys

  /** The key two signals of one execution share; "" when either half is missing. */
  function JoinKey(traceID: string, spanID: string): string {
    var trace, span := TrimSpace(traceID), TrimSpace(spanID);
    if trace == "" || span == "" then "" else trace + "/" + span
  }

  /** A signal joins exactly when neither of its ids is blank, and then on both of them, without the
      blanks around them. */
  lemma JoinKeyNeedsBothIDs(traceID: string, spanID: string)
    ensures JoinKey(traceID, spanID) == "" <==> Blank(traceID) || Blank(spanID)
    ensures JoinKey(traceID, spanID) != "" ==>
      exists t, s :: Middle(traceID, t) && Middle(spanID, s) && JoinKey(traceID, spanID) == t + "/" + s
  {
    hide TrimSpace, Middle;
    TrimIsMiddle(traceID);
    TrimIsMiddle(spanID);
  }

  // ---------------------------------------------------------------- operation ids

  predicate CrockfordSymbol(c: char) {
    '0' <= c <= '9' || 'A' <= c <= 'H' || c == 'J' || c == 'K' || c == 'M' || c == 'N' ||
    'P' <= c <= 'T' || 'V' <= c <= 'Z'
  }

  /** Crockford's base 32: the ten digits and the letters without I, L, O and U. */
  lemma CrockfordAlphabet(c: char)
    ensures CrockfordSymbol(c) <==> c in "0123456789ABCDEFGHJKMNPQRSTVWXYZ"
  {}

  /** ^EV-[0-9A-HJKMNP-TV-Z]{26}$ */
  predicate MatchesPattern(s: string) {
    |s| == 29 && s[..3] == "EV-" && forall i :: 3 <= i < 29 ==> CrockfordSymbol(s[i])
  }

  predicate ValidOperationID(id: string) { MatchesPattern(TrimSpace(id)) }

  datatype Classification = Classification(correlation: Correlation, operationID: string, detail: string)

  /** The non-blank values, trimmed, in order. */
  function PresentIn(found: seq<string>): (present: seq<string>)
    ensures forall id :: id in present ==> id != "" && Trimmed(id)
  {
    if found == [] then []
    else
      var init, id := PresentIn(found[..|found| - 1]), TrimSpace(found[|found| - 1]);
      if id == "" then init else init + [id]
  }

  const NO_ID_DETAIL := "no explicit operation id" + " on any contributing signal"
  const CONFLICT_DETAIL := "conflicting operation ids: "
  const MALFORMED_DETAIL := "operation id is not well formed: "

  function ClassifyPresent(present: seq<string>): Classification {
    if present == [] then Classification(Unattributed, "", NO_ID_DETAIL)
    else if exists i :: 0 <= i < |present| && present[i] != present[0] then
      Classification(Ambiguous, "", CONFLICT_DETAIL + Join(present, " vs "))
    else if !ValidOperationID(present[0]) then
      Classification(Ambiguous, "", MALFORMED_DETAIL + present[0])
    else Classification(Correlated, present[0], "")
  }

  function ClassifySpec(found: seq<string>): Classification { ClassifyPresent(PresentIn(found)) }

  /** ClassifyOperation: collect the present ids, then scan them against the first. */
  method ClassifyOperation(found: seq<string>) returns (c: Classification)
    ensures c == ClassifySpec(found)
  {
    var present: seq<string> := [];
    for i := 0 to |found|
      invariant present == PresentIn(found[..i])
    {
      assert found[..i + 1][..i] == found[..i];
      var id := TrimSpace(found[i]);
      if id != "" { present := present + [id]; }
    }
    assert found[..|found|] == found;
    if |present| == 0 { return Classification(Unattributed, "", NO_ID_DETAIL); }
    var first := present[0];
    for i := 1 to |present|
      invariant forall j :: 0 <= j < i ==> present[j] == first
    {
      if present[i] != first {
        return Classification(Ambiguous, "", CONFLICT_DETAIL + Join(present, " vs "));
      }
    }
    if !ValidOperationID(first) {
      return Classification(Ambiguous, "", MALFORMED_DETAIL + first);
    }
    return Classification(Correlated, first, "");
  }

  // ---------------------------------------------------------------- what a classification means

  /** The flat lattice behind the three correlation values. */
  datatype Verdict = NoID | OneID(id: string) | Conflict

  /** The answer the correlation contract gives for a set of ids, whatever order, repetition or
      grouping they were found in. */
  ghost function VerdictOf(ids: set<string>): Verdict {
    if ids == {} then NoID
    else if exists id :: ids == {id} && MatchesPattern(id) then
      var id :| ids == {id} && MatchesPattern(id); OneID(id)
    else Conflict
  }

  /** Reading a (Correlation, OperationID) pair back as a verdict. */
  function VerdictFrom(correlation: Correlation, operationID: string): Verdict {
    match correlation
    case Unattributed => NoID
    case Correlated => OneID(operationID)
    case Ambiguous => Conflict
  }

  /** The pair and its detail are coherent: an id exactly on Correlated, well formed and
      trimmed, and a detail exactly on the other two. */
  predicate Coherent(correlation: Correlation, operationID: string, detail: string) {
    && (correlation.Correlated? ==> MatchesPattern(operationID) && Trimmed(operationID) && operationID != "")
    && (!correlation.Correlated? ==> operationID == "")
    && (correlation.Correlated? <==> detail == "")
    && (detail == "" || !Blank(detail))
  }

  lemma PatternIsTrimmed(id: string)
    requires MatchesPattern(id)
    ensures Trimmed(id) && id != ""
  {
    assert id[..3][0] == 'E';
    assert CrockfordSymbol(id[28]);
  }

  lemma VerdictOfSingle(id: string)
    ensures VerdictOf({id}) == if MatchesPattern(id) then OneID(id) else Conflict
  {
    assert {id} != {};
    forall other | {id} == {other} ensures other == id {
      assert other in {id};
    }
  }

  lemma VerdictOfTwo(ids: set<string>, a: string, b: string)
    requires a in ids && b in ids && a != b
    ensures VerdictOf(ids) == Conflict
  {
    forall id ensures ids != {id} {
      assert a !in {id} || b !in {id};
    }
  }

  lemma NotBlank(prefix: string, rest: string)
    requires prefix != "" && !IsSpace(prefix[0])
    ensures !Blank(prefix + rest)
  {
    assert !IsSpace((prefix + rest)[0]);
  }

  /** ClassifyOperation answers by the set of ids alone, and its three results are coherent. */
  lemma ClassifyMeetsContract(found: seq<string>)
    ensures var c := ClassifySpec(found);
      && VerdictFrom(c.correlation, c.operationID) == VerdictOf(set id | id in PresentIn(found))
      && Coherent(c.correlation, c.operationID, c.detail)
  {
    var present := PresentIn(found);
    var ids := set id | id in present;
    if present == [] {
      assert ids == {};
      NotBlank("no explicit operation id", " on any contributing signal");
    } else {
      assert present[0] in ids;
      if i :| 0 <= i < |present| && present[i] != present[0] {
        VerdictOfTwo(ids, present[0], present[i]);
        NotBlank(CONFLICT_DETAIL, Join(present, " vs "));
      } else {
        assert ids == {present[0]};
        VerdictOfSingle(present[0]);
        NotBlank(MALFORMED_DETAIL, present[0]);
        if MatchesPattern(present[0]) { PatternIsTrimmed(present[0]); }
      }
    }
  }
}
