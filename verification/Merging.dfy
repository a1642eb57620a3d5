/** The merge of two records of one execution. */
module Merging {
  import opened Text
  import opened Observation
  import opened Normalize

  /** union(a, b): the distinct non-empty names of both, sorted. */
  function Union(a: seq<string>, b: seq<string>): seq<string> { SortNonEmpty(a + b) }

  method UnionOf(a: seq<string>, b: seq<string>) returns (out: seq<string>)
    ensures out == Union(a, b)
    ensures Ascending(out) && forall v :: v in out <==> v != "" && (v in a || v in b)
  {
    var seen: set<string> := {};
    out := [];
    var all := a + b;
    for i := 0 to |all|
      invariant forall v :: v in out <==> v in all[..i] && v != ""
      invariant forall v :: v in out <==> v in seen
    {
      var v := all[i];
      if v == "" || v in seen { continue; }
      seen := seen + {v};
      out := out + [v];
    }
    assert all[..|all|] == all;
    out := Sort(out);
    AscendingIsUnique(out, Union(a, b));
  }

  /** transportOf: the contributing signals, each prefixed, joined with "+". */
  function TransportOf(seenFrom: seq<string>): string {
    Join(Prefixed(seenFrom), "+")
  }

  function Prefixed(seenFrom: seq<string>): seq<string> {
    seq(|seenFrom|, i requires 0 <= i < |seenFrom| => "otlp_" + seenFrom[i])
  }

  /** The transport names every signal the record was built from, and nothing else: taken apart at
      the plus signs it gives one part for each name, in order. */
  lemma TransportNamesAll(seenFrom: seq<string>)
    requires seenFrom != [] && forall name :: name in seenFrom ==> '+' !in name
    ensures |Split(TransportOf(seenFrom), '+')| == |seenFrom|
    ensures forall i :: 0 <= i < |seenFrom| ==> Split(TransportOf(seenFrom), '+')[i] == "otlp_" + seenFrom[i]
    ensures TransportOf([]) == ""
  {
    var parts := Prefixed(seenFrom);
    forall part | part in parts ensures '+' !in part {
      var i :| 0 <= i < |parts| && parts[i] == part;
      assert seenFrom[i] in seenFrom && part == "otlp_" + seenFrom[i];
    }
    SplitJoin(parts, '+');
  }

  method Transport(seenFrom: seq<string>) returns (t: string)
    ensures t == TransportOf(seenFrom)
  {
    if |seenFrom| == 0 { return ""; }
    if |seenFrom| == 1 { return "otlp_" + seenFrom[0]; }
    var parts: seq<string> := [];
    for i := 0 to |seenFrom|
      invariant parts == Prefixed(seenFrom)[..i]
    {
      parts := parts + ["otlp_" + seenFrom[i]];
    }
    assert parts == Prefixed(seenFrom);
    return Join(parts, "+");
  }

  datatype MergedField = MergedField(value: string, disagreements: seq<Disagreement>)

  function MergeField(name: string, a: string, b: string): MergedField {
    if a == b || b == "" then MergedField(a, [])
    else if a == "" then MergedField(b, [])
    else MergedField(a, [FieldConflict(name, a, b)])
  }

  datatype MergedStatus = MergedStatus(outcome: Outcome, disagreements: seq<Disagreement>)

  function MergeStatus(base: Execution, add: Execution): MergedStatus {
    var a, b := base.status, add.status;
    var errType := FirstNonEmpty(base.errorType, add.errorType);
    var errCode := FirstNonEmpty(base.errorCode, add.errorCode);
    if a == b then MergedStatus(Outcome(a, errType, errCode), [])
    else if a.StatusUnknown? then MergedStatus(Outcome(b, errType, errCode), [])
    else if b.StatusUnknown? then MergedStatus(Outcome(a, errType, errCode), [])
    else
      var kept := if a.StatusError? || b.StatusError? then StatusError
                  else if a.StatusCancelled? || b.StatusCancelled? then StatusCancelled
                  else a;
      MergedStatus(Outcome(kept, errType, errCode), [StatusConflict(base.seenFrom, a, add.seenFrom, b)])
  }

  function MergeCorrelation(base: Execution, add: Execution): Classification {
    if base.correlation.Ambiguous? || add.correlation.Ambiguous? then
      var detail :=
        if base.correlation.Ambiguous? && add.correlation.Ambiguous? &&
           base.correlationDetail != add.correlationDetail
        then base.correlationDetail + "; " + add.correlationDetail
        else FirstNonEmpty(base.correlationDetail, add.correlationDetail);
      Classification(Ambiguous, "", detail)
    else ClassifySpec([base.operationID, add.operationID])
  }

  function Rank(v: Availability): nat {
    match v
    case RefusedRaw => 4
    case OmittedSize => 3
    case Present => 2
    case Absent => 1
    case NotEmitted => 0
  }

  function StrongerAvailability(a: Availability, b: Availability): Availability {
    if Rank(a) >= Rank(b) then a else b
  }

  function Prefer(a: string, b: string): string { if a == "" then b else a }

  function MergeSource(a: Source, b: Source): Source {
    a.(observerID := Prefer(a.observerID, b.observerID),
       observerVersion := Prefer(a.observerVersion, b.observerVersion),
       serviceName := Prefer(a.serviceName, b.serviceName),
       protocolVersion := Prefer(a.protocolVersion, b.protocolVersion),
       networkTransport := Prefer(a.networkTransport, b.networkTransport),
       sessionID := Prefer(a.sessionID, b.sessionID))
  }

  function MergeDuration(base: Execution, add: Execution, started: Instant, finished: Instant): int {
    var d := if base.durationMS == 0 then add.durationMS else base.durationMS;
    if d == 0 && started != 0 && finished != 0 then ElapsedMS(started, finished) else d
  }

  function Merge(base: Execution, add: Execution): Execution {
    var seenFrom := Union(base.seenFrom, add.seenFrom);
    var tool := MergeField("tool", base.tool, add.tool);
    var target := MergeField("target", base.target, add.target);
    var started := if base.startedAt == 0 then add.startedAt else base.startedAt;
    var finished := if base.finishedAt == 0 then add.finishedAt else base.finishedAt;
    var status := MergeStatus(base, add);
    var correlation := MergeCorrelation(base, add);
    base.(
      seenFrom := seenFrom,
      traceID := Prefer(base.traceID, add.traceID),
      spanID := Prefer(base.spanID, add.spanID),
      parentSpanID := Prefer(base.parentSpanID, add.parentSpanID),
      spanKind := Prefer(base.spanKind, add.spanKind),
      tool := tool.value,
      target := target.value,
      startedAt := started,
      finishedAt := finished,
      durationMS := MergeDuration(base, add, started, finished),
      status := status.outcome.status,
      errorType := status.outcome.errorType,
      errorCode := status.outcome.errorCode,
      correlation := correlation.correlation,
      operationID := correlation.operationID,
      correlationDetail := correlation.detail,
      argumentsFingerprintStatus :=
        StrongerAvailability(base.argumentsFingerprintStatus, add.argumentsFingerprintStatus),
      resultFingerprintStatus :=
        StrongerAvailability(base.resultFingerprintStatus, add.resultFingerprintStatus),
      readOnlyDeclared := if add.readOnlyAnnotationKnown then add.readOnlyDeclared else base.readOnlyDeclared,
      readOnlyAnnotationKnown := add.readOnlyAnnotationKnown || base.readOnlyAnnotationKnown,
      source := MergeSource(base.source, add.source).(transport := TransportOf(seenFrom)),
      disagreements := base.disagreements + tool.disagreements + target.disagreements + status.disagreements)
  }
}
