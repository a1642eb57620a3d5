/** The algebra of merge: on the order-free part of a record it is the join of a semilattice,
    so a merged record is a function of the set of signals folded into it. */
module MergeLaws {
  import opened Text
  import opened Observation
  import opened Normalize
  import opened Telemetry
  import opened NormalizeLaws
  import opened Merging

  type Key = string

  /** One normalized, joinable signal as it reached the buffer; ids number the arrivals. */
  datatype Signal = Signal(id: nat, raw: RawSignal, ex: Execution, key: Key, time: Instant)

  ghost predicate Genuine(s: Signal) {
    WellNormalized(s.raw, s.ex) && s.key == JoinKey(s.ex.traceID, s.ex.spanID) && s.key != ""
  }

  // ---------------------------------------------------------------- the projection

  /** The fields of a record that must not depend on order, grouping or retries. */
  datatype Projection = Projection(
    verdict: Verdict, status: Status, seen: set<string>, args: Availability, result: Availability)

  ghost function ProjectionOf(ex: Execution): Projection {
    Projection(VerdictFrom(ex.correlation, ex.operationID), ex.status, (set v | v in ex.seenFrom),
               ex.argumentsFingerprintStatus, ex.resultFingerprintStatus)
  }

  function JoinVerdict(a: Verdict, b: Verdict): Verdict {
    if a.NoID? then b else if b.NoID? then a else if a == b then a else Conflict
  }

  function JoinStatus(a: Status, b: Status): Status {
    if a.StatusError? || b.StatusError? then StatusError
    else if a.StatusCancelled? || b.StatusCancelled? then StatusCancelled
    else if a.StatusSuccess? || b.StatusSuccess? then StatusSuccess
    else StatusUnknown
  }

  function JoinProjection(p: Projection, q: Projection): Projection {
    Projection(JoinVerdict(p.verdict, q.verdict), JoinStatus(p.status, q.status), p.seen + q.seen,
               StrongerAvailability(p.args, q.args), StrongerAvailability(p.result, q.result))
  }

  /** The join is a semilattice, so no arrival order, grouping or repetition can show in it. */
  lemma JoinIsSemilattice(p: Projection, q: Projection, r: Projection)
    ensures JoinProjection(p, p) == p
    ensures JoinProjection(p, q) == JoinProjection(q, p)
    ensures JoinProjection(JoinProjection(p, q), r) == JoinProjection(p, JoinProjection(q, r))
  {
    assert p.seen + p.seen == p.seen && p.seen + q.seen == q.seen + p.seen;
    assert p.seen + q.seen + r.seen == p.seen + (q.seen + r.seen);
  }

  // ---------------------------------------------------------------- what a set of signals says

  ghost function TokensOf(signals: set<Signal>): set<string> {
    set s, id | s in signals && id in Tokens(RawAttributes(s.raw)) :: id
  }

  ghost predicate Says(signals: set<Signal>, v: Status) { exists s :: s in signals && s.ex.status == v }

  ghost function WorstStatus(signals: set<Signal>): Status {
    if Says(signals, StatusError) then StatusError
    else if Says(signals, StatusCancelled) then StatusCancelled
    else if Says(signals, StatusSuccess) then StatusSuccess
    else StatusUnknown
  }

  ghost predicate Args(signals: set<Signal>, v: Availability) {
    exists s :: s in signals && s.ex.argumentsFingerprintStatus == v
  }

  ghost predicate Results(signals: set<Signal>, v: Availability) {
    exists s :: s in signals && s.ex.resultFingerprintStatus == v
  }

  ghost function Strongest(has: Availability -> bool): Availability {
    if has(RefusedRaw) then RefusedRaw else if has(OmittedSize) then OmittedSize
    else if has(Present) then Present else if has(Absent) then Absent else NotEmitted
  }

  ghost function StrongestArgs(signals: set<Signal>): Availability { Strongest(v => Args(signals, v)) }

  ghost function StrongestResult(signals: set<Signal>): Availability { Strongest(v => Results(signals, v)) }

  ghost function KindsOf(signals: set<Signal>): set<string> { set s | s in signals :: NameOf(KindOf(s.raw)) }

  /** The reference: what a record built from exactly these signals must say. */
  ghost function Summary(signals: set<Signal>): Projection {
    Projection(
      VerdictOf(TokensOf(signals)),
      WorstStatus(signals),
      KindsOf(signals),
      StrongestArgs(signals),
      StrongestResult(signals))
  }

  lemma VerdictOfUnion(a: set<string>, b: set<string>)
    ensures VerdictOf(a + b) == JoinVerdict(VerdictOf(a), VerdictOf(b))
  {
    if a == {} {
      assert a + b == b;
    } else if b == {} {
      assert a + b == a;
    } else {
      var x, y :| x in a && y in b;
      if a == {x} && b == {y} && x == y {
        assert a + b == {x};
      } else {
        OneElementOrTwo(a + b);
        OneElementOrTwo(a);
        OneElementOrTwo(b);
        VerdictOfSingle(x);
        VerdictOfSingle(y);
        var p, q :| p in a + b && q in a + b && p != q;
        VerdictOfTwo(a + b, p, q);
      }
    }
  }

  lemma OneElementOrTwo(a: set<string>)
    requires a != {}
    ensures (forall x | x in a :: a == {x}) || exists p, q :: p in a && q in a && p != q && VerdictOf(a) == Conflict
  {
    var x :| x in a;
    if a != {x} {
      var y :| y in a && y != x;
      VerdictOfTwo(a, x, y);
    }
  }

  lemma WorstOfUnion(a: set<Signal>, b: set<Signal>)
    ensures WorstStatus(a + b) == JoinStatus(WorstStatus(a), WorstStatus(b))
  {
    forall v: Status ensures Says(a + b, v) == (Says(a, v) || Says(b, v)) {}
  }

  lemma StrongestOfUnion(f: Availability -> bool, g: Availability -> bool, h: Availability -> bool)
    requires forall v :: h(v) == (f(v) || g(v))
    ensures Strongest(h) == StrongerAvailability(Strongest(f), Strongest(g))
  {}

  lemma ArgsOfUnion(a: set<Signal>, b: set<Signal>)
    ensures StrongestArgs(a + b) == StrongerAvailability(StrongestArgs(a), StrongestArgs(b))
  {
    forall v: Availability ensures Args(a + b, v) == (Args(a, v) || Args(b, v)) {}
    StrongestOfUnion(v => Args(a, v), v => Args(b, v), v => Args(a + b, v));
  }

  lemma ResultsOfUnion(a: set<Signal>, b: set<Signal>)
    ensures StrongestResult(a + b) == StrongerAvailability(StrongestResult(a), StrongestResult(b))
  {
    forall v: Availability ensures Results(a + b, v) == (Results(a, v) || Results(b, v)) {}
    StrongestOfUnion(v => Results(a, v), v => Results(b, v), v => Results(a + b, v));
  }

  /** The reference respects union, whatever the two parts have in common. */
  lemma SummaryOfUnion(a: set<Signal>, b: set<Signal>)
    ensures Summary(a + b) == JoinProjection(Summary(a), Summary(b))
  {
    hide VerdictOf, WorstStatus, StrongestArgs, StrongestResult, Tokens;
    VerdictOfUnion(TokensOf(a), TokensOf(b));
    assert TokensOf(a + b) == TokensOf(a) + TokensOf(b);
    WorstOfUnion(a, b);
    ArgsOfUnion(a, b);
    ResultsOfUnion(a, b);
    assert KindsOf(a + b) == KindsOf(a) + KindsOf(b);
  }

  // ---------------------------------------------------------------- representation

  ghost predicate Marked(ex: Execution) { ErrorsMarked(ex.status, ex.errorType, ex.errorCode) }

  /** A record's own fields agree with each other. */
  ghost predicate Sound(ex: Execution) {
    && Coherent(ex.correlation, ex.operationID, ex.correlationDetail)
    && PlainWithoutID(ex.correlation, ex.correlationDetail)
    && Ascending(ex.seenFrom) && "" !in ex.seenFrom
    && ex.source.transport == TransportOf(ex.seenFrom)
  }

  ghost predicate NamesError(signals: set<Signal>) { exists s :: s in signals && !Blank(s.ex.errorType) }

  /** A record names an error type exactly when one of its signals does, and neither type nor code
      unless it failed. */
  ghost predicate ErrorsOf(ex: Execution, signals: set<Signal>) {
    && (!Blank(ex.errorType) <==> NamesError(signals))
    && (!Failed(ex.status) ==> ex.errorType == "" && ex.errorCode == "")
  }

  /** One of the signals has this value in the field, and if that is none so have they all. */
  ghost predicate FieldFrom(signals: set<Signal>, field: Field, v: string) {
    && (exists s :: s in signals && FieldOf(s.ex, field) == v)
    && (v == "" ==> forall s :: s in signals ==> FieldOf(s.ex, field) == "")
  }

  ghost predicate StartFrom(signals: set<Signal>, t: Instant) {
    (exists s :: s in signals && s.ex.startedAt == t) && (t == 0 ==> forall s :: s in signals ==> s.ex.startedAt == 0)
  }

  ghost predicate EndFrom(signals: set<Signal>, t: Instant) {
    (exists s :: s in signals && s.ex.finishedAt == t) && (t == 0 ==> forall s :: s in signals ==> s.ex.finishedAt == 0)
  }

  /** A duration is one that a signal has, or the time between a start and an end that signals have;
      and if it is zero no signal has another. */
  ghost predicate DurationFrom(signals: set<Signal>, ms: int) {
    && (|| (exists s :: s in signals && s.ex.durationMS == ms)
        || exists s, t :: s in signals && t in signals && Between(s, t, ms))
    && (ms == 0 ==> forall s :: s in signals ==> s.ex.durationMS == 0)
  }

  predicate Between(s: Signal, t: Signal, ms: int) {
    s.ex.startedAt != 0 && t.ex.finishedAt != 0 && ElapsedMS(s.ex.startedAt, t.ex.finishedAt) == ms
  }

  /** The error texts too are a signal's, unless no signal has one. */
  ghost predicate ErrorTextsFrom(signals: set<Signal>, errorType: string, errorCode: string) {
    && (!Blank(errorType) ==> exists s :: s in signals && s.ex.errorType == errorType)
    && (!Blank(errorCode) ==> exists s :: s in signals && s.ex.errorCode == errorCode)
    && (Blank(errorCode) ==> forall s :: s in signals ==> Blank(s.ex.errorCode))
  }

  /** Nothing in the record is invented and nothing the signals say is lost: each field is as some
      signal has it, and is empty only if no signal has it. */
  ghost predicate FieldsFrom(ex: Execution, signals: set<Signal>) {
    && (forall field :: FieldFrom(signals, field, FieldOf(ex, field)))
    && StartFrom(signals, ex.startedAt) && EndFrom(signals, ex.finishedAt)
    && DurationFrom(signals, ex.durationMS)
    && ErrorTextsFrom(signals, ex.errorType, ex.errorCode)
  }

  ghost predicate StatusesDiffer(a: Execution, b: Execution) {
    !a.status.StatusUnknown? && !b.status.StatusUnknown? && a.status != b.status
  }

  ghost predicate NamesDiffer(a: string, b: string) { a != "" && b != "" && a != b }

  /** One signal has the one value in the field and one has the other. */
  ghost predicate Opposed(signals: set<Signal>, field: Field, kept: string, objected: string) {
    && (exists s :: s in signals && FieldOf(s.ex, field) == kept)
    && (exists s :: s in signals && FieldOf(s.ex, field) == objected)
  }

  /** The entry reports a contradiction that is there: two names signals give, or two outcomes signals
      assert. */
  ghost predicate EntryFrom(signals: set<Signal>, entry: Disagreement) {
    match entry
    case FieldConflict(name, kept, objected) =>
      && NamesDiffer(kept, objected)
      && (|| (name == "tool" && Opposed(signals, ToolField, kept, objected))
          || (name == "target" && Opposed(signals, TargetField, kept, objected)))
    case StatusConflict(baseSeen, base, addSeen, add) =>
      && base != add && !base.StatusUnknown? && !add.StatusUnknown?
      && Says(signals, base) && Says(signals, add)
      && forall v :: v in baseSeen || v in addSeen ==> v in KindsOf(signals)
  }

  /** No entry among the disagreements is made up. */
  ghost predicate EntriesFrom(entries: seq<Disagreement>, signals: set<Signal>) {
    forall i :: 0 <= i < |entries| ==> EntryFrom(signals, entries[i])
  }

  /** The record ex says exactly what the set of signals says. */
  ghost predicate Represents(ex: Execution, signals: set<Signal>) {
    && signals != {}
    && Sound(ex)
    && ProjectionOf(ex) == Summary(signals)
    && ErrorsOf(ex, signals)
    && FieldsFrom(ex, signals)
    && EntriesFrom(ex.disagreements, signals)
  }

  lemma SummaryOfOne(s: Signal)
    ensures Summary({s}) == Projection(VerdictOf(Tokens(RawAttributes(s.raw))), s.ex.status, {NameOf(KindOf(s.raw))},
              s.ex.argumentsFingerprintStatus, s.ex.resultFingerprintStatus)
  {
    hide VerdictOf, Tokens;
    assert TokensOf({s}) == Tokens(RawAttributes(s.raw));
    assert KindsOf({s}) == {NameOf(KindOf(s.raw))};
    assert s in {s};
    assert forall v :: Says({s}, v) <==> v == s.ex.status;
    assert forall v :: Args({s}, v) <==> v == s.ex.argumentsFingerprintStatus;
    assert forall v :: Results({s}, v) <==> v == s.ex.resultFingerprintStatus;
  }

  lemma SignalRepresentsItself(s: Signal)
    requires Genuine(s)
    ensures Represents(s.ex, {s})
  {
    hide VerdictOf, Tokens, Coherent, ErrorsMarked, Summary, BlankButSet, Attr, Misleads, StatusFits, PayloadFits,
      FieldsFit, FieldsFrom;
    SummaryOfOne(s);
    OwnFields(s);
    assert s.ex.seenFrom == [NameOf(KindOf(s.raw))];
    assert (set v | v in s.ex.seenFrom) == {NameOf(KindOf(s.raw))};
    assert TransportOf([NameOf(KindOf(s.raw))]) == "otlp_" + NameOf(KindOf(s.raw));
  }

  lemma OwnFields(s: Signal)
    ensures FieldsFrom(s.ex, {s})
  {
    hide FieldOf, Blank, Between;
    assert s in {s};
  }

  lemma MergeVerdict(a: Execution, b: Execution)
    requires Coherent(a.correlation, a.operationID, a.correlationDetail)
    requires Coherent(b.correlation, b.operationID, b.correlationDetail)
    ensures var c := MergeCorrelation(a, b);
      && Coherent(c.correlation, c.operationID, c.detail)
      && VerdictFrom(c.correlation, c.operationID) ==
         JoinVerdict(VerdictFrom(a.correlation, a.operationID), VerdictFrom(b.correlation, b.operationID))
  {
    if a.correlation.Ambiguous? || b.correlation.Ambiguous? {
      hide MatchesPattern, ClassifySpec;
      if a.correlation.Ambiguous? && b.correlation.Ambiguous? && a.correlationDetail != b.correlationDetail {
        BlankOfConcat(a.correlationDetail, "; " + b.correlationDetail);
        assert a.correlationDetail + "; " + b.correlationDetail == a.correlationDetail + ("; " + b.correlationDetail);
      }
    } else {
      MergeTwoIDs(a.operationID, b.operationID);
    }
  }

  lemma MergeTwoIDs(a: string, b: string)
    requires a == "" || (MatchesPattern(a) && Trimmed(a))
    requires b == "" || (MatchesPattern(b) && Trimmed(b))
    ensures var c := ClassifySpec([a, b]);
      && Coherent(c.correlation, c.operationID, c.detail)
      && VerdictFrom(c.correlation, c.operationID) ==
         JoinVerdict(if a == "" then NoID else OneID(a), if b == "" then NoID else OneID(b))
  {
    ClassifyMeetsContract([a, b]);
    hide MatchesPattern, Coherent;
    assert [a, b][..1] == [a];
    assert PresentIn([a]) == if a == "" then [] else [a];
    assert PresentIn([a, b]) == (if a == "" then [] else [a]) + (if b == "" then [] else [b]);
    if a == "" && b == "" {
    } else if a == "" || b == "" || a == b {
      var id := if a == "" then b else a;
      assert (set v | v in PresentIn([a, b])) == {id};
      VerdictOfSingle(id);
    } else {
      VerdictOfTwo((set v | v in PresentIn([a, b])), a, b);
    }
  }

  lemma BlankOfConcat(a: string, b: string)
    requires !Blank(a)
    ensures !Blank(a + b)
  {
    var i :| 0 <= i < |a| && !IsSpace(a[i]);
    assert (a + b)[i] == a[i];
  }

  lemma MergeMarks(a: Execution, b: Execution)
    ensures var o := MergeStatus(a, b).outcome;
      && o.status == JoinStatus(a.status, b.status)
      && (!Blank(o.errorType) <==> !Blank(a.errorType) || !Blank(b.errorType))
      && (Marked(a) && Marked(b) ==> ErrorsMarked(o.status, o.errorType, o.errorCode))
  {
    NothingIsBlank();
    hide TrimSpace;
  }

  lemma MergeErrors(a: Execution, from: set<Signal>, b: Execution, more: set<Signal>)
    requires ErrorsOf(a, from) && ErrorsOf(b, more)
    ensures ErrorsOf(Merge(a, b), from + more)
  {
    hide MergeCorrelation, MergeField, MergeSource, MergeDuration, Union, StrongerAvailability, TransportOf;
    NothingIsBlank();
    hide Blank;
    MergeMarks(a, b);
    assert NamesError(from + more) <==> NamesError(from) || NamesError(more);
  }

  /** The record fails to mark its errors exactly when it failed and no signal names an error. */
  lemma MarkedExactlyWhen(ex: Execution, from: set<Signal>)
    requires ErrorsOf(ex, from)
    ensures Marked(ex) <==> (Failed(ex.status) ==> NamesError(from))
  {
    NothingIsBlank();
    hide Blank;
  }

  /** On the projection merge is the join, for any two records whose fields agree. */
  lemma MergeIsTheJoin(a: Execution, b: Execution)
    requires Sound(a) && Sound(b)
    ensures Sound(Merge(a, b))
    ensures ProjectionOf(Merge(a, b)) == JoinProjection(ProjectionOf(a), ProjectionOf(b))
  {
    hide MergeStatus, MergeCorrelation, Coherent, PlainWithoutID, MergeField, MergeSource, MergeDuration,
      TransportOf, Rank;
    MergeVerdict(a, b);
    MisleadingDetailExactlyWhen(a, b);
    MergeMarks(a, b);
    SeenIsUnion(a, b);
  }

  /** So neither the order of merges, nor their grouping, nor merging a record in twice shows. */
  lemma MergeTreesAgree(a: Execution, b: Execution, c: Execution)
    requires Sound(a) && Sound(b) && Sound(c)
    ensures ProjectionOf(Merge(a, b)) == ProjectionOf(Merge(b, a))
    ensures ProjectionOf(Merge(Merge(a, b), c)) == ProjectionOf(Merge(a, Merge(b, c)))
    ensures ProjectionOf(Merge(Merge(a, b), b)) == ProjectionOf(Merge(a, b))
  {
    hide Merge, Sound, ProjectionOf, JoinProjection;
    MergeIsTheJoin(a, b);
    MergeIsTheJoin(b, a);
    MergeIsTheJoin(b, c);
    MergeIsTheJoin(Merge(a, b), c);
    MergeIsTheJoin(a, Merge(b, c));
    MergeIsTheJoin(Merge(a, b), b);
    JoinIsSemilattice(ProjectionOf(a), ProjectionOf(b), ProjectionOf(c));
    JoinIsSemilattice(ProjectionOf(a), ProjectionOf(b), ProjectionOf(b));
    JoinIsSemilattice(ProjectionOf(b), ProjectionOf(b), ProjectionOf(b));
  }

  /** One merge folds two sets of signals into one. This is the whole interface between the
      merge algebra and the buffer. */
  lemma MergeRepresents(a: Execution, from: set<Signal>, b: Execution, more: set<Signal>)
    requires Represents(a, from) && Represents(b, more)
    ensures Represents(Merge(a, b), from + more)
  {
    hide Merge, Sound, ProjectionOf, JoinProjection, ErrorsOf, Summary, FieldsFrom;
    SummaryOfUnion(from, more);
    MergeIsTheJoin(a, b);
    MergeErrors(a, from, b, more);
    MergeFields(a, from, b, more);
    MergeEntries(a, from, b, more);
  }

  /** merge appends one entry for each contradiction between its arguments, tool, target and status in
      this order, with the values and signals of either side, and nothing else. */
  lemma MergeListsContradictions(a: Execution, b: Execution)
    ensures Merge(a, b).disagreements ==
      a.disagreements
      + (if NamesDiffer(a.tool, b.tool) then [FieldConflict("tool", a.tool, b.tool)] else [])
      + (if NamesDiffer(a.target, b.target) then [FieldConflict("target", a.target, b.target)] else [])
      + (if StatusesDiffer(a, b) then [StatusConflict(a.seenFrom, a.status, b.seenFrom, b.status)] else [])
  {
    hide MergeCorrelation, MergeSource, MergeDuration, Union, TransportOf, StrongerAvailability;
  }

  lemma EntryStays(from: set<Signal>, more: set<Signal>, entry: Disagreement)
    requires EntryFrom(from, entry)
    ensures EntryFrom(from + more, entry)
  {
    hide FieldOf;
    var all := from + more;
    assert forall s :: s in from ==> s in all;
    assert forall v :: Says(from, v) ==> Says(all, v);
    assert KindsOf(from) <= KindsOf(all);
    forall field, kept, objected | Opposed(from, field, kept, objected) ensures Opposed(all, field, kept, objected) {
      var s, t :| s in from && FieldOf(s.ex, field) == kept && t in from && FieldOf(t.ex, field) == objected;
      assert s in all && t in all;
    }
    hide Opposed, Says, KindsOf;
  }

  lemma NamesOppose(from: set<Signal>, more: set<Signal>, field: Field, a: string, b: string)
    requires FieldFrom(from, field, a) && FieldFrom(more, field, b)
    ensures Opposed(from + more, field, a, b)
  {
    hide FieldOf;
    var s, t :| s in from && FieldOf(s.ex, field) == a && t in more && FieldOf(t.ex, field) == b;
    assert s in from + more && t in from + more;
  }

  lemma StatusesOppose(a: Execution, from: set<Signal>, b: Execution, more: set<Signal>)
    requires ProjectionOf(a) == Summary(from) && ProjectionOf(b) == Summary(more) && StatusesDiffer(a, b)
    ensures EntryFrom(from + more, StatusConflict(a.seenFrom, a.status, b.seenFrom, b.status))
  {
    hide VerdictFrom, VerdictOf, TokensOf, StrongestArgs, StrongestResult, Opposed;
    assert a.status == WorstStatus(from) && b.status == WorstStatus(more);
    assert Says(from, a.status) && Says(more, b.status);
    assert Says(from + more, a.status) && Says(from + more, b.status);
    hide Says;
    assert ProjectionOf(a).seen == KindsOf(from) && ProjectionOf(b).seen == KindsOf(more);
    assert KindsOf(from) <= KindsOf(from + more) && KindsOf(more) <= KindsOf(from + more);
  }

  lemma MergeEntries(a: Execution, from: set<Signal>, b: Execution, more: set<Signal>)
    requires Represents(a, from) && Represents(b, more)
    ensures EntriesFrom(Merge(a, b).disagreements, from + more)
  {
    hide Merge, EntryFrom, Opposed, Sound, ErrorsOf, StatusesDiffer, Summary, ProjectionOf, FieldFrom, StartFrom,
      EndFrom, DurationFrom, ErrorTextsFrom;
    var all := from + more;
    MergeListsContradictions(a, b);
    forall i | 0 <= i < |a.disagreements| ensures EntryFrom(all, a.disagreements[i]) {
      EntryStays(from, more, a.disagreements[i]);
    }
    if NamesDiffer(a.tool, b.tool) { ToolEntry(a, from, b, more); }
    if NamesDiffer(a.target, b.target) { TargetEntry(a, from, b, more); }
    if StatusesDiffer(a, b) { StatusesOppose(a, from, b, more); }
  }

  lemma ToolEntry(a: Execution, from: set<Signal>, b: Execution, more: set<Signal>)
    requires FieldsFrom(a, from) && FieldsFrom(b, more) && NamesDiffer(a.tool, b.tool)
    ensures EntryFrom(from + more, FieldConflict("tool", a.tool, b.tool))
  {
    hide FieldFrom, Opposed, StartFrom, EndFrom, DurationFrom, ErrorTextsFrom;
    assert FieldOf(a, ToolField) == a.tool && FieldOf(b, ToolField) == b.tool;
    NamesOppose(from, more, ToolField, a.tool, b.tool);
  }

  lemma TargetEntry(a: Execution, from: set<Signal>, b: Execution, more: set<Signal>)
    requires FieldsFrom(a, from) && FieldsFrom(b, more) && NamesDiffer(a.target, b.target)
    ensures EntryFrom(from + more, FieldConflict("target", a.target, b.target))
  {
    hide FieldFrom, Opposed, StartFrom, EndFrom, DurationFrom, ErrorTextsFrom;
    assert FieldOf(a, TargetField) == a.target && FieldOf(b, TargetField) == b.target;
    NamesOppose(from, more, TargetField, a.target, b.target);
  }

  /** What a merged record says of its correlation: of two ambiguous ones both explanations, unless they
      are the same; of one the first explanation there is; and of none the two ids that conflict, or
      that there is none. */
  lemma MergeExplains(a: Execution, b: Execution)
    requires Coherent(a.correlation, a.operationID, a.correlationDetail)
    requires Coherent(b.correlation, b.operationID, b.correlationDetail)
    ensures var detail, x, y := Merge(a, b).correlationDetail, a.correlationDetail, b.correlationDetail;
      detail ==
        if a.correlation.Ambiguous? && b.correlation.Ambiguous? && x != y then x + "; " + y
        else if a.correlation.Ambiguous? || b.correlation.Ambiguous? then (if x != "" then x else y)
        else if a.operationID == "" && b.operationID == "" then NO_ID_DETAIL
        else if a.operationID == "" || b.operationID == "" || a.operationID == b.operationID then ""
        else CONFLICT_DETAIL + a.operationID + " vs " + b.operationID
  {
    hide MergeStatus, MergeSource, MergeDuration, Union, TransportOf, StrongerAvailability, MergeField, ClassifySpec,
      MatchesPattern;
    NothingIsBlank();
    hide Blank;
    if !a.correlation.Ambiguous? && !b.correlation.Ambiguous? { ExplainTwoIDs(a.operationID, b.operationID); }
  }

  lemma ExplainTwoIDs(a: string, b: string)
    requires a == "" || (MatchesPattern(a) && Trimmed(a))
    requires b == "" || (MatchesPattern(b) && Trimmed(b))
    ensures ClassifySpec([a, b]).detail ==
      if a == "" && b == "" then NO_ID_DETAIL
      else if a == "" || b == "" || a == b then ""
      else CONFLICT_DETAIL + a + " vs " + b
  {
    hide MatchesPattern, PresentIn, TrimSpace, ClassifyPresent, Join;
    PresentOfTwo(a, b);
    hide Trimmed;
    assert ClassifySpec([a, b]) == ClassifyPresent(PresentIn([a, b]));
    if a == "" && b == "" {
      ExplainNone();
    } else if a == "" {
      assert PresentIn([a, b]) == [b];
      ExplainOne([b], b);
    } else if b == "" {
      assert PresentIn([a, b]) == [a];
      ExplainOne([a], a);
    } else if a == b {
      assert PresentIn([a, b]) == [a, b];
      ExplainOne([a, b], a);
    } else {
      assert PresentIn([a, b]) == [a, b];
      ExplainConflict(a, b);
    }
  }

  lemma ExplainNone()
    ensures ClassifyPresent([]).detail == NO_ID_DETAIL
  {}

  lemma PresentOfTwo(a: string, b: string)
    requires Trimmed(a) && Trimmed(b)
    ensures PresentIn([a, b]) == (if a == "" then [] else [a]) + (if b == "" then [] else [b])
  {
    hide Trimmed;
    assert [a, b][..1] == [a] && [a][..0] == [];
    assert PresentIn([a]) == if a == "" then [] else [a];
  }

  lemma ExplainOne(present: seq<string>, id: string)
    requires present != [] && (forall i :: 0 <= i < |present| ==> present[i] == id)
    requires Trimmed(id) && MatchesPattern(id)
    ensures ClassifyPresent(present).detail == ""
  {
    hide MatchesPattern;
  }

  lemma ExplainConflict(a: string, b: string)
    requires a != b
    ensures ClassifyPresent([a, b]).detail == CONFLICT_DETAIL + a + " vs " + b
  {
    hide ValidOperationID;
    var present := [a, b];
    assert present[1] != present[0] && present[1..] == [b];
    assert Join([b], " vs ") == b && Join(present, " vs ") == a + " vs " + b;
    assert CONFLICT_DETAIL + (a + " vs " + b) == CONFLICT_DETAIL + a + " vs " + b;
  }

  lemma FieldOfMerge(a: Execution, b: Execution, field: Field)
    ensures Fills(FieldOf(Merge(a, b), field), FieldOf(a, field), FieldOf(b, field), "")
  {
    MergeFillsGaps(a, b);
    hide Merge;
  }

  lemma FillsFrom(from: set<Signal>, more: set<Signal>, field: Field, v: string, a: string, b: string)
    requires FieldFrom(from, field, a) && FieldFrom(more, field, b) && Fills(v, a, b, "")
    ensures FieldFrom(from + more, field, v)
  {
    hide FieldOf;
    var s :| s in from && FieldOf(s.ex, field) == a;
    var t :| t in more && FieldOf(t.ex, field) == b;
    assert s in from + more && t in from + more;
  }

  lemma TimesOfMerge(a: Execution, from: set<Signal>, b: Execution, more: set<Signal>)
    requires FieldsFrom(a, from) && FieldsFrom(b, more)
    ensures StartFrom(from + more, Merge(a, b).startedAt) && EndFrom(from + more, Merge(a, b).finishedAt)
  {
    hide FieldFrom, DurationFrom, ErrorTextsFrom;
    MergeFillsGaps(a, b);
    hide Merge;
    var s, u :| s in from && s.ex.startedAt == a.startedAt && u in from && u.ex.finishedAt == a.finishedAt;
    var t, v :| t in more && t.ex.startedAt == b.startedAt && v in more && v.ex.finishedAt == b.finishedAt;
    assert s in from + more && t in from + more && u in from + more && v in from + more;
  }

  lemma DurationStays(from: set<Signal>, more: set<Signal>, ms: int)
    requires DurationFrom(from, ms) && ms != 0
    ensures DurationFrom(from + more, ms) && DurationFrom(more + from, ms)
  {
    hide Between;
    if s :| s in from && s.ex.durationMS == ms {
      assert s in from + more && s in more + from;
    } else {
      var s, t :| s in from && t in from && Between(s, t, ms);
      assert s in from + more && t in from + more && s in more + from && t in more + from;
    }
  }

  lemma NoDuration(from: set<Signal>, more: set<Signal>, started: Instant, finished: Instant)
    requires from + more != {} && DurationFrom(from, 0) && DurationFrom(more, 0)
    requires StartFrom(from + more, started) && EndFrom(from + more, finished)
    ensures DurationFrom(from + more, if started != 0 && finished != 0 then ElapsedMS(started, finished) else 0)
  {
    var all := from + more;
    hide ElapsedMS;
    var s :| s in all && s.ex.startedAt == started;
    var t :| t in all && t.ex.finishedAt == finished;
    if started != 0 && finished != 0 { assert Between(s, t, ElapsedMS(started, finished)); }
  }

  lemma DurationOfMerge(a: Execution, from: set<Signal>, b: Execution, more: set<Signal>)
    requires from != {} && FieldsFrom(a, from) && FieldsFrom(b, more)
    ensures DurationFrom(from + more, Merge(a, b).durationMS)
  {
    hide FieldFrom, StartFrom, EndFrom, DurationFrom, ErrorTextsFrom, ElapsedMS;
    TimesOfMerge(a, from, b, more);
    MergeFillsGaps(a, b);
    hide Merge;
    if a.durationMS != 0 {
      DurationStays(from, more, a.durationMS);
    } else if b.durationMS != 0 {
      DurationStays(more, from, b.durationMS);
    } else {
      NoDuration(from, more, Merge(a, b).startedAt, Merge(a, b).finishedAt);
    }
  }

  lemma ErrorTextsOfMerge(a: Execution, from: set<Signal>, b: Execution, more: set<Signal>)
    requires FieldsFrom(a, from) && FieldsFrom(b, more)
    ensures ErrorTextsFrom(from + more, Merge(a, b).errorType, Merge(a, b).errorCode)
  {
    hide FieldFrom, StartFrom, EndFrom, DurationFrom;
    MergeKeepsTheRest(a, b);
    NothingIsBlank();
    hide Merge, Blank;
  }

  /** Merging two such records gives such a record of all their signals. */
  lemma MergeFields(a: Execution, from: set<Signal>, b: Execution, more: set<Signal>)
    requires from != {} && FieldsFrom(a, from) && FieldsFrom(b, more)
    ensures FieldsFrom(Merge(a, b), from + more)
  {
    hide Merge, FieldOf, FieldFrom, StartFrom, EndFrom, DurationFrom, ErrorTextsFrom;
    TimesOfMerge(a, from, b, more);
    DurationOfMerge(a, from, b, more);
    ErrorTextsOfMerge(a, from, b, more);
    forall field ensures FieldFrom(from + more, field, FieldOf(Merge(a, b), field)) {
      FieldOfMerge(a, b, field);
      FillsFrom(from, more, field, FieldOf(Merge(a, b), field), FieldOf(a, field), FieldOf(b, field));
    }
  }

  lemma SeenIsUnion(a: Execution, b: Execution)
    requires "" !in a.seenFrom && "" !in b.seenFrom
    ensures (set v | v in Union(a.seenFrom, b.seenFrom)) == (set v | v in a.seenFrom) + (set v | v in b.seenFrom)
  {}

  // ---------------------------------------------------------------- the misleading detail

  lemma NoSemicolon(a: string, b: string)
    ensures a + "; " + b != NO_ID_DETAIL
  {
    assert (a + "; " + b)[|a|] == ';';
    assert ';' !in NO_ID_DETAIL;
  }

  /** A merged record misleads exactly when the base carried no id and the other is ambiguous, or
      one of them misleads already and nothing ambiguous comes before or beside it: the base's
      explanation comes first and stays. */
  lemma MisleadingDetailExactlyWhen(a: Execution, b: Execution)
    requires Coherent(a.correlation, a.operationID, a.correlationDetail)
    requires Coherent(b.correlation, b.operationID, b.correlationDetail)
    requires PlainWithoutID(a.correlation, a.correlationDetail) && PlainWithoutID(b.correlation, b.correlationDetail)
    ensures var c := MergeCorrelation(a, b);
      var misA, misB := Misleads(a.correlation, a.correlationDetail), Misleads(b.correlation, b.correlationDetail);
      && PlainWithoutID(c.correlation, c.detail)
      && (Misleads(c.correlation, c.detail) <==>
            || (a.correlation.Unattributed? && b.correlation.Ambiguous?)
            || (misA && (!b.correlation.Ambiguous? || misB))
            || (a.correlation.Correlated? && misB))
  {
    hide ClassifySpec, MatchesPattern, Blank;
    ClassificationExplainsItself([a.operationID, b.operationID]);
    NoSemicolon(a.correlationDetail, b.correlationDetail);
    NothingIsBlank();
  }

  // ---------------------------------------------------------------- the other fields

  /** The base's value stands unless it is absent, and then the addition's fills the gap. */
  ghost predicate Fills<T>(out: T, base: T, add: T, none: T) {
    (out == base || (base == none && out == add)) && (out == none ==> add == none)
  }

  /** merge prefers a value over an absence in every field that is not joined, and computes a
      duration only where neither record asserts one and both times are known. */
  lemma MergeFillsGaps(a: Execution, b: Execution)
    ensures var m := Merge(a, b);
      && Fills(m.traceID, a.traceID, b.traceID, "") && Fills(m.spanID, a.spanID, b.spanID, "")
      && Fills(m.parentSpanID, a.parentSpanID, b.parentSpanID, "") && Fills(m.spanKind, a.spanKind, b.spanKind, "")
      && Fills(m.tool, a.tool, b.tool, "") && Fills(m.target, a.target, b.target, "")
      && Fills(m.startedAt, a.startedAt, b.startedAt, 0) && Fills(m.finishedAt, a.finishedAt, b.finishedAt, 0)
      && Fills(m.source.observerID, a.source.observerID, b.source.observerID, "")
      && Fills(m.source.observerVersion, a.source.observerVersion, b.source.observerVersion, "")
      && Fills(m.source.serviceName, a.source.serviceName, b.source.serviceName, "")
      && Fills(m.source.protocolVersion, a.source.protocolVersion, b.source.protocolVersion, "")
      && Fills(m.source.networkTransport, a.source.networkTransport, b.source.networkTransport, "")
      && Fills(m.source.sessionID, a.source.sessionID, b.source.sessionID, "")
      && (a.durationMS != 0 || b.durationMS != 0 ==> Fills(m.durationMS, a.durationMS, b.durationMS, 0))
      && (a.durationMS == 0 && b.durationMS == 0 ==>
            m.durationMS == if m.startedAt != 0 && m.finishedAt != 0 then ElapsedMS(m.startedAt, m.finishedAt) else 0)
  {
    hide MergeStatus, MergeCorrelation, Union, StrongerAvailability, ElapsedMS, TransportOf;
  }

  /** Error type and code are filled where the base's is blank, so no text is lost to blanks; a
      read-only annotation the addition knows replaces the base's; fingerprints, which only a later
      stage could set, stay the base's; and the base's disagreements stay first in the list. */
  lemma MergeKeepsTheRest(a: Execution, b: Execution)
    ensures var m := Merge(a, b);
      && (if Blank(a.errorType) && Blank(b.errorType) then m.errorType == ""
          else !Blank(m.errorType) && m.errorType == if Blank(a.errorType) then b.errorType else a.errorType)
      && (if Blank(a.errorCode) && Blank(b.errorCode) then m.errorCode == ""
          else !Blank(m.errorCode) && m.errorCode == if Blank(a.errorCode) then b.errorCode else a.errorCode)
      && (m.readOnlyAnnotationKnown <==> a.readOnlyAnnotationKnown || b.readOnlyAnnotationKnown)
      && (b.readOnlyAnnotationKnown ==> m.readOnlyDeclared == b.readOnlyDeclared)
      && (!b.readOnlyAnnotationKnown ==> m.readOnlyDeclared == a.readOnlyDeclared)
      && m.argumentsFingerprint == a.argumentsFingerprint && m.resultFingerprint == a.resultFingerprint
      && m.annotationsVerified == a.annotationsVerified && m.source.observerType == a.source.observerType
      && a.disagreements <= m.disagreements
  {
    hide MergeCorrelation, MergeField, Union, StrongerAvailability, MergeDuration, TransportOf, Blank;
  }
}
