/** What holds in every reachable state. */
module Guarantees {
  import opened Text
  import opened Observation
  import opened Normalize
  import opened Telemetry
  import opened NormalizeLaws
  import opened Merging
  import opened MergeLaws
  import opened Processor
  import opened Machine
  import opened BufferProofs
  import opened SnapshotProofs
  import opened StepProofs
  import Sink

  // ---------------------------------------------------------------- structure

  lemma StructureAt(p: Fields, placed: History, key: Key)
    requires KeysInv(p, placed)
    ensures key in p.active.firstSeen <==> key in p.active.spans || key in p.active.logs
    ensures key in p.pending.firstSeen <==> key in p.pending.spans || key in p.pending.logs
    ensures key in p.pendingSignals <==> key in p.pending.firstSeen
    ensures key in p.pending.firstSeen ==> key in p.inFlight
    ensures key in p.inFlight ==> key in p.active.firstSeen
    ensures key in p.emitted ==> key !in p.active.firstSeen
  {
    hide SlotInv, FirstSeenInv, Waiting;
    assert KeyInv(p, placed, key);
  }

  ghost predicate FitTogether(p: Fields) {
    && p.active.firstSeen.Keys == p.active.spans.Keys + p.active.logs.Keys
    && p.pending.firstSeen.Keys == p.pendingSignals.Keys == p.pending.spans.Keys + p.pending.logs.Keys
    && p.pending.firstSeen.Keys <= p.inFlight <= p.active.firstSeen.Keys
    && p.emitted !! p.active.firstSeen.Keys
  }

  lemma MapsFitTogether(p: Fields, placed: History)
    requires KeysInv(p, placed)
    ensures FitTogether(p)
  {
    hide KeysInv;
    forall key ensures key in p.active.firstSeen.Keys <==> key in p.active.spans.Keys + p.active.logs.Keys {
      StructureAt(p, placed, key);
    }
    forall key ensures key in p.pending.firstSeen.Keys <==> key in p.pending.spans.Keys + p.pending.logs.Keys {
      StructureAt(p, placed, key);
    }
    forall key ensures key in p.pendingSignals.Keys <==> key in p.pending.firstSeen.Keys {
      StructureAt(p, placed, key);
    }
    forall key | key in p.pending.firstSeen.Keys ensures key in p.inFlight { StructureAt(p, placed, key); }
    forall key | key in p.inFlight ensures key in p.active.firstSeen.Keys { StructureAt(p, placed, key); }
    forall key | key in p.emitted ensures key !in p.active.firstSeen.Keys { StructureAt(p, placed, key); }
  }

  /** The maps of the processor fit together in every reachable state, nothing is reserved while
      no assembler runs, and so every live key is counted once as still buffered. */
  lemma StructuralInvariant(env: Env, m: Machine)
    requires Reachable(env, m)
    ensures FitTogether(m.p)
    ensures m.phase.Idle? ==> m.p.inFlight == {}
    ensures |m.p.active.firstSeen.Keys + m.p.pending.firstSeen.Keys| == |m.p.active.firstSeen|
  {
    hide KeysInv, HistoryInv, RecordsInv, StatsInv, FileInv, BatchInv, SeenInv, Reachable;
    ReachableStatesAreSound(env, m);
    MapsFitTogether(m.p, m.placed);
    assert m.p.active.firstSeen.Keys + m.p.pending.firstSeen.Keys == m.p.active.firstSeen.Keys;
  }

  // ---------------------------------------------------------------- no signal is lost

  ghost function PlacedAt(placed: History, which: Place -> bool): set<Signal> {
    set s | s in placed && which(placed[s])
  }

  ghost function ActiveOnes(placed: History): set<Signal> { PlacedAt(placed, (l: Place) => l.Active?) }
  ghost function WaitingOnes(placed: History): set<Signal> { PlacedAt(placed, (l: Place) => l.Pending?) }
  ghost function AckedOnes(placed: History): set<Signal> { PlacedAt(placed, (l: Place) => l.Acked?) }

  lemma PlacesPartition(placed: History)
    ensures |placed| ==
      |ActiveOnes(placed)| + |WaitingOnes(placed)| + |AckedOnes(placed)| + |LateOnes(placed)|
  {
    var a, w, k, l := ActiveOnes(placed), WaitingOnes(placed), AckedOnes(placed), LateOnes(placed);
    assert placed.Keys == a + w + k + l;
    assert a !! w && (a + w) !! k && (a + w + k) !! l;
  }

  /** Conservation: every signal ever seen is between its two counting sections, counted as not
      a tool call, unjoinable or late, buffered, or acknowledged. */
  lemma SignalsAreConserved(env: Env, m: Machine)
    requires Reachable(env, m)
    ensures var s := m.p.stats;
      s.logRecordsSeen + s.spansSeen ==
        |m.transit| + s.toolCallsIgnored + s.unjoinableNoSpan + s.lateSignalsIgnored +
        |ActiveOnes(m.placed)| + |WaitingOnes(m.placed)| + |AckedOnes(m.placed)|
  {
    hide KeysInv, RecordsInv, StatsInv, FileInv, PhaseInv, Reachable, Genuine;
    ReachableStatesAreSound(env, m);
    PlacesPartition(m.placed);
  }

  function SlotsFor(p: Fields, place: Place, kind: SignalKind): map<Key, Execution> {
    var g := if place.Pending? then p.pending else p.active;
    if kind.Logs? then g.logs else g.spans
  }

  /** The signal is in the buffer: its slot holds the record of exactly the signals placed there,
      this one among them. */
  ghost predicate FoldedIn(p: Fields, placed: History, s: Signal)
    requires s in placed
  {
    var slots, mates := SlotsFor(p, placed[s], KindOf(s.raw)), At(placed, s.key, placed[s], KindOf(s.raw));
    && (placed[s].Active? || placed[s].Pending?)
    && s in mates && s.key in slots && Represents(slots[s.key], mates)
    && s.key in p.active.firstSeen
  }

  /** And nothing is acknowledged without having been written: a signal is acknowledged only as
      part of a record the sink accepted, a signal of an unfinalized key is folded into its slot,
      and one of a finalized key is in an accepted record or counted late, never both. */
  lemma NoSignalIsLost(env: Env, m: Machine, s: Signal)
    requires Reachable(env, m) && s in m.placed
    ensures m.placed[s].Acked? ==>
      m.placed[s].record < |m.accepted| && s in m.accepted[m.placed[s].record].from
    ensures s.key !in m.p.emitted ==> FoldedIn(m.p, m.placed, s)
    ensures s.key in m.p.emitted ==>
      (m.placed[s].Late? <==> forall i :: 0 <= i < |m.accepted| ==> s !in m.accepted[i].from)
  {
    hide KeysInv, StatsInv, FileInv, PhaseInv, Reachable, HistoryInv, ItemInv, FoldedIn;
    ReachableStatesAreSound(env, m);
    SignalIsSomewhere(m.p, m.placed, s);
  }

  lemma SignalIsSomewhere(p: Fields, placed: History, s: Signal)
    requires KeysInv(p, placed) && s in placed
    ensures s.key in p.emitted <==> placed[s].Late? || placed[s].Acked?
    ensures s.key !in p.emitted ==> FoldedIn(p, placed, s)
  {
    hide Represents, JoinKey, FirstSeenInv, Waiting, NestingInv;
    assert KeyInv(p, placed, s.key);
    if s.key !in p.emitted {
      assert s in At(placed, s.key, placed[s], KindOf(s.raw));
      LiveSignalIsBuffered(p, placed, s);
    }
  }

  // ---------------------------------------------------------------- exactly once on disk

  /** The file is its initial content and one whole line per accepted record, and no two records
      share a key; only a poisoned sink holds more, and then a prefix of one line. */
  lemma ExactlyOnceOnDisk(env: Env, m: Machine)
    requires Reachable(env, m)
    ensures Sink.Encodable(env, Written(m.accepted))
    ensures m.sink.file == m.base + Sink.Lines(env, Written(m.accepted)) + m.torn
    ensures m.torn != [] ==> m.sink.poisoned
    ensures m.sink.poisoned ==>
      m.tornBy.Some? && env.encode(m.tornBy.value).Some? && m.torn <= Sink.Line(env, m.tornBy.value)
    ensures forall i, j :: 0 <= i < j < |m.accepted| ==>
      JoinKey(m.accepted[i].a.ex.traceID, m.accepted[i].a.ex.spanID) !=
      JoinKey(m.accepted[j].a.ex.traceID, m.accepted[j].a.ex.spanID)
    ensures m.p.stats.emitted == |m.accepted| - (if m.phase.Persisted? then 1 else 0)
  {
    hide KeysInv, HistoryInv, PhaseInv, Reachable, Represents, FromInv, ClaimOf, TallyOf, JoinKey;
    ReachableStatesAreSound(env, m);
  }

  /** The record of the extra bytes is the one whose write poisoned the sink, at whatever point of
      the run that was. */
  lemma PoisoningWriteTearsItsRecord(env: Env, m: Machine, weather: Sink.Weather, events: seq<Event>)
    requires Reachable(env, m) && Enabled(m, Write(weather)) && Runs(env, m, [Write(weather)] + events)
    requires !m.sink.poisoned && Step(env, m, Write(weather)).sink.poisoned
    ensures var n := End(env, m, [Write(weather)] + events);
      m.sink.file <= n.sink.file && n.torn == n.sink.file[|m.sink.file|..] &&
      n.tornBy == Some(m.phase.batch[m.phase.next].a.ex)
  {
    hide Inv, Step, Enabled, Reachable, Sink.WriteStep;
    ReachableStatesAreSound(env, m);
    var run, next := [Write(weather)] + events, Step(env, m, Write(weather));
    assert run[0] == Write(weather) && run[1..] == events;
    StepKeeps(env, m, Write(weather));
    PoisoningStep(env, m, weather);
    PoisonIsTerminal(env, next, events);
    TornStays(env, next, events);
  }

  lemma PoisoningStep(env: Env, m: Machine, weather: Sink.Weather)
    requires Enabled(m, Write(weather)) && !m.sink.poisoned && Step(env, m, Write(weather)).sink.poisoned
    ensures var n := Step(env, m, Write(weather));
      m.sink.file <= n.sink.file && n.torn == n.sink.file[|m.sink.file|..] &&
      n.tornBy == Some(m.phase.batch[m.phase.next].a.ex)
  {
    Sink.WriteIsTransactional(env, m.sink, m.phase.batch[m.phase.next].a.ex, weather);
    hide Sink.WriteStep;
  }

  lemma {:induction false} TornStays(env: Env, m: Machine, events: seq<Event>)
    requires Inv(env, m) && m.sink.poisoned && Runs(env, m, events)
    ensures End(env, m, events).torn == m.torn && End(env, m, events).tornBy == m.tornBy
    decreases events
  {
    hide Inv, Step, Enabled;
    if events != [] {
      var next := Step(env, m, events[0]);
      PoisonedStep(env, m, events[0]);
      PoisonedStepTearsNothing(env, m, events[0]);
      StepKeeps(env, m, events[0]);
      TornStays(env, next, events[1..]);
    }
  }

  lemma PoisonedStepTearsNothing(env: Env, m: Machine, e: Event)
    requires m.sink.poisoned && Enabled(m, e)
    ensures Step(env, m, e).torn == m.torn && Step(env, m, e).tornBy == m.tornBy
  {
    hide BatchOf, Admit, AckPlaces, PromotePlaces, NormalizeSignal, JoinKey, ItemsOf, RestoreKeys, IsClaimMap,
      IsReadyList,
      AckKeys, PlaceFor, BufferStep;
  }

  /** So a file that started empty reads back as the accepted records in order, exactly when
      each of their lines fits the scanner's buffer. */
  lemma WrittenFileReadsBack(env: Env, m: Machine)
    requires Reachable(env, m) && Sink.LawfulCodec(env) && m.base == [] && !m.sink.poisoned
    ensures Sink.ReadFrom(env, m.sink.file, 0, []) == Sink.ReadOk(Written(m.accepted)) <==>
      forall ex :: ex in Written(m.accepted) ==> Sink.Fits(env, ex)
  {
    hide Reachable, Written, Sink.ReadFrom, Sink.LawfulCodec, Sink.Fits, Sink.Lines, Sink.Line;
    ExactlyOnceOnDisk(env, m);
    Sink.ReadBack(env, Written(m.accepted));
    assert m.sink.file == Sink.Lines(env, Written(m.accepted));
  }

  /** A poisoned sink is the end: no step changes the file, the accepted records, the finalized
      keys or the emitted count again. */
  lemma {:induction false} PoisonIsTerminal(env: Env, m: Machine, events: seq<Event>)
    requires Inv(env, m) && m.sink.poisoned && Runs(env, m, events)
    ensures var n := End(env, m, events);
      && n.sink == m.sink && n.accepted == m.accepted && n.p.emitted == m.p.emitted
      && n.p.stats.emitted == m.p.stats.emitted
    decreases events
  {
    if events != [] {
      PoisonedStep(env, m, events[0]);
      StepKeeps(env, m, events[0]);
      hide Inv, Step;
      PoisonIsTerminal(env, Step(env, m, events[0]), events[1..]);
    }
  }

  lemma PoisonedStep(env: Env, m: Machine, e: Event)
    requires Inv(env, m) && m.sink.poisoned && Enabled(m, e)
    ensures var n := Step(env, m, e);
      && n.sink == m.sink && n.accepted == m.accepted && n.p.emitted == m.p.emitted
      && n.p.stats.emitted == m.p.stats.emitted
  {
    hide KeysInv, HistoryInv, RecordsInv, StatsInv, PhaseInv, SeenInv, BatchOf, Admit, AckPlaces, PromotePlaces,
      NormalizeSignal, JoinKey, ItemsOf, RestoreKeys, IsClaimMap, IsReadyList;
    if e.Restore? {
      RestoreCountsNothing(m.p, KeysOfBatch(RecordsOf(m.phase.batch[m.phase.next..])));
    }
  }

  lemma {:induction false} RestoreCountsNothing(p: Fields, keys: seq<Key>)
    ensures RestoreKeys(p, keys).emitted == p.emitted && RestoreKeys(p, keys).stats == p.stats
  {
    hide Absorb, Drop;
    if keys != [] { RestoreCountsNothing(p, keys[..|keys| - 1]); }
  }

  // ---------------------------------------------------------------- what a record says

  /** Order and failure independence: whatever the arrival order, the slots, and the number of
      failed attempts its signals went through, an accepted record says exactly what the set of
      its signals says, and all of them were under its keys. */
  lemma RecordSaysWhatItsSignalsSay(env: Env, m: Machine, i: nat)
    requires Reachable(env, m) && i < |m.accepted|
    ensures var ex, from := m.accepted[i].a.ex, m.accepted[i].from;
      && from != {} && ProjectionOf(ex) == Summary(from)
      && Ascending(ex.seenFrom) && ex.source.transport == Merging.TransportOf(ex.seenFrom)
      && (forall s :: s in from ==> s in m.placed && s.key in m.accepted[i].a.consumedKeys)
  {
    hide KeysInv, HistoryInv, PhaseInv, Reachable, StatsInv, FileInv, Summary, ProjectionOf, Coherent, JoinKey;
    ReachableStatesAreSound(env, m);
  }

  /** A record names the transports of exactly the signals it was built from: a merged pair of spans
      never claims an access log, and a span merged with its log names both. */
  lemma RecordNamesItsTransports(env: Env, m: Machine, i: nat)
    requires Reachable(env, m) && i < |m.accepted|
    ensures var transport, from := m.accepted[i].a.ex.source.transport, m.accepted[i].from;
      var logs, traces := exists s :: s in from && s.raw.RawLog?, exists s :: s in from && s.raw.RawSpan?;
      && (logs && traces ==> transport == "otlp_logs+otlp_traces")
      && (logs && !traces ==> transport == "otlp_logs")
      && (traces && !logs ==> transport == "otlp_traces")
      && (logs || traces)
  {
    hide KeysInv, HistoryInv, PhaseInv, Reachable, StatsInv, FileInv, SeenInv, Represents, JoinKey, ClaimOf,
      TransportOf;
    ReachableStatesAreSound(env, m);
    var ex, from := m.accepted[i].a.ex, m.accepted[i].from;
    assert ItemInv(m.accepted[i]);
    SeenShapes(ex, from);
    TransportOfRepresented(ex, from);
    RepresentsSomething(ex, from);
    KnownTransports();
    KindIsForm(from);
  }

  lemma KindIsForm(from: set<Signal>)
    ensures (exists s :: s in from && s.raw.RawLog?) <==> exists s :: s in from && KindOf(s.raw).Logs?
    ensures (exists s :: s in from && s.raw.RawSpan?) <==> exists s :: s in from && KindOf(s.raw).Traces?
  {
    assert forall s :: s in from ==> (s.raw.RawLog? <==> KindOf(s.raw).Logs?);
  }

  lemma TransportOfRepresented(ex: Execution, from: set<Signal>)
    requires Represents(ex, from)
    ensures ex.source.transport == TransportOf(ex.seenFrom)
  {
    hide Summary, ProjectionOf, Coherent, TransportOf;
  }

  lemma KnownTransports()
    ensures TransportOf(["logs"]) == "otlp_logs" && TransportOf(["traces"]) == "otlp_traces"
    ensures TransportOf(["logs", "traces"]) == "otlp_logs+otlp_traces"
  {
    assert "otlp_" + "logs" == "otlp_logs" && "otlp_" + "traces" == "otlp_traces";
    assert Prefixed(["logs"]) == ["otlp_logs"] && Prefixed(["traces"]) == ["otlp_traces"];
    assert Prefixed(["logs", "traces"]) == ["otlp_logs", "otlp_traces"];
    assert ["otlp_logs", "otlp_traces"][1..] == ["otlp_traces"];
    assert "otlp_logs" + "+" + "otlp_traces" == "otlp_logs+otlp_traces";
  }

  /** Every signal of a is also in b, up to when it arrived. */
  ghost predicate Covered(a: set<Signal>, b: set<Signal>) {
    forall s :: s in a ==> exists t :: t in b && t.raw == s.raw && t.ex == s.ex
  }

  /** The same signals, up to when and how often they arrived. */
  ghost predicate SameContent(a: set<Signal>, b: set<Signal>) { Covered(a, b) && Covered(b, a) }

  lemma CoveredSaysNoMore(a: set<Signal>, b: set<Signal>)
    requires Covered(a, b)
    ensures TokensOf(a) <= TokensOf(b) && KindsOf(a) <= KindsOf(b)
    ensures forall v :: Says(a, v) ==> Says(b, v)
    ensures forall v :: (Args(a, v) ==> Args(b, v)) && (Results(a, v) ==> Results(b, v))
  {
    hide Tokens, RawAttributes, KindOf, NameOf;
  }

  lemma SummaryIgnoresArrival(a: set<Signal>, b: set<Signal>)
    requires SameContent(a, b)
    ensures Summary(a) == Summary(b)
  {
    hide Covered, VerdictOf, TokensOf, KindsOf, Says, Args, Results;
    CoveredSaysNoMore(a, b);
    CoveredSaysNoMore(b, a);
    assert TokensOf(a) == TokensOf(b) && KindsOf(a) == KindsOf(b);
  }

  /** So two runs whose snapshots hold the same signals write the same answer. */
  lemma RunsAgreeOnSameSignals(env: Env, m: Machine, i: nat, n: Machine, j: nat)
    requires Reachable(env, m) && i < |m.accepted| && Reachable(env, n) && j < |n.accepted|
    requires SameContent(m.accepted[i].from, n.accepted[j].from)
    ensures var a, b := m.accepted[i].a.ex, n.accepted[j].a.ex;
      && ProjectionOf(a) == ProjectionOf(b)
      && a.seenFrom == b.seenFrom && a.source.transport == b.source.transport
  {
    hide Reachable, Summary, SameContent;
    RecordSaysWhatItsSignalsSay(env, m, i);
    RecordSaysWhatItsSignalsSay(env, n, j);
    SummaryIgnoresArrival(m.accepted[i].from, n.accepted[j].from);
    var a, b := m.accepted[i].a.ex, n.accepted[j].a.ex;
    assert ProjectionOf(a).seen == ProjectionOf(b).seen;
    forall v ensures v in a.seenFrom <==> v in b.seenFrom {
      assert v in ProjectionOf(a).seen <==> v in ProjectionOf(b).seen;
    }
    AscendingIsUnique(a.seenFrom, b.seenFrom);
  }

  /** No invented attribution: a record carries an operation id exactly when the comma-separated
      tokens on its signals, all of them together, are that one well-formed id; its signals sit
      only under its own key or the parent key its client span names; and it explains itself
      exactly when it carries no id. */
  lemma AttributionIsExplicit(env: Env, m: Machine, i: nat)
    requires Reachable(env, m) && i < |m.accepted|
    ensures var a, from := m.accepted[i].a, m.accepted[i].from;
      && VerdictFrom(a.ex.correlation, a.ex.operationID) == VerdictOf(TokensOf(from))
      && (a.ex.correlation.Correlated? <==> a.ex.operationID != "")
      && (a.ex.correlation.Correlated? <==> a.ex.correlationDetail == "")
      && (a.ex.correlation.Correlated? ==>
            TokensOf(from) == {a.ex.operationID} && MatchesPattern(a.ex.operationID))
      && (forall s :: s in from ==> s.key == a.key || ClaimOf(a.ex) == Some(s.key))
  {
    hide KeysInv, HistoryInv, PhaseInv, Reachable, StatsInv, FileInv, JoinKey, TokensOf, ClaimOf, Represents,
      MatchesPattern,
      VerdictFrom, VerdictOf;
    ReachableStatesAreSound(env, m);
    var a, from := m.accepted[i].a, m.accepted[i].from;
    assert ItemInv(m.accepted[i]) && FromInv(m.placed, m.accepted[i]);
    RepresentedAttribution(a.ex, from);
    forall s | s in from ensures s.key == a.key || ClaimOf(a.ex) == Some(s.key) {
      assert s.key in a.consumedKeys;
    }
  }

  lemma RepresentedAttribution(ex: Execution, from: set<Signal>)
    requires Represents(ex, from)
    ensures VerdictFrom(ex.correlation, ex.operationID) == VerdictOf(TokensOf(from))
    ensures ex.correlation.Correlated? <==> ex.operationID != ""
    ensures ex.correlation.Correlated? <==> ex.correlationDetail == ""
    ensures ex.correlation.Correlated? ==> TokensOf(from) == {ex.operationID} && MatchesPattern(ex.operationID)
  {
    hide TokensOf, WorstStatus, KindsOf, StrongestArgs, StrongestResult, Ascending, JoinKey;
    assert ProjectionOf(ex).verdict == Summary(from).verdict;
  }

  /** A record's status is the worst its signals assert, and it names an error exactly when it
      failed, if and only if some signal named one in case it did. No source that avoids error
      types of blanks only can make it fail that. */
  lemma StatusIsTheWorstAsserted(env: Env, m: Machine, i: nat)
    requires Reachable(env, m) && i < |m.accepted|
    ensures var ex, from := m.accepted[i].a.ex, m.accepted[i].from;
      && ex.status == WorstStatus(from)
      && (Marked(ex) <==> (Failed(ex.status) ==> NamesError(from)))
      && ((forall s :: s in from ==> !BlankButSet(Attr(RawAttributes(s.raw), ErrorType))) ==> Marked(ex))
  {
    hide KeysInv, PhaseInv, Reachable, StatsInv, FileInv, SeenInv, JoinKey, TokensOf, ClaimOf, Blank, Coherent,
      VerdictOf, Attr,
      Tokens, AttributesOf, NamesError, Marked, Genuine, Failed;
    ReachableStatesAreSound(env, m);
    var ex, from := m.accepted[i].a.ex, m.accepted[i].from;
    assert ItemInv(m.accepted[i]) && FromInv(m.placed, m.accepted[i]);
    assert ProjectionOf(ex).status == Summary(from).status;
    MarkedExactlyWhen(ex, from);
    if Failed(ex.status) && forall s :: s in from ==> !BlankButSet(Attr(RawAttributes(s.raw), ErrorType)) {
      var s := WorstSignal(from);
      assert s in m.placed && Genuine(s);
      FailedSignalNamesError(s, from);
    }
  }

  /** A signal that asserts the worst status. */
  lemma WorstSignal(from: set<Signal>) returns (s: Signal)
    requires Failed(WorstStatus(from))
    ensures s in from && Failed(s.ex.status)
  {
    s :| s in from && s.ex.status == WorstStatus(from);
  }

  lemma FailedSignalNamesError(s: Signal, from: set<Signal>)
    requires Genuine(s) && s in from && Failed(s.ex.status) && !BlankButSet(Attr(RawAttributes(s.raw), ErrorType))
    ensures NamesError(from)
  {
    hide JoinKey, Coherent, VerdictOf, Tokens, Attr, Blank, BlankButSet;
  }

  /** In terms of what the source sent: a record failed exactly when one of its signals shows a
      failure that is no cancellation, was cancelled when none does but one names a cancellation, and
      succeeded when nothing shows a failure and something shows completion. */
  lemma StatusComesFromTelemetry(env: Env, m: Machine, i: nat)
    requires Reachable(env, m) && i < |m.accepted|
    ensures var status, from := m.accepted[i].a.ex.status, m.accepted[i].from;
      var failed := exists s :: s in from && NamesFailure(s.raw) && !NamesCancel(s.raw);
      && (status.StatusError? <==> failed)
      && (status.StatusCancelled? <==> !failed && exists s :: s in from && NamesCancel(s.raw))
      && (status.StatusSuccess? <==>
            (forall s :: s in from ==> !NamesFailure(s.raw)) && exists s :: s in from && Completed(s.raw))
  {
    hide Reachable, NamesCancel, NamesFailure, Completed, Marked;
    StatusIsTheWorstAsserted(env, m, i);
    var from := m.accepted[i].from;
    forall s | s in from ensures StatusFits(s.raw, s.ex.status) && (NamesCancel(s.raw) ==> NamesFailure(s.raw)) {
      RecordedIsGenuine(env, m, i, s);
      if NamesCancel(s.raw) { CancelIsFailure(s.raw); }
    }
    WorstOfFitting(from);
  }

  lemma RecordedIsGenuine(env: Env, m: Machine, i: nat, s: Signal)
    requires Reachable(env, m) && i < |m.accepted| && s in m.accepted[i].from
    ensures StatusFits(s.raw, s.ex.status) && PayloadFits(s.raw, s.ex) && FieldsFit(s.raw, s.ex)
  {
    hide KeysInv, PhaseInv, Reachable, StatsInv, FileInv, SeenInv, ItemInv, JoinKey, Coherent, VerdictOf, Tokens,
      StatusFits, PayloadFits, FieldsFit;
    ReachableStatesAreSound(env, m);
    assert FromInv(m.placed, m.accepted[i]);
    assert Genuine(s);
  }

  lemma WorstOfFitting(from: set<Signal>)
    requires forall s :: s in from ==> StatusFits(s.raw, s.ex.status) && (NamesCancel(s.raw) ==> NamesFailure(s.raw))
    ensures var status := WorstStatus(from);
      var failed := exists s :: s in from && NamesFailure(s.raw) && !NamesCancel(s.raw);
      && (status.StatusError? <==> failed)
      && (status.StatusCancelled? <==> !failed && exists s :: s in from && NamesCancel(s.raw))
      && (status.StatusSuccess? <==>
            (forall s :: s in from ==> !NamesFailure(s.raw)) && exists s :: s in from && Completed(s.raw))
  {
    hide NamesCancel, NamesFailure, Completed;
    assert Says(from, StatusError) <==> exists s :: s in from && NamesFailure(s.raw) && !NamesCancel(s.raw);
    assert Says(from, StatusCancelled) <==> exists s :: s in from && NamesCancel(s.raw);
    assert Says(from, StatusSuccess) <==> exists s :: s in from && !NamesFailure(s.raw) && Completed(s.raw);
  }

  /** And the raw payloads of a record are refused exactly when one of its signals offered them. */
  lemma PayloadComesFromTelemetry(env: Env, m: Machine, i: nat)
    requires Reachable(env, m) && i < |m.accepted|
    ensures var ex, from := m.accepted[i].a.ex, m.accepted[i].from;
      && ex.argumentsFingerprintStatus ==
           (if exists s :: s in from && Offers(s.raw, "gen_ai.tool.call.arguments") then RefusedRaw else NotEmitted)
      && ex.resultFingerprintStatus ==
           (if exists s :: s in from && Offers(s.raw, "gen_ai.tool.call.result") then RefusedRaw else NotEmitted)
  {
    hide Reachable, Offers, VerdictOf, WorstStatus, KindsOf, Ascending;
    RecordSaysWhatItsSignalsSay(env, m, i);
    var ex, from := m.accepted[i].a.ex, m.accepted[i].from;
    assert ProjectionOf(ex).args == Summary(from).args && ProjectionOf(ex).result == Summary(from).result;
    forall s | s in from ensures PayloadFits(s.raw, s.ex) { RecordedIsGenuine(env, m, i, s); }
    StrongestOfFitting(from);
  }

  lemma StrongestOfFitting(from: set<Signal>)
    requires forall s :: s in from ==> PayloadFits(s.raw, s.ex)
    ensures StrongestArgs(from) ==
      if exists s :: s in from && Offers(s.raw, "gen_ai.tool.call.arguments") then RefusedRaw else NotEmitted
    ensures StrongestResult(from) ==
      if exists s :: s in from && Offers(s.raw, "gen_ai.tool.call.result") then RefusedRaw else NotEmitted
  {
    hide Offers;
    assert forall s :: s in from ==> PayloadFits(s.raw, s.ex);
  }

  /** The field has a value the telemetry of one of these signals gives it, and is empty only if that
      of all of them gives it nothing. */
  ghost predicate GivenBy(from: set<Signal>, field: Field, v: string) {
    && (exists s :: s in from && Gives(s.raw, field, v))
    && (v == "" ==> forall s :: s in from ==> Gives(s.raw, field, ""))
  }

  /** No field of a record is invented and none is lost, by whatever merges, failures and retries it
      came about: ids, kind, parent, tool, target and source are what the attributes and bytes of one
      of its signals say, start and end are theirs, and each is empty only if no signal says it. The
      error texts and the duration are a signal's too, or the time between a start and an end that
      signals have, and every disagreement listed is between two signals. */
  lemma NothingIsInvented(env: Env, m: Machine, i: nat)
    requires Reachable(env, m) && i < |m.accepted|
    ensures var ex, from := m.accepted[i].a.ex, m.accepted[i].from;
      && (forall field :: GivenBy(from, field, FieldOf(ex, field)))
      && (exists s :: s in from && InstantFits(StartOf(s.raw), ex.startedAt))
      && (exists s :: s in from && InstantFits(EndOf(s.raw), ex.finishedAt))
      && (ex.startedAt == 0 ==> forall s :: s in from ==> StartOf(s.raw) == 0)
      && (ex.finishedAt == 0 ==> forall s :: s in from ==> EndOf(s.raw) == 0)
      && DurationFrom(from, ex.durationMS)
      && ErrorTextsFrom(from, ex.errorType, ex.errorCode)
      && EntriesFrom(ex.disagreements, from)
  {
    hide Reachable, FieldsFrom, FieldsFit, DurationFrom, ErrorTextsFrom, EntriesFrom, GivenBy, InstantFits;
    RecordHasFields(env, m, i);
    var ex, from := m.accepted[i].a.ex, m.accepted[i].from;
    forall s | s in from ensures FieldsFit(s.raw, s.ex) { RecordedIsGenuine(env, m, i, s); }
    FieldsOfFitting(ex, from);
    TimesOfFitting(ex, from);
  }

  lemma RecordHasFields(env: Env, m: Machine, i: nat)
    requires Reachable(env, m) && i < |m.accepted|
    ensures var ex, from := m.accepted[i].a.ex, m.accepted[i].from;
      FieldsFrom(ex, from) && DurationFrom(from, ex.durationMS) && ErrorTextsFrom(from, ex.errorType, ex.errorCode) &&
      EntriesFrom(ex.disagreements, from)
  {
    hide KeysInv, HistoryInv, PhaseInv, Reachable, StatsInv, FileInv, SeenInv, JoinKey, ClaimOf, Sound, Summary,
      ProjectionOf, ErrorsOf, FieldFrom, StartFrom, EndFrom, DurationFrom, ErrorTextsFrom, EntriesFrom;
    ReachableStatesAreSound(env, m);
    assert ItemInv(m.accepted[i]);
  }

  lemma FieldsOfFitting(ex: Execution, from: set<Signal>)
    requires FieldsFrom(ex, from) && forall s :: s in from ==> FieldsFit(s.raw, s.ex)
    ensures forall field :: GivenBy(from, field, FieldOf(ex, field))
  {
    hide FieldOf, Gives, TimesFit, StartFrom, EndFrom, DurationFrom, ErrorTextsFrom;
    forall field ensures GivenBy(from, field, FieldOf(ex, field)) {
      assert FieldFrom(from, field, FieldOf(ex, field));
      forall s | s in from ensures Gives(s.raw, field, FieldOf(s.ex, field)) {}
    }
  }

  lemma TimesOfFitting(ex: Execution, from: set<Signal>)
    requires FieldsFrom(ex, from) && forall s :: s in from ==> FieldsFit(s.raw, s.ex)
    ensures (exists s :: s in from && InstantFits(StartOf(s.raw), ex.startedAt))
    ensures (exists s :: s in from && InstantFits(EndOf(s.raw), ex.finishedAt))
    ensures ex.startedAt == 0 ==> forall s :: s in from ==> StartOf(s.raw) == 0
    ensures ex.finishedAt == 0 ==> forall s :: s in from ==> EndOf(s.raw) == 0
  {
    hide FieldOf, Gives, FieldFrom, DurationFrom, ErrorTextsFrom, InstantFits, StartOf, EndOf;
    forall s | s in from ensures TimesFit(s.raw, s.ex) {}
    forall s | s in from
      ensures InstantFits(StartOf(s.raw), 0) ==> StartOf(s.raw) == 0
      ensures InstantFits(EndOf(s.raw), 0) ==> EndOf(s.raw) == 0
    {
      InstantWraps(StartOf(s.raw));
      InstantWraps(EndOf(s.raw));
    }
    assert StartFrom(from, ex.startedAt) && EndFrom(from, ex.finishedAt);
  }

  // ---------------------------------------------------------------- counters

  /** The counters are counts of what was written: by signals and by correlation, over the
      acknowledged records, and each way of splitting them adds up to Emitted. */
  lemma CountersCountRecords(env: Env, m: Machine)
    requires Reachable(env, m)
    ensures var s := m.p.stats;
      && 0 <= Done(m) <= |m.accepted| && s.emitted == Done(m)
      && TallyOf(m.accepted[..Done(m)]) ==
         Tally(s.emittedMerged, s.emittedLogOnly, s.emittedSpanOnly, s.correlated, s.unattributed, s.ambiguous)
      && s.emitted == s.emittedMerged + s.emittedLogOnly + s.emittedSpanOnly
      && s.emitted == s.correlated + s.unattributed + s.ambiguous
      && m.p.emitted == ConsumedBy(m.accepted[..Done(m)])
  {
    hide KeysInv, HistoryInv, PhaseInv, Reachable, FileInv, ItemInv, FromInv, TallyOf, ShapeOf;
    ReachableStatesAreSound(env, m);
    var done := m.accepted[..Done(m)];
    forall i | 0 <= i < |done| ensures ItemInv(done[i]) { assert done[i] == m.accepted[i]; }
    TallyAddsUp(done);
    forall key ensures key in m.p.emitted <==> key in ConsumedBy(done) {
      if key in m.p.emitted {
        var i :| 0 <= i < Done(m) && key in m.accepted[i].a.consumedKeys;
        assert done[i] == m.accepted[i];
      }
    }
  }

  ghost function ConsumedBy(records: seq<Item>): set<Key> {
    set i, key | 0 <= i < |records| && key in records[i].a.consumedKeys :: key
  }

  lemma {:induction false} TallyAddsUp(records: seq<Item>)
    requires forall i :: 0 <= i < |records| ==> ItemInv(records[i])
    ensures var t := TallyOf(records);
      && t.merged + t.logOnly + t.spanOnly == |records|
      && t.correlated + t.unattributed + t.ambiguous == |records|
  {
    hide ItemInv, ShapeOf;
    if records != [] {
      var init, last := records[..|records| - 1], records[|records| - 1];
      assert records == init + [last];
      TallyAddsUp(init);
      TallySnoc(init, last);
      ItemShapes(last);
    }
  }

  // ---------------------------------------------------------------- finalized keys

  /** How many of the records consumed a parent key beside their own. */
  ghost function ParentsConsumed(records: seq<Item>): nat {
    if records == [] then 0
    else
      ParentsConsumed(records[..|records| - 1]) + (if |records[|records| - 1].a.consumedKeys| == 2 then 1 else 0)
  }

  /** No parent is shared by two records, is itself a record, or is its own record. */
  ghost predicate ConsumedOnce(records: seq<Item>) {
    && (forall i, j, key :: 0 <= i < j < |records| && key in records[i].a.consumedKeys ==>
          key !in records[j].a.consumedKeys)
    && (forall i :: 0 <= i < |records| && |records[i].a.consumedKeys| == 2 ==>
          records[i].a.consumedKeys[0] != records[i].a.consumedKeys[1])
  }

  ghost predicate OneOrTwo(item: Item) { 1 <= |item.a.consumedKeys| <= 2 }

  lemma ConsumedSnoc(init: seq<Item>, last: Item)
    requires OneOrTwo(last)
    ensures ConsumedBy(init + [last]) == ConsumedBy(init) + KeySet(last.a.consumedKeys)
    ensures ConsumedOnce(init + [last]) <==>
      ConsumedOnce(init) && KeySet(last.a.consumedKeys) !! ConsumedBy(init) &&
      |KeySet(last.a.consumedKeys)| == |last.a.consumedKeys|
  {
    var records, keys := init + [last], last.a.consumedKeys;
    assert records[|init|] == last && forall i :: 0 <= i < |init| ==> records[i] == init[i];
    KeySetSize(keys);
    forall key ensures key in ConsumedBy(records) <==> key in ConsumedBy(init) + KeySet(keys) {
      if key in ConsumedBy(init) {
        var i :| 0 <= i < |init| && key in init[i].a.consumedKeys;
        assert key in records[i].a.consumedKeys;
      }
      if key in KeySet(keys) { assert key in records[|init|].a.consumedKeys; }
    }
    OnceSnoc(init, last);
  }

  lemma OnceSnoc(init: seq<Item>, last: Item)
    requires OneOrTwo(last)
    ensures ConsumedOnce(init + [last]) <==>
      ConsumedOnce(init) && KeySet(last.a.consumedKeys) !! ConsumedBy(init) &&
      (|last.a.consumedKeys| == 2 ==> last.a.consumedKeys[0] != last.a.consumedKeys[1])
  {
    var records, keys := init + [last], last.a.consumedKeys;
    assert records[|init|] == last && forall i :: 0 <= i < |init| ==> records[i] == init[i];
    forall key ensures key in ConsumedBy(init) <==> exists i :: 0 <= i < |init| && key in records[i].a.consumedKeys {
      if key in ConsumedBy(init) {
        var i :| 0 <= i < |init| && key in init[i].a.consumedKeys;
        assert key in records[i].a.consumedKeys;
      }
    }
    hide ConsumedBy;
    if ConsumedOnce(records) {
      forall i, j, key | 0 <= i < j < |init| && key in init[i].a.consumedKeys ensures key !in init[j].a.consumedKeys {
        assert records[i] == init[i] && records[j] == init[j];
      }
    } else if ConsumedOnce(init) && KeySet(keys) !! ConsumedBy(init) {
      forall i, j, key | 0 <= i < j < |records| && key in records[i].a.consumedKeys
        ensures key !in records[j].a.consumedKeys
      {
        assert key in init[i].a.consumedKeys;
        if j == |init| { assert key in ConsumedBy(init); } else { assert records[j] == init[j]; }
      }
    }
  }

  lemma KeySetSize(keys: seq<Key>)
    requires 1 <= |keys| <= 2
    ensures |KeySet(keys)| <= |keys|
    ensures |KeySet(keys)| == |keys| <==> (|keys| == 2 ==> keys[0] != keys[1])
  {
    if |keys| == 1 {
      assert KeySet(keys) == {keys[0]};
    } else {
      assert KeySet(keys) == {keys[0], keys[1]};
    }
  }

  lemma UnionSize(a: set<Key>, b: set<Key>)
    ensures |a + b| <= |a| + |b|
    ensures |a + b| == |a| + |b| <==> a !! b
  {
    assert |a + b| == |a| + |b| - |a * b|;
    assert a * b == {} <==> |a * b| == 0;
    if a * b == {} {
      forall key ensures !(key in a && key in b) { assert key !in a * b; }
    }
  }

  lemma {:induction false} ConsumedCount(records: seq<Item>)
    requires forall i :: 0 <= i < |records| ==> OneOrTwo(records[i])
    ensures |ConsumedBy(records)| <= |records| + ParentsConsumed(records)
    ensures |ConsumedBy(records)| == |records| + ParentsConsumed(records) <==> ConsumedOnce(records)
  {
    if records == [] {
      assert ConsumedBy(records) == {};
    } else {
      hide ConsumedOnce, ConsumedBy, KeySet;
      var init, last := records[..|records| - 1], records[|records| - 1];
      assert records == init + [last];
      forall i | 0 <= i < |init| ensures OneOrTwo(init[i]) { assert init[i] == records[i]; }
      ConsumedCount(init);
      ConsumedSnoc(init, last);
      KeySetSize(last.a.consumedKeys);
      UnionSize(ConsumedBy(init), KeySet(last.a.consumedKeys));
    }
  }

  /** The finalized keys number the emitted records and the parent keys they consumed exactly
      when no key was consumed twice; otherwise they are fewer. */
  lemma FinalizedKeysAddUp(env: Env, m: Machine)
    requires Reachable(env, m)
    ensures 0 <= Done(m) <= |m.accepted|
    ensures var done := m.accepted[..Done(m)];
      && |m.p.emitted| <= m.p.stats.emitted + ParentsConsumed(done)
      && (|m.p.emitted| == m.p.stats.emitted + ParentsConsumed(done) <==> ConsumedOnce(done))
  {
    hide KeysInv, HistoryInv, PhaseInv, Reachable, FileInv, FromInv, TallyOf, ConsumedBy, ConsumedOnce, ParentsConsumed,
      Represents, JoinKey, ClaimOf;
    CountersCountRecords(env, m);
    ReachableStatesAreSound(env, m);
    var done := m.accepted[..Done(m)];
    forall i | 0 <= i < |done| ensures OneOrTwo(done[i]) { assert done[i] == m.accepted[i]; }
    ConsumedCount(done);
  }
}
