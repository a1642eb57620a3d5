/** The processor and its sink as one machine whose steps are the atomic sections of the code.
    Any number of receivers interleave with the one assembler; the sink's I/O happens between
    steps, so signals arrive during a write. Beside the real fields the machine remembers where
    every signal went and which signals each record was built from. */
module Machine {
  import opened Text
  import opened Observation
  import opened Normalize
  import opened MergeLaws
  import opened Processor
  import Sink

  /** Where a signal is: folded into an active slot, folded into a pending slot, dropped as
      late, or acknowledged with the record of that number. */
  datatype Place = Active | Pending | Late | Acked(record: nat)

  type History = map<Signal, Place>

  /** A record and the signals folded into it. */
  datatype Item = Item(a: Assembled, from: set<Signal>)

  /** What the assembler is doing: nothing; about to write item `next`; holding an item the sink
      accepted but that is not acknowledged; or holding one the sink refused, before and after
      the failure is counted. */
  datatype Phase =
    | Idle
    | Writing(batch: seq<Item>, next: nat)
    | Persisted(batch: seq<Item>, next: nat)
    | Refused(batch: seq<Item>, next: nat)
    | Counted(batch: seq<Item>, next: nat)

  /** The fields, the assembler's phase and the sink; the signals between their two counting
      sections; and what happened: the file's first content, the bytes a poisoning write left and the
      record it was writing, where each signal is, and the records the sink accepted. */
  datatype Machine = Machine(
    p: Fields, phase: Phase, sink: Sink.State,
    transit: multiset<RawSignal>,
    base: Sink.bytes, torn: Sink.bytes, tornBy: Option<Execution>, placed: History, accepted: seq<Item>)

  /** The atomic sections, with the choices the environment makes. */
  datatype Event =
    | See(raw: RawSignal)
    | Take(raw: RawSignal, now: Instant)
    | Begin(cutoff: Option<Instant>, childOf: map<Key, Key>, ready: seq<Key>)
    | Skip
    | Write(weather: Sink.Weather)
    | Ack
    | CountRefusal
    | Restore
    | Finish

  // ---------------------------------------------------------------- initial states

  ghost predicate Init(m: Machine) {
    && m.p == Fresh().(observerID := m.p.observerID, observerVersion := m.p.observerVersion)
    && m.phase == Idle && m.transit == multiset{}
    && m.sink == Sink.State(m.base, false) && m.torn == [] && m.tornBy == None
    && m.placed == map[] && m.accepted == []
  }

  // ---------------------------------------------------------------- ingest

  /** The signal buffer receives, numbered by arrival. */
  function Arrival(m: Machine, raw: RawSignal, ex: Execution, now: Instant): Signal {
    Signal(|m.placed|, raw, Stamp(m.p, ex), JoinKey(ex.traceID, ex.spanID), now)
  }

  function PlaceFor(p: Fields, key: Key): Place {
    if key in p.emitted then Late
    else if key in p.inFlight || key in p.pending.firstSeen then Pending
    else Active
  }

  function CountSeen(s: Stats, raw: RawSignal): Stats {
    if raw.RawLog? then s.(logRecordsSeen := s.logRecordsSeen + 1) else s.(spansSeen := s.spansSeen + 1)
  }

  function TakeStep(env: Env, m: Machine, raw: RawSignal, now: Instant): Machine {
    var left := m.(transit := m.transit - multiset{raw});
    match NormalizeSignal(env, raw)
    case None => left.(p := m.p.(stats := m.p.stats.(toolCallsIgnored := m.p.stats.toolCallsIgnored + 1)))
    case Some(ex) =>
      var s := Arrival(m, raw, ex, now);
      var buffered := left.(p := BufferStep(m.p, ex, KindOf(raw), now));
      if s.key == "" then buffered else buffered.(placed := m.placed[s := PlaceFor(m.p, s.key)])
  }

  // ---------------------------------------------------------------- assembly

  /** The signals active under the given keys: what a snapshot of those keys contains. */
  ghost function LiveUnder(placed: History, keys: seq<Key>): set<Signal> {
    set s | s in placed && placed[s].Active? && s.key in keys
  }

  ghost function ItemsOf(placed: History, batch: seq<Assembled>): seq<Item> {
    seq(|batch|, i requires 0 <= i < |batch| => Item(batch[i], LiveUnder(placed, batch[i].consumedKeys)))
  }

  function RecordsOf(items: seq<Item>): seq<Assembled> {
    seq(|items|, i requires 0 <= i < |items| => items[i].a)
  }

  ghost function BeginStep(m: Machine, childOf: map<Key, Key>, ready: seq<Key>): Machine {
    var batch := BatchOf(m.p, childOf, ready);
    m.(p := Reserve(m.p, batch), phase := Writing(ItemsOf(m.placed, batch), 0))
  }

  function AckPlaces(placed: History, keys: set<Key>, record: nat): History {
    map s | s in placed ::
      if s.key !in keys then placed[s]
      else if placed[s].Active? then Acked(record)
      else if placed[s].Pending? then Late
      else placed[s]
  }

  function PromotePlaces(placed: History, keys: set<Key>): History {
    map s | s in placed :: if s.key in keys && placed[s].Pending? then Active else placed[s]
  }

  function WriteMachine(env: Env, m: Machine, weather: Sink.Weather): Machine
    requires m.phase.Writing? && m.phase.next < |m.phase.batch|
  {
    var item := m.phase.batch[m.phase.next];
    var o := Sink.WriteStep(env, m.sink, item.a.ex, weather);
    if o.ok then
      m.(sink := o.state, accepted := m.accepted + [item], phase := Persisted(m.phase.batch, m.phase.next))
    else
      m.(sink := o.state,
         torn := if o.state == m.sink then m.torn else o.state.file[|m.sink.file|..],
         tornBy := if o.state == m.sink then m.tornBy else Some(item.a.ex),
         phase := Refused(m.phase.batch, m.phase.next))
  }

  function AckStep(m: Machine): Machine
    requires m.phase.Persisted? && m.phase.next < |m.phase.batch| && m.accepted != []
  {
    var a := m.phase.batch[m.phase.next].a;
    m.(p := Acknowledge(m.p, a),
       placed := AckPlaces(m.placed, KeySet(a.consumedKeys), |m.accepted| - 1),
       phase := Writing(m.phase.batch, m.phase.next + 1))
  }

  function RestoreStep(m: Machine): Machine
    requires m.phase.Counted? && m.phase.next <= |m.phase.batch|
  {
    var keys := KeysOfBatch(RecordsOf(m.phase.batch[m.phase.next..]));
    m.(p := RestoreKeys(m.p, keys), placed := PromotePlaces(m.placed, KeySet(keys)), phase := Idle)
  }

  // ---------------------------------------------------------------- steps and runs

  ghost predicate Enabled(m: Machine, e: Event) {
    match e
    case See(_) => true
    case Take(raw, _) => raw in m.transit
    case Begin(cutoff, childOf, ready) =>
      m.phase.Idle? && IsClaimMap(m.p.active.spans, childOf) && IsReadyList(m.p, cutoff, ready)
    case Skip =>
      m.phase.Writing? && m.phase.next < |m.phase.batch| && m.phase.batch[m.phase.next].a.key in m.p.emitted
    case Write(_) =>
      m.phase.Writing? && m.phase.next < |m.phase.batch| && m.phase.batch[m.phase.next].a.key !in m.p.emitted
    case Ack => m.phase.Persisted? && m.phase.next < |m.phase.batch| && m.accepted != []
    case CountRefusal => m.phase.Refused?
    case Restore => m.phase.Counted? && m.phase.next <= |m.phase.batch|
    case Finish => m.phase.Writing? && m.phase.next == |m.phase.batch|
  }

  ghost function Step(env: Env, m: Machine, e: Event): Machine
    requires Enabled(m, e)
  {
    match e
    case See(raw) => m.(p := m.p.(stats := CountSeen(m.p.stats, raw)), transit := m.transit + multiset{raw})
    case Take(raw, now) => TakeStep(env, m, raw, now)
    case Begin(_, childOf, ready) => BeginStep(m, childOf, ready)
    case Skip => m.(phase := Writing(m.phase.batch, m.phase.next + 1))
    case Write(weather) => WriteMachine(env, m, weather)
    case Ack => AckStep(m)
    case CountRefusal => m.(p := CountFailure(m.p), phase := Counted(m.phase.batch, m.phase.next))
    case Restore => RestoreStep(m)
    case Finish => m.(phase := Idle)
  }

  ghost predicate Runs(env: Env, m: Machine, events: seq<Event>)
    decreases events
  {
    events == [] || (Enabled(m, events[0]) && Runs(env, Step(env, m, events[0]), events[1..]))
  }

  ghost function End(env: Env, m: Machine, events: seq<Event>): Machine
    requires Runs(env, m, events)
    decreases events
  {
    if events == [] then m else End(env, Step(env, m, events[0]), events[1..])
  }

  // ---------------------------------------------------------------- the invariant

  /** The signals of one key and kind in one place. */
  ghost function At(placed: History, key: Key, place: Place, kind: SignalKind): set<Signal> {
    set s | s in placed && s.key == key && placed[s] == place && KindOf(s.raw) == kind
  }

  /** A slot is present exactly when signals are placed there, and says what they say. */
  ghost predicate SlotInv(slots: map<Key, Execution>, placed: History, key: Key, place: Place, kind: SignalKind) {
    && (key in slots <==> At(placed, key, place, kind) != {})
    && (key in slots ==>
          Represents(slots[key], At(placed, key, place, kind)) &&
          JoinKey(slots[key].traceID, slots[key].spanID) == key)
  }

  ghost predicate GenerationInv(g: Generation, placed: History, key: Key, place: Place) {
    && SlotInv(g.spans, placed, key, place, Traces)
    && SlotInv(g.logs, placed, key, place, Logs)
    && (key in g.firstSeen <==> key in g.spans || key in g.logs)
  }

  ghost predicate IsFirst(placed: History, s: Signal) {
    forall r :: r in placed && r.key == s.key ==> s.id <= r.id
  }

  /** The key's first-seen time is the arrival time of its first signal ever. */
  ghost predicate FirstSeenInv(firstSeen: map<Key, Instant>, placed: History, key: Key) {
    key in firstSeen ==>
      exists s :: s in placed && s.key == key && IsFirst(placed, s) && s.time == firstSeen[key]
  }

  ghost function Waiting(placed: History, key: Key): set<Signal> {
    set s | s in placed && s.key == key && placed[s].Pending?
  }

  /** pending is within inFlight is within firstSeen, and emitted is apart from all of them. */
  ghost predicate NestingInv(p: Fields, key: Key) {
    && (key in p.pendingSignals <==> key in p.pending.firstSeen)
    && (key in p.pending.firstSeen ==> key in p.inFlight)
    && (key in p.inFlight ==> key in p.active.firstSeen)
    && (key in p.emitted ==> key !in p.active.firstSeen)
  }

  ghost predicate KeyInv(p: Fields, placed: History, key: Key) {
    && GenerationInv(p.active, placed, key, Active)
    && GenerationInv(p.pending, placed, key, Pending)
    && FirstSeenInv(p.active.firstSeen, placed, key)
    && NestingInv(p, key)
    && CountAt(p.pendingSignals, key) == |Waiting(placed, key)|
    && (forall s :: s in placed && s.key == key ==> (key in p.emitted <==> placed[s].Late? || placed[s].Acked?))
  }

  ghost predicate KeysInv(p: Fields, placed: History) { forall key :: KeyInv(p, placed, key) }

  ghost function LateOnes(placed: History): set<Signal> { set s | s in placed && placed[s].Late? }

  ghost predicate HistoryInv(late: nat, placed: History) {
    && (forall s :: s in placed ==> Genuine(s) && s.id < |placed|)
    && (forall s, t :: s in placed && t in placed && s.id == t.id ==> s == t)
    && late == |LateOnes(placed)|
  }

  /** A record is coherent with its signals: identity, keys and the flags the counters read. */
  ghost predicate ItemInv(item: Item) {
    var a := item.a;
    && Represents(a.ex, item.from)
    && JoinKey(a.ex.traceID, a.ex.spanID) == a.key
    && 1 <= |a.consumedKeys| <= 2 && a.consumedKeys[0] == a.key
    && (|a.consumedKeys| == 2 ==> ClaimOf(a.ex) == Some(a.consumedKeys[1]))
    && (a.both ==> |a.ex.seenFrom| > 1)
    && (a.loggy ==> a.ex.seenFrom == ["logs"])
    && (!a.loggy ==> "traces" in a.ex.seenFrom)
    && a.parentsSuppressed == (if Suppresses(item) then 1 else 0)
  }

  /** A span of the parent key is folded into the record. */
  ghost predicate Suppresses(item: Item) {
    |item.a.consumedKeys| == 2 && SpanUnder(item.from, item.a.consumedKeys[1])
  }

  ghost predicate SpanUnder(signals: set<Signal>, key: Key) {
    exists s :: s in signals && s.key == key && KindOf(s.raw).Traces?
  }

  /** The signals of a record lie under its keys, and are neither late nor waiting. */
  ghost predicate FromInv(placed: History, item: Item) {
    forall s :: s in item.from ==>
      s in placed && s.key in item.a.consumedKeys && (placed[s].Active? || placed[s].Acked?)
  }

  /** How many accepted records are acknowledged. */
  function Done(m: Machine): int { if m.phase.Persisted? then |m.accepted| - 1 else |m.accepted| }

  ghost predicate RecordsInv(emitted: set<Key>, placed: History, accepted: seq<Item>, done: int) {
    && 0 <= done <= |accepted|
    && (forall i :: 0 <= i < |accepted| ==> ItemInv(accepted[i]) && FromInv(placed, accepted[i]))
    && (forall i, j :: 0 <= i < j < |accepted| ==> accepted[i].a.key != accepted[j].a.key)
    && (forall i, key :: 0 <= i < done && key in accepted[i].a.consumedKeys ==> key in emitted)
    && (forall i :: done <= i < |accepted| ==> accepted[i].a.key !in emitted)
    && (forall key :: key in emitted ==> exists i :: 0 <= i < done && key in accepted[i].a.consumedKeys)
    && (forall s :: s in placed && placed[s].Acked? ==>
          placed[s].record < done && s in accepted[placed[s].record].from)
  }

  ghost predicate InBatch(batch: seq<Item>, from: int, key: Key) {
    exists j :: from <= j < |batch| && 0 <= j && key in batch[j].a.consumedKeys
  }

  ghost predicate BatchInv(inFlight: set<Key>, emitted: set<Key>, placed: History, batch: seq<Item>, next: nat) {
    && next <= |batch|
    && (forall j :: 0 <= j < |batch| ==> ItemInv(batch[j]) && FromInv(placed, batch[j]))
    && (forall i, j :: 0 <= i < j < |batch| ==> batch[i].a.key != batch[j].a.key)
    && (forall j, key :: 0 <= j < next && key in batch[j].a.consumedKeys ==> key in emitted)
    && (forall key :: key in inFlight ==> InBatch(batch, next, key))
    && (forall j, key :: next <= j < |batch| && key in batch[j].a.consumedKeys ==> key in emitted || key in inFlight)
    && (forall j, s :: next <= j < |batch| && s in placed && placed[s].Active? && s.key in batch[j].a.consumedKeys ==>
          s in batch[j].from)
    && (forall i, j :: 0 <= i < |batch| && 0 <= j < |batch| && i != j && batch[i].a.key in batch[j].a.consumedKeys ==>
          OwnKeyOnly(batch[i]))
    && (forall j :: next <= j < |batch| && batch[j].a.key in emitted ==> OwnKeyOnly(batch[j]))
  }

  ghost predicate OwnKeyOnly(item: Item) { forall key :: key in item.a.consumedKeys ==> key == item.a.key }

  ghost predicate PhaseInv(m: Machine) {
    if m.phase.Idle? then m.p.inFlight == {}
    else
      && BatchInv(m.p.inFlight, m.p.emitted, m.placed, m.phase.batch, m.phase.next)
      && (!m.phase.Writing? ==> m.phase.next < |m.phase.batch|)
      && (m.phase.Persisted? ==> m.accepted != [] && m.accepted[|m.accepted| - 1] == m.phase.batch[m.phase.next])
  }

  datatype Shape = FromBoth | FromLogs | FromTraces | FromNothing

  /** Which signals a record says it was built from. */
  ghost function ShapeOf(ex: Execution): Shape {
    if ex.seenFrom == ["logs", "traces"] then FromBoth
    else if ex.seenFrom == ["logs"] then FromLogs
    else if ex.seenFrom == ["traces"] then FromTraces
    else FromNothing
  }

  datatype Tally = Tally(
    merged: nat, logOnly: nat, spanOnly: nat, correlated: nat, unattributed: nat, ambiguous: nat)

  /** Reference counts over acknowledged records, read off the records themselves. */
  ghost function TallyOf(records: seq<Item>): Tally {
    if records == [] then Tally(0, 0, 0, 0, 0, 0)
    else
      var t, ex := TallyOf(records[..|records| - 1]), records[|records| - 1].a.ex;
      Tally(
        t.merged + (if ShapeOf(ex).FromBoth? then 1 else 0),
        t.logOnly + (if ShapeOf(ex).FromLogs? then 1 else 0),
        t.spanOnly + (if ShapeOf(ex).FromTraces? then 1 else 0),
        t.correlated + (if ex.correlation.Correlated? then 1 else 0),
        t.unattributed + (if ex.correlation.Unattributed? then 1 else 0),
        t.ambiguous + (if ex.correlation.Ambiguous? then 1 else 0))
  }

  /** How many parent spans the records count as suppressed. */
  function SuppressedBy(records: seq<Item>): nat {
    if records == [] then 0
    else SuppressedBy(records[..|records| - 1]) + records[|records| - 1].a.parentsSuppressed
  }

  ghost predicate StatsInv(s: Stats, records: seq<Item>) {
    && s.emitted == |records| && s.parentsSuppressed == SuppressedBy(records)
    && TallyOf(records) ==
       Tally(s.emittedMerged, s.emittedLogOnly, s.emittedSpanOnly, s.correlated, s.unattributed, s.ambiguous)
  }

  ghost predicate SeenInv(m: Machine) {
    m.p.stats.logRecordsSeen + m.p.stats.spansSeen ==
      |m.transit| + m.p.stats.toolCallsIgnored + m.p.stats.unjoinableNoSpan + |m.placed|
  }

  function Written(items: seq<Item>): seq<Execution> {
    seq(|items|, i requires 0 <= i < |items| => items[i].a.ex)
  }

  ghost predicate FileInv(env: Env, m: Machine) {
    && Sink.Encodable(env, Written(m.accepted))
    && m.sink.file == m.base + Sink.Lines(env, Written(m.accepted)) + m.torn
    && (!m.sink.poisoned ==> m.torn == [])
    && (m.sink.poisoned ==>
          !m.phase.Persisted? && m.tornBy.Some? && env.encode(m.tornBy.value).Some? &&
          m.torn <= Sink.Line(env, m.tornBy.value))
  }

  ghost predicate Inv(env: Env, m: Machine) {
    && KeysInv(m.p, m.placed)
    && HistoryInv(m.p.stats.lateSignalsIgnored, m.placed)
    && RecordsInv(m.p.emitted, m.placed, m.accepted, Done(m))
    && PhaseInv(m)
    && 0 <= Done(m) <= |m.accepted| && StatsInv(m.p.stats, m.accepted[..Done(m)])
    && SeenInv(m)
    && FileInv(env, m)
  }
}
