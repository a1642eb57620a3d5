/** What a source's raw payloads and HTTP statuses cannot do to any run. */
module Privacy {
  import opened Text
  import opened Observation
  import opened Normalize
  import opened NormalizeLaws
  import opened MergeLaws
  import opened Processor
  import opened Machine
  import Sink

  /** The same signal but for the values of withheld attributes. */
  ghost predicate SameBut(a: RawSignal, b: RawSignal) {
    AgreeOutside(RawAttributes(a), RawAttributes(b)) &&
    match (a, b)
    case (RawLog(r), RawLog(s)) => s == r.(attributes := s.attributes)
    case (RawSpan(r), RawSpan(s)) => s == r.(attributes := s.attributes)
    case _ => false
  }

  /** The same section, with signals that differ in withheld values only. */
  ghost predicate SameEvent(e: Event, f: Event) {
    match (e, f)
    case (See(a), See(b)) => SameBut(a, b)
    case (Take(a, s), Take(b, t)) => SameBut(a, b) && s == t
    case _ => e == f
  }

  ghost predicate SameEvents(a: seq<Event>, b: seq<Event>) {
    |a| == |b| && forall i :: 0 <= i < |a| ==> SameEvent(a[i], b[i])
  }

  predicate SamePhase(a: Phase, b: Phase) {
    && a.Idle? == b.Idle? && a.Writing? == b.Writing? && a.Persisted? == b.Persisted?
    && a.Refused? == b.Refused? && a.Counted? == b.Counted?
    && (!a.Idle? ==> a.next == b.next && RecordsOf(a.batch) == RecordsOf(b.batch))
  }

  /** Everything but the history of signals is the same: the fields, the sink and its file, the
      records in hand and the records written. */
  ghost predicate SameOutside(m: Machine, n: Machine) {
    && m.p == n.p && m.sink == n.sink && m.base == n.base && m.torn == n.torn && m.tornBy == n.tornBy
    && SamePhase(m.phase, n.phase) && RecordsOf(m.accepted) == RecordsOf(n.accepted)
  }

  lemma SameNormalized(env: Env, a: RawSignal, b: RawSignal)
    requires SameBut(a, b)
    ensures NormalizeSignal(env, a) == NormalizeSignal(env, b) && KindOf(a) == KindOf(b) && a.RawLog? == b.RawLog?
  {
    hide AgreeOutside, AttributesOf, FromLogRecord, FromSpan;
    match (a, b)
    case (RawLog(r), RawLog(s)) => LogWithholdsPayload(env, r, s.attributes);
    case (RawSpan(r), RawSpan(s)) => SpanWithholdsPayload(r, s.attributes);
  }

  lemma SameTake(env: Env, m: Machine, n: Machine, a: RawSignal, b: RawSignal, now: Instant)
    requires SameOutside(m, n) && SameBut(a, b)
    ensures SameOutside(TakeStep(env, m, a, now), TakeStep(env, n, b, now))
  {
    hide NormalizeSignal, BufferStep, SameBut, PlaceFor, RecordsOf;
    SameNormalized(env, a, b);
  }

  lemma RecordAt(items: seq<Item>, others: seq<Item>, i: nat)
    requires RecordsOf(items) == RecordsOf(others) && i < |items|
    ensures |others| == |items| && others[i].a == items[i].a
  {
    assert |RecordsOf(items)| == |items| && |RecordsOf(others)| == |others|;
    assert RecordsOf(items)[i] == items[i].a && RecordsOf(others)[i] == others[i].a;
  }

  lemma RecordsGrow(items: seq<Item>, others: seq<Item>, x: Item, y: Item)
    requires RecordsOf(items) == RecordsOf(others) && x.a == y.a
    ensures RecordsOf(items + [x]) == RecordsOf(others + [y])
  {
    assert RecordsOf(items + [x]) == RecordsOf(items) + [x.a] && RecordsOf(others + [y]) == RecordsOf(others) + [y.a];
  }

  lemma RecordsLeft(items: seq<Item>, others: seq<Item>, next: nat)
    requires RecordsOf(items) == RecordsOf(others) && next <= |items|
    ensures |others| == |items| && RecordsOf(items[next..]) == RecordsOf(others[next..])
  {
    assert |RecordsOf(items)| == |items| && |RecordsOf(others)| == |others|;
    assert RecordsOf(items[next..]) == RecordsOf(items)[next..];
    assert RecordsOf(others[next..]) == RecordsOf(others)[next..];
  }

  lemma SameWrite(env: Env, m: Machine, n: Machine, weather: Sink.Weather)
    requires SameOutside(m, n) && Enabled(m, Write(weather)) && Enabled(n, Write(weather))
    ensures SameOutside(WriteMachine(env, m, weather), WriteMachine(env, n, weather))
  {
    hide Sink.WriteStep, RecordsOf;
    RecordAt(m.phase.batch, n.phase.batch, m.phase.next);
    RecordsGrow(m.accepted, n.accepted, m.phase.batch[m.phase.next], n.phase.batch[m.phase.next]);
  }

  lemma SameStep(env: Env, m: Machine, n: Machine, e: Event, f: Event)
    requires SameOutside(m, n) && SameEvent(e, f) && Enabled(m, e) && Enabled(n, f)
    ensures SameOutside(Step(env, m, e), Step(env, n, f))
  {
    hide TakeStep, WriteMachine, RecordsOf, BatchOf, Acknowledge, RestoreKeys, KeysOfBatch, IsClaimMap, IsReadyList,
      SameBut,
      AckPlaces, PromotePlaces, Reserve;
    match e
    case See(raw) => SameNormalized(env, raw, f.raw);
    case Take(raw, now) => SameTake(env, m, n, raw, f.raw, now);
    case Begin(_, childOf, ready) => SameSnapshot(m, n, BatchOf(m.p, childOf, ready));
    case Write(weather) => SameWrite(env, m, n, weather);
    case Ack => RecordAt(m.phase.batch, n.phase.batch, m.phase.next);
    case Restore => RecordsLeft(m.phase.batch, n.phase.batch, m.phase.next);
    case _ =>
  }

  lemma SameSnapshot(m: Machine, n: Machine, batch: seq<Assembled>)
    ensures RecordsOf(ItemsOf(m.placed, batch)) == batch == RecordsOf(ItemsOf(n.placed, batch))
  {
    hide LiveUnder;
  }

  lemma {:induction false} SameRun(env: Env, m: Machine, n: Machine, events: seq<Event>, others: seq<Event>)
    requires SameOutside(m, n) && SameEvents(events, others) && Runs(env, m, events) && Runs(env, n, others)
    ensures SameOutside(End(env, m, events), End(env, n, others))
    decreases |events|
  {
    hide SameOutside, SameEvent, Step, Enabled;
    if events != [] {
      SameStep(env, m, n, events[0], others[0]);
      SameRun(env, Step(env, m, events[0]), Step(env, n, others[0]), events[1..], others[1..]);
    }
  }

  /** Nothing withheld leaves the bridge: two runs from the same start whose telemetry differs only
      in HTTP status values and raw argument and result texts, agreeing on which are empty, end with
      the same buffer and counters, the same written records and the same file. */
  lemma PayloadsNeverShow(env: Env, start: Machine, events: seq<Event>, others: seq<Event>)
    requires Init(start) && SameEvents(events, others) && Runs(env, start, events) && Runs(env, start, others)
    ensures var m, n := End(env, start, events), End(env, start, others);
      m.p == n.p && m.sink == n.sink && RecordsOf(m.accepted) == RecordsOf(n.accepted)
  {
    hide Runs, End, SameEvents, RecordsOf;
    SameRun(env, start, start, events, others);
  }
}
