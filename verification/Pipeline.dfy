/** The processor, its sink and the assembler that drives them, as they run. A ghost machine
    takes the same atomic sections; Valid says that the objects are where it is, so everything
    proved of reachable machines holds of them. */
module Pipeline {
  import opened Text
  import opened Observation
  import opened Normalize
  import opened MergeLaws
  import opened Processor
  import opened Machine
  import opened BufferProofs
  import opened StepProofs
  import opened Guarantees
  import opened RunLaws
  import opened Drain
  import Sink

  /** A signal and the time at which buffer reads the clock for it. */
  datatype Delivery = Delivery(raw: RawSignal, now: Instant)

  // ---------------------------------------------------------------- sections as steps

  lemma ConsumeIsTwoSteps(env: Env, m: Machine, raw: RawSignal, now: Instant)
    ensures Enabled(m, See(raw)) && Enabled(Step(env, m, See(raw)), Take(raw, now))
    ensures var n, seen := Step(env, Step(env, m, See(raw)), Take(raw, now)), m.p.(stats := CountSeen(m.p.stats, raw));
      && n.phase == m.phase && n.sink == m.sink && n.accepted == m.accepted
      && n.p == match NormalizeSignal(env, raw)
                case None => seen.(stats := seen.stats.(toolCallsIgnored := seen.stats.toolCallsIgnored + 1))
                case Some(ex) => BufferStep(seen, ex, KindOf(raw), now)
  {
    hide NormalizeSignal, BufferStep, PlaceFor, JoinKey;
  }

  lemma DuringBoth(a: seq<Event>, b: seq<Event>)
    requires AllDuringBatch(a) && AllDuringBatch(b)
    ensures AllDuringBatch(a + b)
  {}

  lemma SnapshotIsBegin(env: Env, m: Machine, cutoff: Option<Instant>, childOf: map<Key, Key>, ready: seq<Key>)
    requires m.phase.Idle? && IsClaimMap(m.p.active.spans, childOf) && IsReadyList(m.p, cutoff, ready)
    ensures Enabled(m, Begin(cutoff, childOf, ready))
    ensures var n, batch := Step(env, m, Begin(cutoff, childOf, ready)), BatchOf(m.p, childOf, ready);
      && n == BeginStep(m, childOf, ready) && n.p == Reserve(m.p, batch) && n.sink == m.sink
      && n.phase == Writing(ItemsOf(m.placed, batch), 0) && RecordsOf(ItemsOf(m.placed, batch)) == batch
  {
    hide BatchOf, LiveUnder, IsClaimMap, IsReadyList, Reserve;
    var batch := BatchOf(m.p, childOf, ready);
    assert RecordsOf(ItemsOf(m.placed, batch)) == batch;
  }

  lemma RestoreIsStep(env: Env, m: Machine, records: seq<Assembled>)
    requires m.phase.Counted? && m.phase.next <= |m.phase.batch| && RecordsOf(m.phase.batch) == records
    ensures Enabled(m, Restore)
    ensures var n := Step(env, m, Restore);
      && n.p == RestoreKeys(m.p, KeysOfBatch(records[m.phase.next..])) && n.phase == Idle && n.sink == m.sink
  {
    hide RestoreKeys, KeysOfBatch, PromotePlaces;
    assert RecordsOf(m.phase.batch[m.phase.next..]) == records[m.phase.next..];
  }

  lemma WriteIsStep(env: Env, m: Machine, weather: Sink.Weather)
    requires Enabled(m, Write(weather))
    ensures var n := Step(env, m, Write(weather));
      var o := Sink.WriteStep(env, m.sink, m.phase.batch[m.phase.next].a.ex, weather);
      && n.p == m.p && n.sink == o.state
      && n.phase == (if o.ok then Persisted(m.phase.batch, m.phase.next) else Refused(m.phase.batch, m.phase.next))
      && (o.ok ==> n.accepted != [])
  {
    hide Sink.WriteStep;
  }

  lemma RefusalIsStep(env: Env, m: Machine)
    requires m.phase.Refused?
    ensures Enabled(m, CountRefusal)
    ensures Step(env, m, CountRefusal) == m.(p := CountFailure(m.p), phase := Counted(m.phase.batch, m.phase.next))
  {}

  lemma AckIsStep(env: Env, m: Machine)
    requires m.phase.Persisted? && m.phase.next < |m.phase.batch| && m.accepted != []
    ensures Enabled(m, Ack)
    ensures var n := Step(env, m, Ack);
      && n.p == Acknowledge(m.p, m.phase.batch[m.phase.next].a) && n.sink == m.sink
      && n.phase == Writing(m.phase.batch, m.phase.next + 1)
  {
    hide Acknowledge, AckPlaces;
  }

  // ---------------------------------------------------------------- the objects

  class Bridge {
    const env: Env
    const processor: Processor
    const sink: Sink.JSONL
    ghost var machine: Machine

    ghost predicate Valid()
      reads this, processor, sink, sink.f
    {
      && machine.p == processor.Current() && machine.sink == sink.Snapshot()
      && Reachable(env, machine)
    }

    /** NewProcessor, SetObserver and NewJSONL, as the bridge starts up. */
    constructor (env: Env, file: Sink.AppendFile, observerID: string, observerVersion: string)
      ensures Valid() && Init(machine) && this.env == env
      ensures processor.observerID == observerID && processor.observerVersion == observerVersion
      ensures fresh(processor) && fresh(sink) && sink.f == file && machine.base == file.data
    {
      this.env := env;
      var p := new Processor();
      p.SetObserver(observerID, observerVersion);
      processor := p;
      sink := new Sink.JSONL(file);
      machine := Machine(Fresh().(observerID := observerID, observerVersion := observerVersion), Idle,
                         Sink.State(file.data, false), multiset{}, file.data, [], None, map[], []);
      new;
      assert Init(machine);
      assert Runs(env, machine, []) && End(env, machine, []) == machine;
    }

    /** One turn of the loop in ConsumeLogRecords or ConsumeSpans. */
    method Consume(delivery: Delivery) returns (ghost events: seq<Event>)
      requires Valid()
      modifies processor, this`machine
      ensures Valid() && Leads(env, old(machine), events, machine) && AllDuringBatch(events)
      ensures events == [See(delivery.raw), Take(delivery.raw, delivery.now)]
      ensures machine.phase == old(machine.phase) && machine.accepted == old(machine.accepted)
    {
      hide Step, Enabled, Reachable, Leads, NormalizeSignal, BufferStep, Runs, End;
      ghost var before := machine;
      events := [See(delivery.raw), Take(delivery.raw, delivery.now)];
      ConsumeIsTwoSteps(env, before, delivery.raw, delivery.now);
      LeadsByTwo(env, before, events[0], events[1]);
      processor.stats := CountSeen(processor.stats, delivery.raw);
      var normalized := NormalizeSignal(env, delivery.raw);
      if normalized.None? {
        processor.stats := processor.stats.(toolCallsIgnored := processor.stats.toolCallsIgnored + 1);
      } else {
        processor.Buffer(normalized.value, KindOf(delivery.raw), delivery.now);
      }
      machine := Step(env, Step(env, before, events[0]), events[1]);
      ReachableOn(env, before, events, machine);
    }

    /** Everything that arrives during one write. */
    method ConsumeAll(deliveries: seq<Delivery>) returns (ghost events: seq<Event>)
      requires Valid()
      modifies processor, this`machine
      ensures Valid() && Leads(env, old(machine), events, machine) && AllDuringBatch(events)
      ensures machine.phase == old(machine.phase) && machine.accepted == old(machine.accepted)
    {
      hide Reachable, Step, Enabled;
      ghost var before := machine;
      events := [];
      for i := 0 to |deliveries|
        invariant Valid() && Leads(env, before, events, machine) && AllDuringBatch(events)
        invariant machine.phase == before.phase && machine.accepted == before.accepted
      {
        ghost var mid := machine;
        ghost var more := Consume(deliveries[i]);
        LeadsOn(env, before, events, mid, more, machine);
        DuringBoth(events, more);
        events := events + more;
      }
    }

    /** emit: write one record with the mutex released, while signals arrive; then acknowledge
        it, or count the failure. A record whose key is already final is not written again. */
    method Emit(a: Assembled, weather: Sink.Weather, meanwhile: seq<Delivery>)
      returns (ok: bool, ghost events: seq<Event>)
      requires Valid() && machine.phase.Writing? && machine.phase.next < |machine.phase.batch|
      requires machine.phase.batch[machine.phase.next].a == a
      modifies processor, this`machine, sink, sink.f
      ensures Valid() && Leads(env, old(machine), events, machine) && AllDuringBatch(events)
      ensures var batch, next := old(machine.phase.batch), old(machine.phase.next);
        machine.phase == if ok then Writing(batch, next + 1) else Counted(batch, next)
    {
      hide Reachable, Leads, Runs, End, WriteMachine, AckStep, Acknowledge, TakeStep, BeginStep, RestoreStep,
        Sink.WriteStep;
      ghost var before := machine;
      if a.key in processor.emitted {
        LeadsByOne(env, before, Skip);
        machine := Step(env, before, Skip);
        ReachableOn(env, before, [Skip], machine);
        return true, [Skip];
      }
      WriteIsStep(env, before, weather);
      LeadsByOne(env, before, Write(weather));
      ok := sink.Write(env, a.ex, weather);
      machine := Step(env, before, Write(weather));
      ghost var written := machine;
      ReachableOn(env, before, [Write(weather)], written);
      hide Enabled, Step;
      ghost var more := ConsumeAll(meanwhile);
      LeadsOn(env, before, [Write(weather)], written, more, machine);
      DuringBoth([Write(weather)], more);
      events := [Write(weather)] + more;
      ghost var mid := machine;
      ghost var e := Conclude(a, ok);
      LeadsOn(env, before, events, mid, [e], machine);
      DuringBoth(events, [e]);
      events := events + [e];
    }

    /** The section of emit after the write. */
    method Conclude(a: Assembled, ok: bool) returns (ghost e: Event)
      requires Valid() && (if ok then machine.phase.Persisted? && machine.accepted != [] else machine.phase.Refused?)
      requires machine.phase.next < |machine.phase.batch| && machine.phase.batch[machine.phase.next].a == a
      modifies processor, this`machine
      ensures Valid() && Leads(env, old(machine), [e], machine) && AllDuringBatch([e])
      ensures var batch, next := old(machine.phase.batch), old(machine.phase.next);
        machine.phase == if ok then Writing(batch, next + 1) else Counted(batch, next)
    {
      hide Reachable, Leads, Step, Enabled, Acknowledge;
      ghost var before := machine;
      if ok {
        processor.AcknowledgeRecord(a);
        AckIsStep(env, before);
        e := Ack;
      } else {
        processor.stats := processor.stats.(sinkWriteFailures := processor.stats.sinkWriteFailures + 1);
        RefusalIsStep(env, before);
        e := CountRefusal;
      }
      LeadsByOne(env, before, e);
      machine := Step(env, before, e);
      ReachableOn(env, before, [e], machine);
    }

    /** assemble: snapshot and reserve what is ready, write it record by record, and roll every
        unwritten record back at the first failure. What the environment does while record i is
        written comes in: the weather the sink meets and the signals that arrive. Out come the
        choices the run made. */
    method Assemble(cutoff: Option<Instant>, weather: nat -> Sink.Weather, meanwhile: nat -> seq<Delivery>)
      returns (ok: bool, childOf: map<Key, Key>, ready: seq<Key>, ghost rest: seq<Event>, ghost last: Machine)
      requires Valid() && machine.phase.Idle?
      modifies processor, this`machine, sink, sink.f
      ensures Valid() && machine.phase.Idle?
      ensures Assembly(env, old(machine), cutoff, childOf, ready, rest, last, ok, machine)
    {
      hide Reachable, Leads, Assembly, Enabled, Step, BeginStep, BatchOf, IsClaimMap, IsReadyList, RecordsOf,
        RestoreKeys, KeysOfBatch, ItemsOf, AllDuringBatch;
      ghost var before := machine;
      var out;
      out, childOf, ready := processor.Snapshot(cutoff);
      SnapshotIsBegin(env, before, cutoff, childOf, ready);
      ghost var begin := Begin(cutoff, childOf, ready);
      LeadsByOne(env, before, begin);
      machine := Step(env, before, begin);
      ghost var begun := machine;
      ReachableOn(env, before, [begin], begun);
      rest, ok := [], true;
      StandStill(env, begun);
      var i := 0;
      while i < |out|
        invariant 0 <= i <= |out| && Valid() && Leads(env, begun, rest, machine) && AllDuringBatch(rest)
        invariant machine.phase == Writing(begun.phase.batch, i) && RecordsOf(begun.phase.batch) == out
      {
        RecordAt(begun.phase.batch, i);
        ghost var mid := machine;
        ghost var more;
        ok, more := Emit(out[i], weather(i), meanwhile(i));
        LeadsOn(env, begun, rest, mid, more, machine);
        DuringBoth(rest, more);
        rest := rest + more;
        if !ok { break; }
        i := i + 1;
      }
      last := machine;
      RecordCount(begun.phase.batch);
      if ok {
        FinishIsStep(env, last);
        machine := Step(env, last, Finish);
        LeadsByOne(env, last, Finish);
        ReachableOn(env, last, [Finish], machine);
      } else {
        processor.RestoreReserved(out[i..]);
        RestoreIsStep(env, last, out);
        machine := Step(env, last, Restore);
        LeadsByOne(env, last, Restore);
        ReachableOn(env, last, [Restore], machine);
      }
      AssemblyRan(env, before, cutoff, childOf, ready, rest, last, ok, machine);
    }

    /** Flush: assemble everything still buffered. If every write succeeds and nothing arrives,
        nothing stays buffered, unless a claiming client span is itself claimed. */
    method Flush(weather: nat -> Sink.Weather, meanwhile: nat -> seq<Delivery>) returns (ok: bool)
      requires Valid() && machine.phase.Idle?
      modifies processor, this`machine, sink, sink.f
      ensures Valid() && machine.phase.Idle?
      ensures ok && machine.placed.Keys == old(machine.placed.Keys) && NoChains(old(processor.spans)) ==>
        processor.firstSeen == map[] && processor.spans == map[] && processor.logs == map[]
    {
      hide Reachable, Assembly, NoChains;
      ghost var before := machine;
      var childOf, ready;
      ghost var rest, last;
      ok, childOf, ready, rest, last := Assemble(None, weather, meanwhile);
      if ok && machine.placed.Keys == before.placed.Keys && NoChains(before.p.active.spans) {
        FlushedBuffer(env, before, childOf, ready, rest, last, machine);
      }
    }

    /** assembleExpired: assemble what has waited longer than maxWait. If every write succeeds and
        the clock does not run backwards, whatever is still buffered from before the cutoff is
        claimed by a buffered client span that is not, unless a claiming span is itself claimed.
        Whether they succeed or not, what was first seen since the cutoff stays as it is, unless an
        older client span names it. */
    method AssembleExpired(now: Instant, maxWait: Instant,
                           weather: nat -> Sink.Weather, meanwhile: nat -> seq<Delivery>)
      returns (ok: bool)
      requires Valid() && machine.phase.Idle?
      modifies processor, this`machine, sink, sink.f
      ensures Valid() && machine.phase.Idle?
      ensures maxWait <= 0 ==> ok && machine == old(machine)
      ensures ok && maxWait > 0 && NoChains(old(processor.spans)) && Since(old(machine), machine, now - maxWait) ==>
        NothingStale(processor.Current(), now - maxWait)
      ensures maxWait > 0 ==> FreshStays(old(processor.Current()), processor.Current(), now - maxWait)
    {
      hide Reachable, Assembly, NoChains, NothingStale, FreshStays;
      if maxWait <= 0 { return true; }
      ghost var before := machine;
      var childOf, ready;
      ghost var rest, last;
      ok, childOf, ready, rest, last := Assemble(Some(now - maxWait), weather, meanwhile);
      FreshBuffer(env, before, now - maxWait, childOf, ready, rest, last, ok, machine);
      if ok && NoChains(before.p.active.spans) && Since(before, machine, now - maxWait) {
        ExpiredBuffer(env, before, now - maxWait, childOf, ready, rest, last, machine);
      }
    }
  }

  lemma StandStill(env: Env, m: Machine)
    ensures Leads(env, m, [], m) && AllDuringBatch([])
  {}

  lemma RecordAt(items: seq<Item>, i: nat)
    requires i < |RecordsOf(items)|
    ensures i < |items| && items[i].a == RecordsOf(items)[i]
  {}

  lemma FinishIsStep(env: Env, m: Machine)
    requires m.phase.Writing? && m.phase.next == |m.phase.batch|
    ensures Enabled(m, Finish)
    ensures Step(env, m, Finish) == m.(phase := Idle)
  {}

  /** What one assembly did, as a run of the machine from m to n: the snapshot, then the sections
      of rest up to the state last, and then the end of the batch or its roll-back. */
  ghost predicate Assembly(env: Env, m: Machine, cutoff: Option<Instant>, childOf: map<Key, Key>, ready: seq<Key>,
                           rest: seq<Event>, last: Machine, ok: bool, n: Machine) {
    && Enabled(m, Begin(cutoff, childOf, ready)) && AllDuringBatch(rest)
    && Leads(env, Step(env, m, Begin(cutoff, childOf, ready)), rest, last)
    && var e := if ok then Finish else Restore; Enabled(last, e) && n == Step(env, last, e)
  }

  lemma AssemblyRan(env: Env, m: Machine, cutoff: Option<Instant>, childOf: map<Key, Key>, ready: seq<Key>,
                    rest: seq<Event>, last: Machine, ok: bool, n: Machine)
    requires Enabled(m, Begin(cutoff, childOf, ready)) && AllDuringBatch(rest)
    requires Leads(env, Step(env, m, Begin(cutoff, childOf, ready)), rest, last)
    requires Enabled(last, if ok then Finish else Restore) && n == Step(env, last, if ok then Finish else Restore)
    ensures Assembly(env, m, cutoff, childOf, ready, rest, last, ok, n)
  {
    hide Enabled, Step, Leads, AllDuringBatch;
  }

  /** A successful assembly is a complete one. */
  lemma AssemblyCompletes(env: Env, m: Machine, cutoff: Option<Instant>, childOf: map<Key, Key>, ready: seq<Key>,
                          rest: seq<Event>, last: Machine, n: Machine)
    requires Reachable(env, m) && Assembly(env, m, cutoff, childOf, ready, rest, last, true, n)
    ensures Completes(env, m, cutoff, childOf, ready, rest, last) && n == last.(phase := Idle)
  {
    hide BeginStep, Reachable, AllDuringBatch, Runs, End, IsReadyList, IsClaimMap;
    BeginIsStep(env, m, cutoff, childOf, ready);
  }

  lemma FlushedBuffer(env: Env, m: Machine, childOf: map<Key, Key>, ready: seq<Key>, rest: seq<Event>,
                      last: Machine, n: Machine)
    requires Reachable(env, m) && Assembly(env, m, None, childOf, ready, rest, last, true, n)
    requires n.placed.Keys == m.placed.Keys && NoChains(m.p.active.spans)
    ensures n.p.active == NOTHING
  {
    hide Completes, Reachable, Assembly, NoChains;
    AssemblyCompletes(env, m, None, childOf, ready, rest, last, n);
    FlushDrainsPairs(env, m, childOf, ready, rest, last);
  }

  /** Every signal buffered since m was buffered at or after the cutoff. */
  ghost predicate Since(m: Machine, n: Machine, cutoff: Instant) {
    forall s :: s in n.placed && s !in m.placed ==> s.time >= cutoff
  }

  /** Every key first seen before the cutoff waits for a buffered client span that was not. */
  ghost predicate NothingStale(p: Fields, cutoff: Instant) {
    forall key :: key in p.active.firstSeen && p.active.firstSeen[key] < cutoff ==>
      (exists child :: Claims(p.active.spans, child, key) && child in p.active.firstSeen &&
                       p.active.firstSeen[child] >= cutoff)
  }

  lemma ExpiredBuffer(env: Env, m: Machine, cutoff: Instant, childOf: map<Key, Key>, ready: seq<Key>, rest: seq<Event>,
                      last: Machine, n: Machine)
    requires Reachable(env, m) && Assembly(env, m, Some(cutoff), childOf, ready, rest, last, true, n)
    requires NoChains(m.p.active.spans) && Since(m, n, cutoff)
    ensures NothingStale(n.p, cutoff)
  {
    hide Completes, Reachable, Assembly, NoChains, Claims;
    AssemblyCompletes(env, m, Some(cutoff), childOf, ready, rest, last, n);
    forall key | key in n.p.active.firstSeen && n.p.active.firstSeen[key] < cutoff
      ensures (exists child :: Claims(n.p.active.spans, child, key) && child in n.p.active.firstSeen &&
                               n.p.active.firstSeen[child] >= cutoff)
    {
      StaleKeysAwaitFreshClaimants(env, m, cutoff, childOf, ready, rest, last, key);
      var child :| Claims(m.p.active.spans, child, key);
    }
  }

  /** Every key of p that is fresh, and that only fresh client spans name, is as it was in q. */
  ghost predicate FreshStays(p: Fields, q: Fields, cutoff: Instant) {
    forall key :: FreshKey(p, cutoff, key) ==> Untouched(p, q, key)
  }

  predicate Untouched(p: Fields, q: Fields, key: Key) {
    key !in q.emitted && key in p.active.firstSeen && SameSlot(p.active.firstSeen, q.active.firstSeen, key)
  }

  lemma FreshBuffer(env: Env, m: Machine, cutoff: Instant, childOf: map<Key, Key>, ready: seq<Key>, rest: seq<Event>,
                    last: Machine, ok: bool, n: Machine)
    requires Reachable(env, m) && Assembly(env, m, Some(cutoff), childOf, ready, rest, last, ok, n)
    ensures FreshStays(m.p, n.p, cutoff)
  {
    hide BeginStep, Reachable, AllDuringBatch, Runs, End, IsReadyList, IsClaimMap, FreshKey, Inv, Step;
    BeginIsStep(env, m, Some(cutoff), childOf, ready);
    var e := if ok then Finish else Restore;
    assert Assembling(env, m, Some(cutoff), childOf, ready, rest, last);
    hide Assembling;
    AssemblyKeepsBatch(env, m, Some(cutoff), childOf, ready, rest, last);
    EndKeepsFinal(env, last, e);
    hide Assembly, Enabled;
    forall key | FreshKey(m.p, cutoff, key) ensures Untouched(m.p, n.p, key) {
      FreshIsBuffered(m.p, cutoff, key);
      FreshKeysAreLeftAlone(env, m, cutoff, childOf, ready, rest, last, key);
      FirstSeenOverStep(env, last, e, key);
    }
  }

  lemma FreshIsBuffered(p: Fields, cutoff: Instant, key: Key)
    requires FreshKey(p, cutoff, key)
    ensures key in p.active.firstSeen
  {
    hide Claims;
  }

  lemma EndKeepsFinal(env: Env, m: Machine, e: Event)
    requires Enabled(m, e) && (e.Finish? || e.Restore?)
    ensures Step(env, m, e).p.emitted == m.p.emitted
  {
    hide RestoreKeys, KeysOfBatch, PromotePlaces;
    if e.Restore? { RestoreCountsNothing(m.p, KeysOfBatch(RecordsOf(m.phase.batch[m.phase.next..]))); }
  }

  lemma FirstSeenOverStep(env: Env, m: Machine, e: Event, key: Key)
    requires Inv(env, m) && Enabled(m, e) && key in m.p.active.firstSeen && key !in Step(env, m, e).p.emitted
    ensures key in Step(env, m, e).p.active.firstSeen
    ensures Step(env, m, e).p.active.firstSeen[key] == m.p.active.firstSeen[key]
  {
    hide Inv, Step, Enabled;
    LeadsByOne(env, m, e);
    FirstSeenStays(env, m, [e], key);
  }
}
