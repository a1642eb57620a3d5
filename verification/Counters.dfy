/** The counters of finalized keys and suppressed parents, in terms of the claim graph. */
module Counters {
  import opened Text
  import opened Observation
  import opened Normalize
  import opened MergeLaws
  import opened Processor
  import opened Machine
  import opened SnapshotProofs
  import opened StepProofs
  import opened Guarantees
  import opened RunLaws
  import opened Failures
  import Sink

  // ---------------------------------------------------------------- suppressed parents

  /** The parent key whose span the record folded in. */
  ghost function SuppressedParent(item: Item): Option<Key> {
    if Suppresses(item) then Some(item.a.consumedKeys[1]) else None
  }

  /** The parent keys whose spans some record folded in. */
  ghost function SuppressedParents(records: seq<Item>): set<Key> {
    if records == [] then {}
    else
      var init, last := SuppressedParents(records[..|records| - 1]), SuppressedParent(records[|records| - 1]);
      if last.Some? then init + {last.value} else init
  }

  /** No two records folded in spans of the same parent key. */
  ghost predicate SuppressedOnce(records: seq<Item>) {
    forall i, j :: 0 <= i < j < |records| && SuppressedParent(records[i]).Some? ==>
      SuppressedParent(records[i]) != SuppressedParent(records[j])
  }

  lemma {:induction false} SuppressedMember(records: seq<Item>, key: Key)
    ensures key in SuppressedParents(records) <==>
      exists i :: 0 <= i < |records| && SuppressedParent(records[i]) == Some(key)
  {
    hide SuppressedParent;
    if records != [] {
      var init, last := records[..|records| - 1], |records| - 1;
      SuppressedMember(init, key);
      if i :| 0 <= i < |init| && SuppressedParent(init[i]) == Some(key) {
        assert SuppressedParent(records[i]) == Some(key);
      }
      if i :| 0 <= i < |records| && SuppressedParent(records[i]) == Some(key) {
        assert i < last ==> SuppressedParent(init[i]) == Some(key);
      }
    }
  }

  lemma SuppressedOnceSnoc(init: seq<Item>, last: Item)
    ensures SuppressedOnce(init + [last]) <==>
      SuppressedOnce(init) &&
      (SuppressedParent(last).Some? ==> SuppressedParent(last).value !in SuppressedParents(init))
  {
    hide SuppressedParent, SuppressedParents;
    var records := init + [last];
    assert records[|init|] == last && forall i :: 0 <= i < |init| ==> records[i] == init[i];
    if SuppressedParent(last).Some? { SuppressedMember(init, SuppressedParent(last).value); }
    if SuppressedOnce(records) {
      forall i, j | 0 <= i < j < |init| && SuppressedParent(init[i]).Some?
        ensures SuppressedParent(init[i]) != SuppressedParent(init[j])
      {
        assert records[i] == init[i] && records[j] == init[j];
      }
      forall i | 0 <= i < |init| && SuppressedParent(init[i]).Some?
        ensures SuppressedParent(init[i]) != SuppressedParent(last)
      {
        assert records[i] == init[i];
      }
    } else if SuppressedOnce(init) {
      var i, j :| 0 <= i < j < |records| && SuppressedParent(records[i]).Some? &&
        SuppressedParent(records[i]) == SuppressedParent(records[j]);
      assert j == |init|;
    }
  }

  ghost predicate CountsItsParent(item: Item) {
    item.a.parentsSuppressed == if SuppressedParent(item).Some? then 1 else 0
  }

  lemma {:induction false} SuppressedCount(records: seq<Item>)
    requires forall i :: 0 <= i < |records| ==> CountsItsParent(records[i])
    ensures |SuppressedParents(records)| <= SuppressedBy(records)
    ensures |SuppressedParents(records)| == SuppressedBy(records) <==> SuppressedOnce(records)
  {
    if records != [] {
      hide SuppressedOnce, SuppressedParent;
      var init, last := records[..|records| - 1], records[|records| - 1];
      assert records == init + [last];
      forall i | 0 <= i < |init| ensures CountsItsParent(init[i]) { assert init[i] == records[i]; }
      SuppressedCount(init);
      SuppressedOnceSnoc(init, last);
      assert CountsItsParent(last);
    }
  }

  /** ParentsSuppressed is the number of acknowledged records that folded in a span of their parent,
      and the number of such parent keys exactly when no two records share one; else it is larger. */
  lemma ParentsSuppressedExactlyWhen(env: Env, m: Machine)
    requires Reachable(env, m)
    ensures 0 <= Done(m) <= |m.accepted|
    ensures var done, count := m.accepted[..Done(m)], m.p.stats.parentsSuppressed;
      && count == SuppressedBy(done)
      && (forall i :: 0 <= i < |done| ==> CountsItsParent(done[i]))
      && |SuppressedParents(done)| <= count
      && (|SuppressedParents(done)| == count <==> SuppressedOnce(done))
  {
    hide KeysInv, HistoryInv, PhaseInv, Reachable, FileInv, SeenInv, FromInv, TallyOf, SuppressedOnce,
      SuppressedParents,
      SuppressedBy, Represents, JoinKey, ClaimOf, Suppresses;
    ReachableStatesAreSound(env, m);
    var done := m.accepted[..Done(m)];
    forall i | 0 <= i < |done| ensures CountsItsParent(done[i]) { assert done[i] == m.accepted[i]; }
    SuppressedCount(done);
  }

  lemma ConsumedOnceIsSuppressedOnce(records: seq<Item>)
    requires ConsumedOnce(records)
    ensures SuppressedOnce(records)
  {
    hide SpanUnder;
    forall i, j | 0 <= i < j < |records| && SuppressedParent(records[i]).Some?
      ensures SuppressedParent(records[i]) != SuppressedParent(records[j])
    {
      assert records[i].a.consumedKeys[1] in records[i].a.consumedKeys;
      if SuppressedParent(records[j]).Some? { assert records[j].a.consumedKeys[1] in records[j].a.consumedKeys; }
    }
  }

  // ---------------------------------------------------------------- runs without shared parents

  /** A run in which no two client spans name one parent, and none names itself, whenever an
      assembly starts. */
  ghost predicate UnsharedRun(env: Env, m: Machine, events: seq<Event>)
    decreases events
  {
    events == [] ||
    (&& Enabled(m, events[0]) && (events[0].Begin? ==> Unshared(m.p.active.spans))
     && UnsharedRun(env, Step(env, m, events[0]), events[1..]))
  }

  /** Nothing is consumed twice, neither by the records written nor by those in hand. */
  ghost predicate OnceInv(m: Machine) {
    && ConsumedOnce(m.accepted)
    && (!m.phase.Idle? ==>
          && ConsumedOnce(m.phase.batch)
          && forall j, key :: m.phase.next <= j < |m.phase.batch| && key in m.phase.batch[j].a.consumedKeys ==>
               key !in m.p.emitted)
  }

  lemma BatchIsOnce(p: Fields, childOf: map<Key, Key>, ready: seq<Key>, batch: seq<Assembled>, items: seq<Item>)
    requires Unshared(p.active.spans) && IsClaimMap(p.active.spans, childOf) && Ascending(ready)
    requires batch == BatchOf(p, childOf, ready) && RecordsOf(items) == batch
    ensures ConsumedOnce(items)
  {
    hide BatchOf, AssembleKey, Claims, Ascending, Skipped, IsClaimMap, Less;
    BatchMembers(p, childOf, ready);
    forall i ensures 0 <= i < |items| ==> i < |batch| && items[i].a == batch[i] {
      if 0 <= i < |items| { assert RecordsOf(items)[i] == items[i].a; }
    }
    forall i, j, key | 0 <= i < j < |items| && key in items[i].a.consumedKeys ensures key !in items[j].a.consumedKeys {
      UnsharedPair(p, childOf, batch[i], batch[j], key);
    }
    forall i | 0 <= i < |items| && |items[i].a.consumedKeys| == 2
      ensures items[i].a.consumedKeys[0] != items[i].a.consumedKeys[1]
    {
      NotItsOwnParent(p, batch[i]);
    }
  }

  lemma NotItsOwnParent(p: Fields, a: Assembled)
    requires Unshared(p.active.spans) && AssembleKey(p, a.key) == Some(a) && |a.consumedKeys| == 2
    ensures a.consumedKeys[0] != a.consumedKeys[1]
  {
    hide AssembleKey, ClaimOf;
    AssembledKey(p, a.key);
    assert Claims(p.active.spans, a.key, a.consumedKeys[1]);
  }

  lemma BeginKeepsOnce(env: Env, m: Machine, childOf: map<Key, Key>, ready: seq<Key>)
    requires Inv(env, m) && OnceInv(m) && Unshared(m.p.active.spans)
    requires IsClaimMap(m.p.active.spans, childOf) && Ascending(ready)
    ensures OnceInv(BeginStep(m, childOf, ready))
  {
    hide KeysInv, HistoryInv, RecordsInv, StatsInv, FileInv, SeenInv, PhaseInv, BatchOf, ConsumedOnce, Unshared,
      Ascending,
      IsClaimMap, LiveUnder;
    var batch, n := BatchOf(m.p, childOf, ready), BeginStep(m, childOf, ready);
    assert RecordsOf(n.phase.batch) == batch;
    BatchIsOnce(m.p, childOf, ready, batch, n.phase.batch);
    BeginReserves(m.p, m.placed, childOf, ready, batch);
    BatchKeys(batch);
    forall j, key | 0 <= j < |n.phase.batch| && key in n.phase.batch[j].a.consumedKeys ensures key !in m.p.emitted {
      assert n.phase.batch[j].a == batch[j];
      StructureAt(m.p, m.placed, key);
    }
  }

  lemma WriteKeepsOnce(env: Env, m: Machine, weather: Sink.Weather)
    requires Inv(env, m) && Enabled(m, Write(weather)) && OnceInv(m)
    ensures OnceInv(WriteMachine(env, m, weather))
  {
    hide Inv, ConsumedOnce, Sink.WriteStep;
    var item := m.phase.batch[m.phase.next];
    if Sink.WriteStep(env, m.sink, item.a.ex, weather).ok {
      ItemOf(env, m);
      AcceptedAreFinal(env, m);
      WrittenOnce(m.accepted, m.phase.batch, m.phase.next, m.p.emitted);
    }
  }

  lemma ItemOf(env: Env, m: Machine)
    requires Inv(env, m) && !m.phase.Idle? && m.phase.next < |m.phase.batch|
    ensures 1 <= |m.phase.batch[m.phase.next].a.consumedKeys| <= 2
  {
    hide KeysInv, HistoryInv, RecordsInv, StatsInv, FileInv, SeenInv, FromInv, OwnKeyOnly, InBatch, Represents;
    assert ItemInv(m.phase.batch[m.phase.next]);
  }

  lemma AcceptedAreFinal(env: Env, m: Machine)
    requires Inv(env, m) && m.phase.Writing?
    ensures forall i, key :: 0 <= i < |m.accepted| && key in m.accepted[i].a.consumedKeys ==> key in m.p.emitted
  {
    hide KeysInv, HistoryInv, StatsInv, FileInv, SeenInv, PhaseInv, ItemInv, FromInv;
  }

  lemma WrittenOnce(accepted: seq<Item>, batch: seq<Item>, next: nat, emitted: set<Key>)
    requires ConsumedOnce(accepted) && ConsumedOnce(batch) && next < |batch|
    requires forall i, key :: 0 <= i < |accepted| && key in accepted[i].a.consumedKeys ==> key in emitted
    requires forall key :: key in batch[next].a.consumedKeys ==> key !in emitted
    ensures ConsumedOnce(accepted + [batch[next]])
  {
    var more := accepted + [batch[next]];
    assert more[|accepted|] == batch[next] && forall i :: 0 <= i < |accepted| ==> more[i] == accepted[i];
  }

  lemma AckKeepsOnce(m: Machine)
    requires Enabled(m, Ack) && OnceInv(m)
    ensures OnceInv(AckStep(m))
  {
    hide AckKeys, AckPlaces;
    AckKeysFinalize(m.p, m.phase.batch[m.phase.next].a.consumedKeys);
  }

  lemma OnceStep(env: Env, m: Machine, e: Event)
    requires Inv(env, m) && Enabled(m, e) && OnceInv(m) && (e.Begin? ==> Unshared(m.p.active.spans))
    ensures OnceInv(Step(env, m, e))
  {
    hide Inv, OnceInv, Unshared, WriteMachine, AckStep, TakeStep, RestoreStep, BeginStep, IsClaimMap;
    if e.Begin? {
      BeginKeepsOnce(env, m, e.childOf, e.ready);
    } else if e.Write? {
      WriteKeepsOnce(env, m, e.weather);
    } else if e.Ack? {
      AckKeepsOnce(m);
    } else {
      OtherKeepsOnce(env, m, e);
    }
  }

  lemma OtherKeepsOnce(env: Env, m: Machine, e: Event)
    requires Enabled(m, e) && OnceInv(m) && !e.Begin? && !e.Write? && !e.Ack?
    ensures OnceInv(Step(env, m, e))
  {
    hide ConsumedOnce, NormalizeSignal, BufferStep, PlaceFor, RestoreKeys, KeysOfBatch, RecordsOf, PromotePlaces;
    if e.Take? && NormalizeSignal(env, e.raw).Some? {
      BufferLeavesRest(m.p, NormalizeSignal(env, e.raw).value, KindOf(e.raw), e.now);
    }
  }

  lemma {:induction false} OnceRun(env: Env, m: Machine, events: seq<Event>)
    requires Inv(env, m) && OnceInv(m) && UnsharedRun(env, m, events)
    ensures Runs(env, m, events) && OnceInv(End(env, m, events))
    decreases events
  {
    hide Inv, OnceInv, Unshared, Step, Enabled;
    if events != [] {
      StepKeeps(env, m, events[0]);
      OnceStep(env, m, events[0]);
      OnceRun(env, Step(env, m, events[0]), events[1..]);
    }
  }

  lemma OncePrefix(records: seq<Item>, n: nat)
    requires ConsumedOnce(records) && n <= |records|
    ensures ConsumedOnce(records[..n])
  {
    forall i | 0 <= i < n ensures records[..n][i] == records[i] {}
  }

  /** If no two client spans ever name one parent, and none names itself, when an assembly starts,
      the counters add up: the finalized keys are the emitted records and the parents they consumed,
      and ParentsSuppressed is the number of parent keys whose spans were folded in. */
  lemma UnsharedCountersAddUp(env: Env, start: Machine, events: seq<Event>)
    requires Init(start) && UnsharedRun(env, start, events)
    ensures Runs(env, start, events)
    ensures var m := End(env, start, events);
      && 0 <= Done(m) <= |m.accepted|
      && |m.p.emitted| == m.p.stats.emitted + ParentsConsumed(m.accepted[..Done(m)])
      && m.p.stats.parentsSuppressed == |SuppressedParents(m.accepted[..Done(m)])|
  {
    hide Inv, Step, Enabled, UnsharedRun, ConsumedOnce, SuppressedOnce, ParentsConsumed, SuppressedParents,
      SuppressedBy,
      CountsItsParent;
    InitHolds(env, start);
    StartsOnce(start);
    OnceRun(env, start, events);
    var m := End(env, start, events);
    assert Reachable(env, m);
    hide Init, Runs, End, Reachable;
    FinalizedKeysAddUp(env, m);
    ParentsSuppressedExactlyWhen(env, m);
    OncePrefix(m.accepted, Done(m));
    ConsumedOnceIsSuppressedOnce(m.accepted[..Done(m)]);
  }

  lemma StartsOnce(start: Machine)
    requires Init(start)
    ensures OnceInv(start)
  {}

  // ---------------------------------------------------------------- counters of events

  /** The write in hand is accepted: the sink is usable, the record encodes and its line is taken. */
  ghost predicate IsAccepted(env: Env, m: Machine, weather: Sink.Weather)
    requires m.phase.Writing? && m.phase.next < |m.phase.batch|
  {
    var ex := m.phase.batch[m.phase.next].a.ex;
    !m.sink.poisoned && env.encode(ex).Some? && Sink.Takes(weather, Sink.Line(env, ex))
  }

  predicate LacksAnID(ex: Execution) { Blank(ex.traceID) || Blank(ex.spanID) }

  datatype EventTally = EventTally(logs: nat, spans: nat, ignored: nat, unjoinable: nat, refused: nat)

  /** What happened over a run: logs and spans seen, signals taken up that do not normalize, others that
      lack an id, and writes the sink did not accept. */
  ghost function TallyRun(env: Env, m: Machine, events: seq<Event>): EventTally
    requires Runs(env, m, events)
    decreases events
  {
    if events == [] then EventTally(0, 0, 0, 0, 0)
    else
      var e, t := events[0], TallyRun(env, Step(env, m, events[0]), events[1..]);
      match e
      case See(raw) => if raw.RawLog? then t.(logs := t.logs + 1) else t.(spans := t.spans + 1)
      case Take(raw, _) =>
        var ex := NormalizeSignal(env, raw);
        if ex.None? then t.(ignored := t.ignored + 1)
        else if LacksAnID(ex.value) then t.(unjoinable := t.unjoinable + 1)
        else t
      case Write(weather) => if IsAccepted(env, m, weather) then t else t.(refused := t.refused + 1)
      case _ => t
  }

  /** The counters of events, with a failure not yet counted already in. */
  function EventCounters(m: Machine): EventTally {
    var s := m.p.stats;
    EventTally(s.logRecordsSeen, s.spansSeen, s.toolCallsIgnored, s.unjoinableNoSpan,
               s.sinkWriteFailures + if m.phase.Refused? then 1 else 0)
  }

  lemma AckKeysCountLate(p: Fields, keys: seq<Key>)
    ensures var late := AckKeys(p, keys).stats.lateSignalsIgnored;
      AckKeys(p, keys).stats == p.stats.(lateSignalsIgnored := late)
  {
    if keys != [] { AckKeysCountLate(p, keys[..|keys| - 1]); }
  }

  lemma TakeCounts(env: Env, m: Machine, raw: RawSignal, now: Instant)
    ensures var s, t, ex := m.p.stats, TakeStep(env, m, raw, now).p.stats, NormalizeSignal(env, raw);
      && t.toolCallsIgnored == s.toolCallsIgnored + (if ex.None? then 1 else 0)
      && t.unjoinableNoSpan == s.unjoinableNoSpan + (if ex.Some? && LacksAnID(ex.value) then 1 else 0)
      && t.logRecordsSeen == s.logRecordsSeen && t.spansSeen == s.spansSeen
      && t.sinkWriteFailures == s.sinkWriteFailures && TakeStep(env, m, raw, now).phase == m.phase
  {
    hide NormalizeSignal, PlaceFor, Arrival, JoinKey, Admit, Stamp;
    if NormalizeSignal(env, raw).Some? {
      var ex := NormalizeSignal(env, raw).value;
      JoinKeyNeedsBothIDs(ex.traceID, ex.spanID);
    }
  }

  lemma AssemblerCounts(env: Env, m: Machine, e: Event)
    requires Enabled(m, e) && !e.See? && !e.Take? && !e.Write?
    ensures EventCounters(Step(env, m, e)) == EventCounters(m)
  {
    hide BatchOf, AckKeys, RestoreKeys, ItemsOf, IsClaimMap, IsReadyList, AckPlaces, PromotePlaces, KeysOfBatch,
      RecordsOf;
    if e.Ack? { AckKeysCountLate(m.p, m.phase.batch[m.phase.next].a.consumedKeys); }
    if e.Restore? { RestoreCountsNothing(m.p, KeysOfBatch(RecordsOf(m.phase.batch[m.phase.next..]))); }
  }

  lemma WriteCounts(env: Env, m: Machine, weather: Sink.Weather)
    requires Enabled(m, Write(weather))
    ensures var t, u := EventCounters(m), EventCounters(Step(env, m, Write(weather)));
      u == t.(refused := t.refused + if IsAccepted(env, m, weather) then 0 else 1)
  {
    Sink.WriteSucceedsExactlyWhen(env, m.sink, m.phase.batch[m.phase.next].a.ex, weather);
    hide Sink.WriteStep, Sink.Takes;
  }

  lemma {:induction false} CountersFollow(env: Env, m: Machine, events: seq<Event>)
    requires Runs(env, m, events)
    ensures var t, u, n := EventCounters(m), TallyRun(env, m, events), EventCounters(End(env, m, events));
      n == EventTally(t.logs + u.logs, t.spans + u.spans, t.ignored + u.ignored, t.unjoinable + u.unjoinable,
                      t.refused + u.refused)
    decreases events
  {
    hide Enabled, Step, EventCounters, IsAccepted, LacksAnID, NormalizeSignal;
    if events != [] {
      var e := events[0];
      CountersFollow(env, Step(env, m, e), events[1..]);
      StepCounts(env, m, e);
    }
  }

  lemma StepCounts(env: Env, m: Machine, e: Event)
    requires Enabled(m, e)
    ensures var t, u := EventCounters(m), EventCounters(Step(env, m, e));
      match e
      case See(raw) => u == if raw.RawLog? then t.(logs := t.logs + 1) else t.(spans := t.spans + 1)
      case Take(raw, _) =>
        u == if NormalizeSignal(env, raw).None? then t.(ignored := t.ignored + 1)
             else if LacksAnID(NormalizeSignal(env, raw).value) then t.(unjoinable := t.unjoinable + 1)
             else t
      case Write(weather) => u == if IsAccepted(env, m, weather) then t else t.(refused := t.refused + 1)
      case _ => u == t
  {
    hide TakeStep, WriteMachine, AckStep, RestoreStep, BeginStep, NormalizeSignal, IsAccepted, LacksAnID, IsClaimMap,
      IsReadyList;
    if e.Take? {
      TakeCounts(env, m, e.raw, e.now);
    } else if e.Write? {
      WriteCounts(env, m, e.weather);
    } else if !e.See? {
      AssemblerCounts(env, m, e);
    }
  }

  /** From the start of a run each of these counters is the number of times its event happened: logs and
      spans seen, signals ignored because they are no named tool call, tool calls without an id to join
      on, and writes that were not accepted, up to a failure still to be counted. */
  lemma CountersCountEvents(env: Env, start: Machine, events: seq<Event>)
    requires Init(start) && Runs(env, start, events)
    ensures var m, t := End(env, start, events), TallyRun(env, start, events);
      && m.p.stats.logRecordsSeen == t.logs && m.p.stats.spansSeen == t.spans
      && m.p.stats.toolCallsIgnored == t.ignored && m.p.stats.unjoinableNoSpan == t.unjoinable
      && m.p.stats.sinkWriteFailures == t.refused - (if m.phase.Refused? then 1 else 0)
  {
    hide Runs, End, TallyRun;
    CountersFollow(env, start, events);
  }
}
