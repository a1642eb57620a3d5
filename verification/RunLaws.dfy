/** What no run can undo, and what no assembly can disturb. */
module RunLaws {
  import opened Text
  import opened Observation
  import opened Normalize
  import opened Telemetry
  import opened Merging
  import opened MergeLaws
  import opened Processor
  import opened Machine
  import opened BufferProofs
  import opened StepProofs
  import opened Guarantees
  import Sink

  // ---------------------------------------------------------------- runs, one section at a time

  /** The run of these events leads from m to n. */
  ghost predicate Leads(env: Env, m: Machine, events: seq<Event>, n: Machine) {
    Runs(env, m, events) && End(env, m, events) == n
  }

  lemma {:induction false} LeadsOn(env: Env, m: Machine, events: seq<Event>, n: Machine, more: seq<Event>, o: Machine)
    requires Leads(env, m, events, n) && Leads(env, n, more, o)
    ensures Leads(env, m, events + more, o)
    decreases events
  {
    hide Step, Enabled;
    if events == [] {
      assert events + more == more;
    } else {
      assert (events + more)[1..] == events[1..] + more;
      LeadsOn(env, Step(env, m, events[0]), events[1..], n, more, o);
    }
  }

  lemma LeadsByOne(env: Env, m: Machine, e: Event)
    requires Enabled(m, e)
    ensures Leads(env, m, [e], Step(env, m, e))
  {
    hide Step, Enabled;
    var n := Step(env, m, e);
    assert [e][0] == e && [e][1..] == [];
    assert Runs(env, n, []) && End(env, n, []) == n;
  }

  lemma ReachableOn(env: Env, m: Machine, events: seq<Event>, n: Machine)
    requires Reachable(env, m) && Leads(env, m, events, n)
    ensures Reachable(env, n)
  {
    hide Init, Step, Enabled, Runs, End;
    var start, before :| Init(start) && Runs(env, start, before) && End(env, start, before) == m;
    LeadsOn(env, start, before, m, events, n);
    assert Leads(env, start, before + events, n);
  }

  lemma LeadsByTwo(env: Env, m: Machine, e: Event, f: Event)
    requires Enabled(m, e) && Enabled(Step(env, m, e), f)
    ensures Leads(env, m, [e, f], Step(env, Step(env, m, e), f))
  {
    hide Step, Enabled;
    LeadsByOne(env, m, e);
    LeadsByOne(env, Step(env, m, e), f);
    LeadsOn(env, m, [e], Step(env, m, e), [f], Step(env, Step(env, m, e), f));
    assert [e] + [f] == [e, f];
  }

  // ---------------------------------------------------------------- finality

  /** n is a possible future of m: finalized keys and accepted records stay, signals are never
      forgotten, later arrivals are numbered later, and what is late stays late. */
  ghost predicate Future(m: Machine, n: Machine) {
    && m.p.emitted <= n.p.emitted
    && m.accepted <= n.accepted
    && (forall i :: |m.accepted| <= i < |n.accepted| ==> n.accepted[i].a.key !in m.p.emitted)
    && m.placed.Keys <= n.placed.Keys
    && |m.placed| <= |n.placed|
    && (forall s :: s in n.placed && s !in m.placed ==>
          s.id >= |m.placed| && (s.key in m.p.emitted ==> n.placed[s].Late?))
    && (forall s :: s in m.placed && m.placed[s].Late? ==> n.placed[s].Late?)
  }

  lemma AckKeysFinalize(p: Fields, keys: seq<Key>)
    ensures AckKeys(p, keys).emitted == p.emitted + KeySet(keys)
  {
    if keys != [] {
      AckKeysFinalize(p, keys[..|keys| - 1]);
      assert KeySet(keys) == KeySet(keys[..|keys| - 1]) + {keys[|keys| - 1]};
    }
  }

  lemma BufferLeavesRest(p: Fields, ex: Execution, kind: SignalKind, now: Instant)
    ensures var q := BufferStep(p, ex, kind, now);
      && q.observerID == p.observerID && q.observerVersion == p.observerVersion
      && q.emitted == p.emitted && q.inFlight == p.inFlight
  {
    hide JoinKey, Admit, Stamp;
  }

  lemma TakeFuture(env: Env, m: Machine, raw: RawSignal, now: Instant)
    requires Inv(env, m) && raw in m.transit
    ensures Future(m, TakeStep(env, m, raw, now))
  {
    hide KeysInv, RecordsInv, PhaseInv, StatsInv, FileInv, SeenInv, HistoryInv, NormalizeSignal, JoinKey, BufferStep,
      Stamp;
    var n := TakeStep(env, m, raw, now);
    if NormalizeSignal(env, raw).Some? {
      var ex := NormalizeSignal(env, raw).value;
      var s := Arrival(m, raw, ex, now);
      BufferLeavesRest(m.p, ex, KindOf(raw), now);
      ArrivalIsNew(m.p.stats.lateSignalsIgnored, m.placed, s);
      if s.key != "" { TakeSettles(m.placed, s, PlaceFor(m.p, s.key)); }
    }
  }

  lemma StepFuture(env: Env, m: Machine, e: Event)
    requires Inv(env, m) && Enabled(m, e)
    ensures Future(m, Step(env, m, e))
  {
    hide Inv, TakeStep, BatchOf, AckKeys, RestoreKeys, ItemsOf, IsClaimMap, IsReadyList, Sink.WriteStep;
    match e
    case Take(raw, now) => TakeFuture(env, m, raw, now);
    case Ack =>
      var a := m.phase.batch[m.phase.next].a;
      AckKeysFinalize(m.p, a.consumedKeys);
      AckedPlaces(m.placed, KeySet(a.consumedKeys), |m.accepted| - 1);
    case Restore =>
      var keys := KeysOfBatch(RecordsOf(m.phase.batch[m.phase.next..]));
      RestoreCountsNothing(m.p, keys);
      PromotedPlaces(m.placed, KeySet(keys));
    case _ =>
  }

  lemma FutureIsTransitive(l: Machine, m: Machine, n: Machine)
    requires Future(l, m) && Future(m, n)
    ensures Future(l, n)
  {}

  lemma {:induction false} RunFuture(env: Env, m: Machine, events: seq<Event>)
    requires Inv(env, m) && Runs(env, m, events)
    ensures Future(m, End(env, m, events)) && Inv(env, End(env, m, events))
    decreases events
  {
    hide Inv, Step, Future, Enabled;
    if events == [] {
      FutureIsReflexive(m);
    } else {
      var next := Step(env, m, events[0]);
      StepFuture(env, m, events[0]);
      StepKeeps(env, m, events[0]);
      RunFuture(env, next, events[1..]);
      FutureIsTransitive(m, next, End(env, next, events[1..]));
    }
  }

  lemma FutureIsReflexive(m: Machine)
    ensures Future(m, m)
  {}

  /** Finality: once a key is finalized it is never buffered again and never becomes a record key
      again, and every signal that arrives for it is dropped and counted late. */
  lemma FinalizedKeysStayFinal(env: Env, m: Machine, events: seq<Event>, key: Key)
    requires Reachable(env, m) && Runs(env, m, events) && key in m.p.emitted
    ensures var n := End(env, m, events);
      && key in n.p.emitted
      && key !in n.p.active.firstSeen && key !in n.p.active.spans && key !in n.p.active.logs
      && key !in n.p.pending.firstSeen && key !in n.p.inFlight
      && (forall i :: |m.accepted| <= i < |n.accepted| ==> n.accepted[i].a.key != key)
      && (forall s :: s in n.placed && s !in m.placed && s.key == key ==> s in LateOnes(n.placed))
      && n.p.stats.lateSignalsIgnored == |LateOnes(n.placed)|
  {
    hide KeysInv, RecordsInv, PhaseInv, StatsInv, FileInv, SeenInv, Genuine, Enabled, Step, Reachable;
    ReachableStatesAreSound(env, m);
    RunFuture(env, m, events);
    var n := End(env, m, events);
    StructureAt(n.p, n.placed, key);
  }

  ghost function WaitingUnder(placed: History, keys: set<Key>): set<Signal> {
    set s | s in placed && placed[s].Pending? && s.key in keys
  }

  /** An acknowledgement settles every signal under the record's keys: what the snapshot held is
      acknowledged with the record, and each signal that arrived since is late and counted once. */
  lemma AcknowledgementSettles(env: Env, m: Machine)
    requires Reachable(env, m) && Enabled(m, Ack)
    ensures var n, item := Step(env, m, Ack), m.phase.batch[m.phase.next];
      && (forall s :: s in m.placed && s.key in item.a.consumedKeys && m.placed[s].Active? ==>
            s in item.from && n.placed[s] == Acked(|m.accepted| - 1))
      && (forall s :: s in WaitingUnder(m.placed, KeySet(item.a.consumedKeys)) ==> n.placed[s].Late?)
      && n.p.stats.lateSignalsIgnored ==
         m.p.stats.lateSignalsIgnored + |WaitingUnder(m.placed, KeySet(item.a.consumedKeys))|
  {
    hide Inv, AckKeys, Reachable, WaitingUnder, LateOnes;
    ReachableStatesAreSound(env, m);
    StepKeeps(env, m, Ack);
    var n, keys := Step(env, m, Ack), KeySet(m.phase.batch[m.phase.next].a.consumedKeys);
    LateIsCounted(env, m);
    LateIsCounted(env, n);
    HeadHoldsItsSignals(env, m);
    LateAfterAcks(m.placed, keys, |m.accepted| - 1);
    WaitingBecomesLate(m.placed, keys, |m.accepted| - 1);
  }

  lemma LateIsCounted(env: Env, m: Machine)
    requires Inv(env, m)
    ensures m.p.stats.lateSignalsIgnored == |LateOnes(m.placed)|
  {
    hide KeysInv, RecordsInv, StatsInv, FileInv, SeenInv, PhaseInv, Genuine, LateOnes;
  }

  lemma HeadHoldsItsSignals(env: Env, m: Machine)
    requires Inv(env, m) && m.phase.Persisted?
    ensures m.phase.next < |m.phase.batch|
    ensures var item := m.phase.batch[m.phase.next];
      forall s :: s in m.placed && s.key in item.a.consumedKeys && m.placed[s].Active? ==> s in item.from
  {
    hide KeysInv, HistoryInv, RecordsInv, StatsInv, FileInv, SeenInv, ItemInv, FromInv, OwnKeyOnly, InBatch;
  }

  lemma WaitingBecomesLate(placed: History, keys: set<Key>, record: nat)
    ensures forall s :: s in WaitingUnder(placed, keys) ==> s in placed && AckPlaces(placed, keys, record)[s].Late?
  {}

  lemma LateAfterAcks(placed: History, keys: set<Key>, record: nat)
    ensures |LateOnes(AckPlaces(placed, keys, record))| == |LateOnes(placed)| + |WaitingUnder(placed, keys)|
  {
    var late, waiting, after := LateOnes(placed), WaitingUnder(placed, keys), LateOnes(AckPlaces(placed, keys, record));
    forall s ensures s in after <==> s in late || s in waiting {}
    assert late !! waiting;
    hide LateOnes, WaitingUnder, AckPlaces;
    assert after == late + waiting;
  }

  ghost predicate FirstSeenKept(m: Machine, n: Machine, key: Key) {
    && (key in m.p.active.firstSeen ==>
          if key in n.p.emitted then key !in n.p.active.firstSeen
          else key in n.p.active.firstSeen && n.p.active.firstSeen[key] == m.p.active.firstSeen[key])
    && (key !in m.p.active.firstSeen && key in n.p.active.firstSeen ==>
          exists s :: s in n.placed && s !in m.placed && s.key == key && s.time == n.p.active.firstSeen[key])
  }

  lemma FirstSeenStays(env: Env, m: Machine, events: seq<Event>, key: Key)
    requires Inv(env, m) && Runs(env, m, events)
    ensures FirstSeenKept(m, End(env, m, events), key)
  {
    hide RecordsInv, PhaseInv, StatsInv, FileInv, SeenInv, Genuine, Enabled, Step, KeyInv, IsFirst, Future;
    RunFuture(env, m, events);
    var n := End(env, m, events);
    assert KeyInv(m.p, m.placed, key) && KeyInv(n.p, n.placed, key);
    StructureAt(n.p, n.placed, key);
    StructureAt(m.p, m.placed, key);
    if key in m.p.active.firstSeen {
      var first := FirstOf(m.p, m.placed, key);
      FirstStaysFirst(env, m, n, first);
      if key !in n.p.emitted {
        StaysPlaced(m, n, first);
        LiveSignalIsBuffered(n.p, n.placed, first);
        var now := FirstOf(n.p, n.placed, key);
        OnlyOneFirst(n.placed, first, now);
      }
    } else if key in n.p.active.firstSeen {
      var first := FirstOf(n.p, n.placed, key);
      if first in m.placed {
        FinalizedStays(m, n, key);
        LiveSignalIsBuffered(m.p, m.placed, first);
        assert false;
      }
    }
  }

  /** A key's first-seen time never moves while it is buffered, whatever fails meanwhile, and a
      key that enters the buffer later carries the time of a signal that arrived later. */
  lemma FirstSeenNeverMoves(env: Env, m: Machine, events: seq<Event>, key: Key)
    requires Reachable(env, m) && Runs(env, m, events)
    ensures FirstSeenKept(m, End(env, m, events), key)
  {
    hide Inv, Step, Reachable;
    ReachableStatesAreSound(env, m);
    FirstSeenStays(env, m, events, key);
  }

  lemma FirstOf(p: Fields, placed: History, key: Key) returns (first: Signal)
    requires KeyInv(p, placed, key) && key in p.active.firstSeen
    ensures first in placed && first.key == key && IsFirst(placed, first) && first.time == p.active.firstSeen[key]
  {
    hide GenerationInv, IsFirst, Waiting;
    first :| first in placed && first.key == key && IsFirst(placed, first) && first.time == p.active.firstSeen[key];
  }

  lemma StaysPlaced(m: Machine, n: Machine, s: Signal)
    requires Future(m, n) && s in m.placed
    ensures s in n.placed
  {}

  lemma FinalStaysFinal(m: Machine, n: Machine, key: Key)
    requires Future(m, n) && key in m.p.emitted
    ensures key in n.p.emitted
  {}

  lemma FinalizedStays(m: Machine, n: Machine, key: Key)
    requires Future(m, n) && key !in n.p.emitted
    ensures key !in m.p.emitted
  {}

  lemma FirstStaysFirst(env: Env, m: Machine, n: Machine, first: Signal)
    requires Inv(env, m) && Future(m, n) && first in m.placed && IsFirst(m.placed, first)
    ensures first in n.placed && IsFirst(n.placed, first)
  {
    hide KeysInv, RecordsInv, PhaseInv, StatsInv, FileInv, SeenInv, Genuine;
  }

  lemma OnlyOneFirst(placed: History, s: Signal, t: Signal)
    requires s in placed && t in placed && s.key == t.key && IsFirst(placed, s) && IsFirst(placed, t)
    ensures s.id == t.id
  {}

  // ---------------------------------------------------------------- claims

  /** A signal names a parent exactly when it is a client span with parent bytes, and then the key of
      its trace id and those bytes. */
  lemma ClientSpansClaim(env: Env, raw: RawSignal, ex: Execution)
    requires NormalizeSignal(env, raw) == Some(ex)
    ensures ClaimOf(ex).Some? <==> raw.RawSpan? && raw.span.kind.KindClient? && raw.span.parentSpanId != []
    ensures ClaimOf(ex).Some? ==>
      exists trace, parent :: Gives(raw, TraceField, trace) && Spells(parent, raw.span.parentSpanId) &&
        ClaimOf(ex).value == trace + "/" + parent
  {
    hide NormalizeSignal, IDFits, Chosen, PairAt, InstantFits;
    FieldsFitTelemetry(env, raw, ex);
    assert Gives(raw, KindField, FieldOf(ex, KindField)) && Gives(raw, ParentField, FieldOf(ex, ParentField));
    assert Gives(raw, TraceField, FieldOf(ex, TraceField));
    assert FieldOf(ex, ParentField) == ex.parentSpanID && FieldOf(ex, TraceField) == ex.traceID;
    assert "client" != "server" && "client" != "internal" && "client" != "producer" && "client" != "consumer";
  }

  lemma SlotIdentity(p: Fields, placed: History, key: Key)
    requires KeysInv(p, placed) && key in p.active.spans && forall s :: s in placed ==> Genuine(s)
    ensures key != "" && JoinKey(p.active.spans[key].traceID, p.active.spans[key].spanID) == key
  {
    hide Genuine, Represents, IsFirst, Waiting, JoinKey;
    assert KeyInv(p, placed, key);
    BufferedKey(p, placed, key);
  }

  /** The slot of the key still has the identity of this span. */
  ghost predicate Holds(slots: map<Key, Execution>, key: Key, span: Execution) {
    key in slots && KeepsIdentity(span, slots[key]) && JoinKey(span.traceID, span.spanID) == key != ""
  }

  lemma DepositHolds(slots: map<Key, Execution>, key: Key, ex: Execution, held: Key, span: Execution)
    requires Holds(slots, held, span)
    ensures Holds(Deposit(slots, key, ex), held, span)
  {
    hide Merge, JoinKey;
    if key == held { MergeKeepsIdentity(slots[held], ex); }
  }

  lemma BufferHolds(p: Fields, ex: Execution, kind: SignalKind, now: Instant, held: Key, span: Execution)
    requires Holds(p.active.spans, held, span)
    ensures Holds(BufferStep(p, ex, kind, now).active.spans, held, span)
  {
    hide JoinKey, Deposit, Holds, Stamp;
    DepositHolds(p.active.spans, JoinKey(ex.traceID, ex.spanID), Stamp(p, ex), held, span);
  }

  lemma {:induction false} RestoreHolds(p: Fields, keys: seq<Key>, held: Key, span: Execution)
    requires Holds(p.active.spans, held, span)
    ensures Holds(RestoreKeys(p, keys).active.spans, held, span)
  {
    hide Deposit, Holds;
    if keys != [] {
      var q, key := RestoreKeys(p, keys[..|keys| - 1]), keys[|keys| - 1];
      RestoreHolds(p, keys[..|keys| - 1], held, span);
      if key in q.pending.spans { DepositHolds(q.active.spans, key, q.pending.spans[key], held, span); }
    }
  }

  lemma {:induction false} AckKeysDrop(p: Fields, keys: seq<Key>)
    ensures var q, gone := AckKeys(p, keys), KeySet(keys);
      && q.active.spans == p.active.spans - gone && q.active.logs == p.active.logs - gone
      && q.active.firstSeen == p.active.firstSeen - gone
      && q.pending.spans == p.pending.spans - gone && q.pending.logs == p.pending.logs - gone
      && q.pending.firstSeen == p.pending.firstSeen - gone
  {
    if keys != [] {
      AckKeysDrop(p, keys[..|keys| - 1]);
      assert KeySet(keys) == KeySet(keys[..|keys| - 1]) + {keys[|keys| - 1]};
    }
  }

  /** Whatever merges into a span's slot, it keeps the span's ids, kind and parent until it is
      finalized. */
  lemma SpanStays(env: Env, m: Machine, e: Event, key: Key, span: Execution)
    requires Inv(env, m) && Enabled(m, e) && Holds(m.p.active.spans, key, span)
    requires key !in Step(env, m, e).p.emitted
    ensures Holds(Step(env, m, e).p.active.spans, key, span)
  {
    hide Inv, Holds, BatchOf, ItemsOf, AckKeys, RestoreKeys, IsClaimMap, IsReadyList, Sink.WriteStep, NormalizeSignal,
      JoinKey, BufferAt, AckPlaces, PromotePlaces, KeysOfBatch;
    if e.Take? && NormalizeSignal(env, e.raw).Some? {
      BufferHolds(m.p, NormalizeSignal(env, e.raw).value, KindOf(e.raw), e.now, key, span);
    }
    if e.Ack? {
      var keys := m.phase.batch[m.phase.next].a.consumedKeys;
      AckKeysDrop(m.p, keys);
      AckKeysFinalize(m.p, keys);
      DroppingOthersHolds(m.p.active.spans, KeySet(keys), key, span);
    }
    if e.Restore? {
      RestoreHolds(m.p, KeysOfBatch(RecordsOf(m.phase.batch[m.phase.next..])), key, span);
    }
  }

  lemma DroppingOthersHolds(spans: map<Key, Execution>, keys: set<Key>, key: Key, span: Execution)
    requires Holds(spans, key, span) && key !in keys
    ensures Holds(spans - keys, key, span)
  {
    hide JoinKey;
  }

  lemma {:induction false} SpanOutlivesRun(env: Env, m: Machine, events: seq<Event>, key: Key, span: Execution)
    requires Inv(env, m) && Runs(env, m, events) && Holds(m.p.active.spans, key, span)
    requires key !in End(env, m, events).p.emitted
    ensures Holds(End(env, m, events).p.active.spans, key, span)
    decreases events
  {
    hide Inv, Step, Future, Enabled, Holds;
    if events != [] {
      var next := Step(env, m, events[0]);
      StepKeeps(env, m, events[0]);
      RunFuture(env, next, events[1..]);
      FinalizedStays(next, End(env, m, events), key);
      SpanStays(env, m, events[0], key, span);
      SpanOutlivesRun(env, next, events[1..], key, span);
    }
  }

  lemma BufferedSpanHolds(p: Fields, placed: History, key: Key)
    requires KeysInv(p, placed) && key in p.active.spans && forall s :: s in placed ==> Genuine(s)
    ensures Holds(p.active.spans, key, p.active.spans[key])
  {
    hide KeysInv, Genuine, JoinKey;
    SlotIdentity(p, placed, key);
  }

  lemma HeldClaims(slots: map<Key, Execution>, key: Key, span: Execution, parent: Key)
    requires Holds(slots, key, span) && ClaimOf(span) == Some(parent)
    ensures Claims(slots, key, parent)
  {
    hide JoinKey, ClaimOf, KeepsIdentity;
    KeptClaim(span, slots[key]);
  }

  /** So once a client span names its parent it goes on naming it until it is finalized. */
  lemma ClaimOutlivesRun(env: Env, m: Machine, events: seq<Event>, child: Key, parent: Key)
    requires Inv(env, m) && Runs(env, m, events) && Claims(m.p.active.spans, child, parent)
    requires child !in End(env, m, events).p.emitted
    ensures Claims(End(env, m, events).p.active.spans, child, parent)
  {
    hide KeysInv, RecordsInv, StatsInv, FileInv, SeenInv, PhaseInv, Genuine, Step, Enabled, Holds, ClaimOf;
    var span := m.p.active.spans[child];
    BufferedSpanHolds(m.p, m.placed, child);
    SpanOutlivesRun(env, m, events, child, span);
    HeldClaims(End(env, m, events).p.active.spans, child, span, parent);
  }

  // ---------------------------------------------------------------- assembly is invisible

  /** The run with every assembler step removed. */
  function IngestOnly(events: seq<Event>): seq<Event> {
    if events == [] then []
    else if events[0].See? || events[0].Take? then [events[0]] + IngestOnly(events[1..])
    else IngestOnly(events[1..])
  }

  /** The same telemetry has reached both machines. */
  ghost predicate SameTelemetry(m: Machine, n: Machine) {
    && m.transit == n.transit && m.placed.Keys == n.placed.Keys
    && m.p.observerID == n.p.observerID && m.p.observerVersion == n.p.observerVersion
  }

  lemma AckKeysKeepObserver(p: Fields, keys: seq<Key>)
    ensures AckKeys(p, keys).observerID == p.observerID && AckKeys(p, keys).observerVersion == p.observerVersion
  {}

  lemma RestoreKeysKeepObserver(p: Fields, keys: seq<Key>)
    ensures RestoreKeys(p, keys).observerID == p.observerID && RestoreKeys(p, keys).observerVersion == p.observerVersion
  {
    hide Absorb, Drop;
  }

  lemma AssemblerLeavesTelemetry(env: Env, m: Machine, e: Event)
    requires Enabled(m, e) && !e.See? && !e.Take?
    ensures SameTelemetry(m, Step(env, m, e))
  {
    hide BatchOf, AckKeys, RestoreKeys, ItemsOf, IsClaimMap, IsReadyList, Sink.WriteStep;
    if e.Ack? {
      AckKeysKeepObserver(m.p, m.phase.batch[m.phase.next].a.consumedKeys);
      AckedPlaces(m.placed, KeySet(m.phase.batch[m.phase.next].a.consumedKeys), |m.accepted| - 1);
    }
    if e.Restore? {
      var keys := KeysOfBatch(RecordsOf(m.phase.batch[m.phase.next..]));
      RestoreKeysKeepObserver(m.p, keys);
      PromotedPlaces(m.placed, KeySet(keys));
    }
  }

  lemma ArrivalDependsOnTelemetry(m: Machine, n: Machine, raw: RawSignal, ex: Execution, now: Instant)
    requires SameTelemetry(m, n)
    ensures Arrival(m, raw, ex, now) == Arrival(n, raw, ex, now)
  {
    hide JoinKey;
    assert |m.placed.Keys| == |m.placed| && |n.placed.Keys| == |n.placed|;
  }

  lemma TakeKeepsTelemetry(env: Env, m: Machine, n: Machine, raw: RawSignal, now: Instant)
    requires SameTelemetry(m, n)
    ensures SameTelemetry(TakeStep(env, m, raw, now), TakeStep(env, n, raw, now))
    ensures var u := TakeStep(env, n, raw, now);
      u.p.emitted == n.p.emitted && u.phase == n.phase && u.p.inFlight == n.p.inFlight
  {
    hide NormalizeSignal, BufferStep, PlaceFor, Arrival;
    if NormalizeSignal(env, raw).Some? {
      var ex := NormalizeSignal(env, raw).value;
      BufferLeavesRest(m.p, ex, KindOf(raw), now);
      BufferLeavesRest(n.p, ex, KindOf(raw), now);
      ArrivalDependsOnTelemetry(m, n, raw, ex, now);
      var s := Arrival(m, raw, ex, now);
      assert m.placed[s := PlaceFor(m.p, s.key)].Keys == m.placed.Keys + {s};
      assert n.placed[s := PlaceFor(n.p, s.key)].Keys == n.placed.Keys + {s};
    }
  }

  lemma IngestKeepsTelemetry(env: Env, m: Machine, n: Machine, e: Event)
    requires SameTelemetry(m, n) && Enabled(m, e) && (e.See? || e.Take?)
    ensures Enabled(n, e) && SameTelemetry(Step(env, m, e), Step(env, n, e))
    ensures Step(env, n, e).p.emitted == n.p.emitted && Step(env, n, e).phase == n.phase
    ensures Step(env, n, e).p.inFlight == n.p.inFlight
  {
    hide TakeStep;
    if e.Take? { TakeKeepsTelemetry(env, m, n, e.raw, e.now); }
  }

  lemma {:induction false} ReplayFollows(env: Env, m: Machine, n: Machine, events: seq<Event>)
    requires Runs(env, m, events) && SameTelemetry(m, n)
    ensures Runs(env, n, IngestOnly(events))
    ensures var t, u := End(env, m, events), End(env, n, IngestOnly(events));
      SameTelemetry(t, u) && u.p.emitted == n.p.emitted && u.phase == n.phase && u.p.inFlight == n.p.inFlight
    decreases events
  {
    hide Enabled, Step;
    if events != [] {
      var e, next := events[0], Step(env, m, events[0]);
      if e.See? || e.Take? {
        IngestKeepsTelemetry(env, m, n, e);
        ReplayFollows(env, next, Step(env, n, e), events[1..]);
        assert IngestOnly(events)[1..] == IngestOnly(events[1..]);
      } else {
        AssemblerLeavesTelemetry(env, m, e);
        ReplayFollows(env, next, n, events[1..]);
      }
    }
  }

  /** Both slots are absent, or both are present and say the same. */
  ghost predicate SlotsAgree(a: map<Key, Execution>, b: map<Key, Execution>, key: Key) {
    && (key in a <==> key in b)
    && (key in a ==> ProjectionOf(a[key]) == ProjectionOf(b[key]))
  }

  lemma SlotsOfSameSignals(a: map<Key, Execution>, b: map<Key, Execution>, p: History, q: History, key: Key,
                           kind: SignalKind)
    requires SlotInv(a, p, key, Active, kind) && SlotInv(b, q, key, Active, kind)
    requires At(p, key, Active, kind) == At(q, key, Active, kind)
    ensures SlotsAgree(a, b, key)
  {
    hide Summary, Sound, Marked, ProjectionOf, JoinKey;
  }

  lemma IdleKeyIsActive(env: Env, m: Machine, key: Key, kind: SignalKind)
    requires Inv(env, m) && m.phase.Idle? && key !in m.p.emitted
    ensures At(m.placed, key, Active, kind) == set s | s in m.placed.Keys && s.key == key && KindOf(s.raw) == kind
    ensures KeyInv(m.p, m.placed, key) && GenerationInv(m.p.active, m.placed, key, Active)
    ensures key !in m.p.pending.firstSeen
  {
    hide RecordsInv, StatsInv, FileInv, SeenInv, HistoryInv, Represents, FirstSeenInv, JoinKey;
    assert KeyInv(m.p, m.placed, key);
    forall s | s in m.placed && s.key == key ensures m.placed[s].Active? {
      assert At(m.placed, key, Pending, KindOf(s.raw)) == {} && s !in At(m.placed, key, Pending, KindOf(s.raw));
    }
  }

  lemma IdleKeysAgree(env: Env, t: Machine, u: Machine, key: Key)
    requires Inv(env, t) && Inv(env, u) && t.phase.Idle? && u.phase.Idle? && SameTelemetry(t, u)
    requires key !in t.p.emitted && key !in u.p.emitted
    ensures SlotsAgree(t.p.active.spans, u.p.active.spans, key)
    ensures SlotsAgree(t.p.active.logs, u.p.active.logs, key)
    ensures SameSlot(t.p.active.firstSeen, u.p.active.firstSeen, key)
  {
    hide Inv, At, KeyInv, SlotInv, IsFirst, SlotsAgree;
    IdleKeyIsActive(env, t, key, Logs);
    IdleKeyIsActive(env, t, key, Traces);
    IdleKeyIsActive(env, u, key, Logs);
    IdleKeyIsActive(env, u, key, Traces);
    assert At(t.placed, key, Active, Logs) == At(u.placed, key, Active, Logs);
    assert At(t.placed, key, Active, Traces) == At(u.placed, key, Active, Traces);
    SlotsOfSameSignals(t.p.active.spans, u.p.active.spans, t.placed, u.placed, key, Traces);
    SlotsOfSameSignals(t.p.active.logs, u.p.active.logs, t.placed, u.placed, key, Logs);
    hide GenerationInv;
    GenerationKeys(t.p.active, t.placed, key);
    GenerationKeys(u.p.active, u.placed, key);
    SlotsAgreeOnPresence(t.p.active.spans, u.p.active.spans, key);
    SlotsAgreeOnPresence(t.p.active.logs, u.p.active.logs, key);
    if key in t.p.active.firstSeen {
      var a := FirstOf(t.p, t.placed, key);
      var b := FirstOf(u.p, u.placed, key);
      FirstDependsOnDomain(u.placed, t.placed, b);
      OnlyOneFirst(t.placed, a, b);
      IdsAreUnique(env, t, a, b);
    }
  }

  lemma SlotsAgreeOnPresence(a: map<Key, Execution>, b: map<Key, Execution>, key: Key)
    requires SlotsAgree(a, b, key)
    ensures key in a <==> key in b
  {
    hide ProjectionOf;
  }

  lemma IdsAreUnique(env: Env, m: Machine, a: Signal, b: Signal)
    requires Inv(env, m) && a in m.placed && b in m.placed && a.id == b.id
    ensures a == b
  {
    hide KeysInv, RecordsInv, PhaseInv, StatsInv, FileInv, SeenInv, Genuine;
  }

  /** The buffer of n holds under the key what the buffer of u holds: the same presence, the same
      first-seen time, slots that say the same, nothing reserved and nothing pending. */
  ghost predicate Invisible(n: Machine, u: Machine, key: Key) {
    && SameSlot(n.p.active.firstSeen, u.p.active.firstSeen, key)
    && SlotsAgree(n.p.active.spans, u.p.active.spans, key)
    && SlotsAgree(n.p.active.logs, u.p.active.logs, key)
    && key !in n.p.pending.firstSeen && key !in n.p.inFlight
  }

  /** Assemblies are invisible to every key they did not finalize: take any run between two idle
      states, with any number of assemblies, failed writes and retries and any ingest in between.
      A key not finalized by then is buffered exactly as if the assembler had never run. */
  lemma AssemblyIsInvisible(env: Env, m: Machine, events: seq<Event>, key: Key)
    requires Reachable(env, m) && m.phase.Idle? && Runs(env, m, events)
    requires End(env, m, events).phase.Idle? && key !in End(env, m, events).p.emitted
    ensures Runs(env, m, IngestOnly(events))
    ensures Invisible(End(env, m, events), End(env, m, IngestOnly(events)), key)
  {
    hide KeysInv, HistoryInv, RecordsInv, StatsInv, FileInv, SeenInv, Enabled, Step, SlotsAgree, Future, Reachable;
    ReachableStatesAreSound(env, m);
    ReplayFollows(env, m, m, events);
    RunFuture(env, m, events);
    RunFuture(env, m, IngestOnly(events));
    var t, u := End(env, m, events), End(env, m, IngestOnly(events));
    FinalizedStays(m, t, key);
    StructureAt(t.p, t.placed, key);
    IdleKeysAgree(env, t, u, key);
  }
}
