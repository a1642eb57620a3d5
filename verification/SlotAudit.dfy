/** Disagreements in the running pipeline: which slots and records may be taken at their word. */
module SlotAudit {
  import opened Text
  import opened Observation
  import opened Normalize
  import opened Merging
  import opened MergeLaws
  import opened Audit
  import opened Processor
  import opened Machine
  import opened BufferProofs
  import opened SnapshotProofs
  import opened StepProofs
  import opened Guarantees
  import opened RunLaws
  import Sink

  // ---------------------------------------------------------------- folding

  /** A record merged from these signals, some of them merged before: it keeps the worst status and
      names they offer, what it lists is real, and unless a merge dropped a list (then it is not
      clear, and the signals are contested) it lists something if they are. */
  ghost predicate Folded(ex: Execution, signals: set<Signal>, clear: bool) {
    && Keeps(ex, signals)
    && (ex.disagreements != [] ==> Contested(signals))
    && (clear && ex.disagreements == [] ==> !Contested(signals))
    && (!clear ==> Contested(signals))
  }

  /** So it may be taken at its word exactly when it lists something or is clear. */
  lemma FoldedIsAuditedExactlyWhen(ex: Execution, signals: set<Signal>, clear: bool)
    requires Folded(ex, signals, clear)
    ensures Audited(ex, signals) <==> ex.disagreements != [] || clear
  {
    hide Keeps, Contested;
  }

  lemma ContestedGrows(a: set<Signal>, b: set<Signal>)
    requires Contested(a) || Contested(b)
    ensures Contested(a + b)
  {
    if s, t :| s in a && t in a && Contradict(s.ex, t.ex) {
      assert s in a + b && t in a + b;
    } else {
      var s, t :| s in b && t in b && Contradict(s.ex, t.ex);
      assert s in a + b && t in a + b;
    }
  }

  lemma FoldsOneMore(a: Execution, A: set<Signal>, clearA: bool, b: Execution, B: set<Signal>, clearB: bool)
    requires Folded(a, A, clearA) && Folded(b, B, clearB)
    ensures Folded(Merge(a, b), A + B, clearA && clearB && b.disagreements == [])
  {
    hide Merge, Keeps, Contested, Contradict;
    KeepsMerges(a, A, b, B);
    MergeRecordsContradiction(a, b);
    if Contested(A) || Contested(B) { ContestedGrows(A, B); }
    if Contradict(a, b) { KeptConflictIsReal(a, A, b, B); }
    if !Contested(A) && !Contested(B) && !Contradict(a, b) { AgreementIsComplete(a, A, b, B); }
  }

  lemma SignalIsFolded(s: Signal)
    requires Genuine(s)
    ensures Folded(s.ex, {s}, true) && s.ex.disagreements == []
  {
    hide Genuine, Keeps, Contested;
    SignalIsAudited(s);
    SingleHasNoDisagreements(s);
  }

  // ---------------------------------------------------------------- the invariant

  ghost predicate SlotKept(slots: map<Key, Execution>, placed: History, key: Key, place: Place, kind: SignalKind,
                           clear: bool) {
    key in slots ==> Folded(slots[key], At(placed, key, place, kind), clear)
  }

  /** A pending slot is always clear. The active one is while clear says so, and a slot that is not
      there yet has nothing to be cleared of. */
  ghost predicate Kept(p: Fields, placed: History, key: Key, kind: SignalKind, clear: bool) {
    && SlotKept(SlotsFor(p, Active, kind), placed, key, Active, kind, clear)
    && SlotKept(SlotsFor(p, Pending, kind), placed, key, Pending, kind, true)
    && (key !in SlotsFor(p, Active, kind) && key !in p.emitted ==> clear)
  }

  predicate SameSlots(p: Fields, q: Fields, key: Key, kind: SignalKind) {
    && SameSlot(SlotsFor(p, Active, kind), SlotsFor(q, Active, kind), key)
    && SameSlot(SlotsFor(p, Pending, kind), SlotsFor(q, Pending, kind), key)
    && (key in p.emitted <==> key in q.emitted)
  }

  lemma KeptFrame(p: Fields, q: Fields, before: History, after: History, key: Key, kind: SignalKind, clear: bool)
    requires Kept(p, before, key, kind, clear) && SamePlaces(before, after, key) && SameSlots(p, q, key, kind)
    ensures Kept(q, after, key, kind, clear)
  {
    hide Folded, SlotsFor;
    forall place ensures At(before, key, place, kind) == At(after, key, place, kind) {}
  }

  lemma SameKeySlots(p: Fields, q: Fields, key: Key, kind: SignalKind)
    requires SameKey(p, q, key)
    ensures SameSlots(p, q, key, kind)
  {}

  // ---------------------------------------------------------------- a signal arrives

  lemma SlotKeptTakes(slots: map<Key, Execution>, placed: History, s: Signal, place: Place, l: Place, kind: SignalKind,
                      clear: bool)
    requires s !in placed && Genuine(s) && SlotInv(slots, placed, s.key, l, kind)
    requires SlotKept(slots, placed, s.key, l, kind, clear) && (s.key in slots || clear || place != l)
    ensures SlotKept(if place == l && KindOf(s.raw) == kind then Deposit(slots, s.key, s.ex) else slots,
                     placed[s := place], s.key, l, kind, clear)
  {
    hide Merge, Represents, Genuine, JoinKey, Folded;
    var before, after := At(placed, s.key, l, kind), At(placed[s := place], s.key, l, kind);
    if place == l && KindOf(s.raw) == kind {
      assert after == before + {s};
      SignalIsFolded(s);
      if s.key in slots {
        FoldsOneMore(slots[s.key], before, clear, s.ex, {s}, true);
      } else {
        assert after == {s};
      }
    } else {
      assert after == before;
    }
  }

  lemma BufferedSlots(p: Fields, s: Signal, ex: Execution, l: Place, kind: SignalKind)
    requires s.ex == Stamp(p, ex) && (l == Active || l == Pending)
    ensures var q, slots := BufferAt(p, s.key, ex, KindOf(s.raw), s.time), SlotsFor(p, l, kind);
      SlotsFor(q, l, kind) ==
        if PlaceFor(p, s.key) == l && KindOf(s.raw) == kind then Deposit(slots, s.key, s.ex) else slots
  {
    hide Stamp, Deposit;
  }

  lemma BufferKeepsKept(p: Fields, placed: History, s: Signal, ex: Execution, key: Key, kind: SignalKind, clear: bool)
    requires KeysInv(p, placed) && Kept(p, placed, key, kind, clear)
    requires s !in placed && Genuine(s) && s.ex == Stamp(p, ex)
    ensures Kept(BufferAt(p, s.key, ex, KindOf(s.raw), s.time), placed[s := PlaceFor(p, s.key)], key, kind, clear)
  {
    hide KeysInv, Stamp, Genuine, BufferAt, SlotInv, SlotKept, SlotsFor, Deposit;
    var q, place := BufferAt(p, s.key, ex, KindOf(s.raw), s.time), PlaceFor(p, s.key);
    if key == s.key {
      SlotsAreKnown(p, placed, key, kind);
      BufferedSlots(p, s, ex, Active, kind);
      BufferedSlots(p, s, ex, Pending, kind);
      BufferSections(p, s, ex);
      SlotKeptTakes(SlotsFor(p, Active, kind), placed, s, place, Active, kind, clear);
      SlotKeptTakes(SlotsFor(p, Pending, kind), placed, s, place, Pending, kind, true);
      DepositsAdd(SlotsFor(p, Active, kind), key, s.ex);
    } else {
      BufferLeavesOthers(p, s, ex, key);
      SameKeySlots(p, q, key, kind);
      hide SameKey;
      KeptFrame(p, q, placed, placed[s := place], key, kind, clear);
    }
  }

  lemma DepositsAdd(slots: map<Key, Execution>, key: Key, ex: Execution)
    ensures key in Deposit(slots, key, ex)
  {
    hide Merge;
  }

  lemma SlotsAreKnown(p: Fields, placed: History, key: Key, kind: SignalKind)
    requires KeysInv(p, placed)
    ensures SlotInv(SlotsFor(p, Active, kind), placed, key, Active, kind)
    ensures SlotInv(SlotsFor(p, Pending, kind), placed, key, Pending, kind)
  {
    hide KeysInv, SlotInv;
    GenerationsOf(p, placed, key);
  }

  lemma GenerationsOf(p: Fields, placed: History, key: Key)
    requires KeysInv(p, placed)
    ensures GenerationInv(p.active, placed, key, Active) && GenerationInv(p.pending, placed, key, Pending)
  {
    hide GenerationInv, FirstSeenInv, NestingInv, Waiting;
    assert KeyInv(p, placed, key);
  }

  // ---------------------------------------------------------------- a record is acknowledged

  lemma AckKeepsKept(p: Fields, placed: History, a: Assembled, record: nat, key: Key, kind: SignalKind, clear: bool)
    requires Kept(p, placed, key, kind, clear)
    ensures Kept(Acknowledge(p, a), AckPlaces(placed, KeySet(a.consumedKeys), record), key, kind, clear)
  {
    hide Kept, AckKeys;
    var q, gone := Acknowledge(p, a), KeySet(a.consumedKeys);
    var after := AckPlaces(placed, gone, record);
    AckKeysDrop(p, a.consumedKeys);
    AckKeysFinalize(p, a.consumedKeys);
    if key in gone {
      GoneIsKept(q, after, key, kind, clear);
    } else {
      KeptFrame(p, q, placed, after, key, kind, clear);
    }
  }

  lemma GoneIsKept(p: Fields, placed: History, key: Key, kind: SignalKind, clear: bool)
    requires key !in p.active.spans && key !in p.active.logs && key !in p.pending.spans && key !in p.pending.logs
    requires key in p.emitted
    ensures Kept(p, placed, key, kind, clear)
  {}

  // ---------------------------------------------------------------- a snapshot is rolled back

  /** A roll-back of the key merges no list away: its pending slot, if it is merged into an active
      one at all, lists nothing. */
  predicate RollClear(p: Fields, key: Key, kind: SignalKind) {
    key in SlotsFor(p, Active, kind) && key in SlotsFor(p, Pending, kind) ==>
      SlotsFor(p, Pending, kind)[key].disagreements == []
  }

  lemma SlotKeptRestores(active: map<Key, Execution>, pending: map<Key, Execution>, placed: History, key: Key,
                         kind: SignalKind, clear: bool)
    requires SlotInv(active, placed, key, Active, kind) && SlotInv(pending, placed, key, Pending, kind)
    requires SlotKept(active, placed, key, Active, kind, clear) && SlotKept(pending, placed, key, Pending, kind, true)
    requires key in active || clear
    ensures SlotKept(FoldPending(active, pending, key), PromotePlaces(placed, {key}), key, Active, kind,
                     clear && (key in active && key in pending ==> pending[key].disagreements == []))
  {
    hide Merge, Represents, JoinKey, Folded;
    var kept, more := At(placed, key, Active, kind), At(placed, key, Pending, kind);
    assert At(PromotePlaces(placed, {key}), key, Active, kind) == kept + more;
    if key in pending && key in active {
      FoldsOneMore(active[key], kept, clear, pending[key], more, true);
    } else if key in pending {
      assert kept + more == more;
    } else {
      assert kept + more == kept;
    }
  }

  lemma RestoredSlots(p: Fields, key: Key, kind: SignalKind)
    requires key in p.pending.firstSeen
    ensures SlotsFor(RestoreKey(p, key), Active, kind) ==
      FoldPending(SlotsFor(p, Active, kind), SlotsFor(p, Pending, kind), key)
    ensures SlotsFor(RestoreKey(p, key), Pending, kind) == SlotsFor(p, Pending, kind) - {key}
    ensures RestoreKey(p, key).emitted == p.emitted
  {
    hide FoldPending;
  }

  lemma RestoreKeepsOwnKept(p: Fields, placed: History, key: Key, kind: SignalKind, clear: bool)
    requires KeysInv(p, placed) && Kept(p, placed, key, kind, clear)
    ensures Kept(RestoreKey(p, key), PromotePlaces(placed, {key}), key, kind, clear && RollClear(p, key, kind))
  {
    hide KeysInv, SlotInv, SlotKept, PromotePlaces, SlotsFor, RestoreKey, Deposit;
    SlotsAreKnown(p, placed, key, kind);
    WaitingIsCounted(p, placed, key);
    StructureAt(p, placed, key);
    if key in p.pending.firstSeen {
      RestoredSlots(p, key, kind);
      SlotKeptRestores(SlotsFor(p, Active, kind), SlotsFor(p, Pending, kind), placed, key, kind, clear);
      NothingIsKept(SlotsFor(p, Pending, kind) - {key}, PromotePlaces(placed, {key}), key, kind);
      RestoredPresence(SlotsFor(p, Active, kind), SlotsFor(p, Pending, kind), key);
    } else {
      NotPending(p, key, kind);
      NobodyWaits(placed, key);
      QuietRestore(p, key, kind);
      KeptFrame(p, RestoreKey(p, key), placed, PromotePlaces(placed, {key}), key, kind, clear);
    }
  }

  lemma RestoredPresence(active: map<Key, Execution>, pending: map<Key, Execution>, key: Key)
    ensures key in FoldPending(active, pending, key) <==> key in active || key in pending
  {
    hide Merge;
  }

  lemma NotPending(p: Fields, key: Key, kind: SignalKind)
    requires key !in p.pending.spans && key !in p.pending.logs
    ensures key !in SlotsFor(p, Pending, kind)
  {}

  lemma QuietRestore(p: Fields, key: Key, kind: SignalKind)
    requires key !in p.pending.firstSeen
    ensures SameSlots(p, RestoreKey(p, key), key, kind)
  {}

  lemma NothingIsKept(slots: map<Key, Execution>, placed: History, key: Key, kind: SignalKind)
    requires key !in slots
    ensures SlotKept(slots, placed, key, Pending, kind, true)
  {}

  /** What a list of restored keys has done to one key so far. */
  ghost predicate Restored(p: Fields, q: Fields, keys: seq<Key>, key: Key) {
    if key in keys then key !in q.pending.firstSeen else SameKey(p, q, key)
  }

  lemma RestoredSnoc(p: Fields, q: Fields, init: seq<Key>, last: Key, key: Key)
    requires Restored(p, q, init, key)
    ensures Restored(p, RestoreKey(q, last), init + [last], key)
  {
    hide RestoreKey;
    if last == key {
      RestoreEndsPending(q, key);
      assert key in init + [last];
    } else {
      RestoreLeavesOthers(q, last, key);
      assert key in init + [last] <==> key in init;
    }
  }

  lemma RestoreEndsPending(q: Fields, key: Key)
    ensures key !in RestoreKey(q, key).pending.firstSeen
  {
    hide Absorb;
  }

  lemma SameRollClear(p: Fields, q: Fields, key: Key, kind: SignalKind)
    requires SameSlots(p, q, key, kind)
    ensures RollClear(p, key, kind) <==> RollClear(q, key, kind)
  {
    hide SlotsFor;
  }

  lemma RestoreKeyKeepsKept(p: Fields, placed: History, last: Key, key: Key, kind: SignalKind, clear: bool)
    requires KeysInv(p, placed) && Kept(p, placed, key, kind, clear)
    ensures Kept(RestoreKey(p, last), PromotePlaces(placed, {last}), key, kind,
                 clear && (last == key ==> RollClear(p, key, kind)))
  {
    hide KeysInv, Kept, RestoreKey, RollClear;
    if last == key {
      RestoreKeepsOwnKept(p, placed, key, kind, clear);
    } else {
      RestoreLeavesOthers(p, last, key);
      SameKeySlots(p, RestoreKey(p, last), key, kind);
      hide SameKey;
      KeptFrame(p, RestoreKey(p, last), placed, PromotePlaces(placed, {last}), key, kind, clear);
    }
  }

  lemma {:induction false} RestoreKeepsKept(p: Fields, placed: History, keys: seq<Key>, key: Key, kind: SignalKind,
                                            clear: bool)
    requires KeysInv(p, placed) && HistoryInv(p.stats.lateSignalsIgnored, placed) && Kept(p, placed, key, kind, clear)
    ensures Kept(RestoreKeys(p, keys), PromotePlaces(placed, KeySet(keys)), key, kind,
                 clear && (key in keys ==> RollClear(p, key, kind)))
    ensures Restored(p, RestoreKeys(p, keys), keys, key)
  {
    hide KeysInv, HistoryInv, Kept, RestoreKey, RollClear, SameKey, Restored;
    if keys == [] {
      assert PromotePlaces(placed, KeySet(keys)) == placed;
      NothingRestored(p, key);
    } else {
      hide PromotePlaces;
      var init, last := keys[..|keys| - 1], keys[|keys| - 1];
      assert keys == init + [last];
      var q, mid := RestoreKeys(p, init), PromotePlaces(placed, KeySet(init));
      RestoreKeeps(p, placed, init);
      RestoreKeepsKept(p, placed, init, key, kind, clear);
      PromoteTwice(placed, KeySet(init), last);
      RestoreKeyKeepsKept(q, mid, last, key, kind, clear && (key in init ==> RollClear(p, key, kind)));
      RestoredSnoc(p, q, init, last, key);
      if last == key { RollClearOnce(p, q, mid, init, key, kind); }
      assert KeySet(keys) == KeySet(init) + {last};
    }
  }

  lemma NothingRestored(p: Fields, key: Key)
    ensures Restored(p, p, [], key)
  {}

  /** A second restoration of the key finds nothing; the first finds what was there. */
  lemma RollClearOnce(p: Fields, q: Fields, placed: History, init: seq<Key>, key: Key, kind: SignalKind)
    requires Restored(p, q, init, key) && KeysInv(q, placed)
    ensures if key in init then RollClear(q, key, kind) else RollClear(q, key, kind) <==> RollClear(p, key, kind)
  {
    hide KeysInv;
    if key in init {
      StructureAt(q, placed, key);
    } else {
      SameKeySlots(p, q, key, kind);
      SameRollClear(p, q, key, kind);
    }
  }

  // ---------------------------------------------------------------- all steps, all runs

  /** No roll-back of the run merged a list of the key away. */
  ghost predicate RollsClear(env: Env, m: Machine, events: seq<Event>, key: Key, kind: SignalKind)
    requires Runs(env, m, events)
    decreases events
  {
    events == [] ||
    ((events[0].Restore? ==> RollClear(m.p, key, kind)) &&
     RollsClear(env, Step(env, m, events[0]), events[1..], key, kind))
  }

  lemma TakeKeepsKept(env: Env, m: Machine, raw: RawSignal, now: Instant, key: Key, kind: SignalKind, clear: bool)
    requires Inv(env, m) && Kept(m.p, m.placed, key, kind, clear)
    ensures var n := TakeStep(env, m, raw, now); Kept(n.p, n.placed, key, kind, clear)
  {
    hide KeysInv, RecordsInv, StatsInv, FileInv, SeenInv, PhaseInv, HistoryInv, Kept, NormalizeSignal, JoinKey,
      BufferAt,
      PlaceFor, Stamp, Genuine;
    if NormalizeSignal(env, raw).Some? {
      var ex := NormalizeSignal(env, raw).value;
      var s := Arrival(m, raw, ex, now);
      if s.key != "" {
        ArrivalIsNew(m.p.stats.lateSignalsIgnored, m.placed, s);
        ArrivalIsGenuine(env, m, raw, ex, now);
        BufferKeepsKept(m.p, m.placed, s, ex, key, kind, clear);
      } else {
        StatsKeepKept(m.p, BufferStep(m.p, ex, KindOf(raw), now), m.placed, key, kind, clear);
      }
    } else {
      StatsKeepKept(m.p, TakeStep(env, m, raw, now).p, m.placed, key, kind, clear);
    }
  }

  lemma StatsKeepKept(p: Fields, q: Fields, placed: History, key: Key, kind: SignalKind, clear: bool)
    requires Kept(p, placed, key, kind, clear)
    requires q.active == p.active && q.pending == p.pending && q.emitted == p.emitted
    ensures Kept(q, placed, key, kind, clear)
  {
    hide Folded;
  }

  lemma RestoreStepKeepsKept(env: Env, m: Machine, key: Key, kind: SignalKind, clear: bool)
    requires Inv(env, m) && Enabled(m, Restore) && Kept(m.p, m.placed, key, kind, clear)
    ensures var n := Step(env, m, Restore); Kept(n.p, n.placed, key, kind, clear && RollClear(m.p, key, kind))
  {
    hide KeysInv, RecordsInv, StatsInv, FileInv, SeenInv, HistoryInv, BatchInv, Kept, PromotePlaces, RestoreKeys,
      KeysOfBatch,
      RecordsOf, Restored;
    var keys := KeysOfBatch(RecordsOf(m.phase.batch[m.phase.next..]));
    RestoreKeepsKept(m.p, m.placed, keys, key, kind, clear);
    RestoreReleasesAll(m.p.inFlight, m.p.emitted, m.placed, m.phase.batch, m.phase.next);
    StructureAt(m.p, m.placed, key);
    assert key !in m.p.inFlight - KeySet(keys);
  }

  lemma StepKeepsKept(env: Env, m: Machine, e: Event, key: Key, kind: SignalKind, clear: bool)
    requires Inv(env, m) && Enabled(m, e) && Kept(m.p, m.placed, key, kind, clear)
    ensures var n := Step(env, m, e);
      Kept(n.p, n.placed, key, kind, clear && (e.Restore? ==> RollClear(m.p, key, kind)))
  {
    hide Inv, Kept, TakeStep, RestoreStep, BatchOf, ItemsOf, AckPlaces, Acknowledge, IsClaimMap, IsReadyList, RollClear,
      Sink.WriteStep, KeysOfBatch;
    if e.Take? {
      TakeKeepsKept(env, m, e.raw, e.now, key, kind, clear);
    } else if e.Ack? {
      AckKeepsKept(m.p, m.placed, m.phase.batch[m.phase.next].a, |m.accepted| - 1, key, kind, clear);
    } else if e.Restore? {
      RestoreStepKeepsKept(env, m, key, kind, clear);
    } else {
      StatsKeepKept(m.p, Step(env, m, e).p, m.placed, key, kind, clear);
    }
  }

  lemma {:induction false} RunKeepsKept(env: Env, m: Machine, events: seq<Event>, key: Key, kind: SignalKind,
                                        clear: bool)
    requires Inv(env, m) && Runs(env, m, events) && Kept(m.p, m.placed, key, kind, clear)
    ensures var n := End(env, m, events);
      Kept(n.p, n.placed, key, kind, clear && RollsClear(env, m, events, key, kind))
    decreases events
  {
    hide Inv, Step, Enabled, Kept, RollClear;
    if events != [] {
      var e := events[0];
      StepKeeps(env, m, e);
      StepKeepsKept(env, m, e, key, kind, clear);
      RunKeepsKept(env, Step(env, m, e), events[1..], key, kind, clear && (e.Restore? ==> RollClear(m.p, key, kind)));
    }
  }

  lemma StartsKept(m: Machine, key: Key, kind: SignalKind)
    requires Init(m)
    ensures Kept(m.p, m.placed, key, kind, true)
  {}

  lemma KeptFromStart(env: Env, start: Machine, events: seq<Event>, key: Key, kind: SignalKind)
    requires Init(start) && Runs(env, start, events)
    ensures var m := End(env, start, events); Kept(m.p, m.placed, key, kind, RollsClear(env, start, events, key, kind))
    ensures Inv(env, End(env, start, events))
  {
    hide Inv, Step, Init, Kept, Runs, End, RollsClear;
    InitHolds(env, start);
    StartsKept(start, key, kind);
    RunKeeps(env, start, events);
    RunKeepsKept(env, start, events, key, kind, true);
  }

  // ---------------------------------------------------------------- slots

  /** In every reachable state a pending slot can be taken at its word. */
  lemma PendingSlotsAreAudited(env: Env, m: Machine, key: Key, kind: SignalKind)
    requires Reachable(env, m) && key in SlotsFor(m.p, Pending, kind)
    ensures Audited(SlotsFor(m.p, Pending, kind)[key], At(m.placed, key, Pending, kind))
  {
    hide Inv, Init, Step, Folded, Audited, Runs, End, RollsClear;
    var start, events :| Init(start) && Runs(env, start, events) && End(env, start, events) == m;
    KeptFromStart(env, start, events, key, kind);
    FoldedIsAuditedExactlyWhen(SlotsFor(m.p, Pending, kind)[key], At(m.placed, key, Pending, kind), true);
  }

  /** An active slot can, in every state of every run, exactly when it lists something or no
      roll-back merged a list of its key away, whatever happened to other keys. */
  lemma ActiveSlotsAreAuditedExactlyWhen(env: Env, start: Machine, events: seq<Event>, key: Key, kind: SignalKind)
    requires Init(start) && Runs(env, start, events) && key in SlotsFor(End(env, start, events).p, Active, kind)
    ensures var m := End(env, start, events);
      var slot := SlotsFor(m.p, Active, kind)[key];
      Audited(slot, At(m.placed, key, Active, kind)) <==>
        slot.disagreements != [] || RollsClear(env, start, events, key, kind)
  {
    hide Inv, Init, Step, Folded, Audited, Runs, End, RollsClear;
    var m := End(env, start, events);
    KeptFromStart(env, start, events, key, kind);
    FoldedIsAuditedExactlyWhen(SlotsFor(m.p, Active, kind)[key], At(m.placed, key, Active, kind),
                               RollsClear(env, start, events, key, kind));
  }

  /** In particular without any roll-back. */
  lemma {:induction false} WithoutRollBackAllIsClear(env: Env, m: Machine, events: seq<Event>, key: Key,
                                                     kind: SignalKind)
    requires Runs(env, m, events) && forall i :: 0 <= i < |events| ==> !events[i].Restore?
    ensures RollsClear(env, m, events, key, kind)
    decreases events
  {
    hide Step, Enabled;
    if events != [] { WithoutRollBackAllIsClear(env, Step(env, m, events[0]), events[1..], key, kind); }
  }

  // ---------------------------------------------------------------- records

  /** The slots of the buffer with what is known of them: which are clear. */
  ghost predicate AllKept(p: Fields, placed: History, clear: (Key, SignalKind) -> bool) {
    forall key, kind :: Kept(p, placed, key, kind, clear(key, kind))
  }

  lemma KeptSlot(p: Fields, placed: History, clear: (Key, SignalKind) -> bool, key: Key)
    requires KeysInv(p, placed) && AllKept(p, placed, clear)
    ensures SlotInv(p.active.spans, placed, key, Active, Traces) && SlotInv(p.active.logs, placed, key, Active, Logs)
    ensures SlotKept(p.active.spans, placed, key, Active, Traces, clear(key, Traces))
    ensures SlotKept(p.active.logs, placed, key, Active, Logs, clear(key, Logs))
  {
    hide KeysInv, SlotInv, SlotKept;
    SlotsAreKnown(p, placed, key, Traces);
    SlotsAreKnown(p, placed, key, Logs);
    assert Kept(p, placed, key, Traces, clear(key, Traces)) && Kept(p, placed, key, Logs, clear(key, Logs));
  }

  /** If the slot is there it is clear and lists nothing. */
  ghost predicate SlotClear(slots: map<Key, Execution>, key: Key, clear: bool) {
    key in slots ==> clear && slots[key].disagreements == []
  }

  lemma FoldsSlot(a: Execution, A: set<Signal>, clearA: bool, slots: map<Key, Execution>, placed: History, key: Key,
                  kind: SignalKind, clear: bool)
    requires Folded(a, A, clearA) && SlotInv(slots, placed, key, Active, kind)
    requires SlotKept(slots, placed, key, Active, kind, clear)
    ensures Folded(if key in slots then Merge(a, slots[key]) else a, A + At(placed, key, Active, kind),
                   clearA && SlotClear(slots, key, clear))
  {
    hide Merge, Folded, Represents, JoinKey;
    if key in slots {
      FoldsOneMore(a, A, clearA, slots[key], At(placed, key, Active, kind), clear);
    } else {
      assert A + At(placed, key, Active, kind) == A;
    }
  }

  lemma FirstSlotIsFolded(slots: map<Key, Execution>, placed: History, key: Key, kind: SignalKind, clear: bool)
    requires key in slots && SlotKept(slots, placed, key, Active, kind, clear)
    ensures Folded(slots[key], At(placed, key, Active, kind), SlotClear(slots, key, clear))
  {
    hide Keeps, Contested;
  }

  /** Both slots of the key, as far as they are there, are clear and list nothing. */
  ghost predicate KeyClear(p: Fields, clear: (Key, SignalKind) -> bool, key: Key) {
    SlotClear(p.active.spans, key, clear(key, Traces)) && SlotClear(p.active.logs, key, clear(key, Logs))
  }

  /** So are all slots the record consumes. */
  ghost predicate SlotsClear(p: Fields, clear: (Key, SignalKind) -> bool, keys: seq<Key>) {
    forall key :: key in keys ==> KeyClear(p, clear, key)
  }

  lemma ParentIsFolded(p: Fields, placed: History, clear: (Key, SignalKind) -> bool, a: Assembled, A: set<Signal>,
                       clearA: bool, parent: Key)
    requires KeysInv(p, placed) && AllKept(p, placed, clear) && Folded(a.ex, A, clearA)
    ensures Folded(MergeParent(p, a, parent).ex, A + LiveAt(placed, parent), clearA && KeyClear(p, clear, parent))
  {
    hide KeysInv, Merge, Folded, SlotInv, SlotKept, At, SlotClear, AllKept;
    KeptSlot(p, placed, clear, parent);
    var spans, logs := At(placed, parent, Active, Traces), At(placed, parent, Active, Logs);
    var mid := if parent in p.active.spans then Merge(a.ex, p.active.spans[parent]) else a.ex;
    FoldsSlot(a.ex, A, clearA, p.active.spans, placed, parent, Traces, clear(parent, Traces));
    FoldsSlot(mid, A + spans, clearA && SlotClear(p.active.spans, parent, clear(parent, Traces)), p.active.logs, placed,
              parent, Logs, clear(parent, Logs));
    assert A + spans + logs == A + LiveAt(placed, parent);
  }

  lemma LoneIsFolded(p: Fields, placed: History, clear: (Key, SignalKind) -> bool, key: Key)
    requires KeysInv(p, placed) && AllKept(p, placed, clear) && AssembleKey(p, key).Some?
    requires key !in p.active.spans || ClaimOf(p.active.spans[key]).None?
    ensures AssembleKey(p, key).value.consumedKeys == [key]
    ensures Folded(AssembleKey(p, key).value.ex, LiveUnder(placed, [key]), SlotsClear(p, clear, [key]))
  {
    hide KeysInv, Merge, Folded, SlotInv, SlotKept, At, LiveUnder, ClaimOf, SlotClear, AllKept;
    KeptSlot(p, placed, clear, key);
    LiveUnderOne(placed, key);
    OneClear(p, clear, key);
    if key in p.active.spans {
      var first := SlotClear(p.active.spans, key, clear(key, Traces));
      FirstSlotIsFolded(p.active.spans, placed, key, Traces, clear(key, Traces));
      FoldsSlot(p.active.spans[key], At(placed, key, Active, Traces), first, p.active.logs, placed, key, Logs,
                clear(key, Logs));
    } else {
      FirstSlotIsFolded(p.active.logs, placed, key, Logs, clear(key, Logs));
      AbsentSlot(p.active.spans, placed, key, Traces, clear(key, Traces));
      assert LiveAt(placed, key) == At(placed, key, Active, Logs);
    }
  }

  lemma AbsentSlot(slots: map<Key, Execution>, placed: History, key: Key, kind: SignalKind, clear: bool)
    requires key !in slots && SlotInv(slots, placed, key, Active, kind)
    ensures At(placed, key, Active, kind) == {} && SlotClear(slots, key, clear)
  {
    hide At;
  }

  lemma OneClear(p: Fields, clear: (Key, SignalKind) -> bool, key: Key)
    ensures SlotsClear(p, clear, [key]) <==> KeyClear(p, clear, key)
  {
    hide KeyClear;
    assert key in [key];
  }

  lemma TwoClear(p: Fields, clear: (Key, SignalKind) -> bool, key: Key, parent: Key)
    ensures SlotsClear(p, clear, [key, parent]) <==> KeyClear(p, clear, key) && KeyClear(p, clear, parent)
  {
    hide KeyClear;
    assert key in [key, parent] && parent in [key, parent];
  }

  lemma ChildIsFolded(p: Fields, placed: History, clear: (Key, SignalKind) -> bool, key: Key, parent: Key)
    requires KeysInv(p, placed) && AllKept(p, placed, clear)
    requires key in p.active.spans && ClaimOf(p.active.spans[key]) == Some(parent)
    ensures var a := AssembleKey(p, key).value;
      Folded(a.ex, LiveUnder(placed, a.consumedKeys), SlotsClear(p, clear, a.consumedKeys))
  {
    hide KeysInv, Merge, Folded, SlotInv, SlotKept, At, LiveUnder, ClaimOf, SlotClear, SlotsClear, MergeParent,
      LiveAt, AllKept;
    KeptSlot(p, placed, clear, key);
    var g := p.active;
    var span, spans, logs := g.spans[key], At(placed, key, Active, Traces), At(placed, key, Active, Logs);
    var own := Assembled(key, [key], span, key in g.logs, false, 0);
    var joined, first := MergeParent(p, own, parent), SlotClear(g.spans, key, clear(key, Traces));
    FirstSlotIsFolded(g.spans, placed, key, Traces, clear(key, Traces));
    ParentIsFolded(p, placed, clear, own, spans, first, parent);
    FoldsSlot(joined.ex, spans + LiveAt(placed, parent), first && KeyClear(p, clear, parent), g.logs, placed, key, Logs,
              clear(key, Logs));
    ConsumedParent(p, placed, clear, own, parent);
    LiveUnderOne(placed, key);
    LiveUnderTwo(placed, key, parent);
    OneClear(p, clear, key);
    TwoClear(p, clear, key, parent);
    LiveIsBoth(placed, key);
    assert spans + LiveAt(placed, parent) + logs == LiveAt(placed, key) + LiveAt(placed, parent);
    assert [key] + [parent] == [key, parent] && [key] + [] == [key];
    if LiveAt(placed, parent) == {} { assert LiveAt(placed, key) + LiveAt(placed, parent) == LiveAt(placed, key); }
  }

  lemma LiveIsBoth(placed: History, key: Key)
    ensures LiveAt(placed, key) == At(placed, key, Active, Traces) + At(placed, key, Active, Logs)
  {
    hide At;
  }

  /** The parent is consumed exactly when something lives under it, and is clear if nothing does. */
  lemma ConsumedParent(p: Fields, placed: History, clear: (Key, SignalKind) -> bool, a: Assembled, parent: Key)
    requires KeysInv(p, placed)
    ensures MergeParent(p, a, parent).consumedKeys ==
      a.consumedKeys + (if LiveAt(placed, parent) == {} then [] else [parent])
    ensures LiveAt(placed, parent) == {} ==> KeyClear(p, clear, parent)
  {
    hide KeysInv, Merge, At, Represents, JoinKey;
    GenerationsOf(p, placed, parent);
    LiveIsBoth(placed, parent);
  }

  lemma RecordIsFolded(p: Fields, placed: History, clear: (Key, SignalKind) -> bool, key: Key)
    requires KeysInv(p, placed) && AllKept(p, placed, clear) && AssembleKey(p, key).Some?
    ensures var a := AssembleKey(p, key).value;
      Folded(a.ex, LiveUnder(placed, a.consumedKeys), SlotsClear(p, clear, a.consumedKeys))
  {
    hide KeysInv, AllKept, AssembleKey, Folded, LiveUnder, SlotsClear, ClaimOf;
    if key in p.active.spans && ClaimOf(p.active.spans[key]).Some? {
      ChildIsFolded(p, placed, clear, key, ClaimOf(p.active.spans[key]).value);
    } else {
      LoneIsFolded(p, placed, clear, key);
    }
  }

  /** A slot the record consumes, if it is there, lists nothing, and no roll-back of the run merged
      a list of its key away. */
  ghost predicate SpokenFor(env: Env, start: Machine, events: seq<Event>, key: Key, kind: SignalKind)
    requires Runs(env, start, events)
  {
    var slots := SlotsFor(End(env, start, events).p, Active, kind);
    key in slots ==> RollsClear(env, start, events, key, kind) && slots[key].disagreements == []
  }

  /** A record of a snapshot, in any state of any run, lists disagreements exactly when two of its
      signals contradict each other, if and only if it lists some anyway, or none of the slots it
      was merged from listed any and no roll-back had merged such a list away before. */
  lemma RecordIsAuditedExactlyWhen(env: Env, start: Machine, events: seq<Event>, childOf: map<Key, Key>,
                                   ready: seq<Key>,
                                   j: nat)
    requires Init(start) && Runs(env, start, events) && Ascending(ready)
    requires j < |BatchOf(End(env, start, events).p, childOf, ready)|
    ensures var item := BeginStep(End(env, start, events), childOf, ready).phase.batch[j];
      Audited(item.a.ex, item.from) <==>
        || item.a.ex.disagreements != []
        || forall key, kind :: key in item.a.consumedKeys ==> SpokenFor(env, start, events, key, kind)
  {
    hide Inv, Init, Runs, End, Kept, RollsClear, BatchOf, AssembleKey, LiveUnder, Ascending, Folded, Audited,
      SlotsClear;
    var m := End(env, start, events);
    var clear := (key: Key, kind: SignalKind) => RollsClear(env, start, events, key, kind);
    forall key, kind ensures Kept(m.p, m.placed, key, kind, clear(key, kind)) {
      KeptFromStart(env, start, events, key, kind);
    }
    KeptFromStart(env, start, events, "", Logs);
    KeysOfInv(env, m);
    BatchMembers(m.p, childOf, ready);
    var a := BatchOf(m.p, childOf, ready)[j];
    assert AssembleKey(m.p, a.key) == Some(a);
    RecordIsFolded(m.p, m.placed, clear, a.key);
    FoldedIsAuditedExactlyWhen(a.ex, LiveUnder(m.placed, a.consumedKeys), SlotsClear(m.p, clear, a.consumedKeys));
    ClearMeansSpokenFor(env, start, events, clear, a.consumedKeys);
  }

  lemma ClearMeansSpokenFor(env: Env, start: Machine, events: seq<Event>, clear: (Key, SignalKind) -> bool,
                            keys: seq<Key>)
    requires Runs(env, start, events)
    requires forall key, kind :: clear(key, kind) == RollsClear(env, start, events, key, kind)
    ensures SlotsClear(End(env, start, events).p, clear, keys) <==>
      forall key, kind :: key in keys ==> SpokenFor(env, start, events, key, kind)
  {
    hide RollsClear, Runs, End;
    var p := End(env, start, events).p;
    forall key ensures KeyClear(p, clear, key) <==>
      SpokenFor(env, start, events, key, Traces) && SpokenFor(env, start, events, key, Logs) {}
    hide KeyClear, SpokenFor;
  }

  lemma KeysOfInv(env: Env, m: Machine)
    requires Inv(env, m)
    ensures KeysInv(m.p, m.placed)
  {
    hide KeysInv, HistoryInv, RecordsInv, StatsInv, FileInv, SeenInv, PhaseInv;
  }
}
