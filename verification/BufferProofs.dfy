/** Every section keeps the per-key invariant: each slot says exactly what the signals placed
    there say. */
module BufferProofs {
  import opened Text
  import opened Observation
  import opened Normalize
  import opened Telemetry
  import opened Merging
  import opened MergeLaws
  import opened Processor
  import opened Machine

  // ---------------------------------------------------------------- merge and identity

  /** b has the ids of a, and every other field, time and error text wherever a has one. */
  ghost predicate KeepsIdentity(a: Execution, b: Execution) {
    && b.traceID == a.traceID && b.spanID == a.spanID
    && (forall field :: FieldOf(a, field) != "" ==> FieldOf(b, field) == FieldOf(a, field))
    && (a.startedAt != 0 ==> b.startedAt == a.startedAt) && (a.finishedAt != 0 ==> b.finishedAt == a.finishedAt)
    && (a.durationMS != 0 ==> b.durationMS == a.durationMS)
    && (!Blank(a.errorType) ==> b.errorType == a.errorType) && (!Blank(a.errorCode) ==> b.errorCode == a.errorCode)
  }

  lemma MergeKeepsIdentity(a: Execution, b: Execution)
    requires JoinKey(a.traceID, a.spanID) != ""
    ensures KeepsIdentity(a, Merge(a, b))
    ensures ClaimOf(a).Some? ==> ClaimOf(Merge(a, b)) == ClaimOf(a)
  {
    hide Merge, Blank, ClaimOf, JoinKey;
    NoBlankIDs(a.traceID, a.spanID);
    MergeKeepsFields(a, b);
    MergeKeepsTimes(a, b);
    assert FieldOf(a, TraceField) == a.traceID && FieldOf(a, SpanField) == a.spanID;
    assert FieldOf(Merge(a, b), TraceField) == Merge(a, b).traceID;
    assert FieldOf(Merge(a, b), SpanField) == Merge(a, b).spanID;
    if ClaimOf(a).Some? { KeptClaim(a, Merge(a, b)); }
  }

  lemma MergeKeepsFields(a: Execution, b: Execution)
    ensures forall field :: FieldOf(a, field) != "" ==> FieldOf(Merge(a, b), field) == FieldOf(a, field)
  {
    hide Merge, FieldOf;
    forall field | FieldOf(a, field) != "" ensures FieldOf(Merge(a, b), field) == FieldOf(a, field) {
      FieldOfMerge(a, b, field);
    }
  }

  lemma MergeKeepsTimes(a: Execution, b: Execution)
    ensures var m := Merge(a, b);
      && (a.startedAt != 0 ==> m.startedAt == a.startedAt) && (a.finishedAt != 0 ==> m.finishedAt == a.finishedAt)
      && (a.durationMS != 0 ==> m.durationMS == a.durationMS)
      && (!Blank(a.errorType) ==> m.errorType == a.errorType) && (!Blank(a.errorCode) ==> m.errorCode == a.errorCode)
  {
    MergeFillsGaps(a, b);
    MergeKeepsTheRest(a, b);
    hide Merge, Blank, ElapsedMS;
  }

  lemma NoBlankIDs(traceID: string, spanID: string)
    requires JoinKey(traceID, spanID) != ""
    ensures traceID != "" && spanID != ""
  {}

  lemma KeptClaim(a: Execution, b: Execution)
    requires KeepsIdentity(a, b) && ClaimOf(a).Some?
    ensures ClaimOf(b) == ClaimOf(a)
  {
    hide Blank;
    assert FieldOf(b, KindField) == FieldOf(a, KindField) && FieldOf(b, ParentField) == FieldOf(a, ParentField);
  }

  // ---------------------------------------------------------------- frames

  predicate SameSlot<T(==)>(a: map<Key, T>, b: map<Key, T>, key: Key) {
    (key in a <==> key in b) && (key in a ==> a[key] == b[key])
  }

  predicate SameGeneration(g: Generation, h: Generation, key: Key) {
    SameSlot(g.spans, h.spans, key) && SameSlot(g.logs, h.logs, key) && SameSlot(g.firstSeen, h.firstSeen, key)
  }

  predicate SameKey(p: Fields, q: Fields, key: Key) {
    && SameGeneration(p.active, q.active, key) && SameGeneration(p.pending, q.pending, key)
    && SameSlot(p.pendingSignals, q.pendingSignals, key)
    && (key in p.inFlight <==> key in q.inFlight) && (key in p.emitted <==> key in q.emitted)
  }

  ghost predicate SamePlaces(before: History, after: History, key: Key) {
    forall s: Signal :: s.key == key ==> (s in before <==> s in after) && (s in before ==> before[s] == after[s])
  }

  lemma GenerationFrame(g: Generation, h: Generation, before: History, after: History, key: Key, place: Place)
    requires GenerationInv(g, before, key, place) && SameGeneration(g, h, key) && SamePlaces(before, after, key)
    ensures GenerationInv(h, after, key, place)
  {
    hide Represents, JoinKey;
    forall kind ensures At(before, key, place, kind) == At(after, key, place, kind) {}
  }

  lemma KeyFrame(p: Fields, q: Fields, before: History, after: History, key: Key)
    requires KeyInv(p, before, key) && SameKey(p, q, key) && SamePlaces(before, after, key)
    ensures KeyInv(q, after, key)
  {
    hide GenerationInv;
    GenerationFrame(p.active, q.active, before, after, key, Active);
    GenerationFrame(p.pending, q.pending, before, after, key, Pending);
    assert Waiting(before, key) == Waiting(after, key);
    if key in p.active.firstSeen {
      var s :| s in before && s.key == key && IsFirst(before, s) && s.time == p.active.firstSeen[key];
      assert s in after && IsFirst(after, s);
    }
  }

  // ---------------------------------------------------------------- a signal arrives

  lemma SlotTakes(slots: map<Key, Execution>, placed: History, s: Signal, place: Place, l: Place, kind: SignalKind)
    requires s !in placed && Genuine(s) && SlotInv(slots, placed, s.key, l, kind)
    ensures SlotInv(if place == l && KindOf(s.raw) == kind then Deposit(slots, s.key, s.ex) else slots,
                    placed[s := place], s.key, l, kind)
  {
    hide Merge, Represents, Genuine, JoinKey;
    var before, after := At(placed, s.key, l, kind), At(placed[s := place], s.key, l, kind);
    if place == l && KindOf(s.raw) == kind {
      assert after == before + {s};
      SignalRepresentsItself(s);
      GenuineKey(s);
      if s.key in slots {
        MergeRepresents(slots[s.key], before, s.ex, {s});
        MergeKeepsIdentity(slots[s.key], s.ex);
      } else {
        assert after == {s};
      }
      assert s in after;
    } else {
      assert after == before;
    }
  }

  lemma GenerationTakes(g: Generation, placed: History, s: Signal, place: Place, l: Place)
    requires s !in placed && Genuine(s) && GenerationInv(g, placed, s.key, l)
    ensures GenerationInv(if place == l then Admit(g, s.key, s.ex, KindOf(s.raw), s.time) else g,
                          placed[s := place], s.key, l)
  {
    hide Genuine, SlotInv, Merge;
    SlotTakes(g.spans, placed, s, place, l, Traces);
    SlotTakes(g.logs, placed, s, place, l, Logs);
  }

  lemma GenuineKey(s: Signal)
    requires Genuine(s)
    ensures s.key == JoinKey(s.ex.traceID, s.ex.spanID) && s.key != ""
  {}

  lemma FirstTakes(placed: History, s: Signal, place: Place, first: Signal)
    requires s !in placed && s.id == |placed| && first in placed && IsFirst(placed, first)
    requires forall r :: r in placed ==> r.id < |placed|
    ensures IsFirst(placed[s := place], first)
  {}

  lemma FreshIsFirst(placed: History, s: Signal, place: Place)
    requires forall r :: r in placed ==> r.key != s.key
    ensures IsFirst(placed[s := place], s)
  {}

  /** buffer's section keeps every key's invariant. */
  lemma BufferKeepsKeys(p: Fields, placed: History, s: Signal, ex: Execution)
    requires KeysInv(p, placed)
    requires s !in placed && Genuine(s) && s.id == |placed| && forall r :: r in placed ==> r.id < |placed|
    requires s.ex == Stamp(p, ex)
    ensures KeysInv(BufferAt(p, s.key, ex, KindOf(s.raw), s.time), placed[s := PlaceFor(p, s.key)])
  {
    hide Stamp, BufferAt, KeyInv, Genuine, PlaceFor;
    var q, place := BufferAt(p, s.key, ex, KindOf(s.raw), s.time), PlaceFor(p, s.key);
    var after := placed[s := place];
    forall key ensures KeyInv(q, after, key) {
      assert KeyInv(p, placed, key);
      if key == s.key {
        BufferKeepsOwnKey(p, placed, s, ex);
      } else {
        BufferLeavesOthers(p, s, ex, key);
        KeyFrame(p, q, placed, after, key);
      }
    }
  }

  lemma AddLeavesOthers(g: Generation, key: Key, ex: Execution, kind: SignalKind, now: Instant, other: Key)
    requires other != key
    ensures SameGeneration(g, Admit(g, key, ex, kind, now), other)
  {
    hide Merge;
  }

  lemma BufferLeavesOthers(p: Fields, s: Signal, ex: Execution, key: Key)
    requires key != s.key
    ensures SameKey(p, BufferAt(p, s.key, ex, KindOf(s.raw), s.time), key)
  {
    hide Stamp, Admit;
    AddLeavesOthers(p.active, s.key, Stamp(p, ex), KindOf(s.raw), s.time, key);
    AddLeavesOthers(p.pending, s.key, Stamp(p, ex), KindOf(s.raw), s.time, key);
  }

  lemma BufferKeepsOwnKey(p: Fields, placed: History, s: Signal, ex: Execution)
    requires KeyInv(p, placed, s.key)
    requires s !in placed && Genuine(s) && s.id == |placed| && forall r :: r in placed ==> r.id < |placed|
    requires s.ex == Stamp(p, ex)
    ensures KeyInv(BufferAt(p, s.key, ex, KindOf(s.raw), s.time), placed[s := PlaceFor(p, s.key)], s.key)
  {
    hide GenerationInv, Genuine, Stamp, FirstSeenInv, Admit, Waiting, NestingInv, Remember, IsFirst;
    var place := PlaceFor(p, s.key);
    GenerationTakes(p.active, placed, s, place, Active);
    GenerationTakes(p.pending, placed, s, place, Pending);
    FirstSeenTakes(p, placed, s, place);
    WaitingTakes(placed, s, place);
    PlacedTakes(p, placed, s, place);
    AdmitRemembers(p.active, s);
    NestingTakes(p, placed, s, ex);
  }

  lemma NestingTakes(p: Fields, placed: History, s: Signal, ex: Execution)
    requires KeyInv(p, placed, s.key) && s.ex == Stamp(p, ex)
    ensures NestingInv(BufferAt(p, s.key, ex, KindOf(s.raw), s.time), s.key)
  {
    hide GenerationInv, Stamp, FirstSeenInv, Admit, Waiting;
    AdmitRemembers(p.active, s);
    AdmitRemembers(p.pending, s);
  }

  lemma AdmitRemembers(g: Generation, s: Signal)
    ensures var h := Admit(g, s.key, s.ex, KindOf(s.raw), s.time);
      h.firstSeen == Remember(g.firstSeen, s.key, s.time) && s.key in h.firstSeen
  {
    hide Merge;
  }

  lemma WaitingTakes(placed: History, s: Signal, place: Place)
    requires s !in placed
    ensures |Waiting(placed[s := place], s.key)| == |Waiting(placed, s.key)| + if place.Pending? then 1 else 0
  {
    assert Waiting(placed[s := place], s.key) ==
      if place.Pending? then Waiting(placed, s.key) + {s} else Waiting(placed, s.key);
  }

  lemma PlacedTakes(p: Fields, placed: History, s: Signal, place: Place)
    requires KeyInv(p, placed, s.key) && place == PlaceFor(p, s.key)
    ensures var after := placed[s := place];
      forall r :: r in after && r.key == s.key ==> (s.key in p.emitted <==> after[r].Late? || after[r].Acked?)
  {
    hide GenerationInv;
  }

  lemma FirstSeenTakes(p: Fields, placed: History, s: Signal, place: Place)
    requires KeyInv(p, placed, s.key) && place == PlaceFor(p, s.key)
    requires s !in placed && s.id == |placed| && forall r :: r in placed ==> r.id < |placed|
    ensures FirstSeenInv(if place.Active? then Remember(p.active.firstSeen, s.key, s.time) else p.active.firstSeen,
                         placed[s := place], s.key)
  {
    hide IsFirst, SlotInv;
    if s.key in p.active.firstSeen {
      var first :| first in placed && first.key == s.key && IsFirst(placed, first)
        && first.time == p.active.firstSeen[s.key];
      FirstTakes(placed, s, place, first);
    } else if place.Active? {
      forall r | r in placed ensures r.key != s.key {
        if r.key == s.key { LiveSignalIsBuffered(p, placed, r); }
      }
      FreshIsFirst(placed, s, place);
    }
  }

  /** A placed signal whose key is not finalized is buffered. */
  lemma LiveSignalIsBuffered(p: Fields, placed: History, r: Signal)
    requires KeyInv(p, placed, r.key) && r in placed && r.key !in p.emitted
    ensures r.key in p.active.firstSeen
  {
    hide Represents;
    assert r in At(placed, r.key, placed[r], KindOf(r.raw));
  }

  lemma LateTakes(late: nat, placed: History, s: Signal, place: Place)
    requires HistoryInv(late, placed) && s !in placed && Genuine(s) && s.id == |placed|
    ensures HistoryInv(if place.Late? then late + 1 else late, placed[s := place])
  {
    hide Genuine, LateOnes;
    LateOnesTake(placed, s, place);
    assert placed[s := place].Keys == placed.Keys + {s};
    assert |placed[s := place]| == |placed| + 1;
  }

  lemma LateOnesTake(placed: History, s: Signal, place: Place)
    requires s !in placed
    ensures |LateOnes(placed[s := place])| == |LateOnes(placed)| + if place.Late? then 1 else 0
  {
    assert LateOnes(placed[s := place]) == if place.Late? then LateOnes(placed) + {s} else LateOnes(placed);
  }

  // ---------------------------------------------------------------- a record is acknowledged

  lemma DropLeavesOthers(g: Generation, key: Key, other: Key)
    requires other != key
    ensures SameGeneration(g, Drop(g, key), other)
  {}

  lemma DropEmpties(g: Generation, placed: History, key: Key, place: Place)
    requires forall s :: s in placed && s.key == key ==> placed[s] != place
    ensures GenerationInv(Drop(g, key), placed, key, place)
  {
    hide Represents;
    forall kind ensures At(placed, key, place, kind) == {} {}
  }

  lemma AckKeyKeepsKeys(p: Fields, placed: History, key: Key, record: nat)
    requires KeysInv(p, placed)
    ensures KeysInv(AckKey(p, key), AckPlaces(placed, {key}, record))
  {
    hide GenerationInv, Drop;
    var q, after := AckKey(p, key), AckPlaces(placed, {key}, record);
    forall other ensures KeyInv(q, after, other) {
      assert KeyInv(p, placed, other);
      if other != key {
        DropLeavesOthers(p.active, key, other);
        DropLeavesOthers(p.pending, key, other);
        hide KeyInv;
        KeyFrame(p, q, placed, after, other);
      } else {
        AckOwnKey(p, placed, key, record);
      }
    }
  }

  lemma AckOwnKey(p: Fields, placed: History, key: Key, record: nat)
    requires KeyInv(p, placed, key)
    ensures KeyInv(AckKey(p, key), AckPlaces(placed, {key}, record), key)
  {
    var after := AckPlaces(placed, {key}, record);
    assert forall s :: s in after && s.key == key ==> after[s].Late? || after[s].Acked?;
    DropEmpties(p.active, after, key, Active);
    DropEmpties(p.pending, after, key, Pending);
    hide GenerationInv;
    assert Waiting(after, key) == {};
  }

  lemma LateAfterAck(placed: History, key: Key, record: nat)
    ensures LateOnes(AckPlaces(placed, {key}, record)) == LateOnes(placed) + Waiting(placed, key)
    ensures LateOnes(placed) !! Waiting(placed, key)
  {
    var after := AckPlaces(placed, {key}, record);
    forall s ensures s in LateOnes(after) <==> s in LateOnes(placed) + Waiting(placed, key) {}
  }

  lemma AckKeyCountsLate(late: nat, dropped: nat, placed: History, key: Key, record: nat)
    requires HistoryInv(late, placed) && dropped == |Waiting(placed, key)|
    ensures HistoryInv(late + dropped, AckPlaces(placed, {key}, record))
  {
    hide Genuine, LateOnes, Waiting;
    LateAfterAck(placed, key, record);
    assert AckPlaces(placed, {key}, record).Keys == placed.Keys;
    assert |AckPlaces(placed, {key}, record)| == |placed|;
  }

  lemma AckPlacesTwice(placed: History, keys: set<Key>, key: Key, record: nat)
    ensures AckPlaces(placed, keys + {key}, record) == AckPlaces(AckPlaces(placed, keys, record), {key}, record)
  {}

  lemma {:induction false} AckKeeps(p: Fields, placed: History, keys: seq<Key>, record: nat)
    requires KeysInv(p, placed) && HistoryInv(p.stats.lateSignalsIgnored, placed)
    ensures KeysInv(AckKeys(p, keys), AckPlaces(placed, KeySet(keys), record))
    ensures HistoryInv(AckKeys(p, keys).stats.lateSignalsIgnored, AckPlaces(placed, KeySet(keys), record))
    ensures AckKeys(p, keys).emitted == p.emitted + KeySet(keys)
    ensures AckKeys(p, keys).inFlight == p.inFlight - KeySet(keys)
    ensures AckKeys(p, keys).stats == p.stats.(lateSignalsIgnored := AckKeys(p, keys).stats.lateSignalsIgnored)
  {
    hide KeysInv, HistoryInv;
    if keys == [] {
      assert AckPlaces(placed, KeySet(keys), record) == placed;
    } else {
      hide AckPlaces;
      var init, last := keys[..|keys| - 1], keys[|keys| - 1];
      assert keys == init + [last];
      AckKeeps(p, placed, init, record);
      AckPlacesTwice(placed, KeySet(init), last, record);
      var q, mid := AckKeys(p, init), AckPlaces(placed, KeySet(init), record);
      WaitingIsCounted(q, mid, last);
      AckKeyKeepsKeys(q, mid, last, record);
      AckKeyCountsLate(q.stats.lateSignalsIgnored, CountAt(q.pendingSignals, last), mid, last, record);
      assert KeySet(keys) == KeySet(init) + {last};
    }
  }

  lemma WaitingIsCounted(p: Fields, placed: History, key: Key)
    requires KeysInv(p, placed)
    ensures CountAt(p.pendingSignals, key) == |Waiting(placed, key)|
  {
    hide Represents;
    assert KeyInv(p, placed, key);
  }

  // ---------------------------------------------------------------- a snapshot is rolled back

  lemma SlotRestores(active: map<Key, Execution>, pending: map<Key, Execution>, placed: History, key: Key,
                     kind: SignalKind)
    requires SlotInv(active, placed, key, Active, kind) && SlotInv(pending, placed, key, Pending, kind) && key != ""
    ensures SlotInv(FoldPending(active, pending, key), PromotePlaces(placed, {key}), key, Active, kind)
    ensures SlotInv(pending - {key}, PromotePlaces(placed, {key}), key, Pending, kind)
  {
    hide Merge, Represents, JoinKey;
    var after := PromotePlaces(placed, {key});
    var kept, more := At(placed, key, Active, kind), At(placed, key, Pending, kind);
    assert At(after, key, Active, kind) == kept + more;
    assert At(after, key, Pending, kind) == {};
    if key in pending && key in active {
      MergeRepresents(active[key], kept, pending[key], more);
      MergeKeepsIdentity(active[key], pending[key]);
    } else if key in pending {
      assert kept + more == more;
    } else {
      assert kept + more == kept;
    }
  }

  lemma GenerationRestores(active: Generation, pending: Generation, placed: History, key: Key)
    requires GenerationInv(active, placed, key, Active) && GenerationInv(pending, placed, key, Pending)
    requires key != "" && key in pending.firstSeen
    ensures GenerationInv(Absorb(active, pending, key), PromotePlaces(placed, {key}), key, Active)
    ensures GenerationInv(Drop(pending, key), PromotePlaces(placed, {key}), key, Pending)
  {
    hide SlotInv, Merge;
    SlotRestores(active.spans, pending.spans, placed, key, Traces);
    SlotRestores(active.logs, pending.logs, placed, key, Logs);
  }

  lemma PromoteEndsWaiting(placed: History, key: Key)
    ensures Waiting(PromotePlaces(placed, {key}), key) == {}
    ensures forall s :: s in placed && s.key == key ==>
      (placed[s].Late? || placed[s].Acked? <==>
       PromotePlaces(placed, {key})[s].Late? || PromotePlaces(placed, {key})[s].Acked?)
  {}

  lemma FirstSeenRestores(active: Generation, pending: Generation, placed: History, key: Key)
    requires FirstSeenInv(active.firstSeen, placed, key) && key in active.firstSeen && key in pending.firstSeen
    ensures FirstSeenInv(Absorb(active, pending, key).firstSeen, PromotePlaces(placed, {key}), key)
  {
    hide IsFirst, FoldPending;
    var first :| first in placed && first.key == key && IsFirst(placed, first) && first.time == active.firstSeen[key];
    FirstDependsOnDomain(placed, PromotePlaces(placed, {key}), first);
  }

  lemma RestoreKeepsOwnKey(p: Fields, placed: History, key: Key)
    requires KeyInv(p, placed, key) && forall s :: s in placed ==> Genuine(s)
    ensures KeyInv(RestoreKey(p, key), PromotePlaces(placed, {key}), key)
  {
    hide Genuine, Waiting, GenerationInv, FirstSeenInv;
    if key in p.pending.firstSeen {
      BufferedKeyIsSet(p, placed, key);
      GenerationRestores(p.active, p.pending, placed, key);
      FirstSeenRestores(p.active, p.pending, placed, key);
      PromoteEndsWaiting(placed, key);
      DropForgets(p.pending, key);
      AbsorbKeeps(p.active, p.pending, key);
      hide Absorb, Drop;
    } else {
      NobodyWaits(placed, key);
      KeyFrame(p, p, placed, PromotePlaces(placed, {key}), key);
    }
  }

  lemma DropForgets(g: Generation, key: Key)
    ensures key !in Drop(g, key).firstSeen
  {}

  lemma AbsorbKeeps(active: Generation, pending: Generation, key: Key)
    requires key in active.firstSeen && key in pending.firstSeen
    ensures key in Absorb(active, pending, key).firstSeen
  {}

  lemma NobodyWaits(placed: History, key: Key)
    requires |Waiting(placed, key)| == 0
    ensures SamePlaces(placed, PromotePlaces(placed, {key}), key)
  {
    assert Waiting(placed, key) == {};
    assert forall s :: s in placed && s.key == key ==> s !in Waiting(placed, key);
  }

  lemma FirstDependsOnDomain(placed: History, after: History, first: Signal)
    requires after.Keys == placed.Keys && first in placed && IsFirst(placed, first)
    ensures first in after && IsFirst(after, first)
  {}

  lemma BufferedKeyIsSet(p: Fields, placed: History, key: Key)
    requires KeyInv(p, placed, key) && key in p.pending.firstSeen && forall s :: s in placed ==> Genuine(s)
    ensures key != ""
  {
    hide Represents, JoinKey;
    var s :| s in placed && s.key == key;
    assert Genuine(s);
  }

  lemma RestoreLeavesOthers(p: Fields, key: Key, other: Key)
    requires other != key
    ensures SameKey(p, RestoreKey(p, key), other)
  {
    hide Merge;
  }

  lemma RestoreKeyKeeps(p: Fields, placed: History, key: Key, late: nat)
    requires KeysInv(p, placed) && HistoryInv(late, placed)
    ensures KeysInv(RestoreKey(p, key), PromotePlaces(placed, {key}))
    ensures HistoryInv(late, PromotePlaces(placed, {key}))
  {
    hide KeyInv, Genuine, MergePending;
    var q, after := RestoreKey(p, key), PromotePlaces(placed, {key});
    forall other ensures KeyInv(q, after, other) {
      assert KeyInv(p, placed, other);
      if other == key {
        RestoreKeepsOwnKey(p, placed, key);
      } else {
        RestoreLeavesOthers(p, key, other);
        hide SameKey, RestoreKey;
        KeyFrame(p, q, placed, after, other);
      }
    }
    assert after.Keys == placed.Keys;
    assert |after| == |placed|;
    assert LateOnes(after) == LateOnes(placed);
  }

  lemma PromoteTwice(placed: History, keys: set<Key>, key: Key)
    ensures PromotePlaces(placed, keys + {key}) == PromotePlaces(PromotePlaces(placed, keys), {key})
  {}

  lemma {:induction false} RestoreKeeps(p: Fields, placed: History, keys: seq<Key>)
    requires KeysInv(p, placed) && HistoryInv(p.stats.lateSignalsIgnored, placed)
    ensures KeysInv(RestoreKeys(p, keys), PromotePlaces(placed, KeySet(keys)))
    ensures HistoryInv(RestoreKeys(p, keys).stats.lateSignalsIgnored, PromotePlaces(placed, KeySet(keys)))
    ensures RestoreKeys(p, keys).inFlight == p.inFlight - KeySet(keys)
    ensures RestoreKeys(p, keys).emitted == p.emitted && RestoreKeys(p, keys).stats == p.stats
  {
    hide KeysInv, HistoryInv, FoldPending;
    if keys == [] {
      assert PromotePlaces(placed, KeySet(keys)) == placed;
    } else {
      hide PromotePlaces;
      var init, last := keys[..|keys| - 1], keys[|keys| - 1];
      assert keys == init + [last];
      RestoreKeeps(p, placed, init);
      PromoteTwice(placed, KeySet(init), last);
      RestoreKeyKeeps(RestoreKeys(p, init), PromotePlaces(placed, KeySet(init)), last, p.stats.lateSignalsIgnored);
      assert KeySet(keys) == KeySet(init) + {last};
    }
  }
}
