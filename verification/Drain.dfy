/** What one complete assembly leaves in the buffer, exactly. */
module Drain {
  import opened Text
  import opened Observation
  import opened Normalize
  import opened Merging
  import opened MergeLaws
  import opened Processor
  import opened Machine
  import opened SnapshotProofs
  import opened StepProofs
  import opened Guarantees
  import opened RunLaws
  import Sink

  // ---------------------------------------------------------------- one complete assembly

  /** An event that may happen while one batch is written without a roll-back. */
  predicate DuringBatch(e: Event) { !e.Begin? && !e.Restore? && !e.Finish? }

  predicate AllDuringBatch(events: seq<Event>) { forall i :: 0 <= i < |events| ==> DuringBatch(events[i]) }

  /** One assembly from the idle state m: the snapshot, then any interleaving of its writes with
      ingest, up to the state t. */
  ghost predicate Assembling(env: Env, m: Machine, cutoff: Option<Instant>, childOf: map<Key, Key>, ready: seq<Key>,
                             rest: seq<Event>, t: Machine) {
    && Reachable(env, m) && Enabled(m, Begin(cutoff, childOf, ready))
    && AllDuringBatch(rest) && Runs(env, BeginStep(m, childOf, ready), rest)
    && t == End(env, BeginStep(m, childOf, ready), rest)
  }

  /** And its last record is acknowledged. */
  ghost predicate Completes(env: Env, m: Machine, cutoff: Option<Instant>, childOf: map<Key, Key>, ready: seq<Key>,
                            rest: seq<Event>, t: Machine) {
    Assembling(env, m, cutoff, childOf, ready, rest, t) && t.phase.Writing? && t.phase.next == |t.phase.batch|
  }

  ghost predicate ConsumedBySome(batch: seq<Assembled>, key: Key) {
    exists j :: 0 <= j < |batch| && key in batch[j].consumedKeys
  }

  ghost predicate ConsumedBetween(batch: seq<Item>, from: int, to: int, key: Key)
    requires 0 <= from && to <= |batch|
  {
    exists j :: from <= j < to && key in batch[j].a.consumedKeys
  }

  lemma {:induction false} BatchStays(env: Env, m: Machine, events: seq<Event>)
    requires Inv(env, m) && !m.phase.Idle? && AllDuringBatch(events) && Runs(env, m, events)
    ensures var n := End(env, m, events);
      && !n.phase.Idle? && n.phase.batch == m.phase.batch && m.phase.next <= n.phase.next <= |m.phase.batch|
      && forall key :: key in n.p.emitted ==>
           key in m.p.emitted || ConsumedBetween(m.phase.batch, m.phase.next, n.phase.next, key)
    decreases events
  {
    hide Inv, Step, Enabled;
    NextInBatch(env, m);
    if events != [] {
      var next := Step(env, m, events[0]);
      StepKeeps(env, m, events[0]);
      BatchStaysStep(env, m, events[0]);
      BatchStays(env, next, events[1..]);
    }
  }

  lemma NextInBatch(env: Env, m: Machine)
    requires Inv(env, m) && !m.phase.Idle?
    ensures m.phase.next <= |m.phase.batch|
  {
    hide KeysInv, HistoryInv, RecordsInv, StatsInv, FileInv, SeenInv, ItemInv, FromInv, OwnKeyOnly, InBatch;
  }

  lemma BatchStaysStep(env: Env, m: Machine, e: Event)
    requires Inv(env, m) && !m.phase.Idle? && DuringBatch(e) && Enabled(m, e) && m.phase.next <= |m.phase.batch|
    ensures var n := Step(env, m, e);
      && !n.phase.Idle? && n.phase.batch == m.phase.batch && m.phase.next <= n.phase.next <= |m.phase.batch|
      && forall key :: key in n.p.emitted ==>
           key in m.p.emitted || ConsumedBetween(m.phase.batch, m.phase.next, n.phase.next, key)
  {
    hide Inv, NormalizeSignal, JoinKey, Admit, Stamp, AckKeys, Sink.WriteStep, PlaceFor;
    if e.Ack? {
      var next := m.phase.next;
      var a := m.phase.batch[next].a;
      AckKeysFinalize(m.p, a.consumedKeys);
      forall key | key in a.consumedKeys ensures ConsumedBetween(m.phase.batch, next, next + 1, key) {
        assert key in m.phase.batch[next].a.consumedKeys;
      }
    }
  }

  lemma DoneIsFinal(env: Env, t: Machine, j: int, key: Key)
    requires Inv(env, t) && !t.phase.Idle? && 0 <= j < t.phase.next && j < |t.phase.batch|
    requires key in t.phase.batch[j].a.consumedKeys
    ensures key in t.p.emitted
  {
    hide KeysInv, HistoryInv, RecordsInv, StatsInv, FileInv, SeenInv, ItemInv, FromInv, OwnKeyOnly, InBatch;
  }

  lemma RecordCount(items: seq<Item>)
    ensures |RecordsOf(items)| == |items|
  {}

  lemma SnapshotItems(m: Machine, childOf: map<Key, Key>, ready: seq<Key>)
    ensures RecordsOf(BeginStep(m, childOf, ready).phase.batch) == BatchOf(m.p, childOf, ready)
  {
    hide BatchOf, LiveUnder;
  }

  /** The batch of an assembly under way is the one of its snapshot. */
  lemma AssemblyKeepsBatch(env: Env, m: Machine, cutoff: Option<Instant>, childOf: map<Key, Key>, ready: seq<Key>,
                           rest: seq<Event>, t: Machine)
    requires Assembling(env, m, cutoff, childOf, ready, rest, t)
    ensures Inv(env, t) && Future(m, t) && !t.phase.Idle?
    ensures RecordsOf(t.phase.batch) == BatchOf(m.p, childOf, ready) && t.phase.next <= |t.phase.batch|
    ensures |BatchOf(m.p, childOf, ready)| == |t.phase.batch|
    ensures forall key :: key in t.p.emitted ==>
      key in m.p.emitted || ConsumedBetween(t.phase.batch, 0, t.phase.next, key)
  {
    hide Inv, Step, Future, Reachable, RecordsOf, BatchOf, IsClaimMap, IsReadyList, ItemsOf;
    var e, start := Begin(cutoff, childOf, ready), BeginStep(m, childOf, ready);
    ReachableStatesAreSound(env, m);
    StepKeeps(env, m, e);
    StepFuture(env, m, e);
    BeginIsStep(env, m, cutoff, childOf, ready);
    SnapshotItems(m, childOf, ready);
    BatchStays(env, start, rest);
    RunFuture(env, start, rest);
    FutureIsTransitive(m, start, t);
    RecordCount(t.phase.batch);
  }

  /** Whatever arrives meanwhile, an assembly has finalized exactly the keys consumed by the
      records it is done with. */
  lemma AssemblyFinalizesDone(env: Env, m: Machine, cutoff: Option<Instant>, childOf: map<Key, Key>, ready: seq<Key>,
                              rest: seq<Event>, t: Machine, key: Key)
    requires Assembling(env, m, cutoff, childOf, ready, rest, t) && key !in m.p.emitted
    ensures !t.phase.Idle? && t.phase.next <= |BatchOf(m.p, childOf, ready)|
    ensures key in t.p.emitted <==> ConsumedBySome(BatchOf(m.p, childOf, ready)[..t.phase.next], key)
  {
    hide Inv, Assembling, BatchOf, Future;
    AssemblyKeepsBatch(env, m, cutoff, childOf, ready, rest, t);
    var batch, items := BatchOf(m.p, childOf, ready), t.phase.batch;
    assert |items| == |batch| && forall j :: 0 <= j < |batch| ==> items[j].a == batch[j];
    var done := batch[..t.phase.next];
    if key in t.p.emitted {
      var j :| 0 <= j < t.phase.next && key in items[j].a.consumedKeys;
      assert key in done[j].consumedKeys;
    }
    if j :| 0 <= j < |done| && key in done[j].consumedKeys { DoneIsFinal(env, t, j, key); }
  }

  /** So a complete one has finalized all that its batch consumes. */
  lemma CompletionFinalizesBatch(env: Env, m: Machine, cutoff: Option<Instant>, childOf: map<Key, Key>,
                                 ready: seq<Key>, rest: seq<Event>, t: Machine, key: Key)
    requires Completes(env, m, cutoff, childOf, ready, rest, t) && key !in m.p.emitted
    ensures key in t.p.emitted <==> ConsumedBySome(BatchOf(m.p, childOf, ready), key)
  {
    hide Inv, Assembling, BatchOf, Future, ConsumedBySome;
    AssemblyKeepsBatch(env, m, cutoff, childOf, ready, rest, t);
    AssemblyFinalizesDone(env, m, cutoff, childOf, ready, rest, t, key);
    assert BatchOf(m.p, childOf, ready)[..t.phase.next] == BatchOf(m.p, childOf, ready);
  }

  lemma BeginIsStep(env: Env, m: Machine, cutoff: Option<Instant>, childOf: map<Key, Key>, ready: seq<Key>)
    requires Enabled(m, Begin(cutoff, childOf, ready))
    ensures Step(env, m, Begin(cutoff, childOf, ready)) == BeginStep(m, childOf, ready)
  {
    hide BeginStep;
  }

  // ---------------------------------------------------------------- in terms of claims

  predicate Assembles(st: Fields, cutoff: Option<Instant>, childOf: map<Key, Key>, key: Key) {
    Ready(st, cutoff, key) && !Skipped(childOf, key)
  }

  /** Some client span that is assembled names the key as its parent. */
  ghost predicate HasAssembledChild(st: Fields, cutoff: Option<Instant>, childOf: map<Key, Key>, key: Key) {
    exists child :: Claims(st.active.spans, child, key) && Assembles(st, cutoff, childOf, child)
  }

  lemma ConsumedKeysOf(st: Fields, placed: History, key: Key, parent: Key)
    requires KeysInv(st, placed) && AssembleKey(st, key).Some? && parent in st.active.firstSeen
    ensures parent in AssembleKey(st, key).value.consumedKeys <==> parent == key || Claims(st.active.spans, key, parent)
  {
    hide Merge, ClaimOf, KeyInv, KeysInv;
    assert parent in st.active.spans || parent in st.active.logs by { StructureAt(st, placed, parent); }
  }

  lemma BatchConsumes(st: Fields, placed: History, cutoff: Option<Instant>, childOf: map<Key, Key>, ready: seq<Key>,
                      batch: seq<Assembled>, key: Key)
    requires KeysInv(st, placed) && IsReadyList(st, cutoff, ready) && key in st.active.firstSeen
    requires batch == BatchOf(st, childOf, ready)
    ensures ConsumedBySome(batch, key) <==>
      Assembles(st, cutoff, childOf, key) || HasAssembledChild(st, cutoff, childOf, key)
  {
    hide KeysInv, BatchOf, AssembleKey, Claims, Skipped, Ascending;
    BatchMembers(st, childOf, ready);
    if j :| 0 <= j < |batch| && key in batch[j].consumedKeys {
      assert AssembleKey(st, batch[j].key) == Some(batch[j]);
      ConsumedKeysOf(st, placed, batch[j].key, key);
    }
    if Assembles(st, cutoff, childOf, key) {
      PresentAssembles(st, placed, key);
      var j :| 0 <= j < |batch| && batch[j].key == key;
      ConsumedKeysOf(st, placed, key, key);
    }
    if child :| Claims(st.active.spans, child, key) && Assembles(st, cutoff, childOf, child) {
      PresentAssembles(st, placed, child);
      var j :| 0 <= j < |batch| && batch[j].key == child;
      ConsumedKeysOf(st, placed, child, key);
    }
  }

  lemma PresentAssembles(st: Fields, placed: History, key: Key)
    requires KeysInv(st, placed) && key in st.active.firstSeen
    ensures AssembleKey(st, key).Some?
  {
    hide KeysInv, AssembleKey;
    StructureAt(st, placed, key);
    AssembledKey(st, key);
  }

  /** The exact effect of a complete assembly on every key buffered at its snapshot: it leaves
      the buffer just when it is ready and not skipped, or some client span naming it is. */
  lemma AssemblyFinalizesExactly(env: Env, m: Machine, cutoff: Option<Instant>, childOf: map<Key, Key>,
                                 ready: seq<Key>, rest: seq<Event>, t: Machine, key: Key)
    requires Completes(env, m, cutoff, childOf, ready, rest, t) && key in m.p.active.firstSeen
    ensures key in t.p.emitted <==>
      Assembles(m.p, cutoff, childOf, key) || HasAssembledChild(m.p, cutoff, childOf, key)
    ensures key in t.p.active.firstSeen <==> key !in t.p.emitted
    ensures key in t.p.active.firstSeen ==> t.p.active.firstSeen[key] == m.p.active.firstSeen[key]
  {
    hide KeysInv, HistoryInv, RecordsInv, StatsInv, FileInv, SeenInv, PhaseInv, BatchOf, Assembles, HasAssembledChild,
      Step, BeginStep, Runs, Reachable;
    ReachableStatesAreSound(env, m);
    StructureAt(m.p, m.placed, key);
    CompletionFinalizesBatch(env, m, cutoff, childOf, ready, rest, t, key);
    BatchConsumes(m.p, m.placed, cutoff, childOf, ready, BatchOf(m.p, childOf, ready), key);
    CompletionKeepsFirstSeen(env, m, cutoff, childOf, ready, rest, t, key);
  }

  lemma CompletionKeepsFirstSeen(env: Env, m: Machine, cutoff: Option<Instant>, childOf: map<Key, Key>,
                                 ready: seq<Key>, rest: seq<Event>, t: Machine, key: Key)
    requires Completes(env, m, cutoff, childOf, ready, rest, t)
    ensures key in m.p.active.firstSeen ==>
      if key in t.p.emitted then key !in t.p.active.firstSeen
      else key in t.p.active.firstSeen && t.p.active.firstSeen[key] == m.p.active.firstSeen[key]
    ensures key !in m.p.active.firstSeen && key in t.p.active.firstSeen ==>
      exists s :: s in t.placed && s !in m.placed && s.key == key && s.time == t.p.active.firstSeen[key]
  {
    hide Inv, Step, BatchOf, IsClaimMap, IsReadyList, ItemsOf, Reachable;
    ReachableStatesAreSound(env, m);
    var start := BeginStep(m, childOf, ready);
    StepKeeps(env, m, Begin(cutoff, childOf, ready));
    BeginIsStep(env, m, cutoff, childOf, ready);
    FirstSeenStays(env, start, rest, key);
  }

  // ---------------------------------------------------------------- drain

  /** Nothing arrived between the snapshot and the last acknowledgement. */
  ghost predicate Quiet(m: Machine, t: Machine) { t.placed.Keys == m.placed.Keys }

  /** A Flush whose writes all succeed, with no concurrent ingest, empties the buffer exactly
      when every skipped key is the parent of a client span that is not skipped itself. */
  lemma FlushDrainsExactlyWhen(env: Env, m: Machine, childOf: map<Key, Key>, ready: seq<Key>, rest: seq<Event>,
                               t: Machine)
    requires Completes(env, m, None, childOf, ready, rest, t) && Quiet(m, t)
    ensures t.p.active.firstSeen == map[] <==>
      forall key :: key in m.p.active.firstSeen && Skipped(childOf, key) ==>
        HasAssembledChild(m.p, None, childOf, key)
    ensures t.p.active.firstSeen.Keys <= m.p.active.firstSeen.Keys
  {
    hide Completes, HasAssembledChild, Skipped;
    forall key | key in m.p.active.firstSeen
      ensures key in t.p.active.firstSeen <==> Skipped(childOf, key) && !HasAssembledChild(m.p, None, childOf, key)
    {
      AssemblyFinalizesExactly(env, m, None, childOf, ready, rest, t, key);
    }
    forall key | key in t.p.active.firstSeen ensures key in m.p.active.firstSeen {
      CompletionKeepsFirstSeen(env, m, None, childOf, ready, rest, t, key);
    }
    if t.p.active.firstSeen != map[] {
      assert t.p.active.firstSeen.Keys != {};
      var key :| key in t.p.active.firstSeen;
    }
  }

  /** No client span is itself claimed by another. */
  ghost predicate NoChains(spans: map<Key, Execution>) {
    forall child, key, other :: Claims(spans, child, key) ==> !Claims(spans, other, child)
  }

  /** In particular when no client span that claims a parent is itself claimed. */
  lemma FlushDrainsPairs(env: Env, m: Machine, childOf: map<Key, Key>, ready: seq<Key>, rest: seq<Event>, t: Machine)
    requires Completes(env, m, None, childOf, ready, rest, t) && Quiet(m, t)
    requires NoChains(m.p.active.spans)
    ensures t.p.active.firstSeen == map[] && t.p.active.spans == map[] && t.p.active.logs == map[]
  {
    hide KeysInv, HistoryInv, RecordsInv, StatsInv, FileInv, SeenInv, PhaseInv, Claims, Step, BeginStep, Runs,
      Reachable;
    ReachableStatesAreSound(env, m);
    FlushDrainsExactlyWhen(env, m, childOf, ready, rest, t);
    forall key | key in m.p.active.firstSeen && Skipped(childOf, key)
      ensures HasAssembledChild(m.p, None, childOf, key)
    {
      var child := childOf[key];
      assert Claims(m.p.active.spans, child, key);
      ClaimantIsBuffered(m.p, m.placed, child, key);
      assert child !in childOf;
    }
    CompletionIsSound(env, m, None, childOf, ready, rest, t);
    EmptyFirstSeen(t.p, t.placed);
  }

  lemma CompletionIsSound(env: Env, m: Machine, cutoff: Option<Instant>, childOf: map<Key, Key>, ready: seq<Key>,
                          rest: seq<Event>, t: Machine)
    requires Completes(env, m, cutoff, childOf, ready, rest, t)
    ensures Inv(env, t)
  {
    hide Inv, Assembling, Future, RecordsOf, BatchOf;
    AssemblyKeepsBatch(env, m, cutoff, childOf, ready, rest, t);
  }

  lemma UnclaimedIsNotSkipped(spans: map<Key, Execution>, childOf: map<Key, Key>, key: Key)
    requires IsClaimMap(spans, childOf) && forall other :: !Claims(spans, other, key)
    ensures key !in childOf
  {
    hide Claims;
  }

  lemma ClaimantIsBuffered(p: Fields, placed: History, child: Key, key: Key)
    requires KeysInv(p, placed) && Claims(p.active.spans, child, key)
    ensures child in p.active.firstSeen
  {
    hide KeysInv;
    StructureAt(p, placed, child);
  }

  lemma EmptyFirstSeen(p: Fields, placed: History)
    requires KeysInv(p, placed) && p.active.firstSeen == map[]
    ensures p.active.spans == map[] && p.active.logs == map[]
  {
    hide KeysInv;
    forall key ensures key !in p.active.spans && key !in p.active.logs { StructureAt(p, placed, key); }
    assert p.active.spans.Keys == {} && p.active.logs.Keys == {};
  }

  // ---------------------------------------------------------------- progress

  /** Claims go from higher to lower rank, so they form no cycle. */
  ghost predicate Acyclic(spans: map<Key, Execution>, rank: Key -> nat) {
    forall child, key :: Claims(spans, child, key) ==> rank(child) > rank(key)
  }

  lemma HighestRank(keys: set<Key>, rank: Key -> nat) returns (top: Key)
    requires keys != {}
    ensures top in keys && forall key :: key in keys ==> rank(key) <= rank(top)
    decreases |keys|
  {
    top :| top in keys;
    if keys != {top} {
      var other := HighestRank(keys - {top}, rank);
      if rank(other) > rank(top) { top := other; }
    }
  }

  /** With acyclic claims, every quiet successful Flush of a nonempty buffer shrinks it. */
  lemma FlushShrinks(env: Env, m: Machine, childOf: map<Key, Key>, ready: seq<Key>, rest: seq<Event>, t: Machine,
                     rank: Key -> nat)
    requires Completes(env, m, None, childOf, ready, rest, t) && Quiet(m, t)
    requires Acyclic(m.p.active.spans, rank) && m.p.active.firstSeen != map[]
    ensures |t.p.active.firstSeen| < |m.p.active.firstSeen|
  {
    hide KeysInv, HistoryInv, RecordsInv, StatsInv, FileInv, SeenInv, PhaseInv, Step, BeginStep, Runs, Reachable;
    ReachableStatesAreSound(env, m);
    FlushDrainsExactlyWhen(env, m, childOf, ready, rest, t);
    assert m.p.active.firstSeen.Keys != {};
    var top := HighestRank(m.p.active.firstSeen.Keys, rank);
    if top in childOf { ClaimantIsBuffered(m.p, m.placed, childOf[top], top); }
    AssemblyFinalizesExactly(env, m, None, childOf, ready, rest, t, top);
    assert t.p.active.firstSeen.Keys <= m.p.active.firstSeen.Keys - {top};
    SubsetIsNoLarger(t.p.active.firstSeen.Keys, m.p.active.firstSeen.Keys - {top});
    assert |t.p.active.firstSeen.Keys| == |t.p.active.firstSeen|;
    assert |m.p.active.firstSeen.Keys| == |m.p.active.firstSeen|;
  }

  lemma SubsetIsNoLarger(a: set<Key>, b: set<Key>)
    requires a <= b
    ensures |a| <= |b|
  {
    assert b == a + (b - a);
  }

  /** Every slot of a is the same slot in b. */
  predicate Within(a: map<Key, Execution>, b: map<Key, Execution>) {
    forall key :: key in a ==> key in b && a[key] == b[key]
  }

  lemma QuietStepWithin(env: Env, m: Machine, e: Event)
    requires Inv(env, m) && Enabled(m, e) && DuringBatch(e) && Step(env, m, e).placed.Keys == m.placed.Keys
    ensures Within(Step(env, m, e).p.active.spans, m.p.active.spans)
  {
    hide KeysInv, RecordsInv, StatsInv, FileInv, SeenInv, PhaseInv, NormalizeSignal, JoinKey, AckKeys, Sink.WriteStep,
      PlaceFor, BufferAt, Genuine;
    if e.Ack? { AckKeysDrop(m.p, m.phase.batch[m.phase.next].a.consumedKeys); }
  }

  lemma {:induction false} QuietRunWithin(env: Env, m: Machine, events: seq<Event>)
    requires Inv(env, m) && AllDuringBatch(events) && Runs(env, m, events) && Quiet(m, End(env, m, events))
    ensures Within(End(env, m, events).p.active.spans, m.p.active.spans)
    decreases events
  {
    hide Inv, Step, Enabled, DuringBatch;
    if events != [] {
      var next := Step(env, m, events[0]);
      StepKeeps(env, m, events[0]);
      StepFuture(env, m, events[0]);
      RunFuture(env, next, events[1..]);
      assert next.placed.Keys == m.placed.Keys;
      QuietStepWithin(env, m, events[0]);
      QuietRunWithin(env, next, events[1..]);
    }
  }

  lemma WithinClaims(a: map<Key, Execution>, b: map<Key, Execution>, child: Key, parent: Key)
    requires Within(a, b) && Claims(a, child, parent)
    ensures Claims(b, child, parent)
  {
    hide ClaimOf;
  }

  lemma FlushLeavesWithin(env: Env, m: Machine, childOf: map<Key, Key>, ready: seq<Key>, rest: seq<Event>, t: Machine)
    requires Completes(env, m, None, childOf, ready, rest, t) && Quiet(m, t)
    ensures Within(t.p.active.spans, m.p.active.spans)
  {
    hide Inv, Step, BatchOf, IsClaimMap, IsReadyList, ItemsOf, Reachable;
    ReachableStatesAreSound(env, m);
    StepKeeps(env, m, Begin(None, childOf, ready));
    BeginIsStep(env, m, None, childOf, ready);
    QuietRunWithin(env, BeginStep(m, childOf, ready), rest);
  }

  lemma FlushKeepsAcyclic(env: Env, m: Machine, childOf: map<Key, Key>, ready: seq<Key>, rest: seq<Event>, t: Machine,
                          rank: Key -> nat)
    requires Completes(env, m, None, childOf, ready, rest, t) && Quiet(m, t) && Acyclic(m.p.active.spans, rank)
    ensures Acyclic(t.p.active.spans, rank)
  {
    hide Completes, Claims, Quiet, Within;
    FlushLeavesWithin(env, m, childOf, ready, rest, t);
    forall child, key | Claims(t.p.active.spans, child, key) ensures rank(child) > rank(key) {
      WithinClaims(t.p.active.spans, m.p.active.spans, child, key);
    }
  }

  /** One Flush: its snapshot and what happens until its last record is acknowledged. */
  datatype Round = Round(childOf: map<Key, Key>, ready: seq<Key>, rest: seq<Event>)

  /** Successive Flushes that all succeed, with nothing arriving. */
  ghost predicate Flushes(env: Env, m: Machine, rounds: seq<Round>, n: Machine)
    decreases rounds
  {
    if rounds == [] then n == m
    else
      exists t: Machine ::
        Completes(env, m, None, rounds[0].childOf, rounds[0].ready, rounds[0].rest, t) && Quiet(m, t) &&
        Flushes(env, Step(env, t, Finish), rounds[1..], n)
  }

  /** Finitely many Flushes empty a buffer whose claims are acyclic: no more than it has keys. */
  lemma {:induction false} FlushesDrain(env: Env, m: Machine, rounds: seq<Round>, n: Machine, rank: Key -> nat)
    requires Flushes(env, m, rounds, n) && Acyclic(m.p.active.spans, rank)
    requires |rounds| >= |m.p.active.firstSeen|
    ensures n.p.active.firstSeen == map[]
    decreases |rounds|
  {
    hide Inv, Acyclic, Quiet, Runs, End, BeginStep, AllDuringBatch, IsClaimMap, IsReadyList;
    if rounds != [] {
      var r := rounds[0];
      var t :| Completes(env, m, None, r.childOf, r.ready, r.rest, t) && Quiet(m, t) &&
        Flushes(env, Step(env, t, Finish), rounds[1..], n);
      if m.p.active.firstSeen == map[] {
        FlushDrainsExactlyWhen(env, m, r.childOf, r.ready, r.rest, t);
        assert t.p.active.firstSeen.Keys == {};
        assert t.p.active.firstSeen == map[];
      } else {
        FlushShrinks(env, m, r.childOf, r.ready, r.rest, t, rank);
      }
      FlushKeepsAcyclic(env, m, r.childOf, r.ready, r.rest, t, rank);
      FlushesDrain(env, Step(env, t, Finish), rounds[1..], n, rank);
    }
  }

  // ---------------------------------------------------------------- stuck

  ghost predicate NamesAnother(p: Fields, key: Key) {
    exists parent :: Claims(p.active.spans, key, parent) && parent in p.active.firstSeen && parent != key
  }

  /** The buffered claims are nothing but cycles: every buffered key holds a client span naming a
      different buffered key, and no two name the same one. */
  ghost predicate OnlyCycles(p: Fields) {
    && (forall key :: key in p.active.firstSeen ==> NamesAnother(p, key))
    && (forall a, b, parent :: Claims(p.active.spans, a, parent) && Claims(p.active.spans, b, parent) ==> a == b)
  }

  /** f maps the keys into themselves, no two to the same. */
  ghost predicate IsInjection(keys: set<Key>, f: map<Key, Key>) {
    && keys <= f.Keys
    && (forall a {:trigger f[a]} :: a in keys ==> f[a] in keys)
    && (forall a, b {:trigger f[a], f[b]} :: a in keys && b in keys && f[a] == f[b] ==> a == b)
  }

  /** An injection from a finite set into itself misses nothing. */
  lemma InjectionIsOnto(keys: set<Key>, f: map<Key, Key>, image: set<Key>)
    requires keys <= f.Keys && IsInjection(keys, f) && image == set key | key in keys :: f[key]
    ensures image == keys
  {
    InjectionKeepsSize(keys, f, image);
    SubsetOfSameSize(image, keys);
  }

  lemma InjectionKeepsSize(keys: set<Key>, f: map<Key, Key>, image: set<Key>)
    requires keys <= f.Keys && image == set key | key in keys :: f[key]
    requires forall a, b {:trigger f[a], f[b]} :: a in keys && b in keys && f[a] == f[b] ==> a == b
    ensures |image| == |keys|
    decreases |keys|
  {
    if keys == {} {
      assert image == {};
    } else {
      var x :| x in keys;
      var rest := keys - {x};
      InjectionKeepsSize(rest, f, image - {f[x]});
    }
  }

  lemma SubsetOfSameSize(a: set<Key>, b: set<Key>)
    requires a <= b && |a| == |b|
    ensures a == b
  {
    SubsetIsNoLarger(a, b);
    if x :| x in b && x !in a { SubsetIsNoLarger(a, b - {x}); }
  }

  lemma NamesOneParent(spans: map<Key, Execution>, child: Key, a: Key, b: Key)
    requires Claims(spans, child, a) && Claims(spans, child, b)
    ensures a == b
  {
    hide ClaimOf;
  }

  lemma Preimage(keys: set<Key>, f: map<Key, Key>, y: Key) returns (x: Key)
    requires keys <= f.Keys && IsInjection(keys, f) && y in keys
    ensures x in keys && f[x] == y
  {
    hide IsInjection;
    var image := set key | key in keys :: f[key];
    InjectionIsOnto(keys, f, image);
    assert y in image;
    x :| x in keys && f[x] == y;
  }

  lemma SkippedMapInjects(p: Fields, placed: History, childOf: map<Key, Key>)
    requires KeysInv(p, placed) && IsClaimMap(p.active.spans, childOf)
    requires forall key :: key in p.active.firstSeen ==> Skipped(childOf, key)
    ensures IsInjection(p.active.firstSeen.Keys, childOf)
  {
    hide KeysInv, Claims;
    var keys := p.active.firstSeen.Keys;
    forall key | key in keys ensures childOf[key] in keys { ClaimantIsBuffered(p, placed, childOf[key], key); }
    forall a, b | a in keys && b in keys && childOf[a] == childOf[b] ensures a == b {
      NamesOneParent(p.active.spans, childOf[a], a, b);
    }
  }

  lemma AllSkippedMeansCycles(p: Fields, placed: History, childOf: map<Key, Key>)
    requires KeysInv(p, placed) && IsClaimMap(p.active.spans, childOf)
    requires forall key :: key in p.active.firstSeen ==> Skipped(childOf, key)
    ensures OnlyCycles(p)
  {
    hide KeysInv, Claims, IsInjection, Skipped, NamesAnother, IsClaimMap;
    SkippedMapInjects(p, placed, childOf);
    forall key | key in p.active.firstSeen ensures NamesAnother(p, key) {
      PreimageIsParent(p, childOf, key);
    }
    forall a, b, parent | Claims(p.active.spans, a, parent) && Claims(p.active.spans, b, parent) ensures a == b {
      ClaimantIsBuffered(p, placed, a, parent);
      ClaimantIsBuffered(p, placed, b, parent);
      SameParentSameChild(p, childOf, a, b, parent);
    }
  }

  lemma PreimageIsParent(p: Fields, childOf: map<Key, Key>, key: Key)
    requires IsClaimMap(p.active.spans, childOf) && key in p.active.firstSeen
    requires forall k :: k in p.active.firstSeen ==> Skipped(childOf, k)
    requires IsInjection(p.active.firstSeen.Keys, childOf)
    ensures NamesAnother(p, key)
  {
    hide Claims, IsInjection;
    var parent := Preimage(p.active.firstSeen.Keys, childOf, key);
    assert Claims(p.active.spans, key, parent);
  }

  lemma SameParentSameChild(p: Fields, childOf: map<Key, Key>, a: Key, b: Key, parent: Key)
    requires IsClaimMap(p.active.spans, childOf) && a in p.active.firstSeen && b in p.active.firstSeen
    requires forall k :: k in p.active.firstSeen ==> Skipped(childOf, k)
    requires IsInjection(p.active.firstSeen.Keys, childOf)
    requires Claims(p.active.spans, a, parent) && Claims(p.active.spans, b, parent)
    ensures a == b
  {
    hide Claims, IsInjection;
    var x := Preimage(p.active.firstSeen.Keys, childOf, a);
    var y := Preimage(p.active.firstSeen.Keys, childOf, b);
    NamesOneParent(p.active.spans, a, x, parent);
    NamesOneParent(p.active.spans, b, y, parent);
  }

  /** The buffered parent a key names. */
  ghost function ParentOf(p: Fields, key: Key): (parent: Key)
    requires NamesAnother(p, key)
    ensures Claims(p.active.spans, key, parent) && parent in p.active.firstSeen && parent != key
  {
    hide Claims;
    var parent :| Claims(p.active.spans, key, parent) && parent in p.active.firstSeen && parent != key;
    parent
  }

  lemma ClaimantInCycle(p: Fields, key: Key) returns (child: Key)
    requires OnlyCycles(p) && key in p.active.firstSeen
    ensures Claims(p.active.spans, child, key) && child != key
  {
    hide Claims, NamesAnother;
    var keys := p.active.firstSeen.Keys;
    var parentOf := map k | k in keys :: ParentOf(p, k);
    forall a | a in keys ensures Claims(p.active.spans, a, parentOf[a]) {}
    child := Preimage(keys, parentOf, key);
  }

  lemma CyclesSkip(p: Fields, childOf: map<Key, Key>, key: Key)
    requires IsClaimMap(p.active.spans, childOf) && OnlyCycles(p) && key in p.active.firstSeen
    ensures Skipped(childOf, key)
  {
    hide Claims, NamesAnother;
    var child := ClaimantInCycle(p, key);
    assert Claims(p.active.spans, childOf[key], key);
  }

  /** A quiet successful Flush writes nothing exactly when the buffered claims are nothing but
      cycles; mutual claims are then never assembled. */
  lemma FlushIsStuckExactlyWhen(env: Env, m: Machine, childOf: map<Key, Key>, ready: seq<Key>, rest: seq<Event>,
                                t: Machine)
    requires Completes(env, m, None, childOf, ready, rest, t) && Quiet(m, t)
    ensures t.p.active.firstSeen.Keys == m.p.active.firstSeen.Keys <==> OnlyCycles(m.p)
  {
    hide KeysInv, HistoryInv, RecordsInv, StatsInv, FileInv, SeenInv, PhaseInv, Step, BeginStep, Runs, OnlyCycles,
      Skipped,
      Claims, HasAssembledChild, IsClaimMap, IsReadyList, Reachable;
    ReachableStatesAreSound(env, m);
    FlushDrainsExactlyWhen(env, m, childOf, ready, rest, t);
    forall key | key in m.p.active.firstSeen
      ensures key in t.p.active.firstSeen <==> Skipped(childOf, key) && !HasAssembledChild(m.p, None, childOf, key)
    {
      AssemblyFinalizesExactly(env, m, None, childOf, ready, rest, t, key);
    }
    if t.p.active.firstSeen.Keys == m.p.active.firstSeen.Keys {
      forall key | key in m.p.active.firstSeen ensures Skipped(childOf, key) {
        assert key in t.p.active.firstSeen.Keys;
      }
      AllSkippedMeansCycles(m.p, m.placed, childOf);
    }
    if OnlyCycles(m.p) {
      forall key | key in m.p.active.firstSeen ensures Skipped(childOf, key) {
        CyclesSkip(m.p, childOf, key);
      }
      forall key | key in m.p.active.firstSeen ensures !HasAssembledChild(m.p, None, childOf, key) {
        SkippedAssembleNothing(m.p, childOf, key);
      }
    }
  }

  lemma SkippedAssembleNothing(p: Fields, childOf: map<Key, Key>, key: Key)
    requires forall k :: k in p.active.firstSeen ==> Skipped(childOf, k)
    ensures !HasAssembledChild(p, None, childOf, key)
  {
    hide Claims, Skipped;
  }

  lemma NothingBufferedIsOnlyCycles(p: Fields, placed: History)
    requires KeysInv(p, placed) && p.active.firstSeen == map[]
    ensures OnlyCycles(p)
  {
    hide KeysInv, ClaimOf;
    EmptyFirstSeen(p, placed);
  }

  /** Cycles stay as they are: a Flush that is stuck leaves every claim in place. */
  lemma StuckStaysStuck(env: Env, m: Machine, childOf: map<Key, Key>, ready: seq<Key>, rest: seq<Event>, t: Machine)
    requires Completes(env, m, None, childOf, ready, rest, t) && Quiet(m, t) && OnlyCycles(m.p)
    ensures OnlyCycles(t.p)
  {
    hide Inv, Step, BeginStep, Assembling, Claims, NamesAnother, Reachable;
    FlushIsStuckExactlyWhen(env, m, childOf, ready, rest, t);
    FlushLeavesWithin(env, m, childOf, ready, rest, t);
    forall a, parent | Claims(t.p.active.spans, a, parent) ensures Claims(m.p.active.spans, a, parent) {
      WithinClaims(t.p.active.spans, m.p.active.spans, a, parent);
    }
    forall key | key in t.p.active.firstSeen ensures NamesAnother(t.p, key) {
      assert key in m.p.active.firstSeen.Keys;
      NamingStays(env, m, childOf, ready, rest, t, key);
    }
  }

  lemma NamingStays(env: Env, m: Machine, childOf: map<Key, Key>, ready: seq<Key>, rest: seq<Event>, t: Machine,
                    key: Key)
    requires Completes(env, m, None, childOf, ready, rest, t) && NamesAnother(m.p, key) && key in t.p.active.firstSeen
    requires t.p.active.firstSeen.Keys == m.p.active.firstSeen.Keys
    ensures NamesAnother(t.p, key)
  {
    hide KeysInv, HistoryInv, RecordsInv, StatsInv, FileInv, SeenInv, PhaseInv, Assembling, Claims;
    CompletionIsSound(env, m, None, childOf, ready, rest, t);
    StructureAt(t.p, t.placed, key);
    var parent := ParentOf(m.p, key);
    CompletionKeepsClaim(env, m, None, childOf, ready, rest, t, key, parent);
    assert parent in t.p.active.firstSeen.Keys;
  }

  /** For any claims at all: as many quiet successful Flushes as there are buffered keys leave
      nothing but cycles of claims, or nothing. */
  lemma {:induction false} FlushesLeaveOnlyCycles(env: Env, m: Machine, rounds: seq<Round>, n: Machine)
    requires Reachable(env, m) && Flushes(env, m, rounds, n) && |rounds| >= |m.p.active.firstSeen|
    ensures OnlyCycles(n.p)
    decreases |rounds|
  {
    hide Inv, Runs, End, BeginStep, AllDuringBatch, IsClaimMap, IsReadyList, OnlyCycles, Reachable, Quiet;
    if m.p.active.firstSeen == map[] {
      ReachableIsStructured(env, m);
      NothingBufferedIsOnlyCycles(m.p, m.placed);
    }
    if OnlyCycles(m.p) {
      CyclesOutliveFlushes(env, m, rounds, n);
    } else {
      assert |m.p.active.firstSeen| > 0;
      var r := rounds[0];
      var t :| Completes(env, m, None, r.childOf, r.ready, r.rest, t) && Quiet(m, t) &&
        Flushes(env, Step(env, t, Finish), rounds[1..], n);
      UnstuckShrinks(env, m, r.childOf, r.ready, r.rest, t);
      FinishIsReachable(env, m, r.childOf, r.ready, r.rest, t);
      FlushesLeaveOnlyCycles(env, Step(env, t, Finish), rounds[1..], n);
    }
  }

  lemma ReachableIsStructured(env: Env, m: Machine)
    requires Reachable(env, m)
    ensures KeysInv(m.p, m.placed)
  {
    hide KeysInv, HistoryInv, RecordsInv, StatsInv, FileInv, SeenInv, PhaseInv, Reachable;
    ReachableStatesAreSound(env, m);
  }

  lemma UnstuckShrinks(env: Env, m: Machine, childOf: map<Key, Key>, ready: seq<Key>, rest: seq<Event>, t: Machine)
    requires Completes(env, m, None, childOf, ready, rest, t) && Quiet(m, t) && !OnlyCycles(m.p)
    ensures |t.p.active.firstSeen| < |m.p.active.firstSeen|
  {
    hide Assembling, OnlyCycles, HasAssembledChild, Skipped;
    FlushIsStuckExactlyWhen(env, m, childOf, ready, rest, t);
    FlushDrainsExactlyWhen(env, m, childOf, ready, rest, t);
    var before, after := m.p.active.firstSeen.Keys, t.p.active.firstSeen.Keys;
    assert |before| == |m.p.active.firstSeen| && |after| == |t.p.active.firstSeen|;
    if |after| >= |before| {
      SubsetIsNoLarger(after, before);
      SubsetOfSameSize(after, before);
    }
  }

  lemma FinishIsReachable(env: Env, m: Machine, childOf: map<Key, Key>, ready: seq<Key>, rest: seq<Event>, t: Machine)
    requires Completes(env, m, None, childOf, ready, rest, t)
    ensures Enabled(t, Finish) && Reachable(env, Step(env, t, Finish))
  {
    hide Runs, End, BeginStep, Reachable, IsClaimMap, IsReadyList, AllDuringBatch;
    var begin := Begin(None, childOf, ready);
    LeadsByOne(env, m, begin);
    BeginIsStep(env, m, None, childOf, ready);
    LeadsOn(env, m, [begin], BeginStep(m, childOf, ready), rest, t);
    LeadsByOne(env, t, Finish);
    LeadsOn(env, m, [begin] + rest, t, [Finish], Step(env, t, Finish));
    hide Leads;
    ReachableOn(env, m, [begin] + rest + [Finish], Step(env, t, Finish));
  }

  lemma {:induction false} CyclesOutliveFlushes(env: Env, m: Machine, rounds: seq<Round>, n: Machine)
    requires OnlyCycles(m.p) && Flushes(env, m, rounds, n)
    ensures OnlyCycles(n.p)
    decreases |rounds|
  {
    hide Inv, Runs, End, BeginStep, AllDuringBatch, IsClaimMap, IsReadyList, OnlyCycles, Reachable, Quiet;
    if rounds != [] {
      var r := rounds[0];
      var t :| Completes(env, m, None, r.childOf, r.ready, r.rest, t) && Quiet(m, t) &&
        Flushes(env, Step(env, t, Finish), rounds[1..], n);
      StuckStaysStuck(env, m, r.childOf, r.ready, r.rest, t);
      assert Step(env, t, Finish).p == t.p;
      CyclesOutliveFlushes(env, Step(env, t, Finish), rounds[1..], n);
    }
  }

  // ---------------------------------------------------------------- freshness

  /** The key was first seen at or after the cutoff, and so was every client span that names it. */
  ghost predicate FreshKey(p: Fields, cutoff: Instant, key: Key) {
    && key in p.active.firstSeen && p.active.firstSeen[key] >= cutoff
    && forall child :: Claims(p.active.spans, child, key) && child in p.active.firstSeen ==>
         p.active.firstSeen[child] >= cutoff
  }

  lemma FreshIsNotConsumed(p: Fields, placed: History, cutoff: Instant, childOf: map<Key, Key>, ready: seq<Key>,
                           batch: seq<Assembled>, key: Key)
    requires KeysInv(p, placed) && IsReadyList(p, Some(cutoff), ready) && batch == BatchOf(p, childOf, ready)
    requires FreshKey(p, cutoff, key)
    ensures !ConsumedBySome(batch, key)
  {
    hide KeysInv, BatchOf, Claims, Skipped, Ascending, ConsumedBySome;
    BatchConsumes(p, placed, Some(cutoff), childOf, ready, batch, key);
    forall child | Claims(p.active.spans, child, key) ensures !Assembles(p, Some(cutoff), childOf, child) {
      ClaimantIsBuffered(p, placed, child, key);
    }
  }

  /** The wait is honoured: an assembly of everything first seen before the cutoff, whether it meets
      a failure or not and at whatever point it is, has left alone each key first seen at or after the
      cutoff that no older client span names. Whatever else arrives, it stays buffered, with its
      first-seen time. */
  lemma FreshKeysAreLeftAlone(env: Env, m: Machine, cutoff: Instant, childOf: map<Key, Key>, ready: seq<Key>,
                              rest: seq<Event>, t: Machine, key: Key)
    requires Assembling(env, m, Some(cutoff), childOf, ready, rest, t) && FreshKey(m.p, cutoff, key)
    ensures key !in t.p.emitted
    ensures key in t.p.active.firstSeen && t.p.active.firstSeen[key] == m.p.active.firstSeen[key]
  {
    hide KeysInv, HistoryInv, RecordsInv, StatsInv, FileInv, SeenInv, PhaseInv, BatchOf, Step, BeginStep, Runs, End,
      Reachable, IsReadyList, ConsumedBySome, Claims, AllDuringBatch;
    ReachableStatesAreSound(env, m);
    StructureAt(m.p, m.placed, key);
    FreshIsNotConsumed(m.p, m.placed, cutoff, childOf, ready, BatchOf(m.p, childOf, ready), key);
    AssemblyFinalizesDone(env, m, Some(cutoff), childOf, ready, rest, t, key);
    PrefixConsumesLess(BatchOf(m.p, childOf, ready), t.phase.next, key);
    AssemblingKeepsFirstSeen(env, m, Some(cutoff), childOf, ready, rest, t, key);
  }

  lemma PrefixConsumesLess(batch: seq<Assembled>, next: int, key: Key)
    requires 0 <= next <= |batch|
    ensures ConsumedBySome(batch[..next], key) ==> ConsumedBySome(batch, key)
  {
    if j :| 0 <= j < next && key in batch[..next][j].consumedKeys { assert key in batch[j].consumedKeys; }
  }

  lemma AssemblingKeepsFirstSeen(env: Env, m: Machine, cutoff: Option<Instant>, childOf: map<Key, Key>, ready: seq<Key>,
                                 rest: seq<Event>, t: Machine, key: Key)
    requires Assembling(env, m, cutoff, childOf, ready, rest, t) && key in m.p.active.firstSeen && key !in t.p.emitted
    ensures key in t.p.active.firstSeen && t.p.active.firstSeen[key] == m.p.active.firstSeen[key]
  {
    hide Inv, Step, BatchOf, IsClaimMap, IsReadyList, ItemsOf, Reachable;
    ReachableStatesAreSound(env, m);
    StepKeeps(env, m, Begin(cutoff, childOf, ready));
    BeginIsStep(env, m, cutoff, childOf, ready);
    FirstSeenStays(env, BeginStep(m, childOf, ready), rest, key);
  }

  /** A key has waited long enough when it was first seen before the cutoff. */
  predicate Waited(p: Fields, cutoff: Instant, key: Key) {
    key in p.active.firstSeen && p.active.firstSeen[key] < cutoff
  }

  /** And exactly: one that meets no failure finalizes the keys that have waited and are not claimed
      by another, and the parents named by client spans that have. */
  lemma ExpiryFinalizesExactly(env: Env, m: Machine, cutoff: Instant, childOf: map<Key, Key>, ready: seq<Key>,
                               rest: seq<Event>, t: Machine, key: Key)
    requires Completes(env, m, Some(cutoff), childOf, ready, rest, t) && key in m.p.active.firstSeen
    ensures key in t.p.emitted <==>
      || (Waited(m.p, cutoff, key) && !Skipped(childOf, key))
      || exists child :: Claims(m.p.active.spans, child, key) && Waited(m.p, cutoff, child) && !Skipped(childOf, child)
  {
    hide Completes, Claims, Skipped;
    AssemblyFinalizesExactly(env, m, Some(cutoff), childOf, ready, rest, t, key);
    forall child ensures Assembles(m.p, Some(cutoff), childOf, child) <==>
      Waited(m.p, cutoff, child) && !Skipped(childOf, child) {}
    hide Assembles, Waited;
  }

  // ---------------------------------------------------------------- staleness

  /** Bounded staleness: after an assembly of everything first seen before the cutoff that meets
      no failure, while the clock does not run backwards, a key still buffered from before the
      cutoff is one that client spans claim, and without chains every one of them was first seen
      at or after the cutoff, is still buffered, and still names the key. */
  lemma StaleKeysAwaitFreshClaimants(env: Env, m: Machine, cutoff: Instant, childOf: map<Key, Key>, ready: seq<Key>,
                                     rest: seq<Event>, t: Machine, key: Key)
    requires Completes(env, m, Some(cutoff), childOf, ready, rest, t)
    requires forall s :: s in t.placed && s !in m.placed ==> s.time >= cutoff
    requires key in t.p.active.firstSeen && t.p.active.firstSeen[key] < cutoff
    requires NoChains(m.p.active.spans)
    ensures key in m.p.active.firstSeen && exists child :: Claims(m.p.active.spans, child, key)
    ensures forall child :: Claims(m.p.active.spans, child, key) ==>
      && child in t.p.active.firstSeen && t.p.active.firstSeen[child] >= cutoff
      && Claims(t.p.active.spans, child, key)
  {
    hide KeysInv, HistoryInv, RecordsInv, StatsInv, FileInv, SeenInv, PhaseInv, Step, BeginStep, Runs, Claims,
      IsReadyList, Reachable;
    ReachableStatesAreSound(env, m);
    CompletionKeepsFirstSeen(env, m, Some(cutoff), childOf, ready, rest, t, key);
    AssemblyFinalizesExactly(env, m, Some(cutoff), childOf, ready, rest, t, key);
    assert Claims(m.p.active.spans, childOf[key], key);
    forall child | Claims(m.p.active.spans, child, key)
      ensures child in t.p.active.firstSeen && t.p.active.firstSeen[child] >= cutoff
      ensures Claims(t.p.active.spans, child, key)
    {
      ClaimantIsBuffered(m.p, m.placed, child, key);
      assert child !in childOf;
      assert !Assembles(m.p, Some(cutoff), childOf, child);
      AssemblyFinalizesExactly(env, m, Some(cutoff), childOf, ready, rest, t, child);
      CompletionKeepsClaim(env, m, Some(cutoff), childOf, ready, rest, t, child, key);
    }
  }

  lemma CompletionKeepsClaim(env: Env, m: Machine, cutoff: Option<Instant>, childOf: map<Key, Key>, ready: seq<Key>,
                             rest: seq<Event>, t: Machine, child: Key, parent: Key)
    requires Completes(env, m, cutoff, childOf, ready, rest, t)
    requires Claims(m.p.active.spans, child, parent) && child !in t.p.emitted
    ensures Claims(t.p.active.spans, child, parent)
  {
    hide Inv, Step, BatchOf, IsClaimMap, IsReadyList, Claims, ItemsOf, Reachable;
    ReachableStatesAreSound(env, m);
    StepKeeps(env, m, Begin(cutoff, childOf, ready));
    BeginIsStep(env, m, cutoff, childOf, ready);
    ClaimOutlivesRun(env, BeginStep(m, childOf, ready), rest, child, parent);
  }
}
