/** What a failed assembly leaves behind, exactly. */
module Failures {
  import opened Text
  import opened Observation
  import opened MergeLaws
  import opened Processor
  import opened Machine
  import opened SnapshotProofs
  import opened StepProofs
  import opened Guarantees
  import opened RunLaws
  import opened Drain

  /** One assembly up to the counted failure of a write: record t.phase.next was refused, and the
      roll-back is about to run. */
  ghost predicate Fails(env: Env, m: Machine, cutoff: Option<Instant>, childOf: map<Key, Key>, ready: seq<Key>,
                        rest: seq<Event>, t: Machine) {
    Assembling(env, m, cutoff, childOf, ready, rest, t) && t.phase.Counted?
  }

  // ---------------------------------------------------------------- the run and its replay

  lemma {:induction false} IngestOfBoth(a: seq<Event>, b: seq<Event>)
    ensures IngestOnly(a + b) == IngestOnly(a) + IngestOnly(b)
  {
    if a == [] {
      assert a + b == b;
    } else {
      assert (a + b)[1..] == a[1..] + b;
      IngestOfBoth(a[1..], b);
    }
  }

  /** The whole failed assembly, from its snapshot to its roll-back. */
  function FailedRun(cutoff: Option<Instant>, childOf: map<Key, Key>, ready: seq<Key>, rest: seq<Event>): seq<Event> {
    [Begin(cutoff, childOf, ready)] + rest + [Restore]
  }

  lemma FailedRunIngests(cutoff: Option<Instant>, childOf: map<Key, Key>, ready: seq<Key>, rest: seq<Event>)
    ensures IngestOnly(FailedRun(cutoff, childOf, ready, rest)) == IngestOnly(rest)
  {
    var begin := Begin(cutoff, childOf, ready);
    IngestOfBoth([begin] + rest, [Restore]);
    IngestOfBoth([begin], rest);
    assert IngestOnly([begin]) == [] && IngestOnly([Restore]) == [];
    assert [] + IngestOnly(rest) + [] == IngestOnly(rest);
  }

  lemma FailureRollsBack(env: Env, m: Machine, cutoff: Option<Instant>, childOf: map<Key, Key>, ready: seq<Key>,
                         rest: seq<Event>, t: Machine)
    requires Fails(env, m, cutoff, childOf, ready, rest, t)
    ensures Enabled(t, Restore)
    ensures var n := Step(env, t, Restore);
      Leads(env, m, FailedRun(cutoff, childOf, ready, rest), n) && n.phase.Idle? && n.p.emitted == t.p.emitted
  {
    hide Reachable, Runs, End, RestoreKeys, BeginStep, BatchOf, IsClaimMap, IsReadyList, PromotePlaces, Future, Inv,
      KeysOfBatch, RecordsOf, AllDuringBatch;
    AssemblyKeepsBatch(env, m, cutoff, childOf, ready, rest, t);
    RestoreCountsNothing(t.p, KeysOfBatch(RecordsOf(t.phase.batch[t.phase.next..])));
    var begin := Begin(cutoff, childOf, ready);
    var start, n := Step(env, m, begin), Step(env, t, Restore);
    LeadsByOne(env, m, begin);
    LeadsByOne(env, t, Restore);
    hide Step, Enabled;
    assert Leads(env, start, rest, t) by { BeginIsStep(env, m, cutoff, childOf, ready); }
    LeadsOn(env, m, [begin], start, rest, t);
    LeadsOn(env, m, [begin] + rest, t, [Restore], n);
  }

  lemma ConsumedIsInBuffer(p: Fields, placed: History, cutoff: Option<Instant>, childOf: map<Key, Key>, ready: seq<Key>,
                           batch: seq<Assembled>, key: Key)
    requires KeysInv(p, placed) && IsReadyList(p, cutoff, ready) && batch == BatchOf(p, childOf, ready)
    requires ConsumedBySome(batch, key)
    ensures key in p.active.firstSeen
  {
    hide KeysInv, BatchOf, Ascending;
    BeginReserves(p, placed, childOf, ready, batch);
    BatchKeys(batch);
  }

  lemma AbsentEverywhere(env: Env, n: Machine, u: Machine, key: Key)
    requires Inv(env, n) && Inv(env, u) && key in n.p.emitted && key in u.p.emitted
    ensures Invisible(n, u, key)
  {
    hide KeysInv, HistoryInv, RecordsInv, StatsInv, FileInv, SeenInv, PhaseInv, ProjectionOf;
    StructureAt(n.p, n.placed, key);
    StructureAt(u.p, u.placed, key);
  }

  lemma GoneIsVisible(env: Env, m: Machine, n: Machine, u: Machine, events: seq<Event>, key: Key)
    requires Inv(env, m) && Inv(env, n) && Runs(env, m, events) && u == End(env, m, events)
    requires key in m.p.active.firstSeen && key in n.p.emitted && key !in u.p.emitted
    ensures !Invisible(n, u, key)
  {
    hide KeysInv, HistoryInv, RecordsInv, StatsInv, FileInv, SeenInv, PhaseInv, Step, Enabled, Runs, End, SlotsAgree;
    FirstSeenStays(env, m, events, key);
    StructureAt(n.p, n.placed, key);
  }

  // ---------------------------------------------------------------- invisible exactly when

  /** After a failed assembly a key is buffered exactly as if it had never been attempted, if and
      only if none of the records written before the failure consumed it. */
  lemma FailureIsInvisibleExactlyWhen(env: Env, m: Machine, cutoff: Option<Instant>, childOf: map<Key, Key>,
                                      ready: seq<Key>, rest: seq<Event>, t: Machine, key: Key)
    requires Fails(env, m, cutoff, childOf, ready, rest, t)
    ensures Enabled(t, Restore) && Runs(env, m, IngestOnly(rest)) && t.phase.next <= |BatchOf(m.p, childOf, ready)|
    ensures Invisible(Step(env, t, Restore), End(env, m, IngestOnly(rest)), key) <==>
      !ConsumedBySome(BatchOf(m.p, childOf, ready)[..t.phase.next], key)
  {
    hide Inv, Step, BeginStep, BatchOf, Reachable, Runs, End, Future, Invisible, IngestOnly, RecordsOf, FailedRun,
      AllDuringBatch, IsClaimMap, IsReadyList, ConsumedBySome, ConsumedBetween;
    AssemblyKeepsBatch(env, m, cutoff, childOf, ready, rest, t);
    var events, done := FailedRun(cutoff, childOf, ready, rest), BatchOf(m.p, childOf, ready)[..t.phase.next];
    FailureRollsBack(env, m, cutoff, childOf, ready, rest, t);
    hide Enabled;
    FailedRunIngests(cutoff, childOf, ready, rest);
    ReachableStatesAreSound(env, m);
    var n := Step(env, t, Restore);
    ReplayFollows(env, m, m, events);
    RunFuture(env, m, events);
    RunFuture(env, m, IngestOnly(rest));
    var u := End(env, m, IngestOnly(rest));
    if key in m.p.emitted {
      FinalStaysFinal(m, n, key);
      AbsentEverywhere(env, n, u, key);
      if ConsumedBySome(done, key) { DoneIsBuffered(env, m, cutoff, childOf, ready, t.phase.next, key); }
    } else {
      AssemblyFinalizesDone(env, m, cutoff, childOf, ready, rest, t, key);
      if key in n.p.emitted {
        DoneIsBuffered(env, m, cutoff, childOf, ready, t.phase.next, key);
        GoneIsVisible(env, m, n, u, IngestOnly(rest), key);
      } else {
        AssemblyIsInvisible(env, m, events, key);
      }
    }
  }

  lemma DoneIsBuffered(env: Env, m: Machine, cutoff: Option<Instant>, childOf: map<Key, Key>, ready: seq<Key>,
                       next: nat,
                       key: Key)
    requires Inv(env, m) && Enabled(m, Begin(cutoff, childOf, ready)) && next <= |BatchOf(m.p, childOf, ready)|
    requires ConsumedBySome(BatchOf(m.p, childOf, ready)[..next], key)
    ensures key in m.p.active.firstSeen && key !in m.p.emitted
  {
    hide KeysInv, HistoryInv, RecordsInv, StatsInv, FileInv, SeenInv, PhaseInv, BatchOf, IsReadyList, IsClaimMap;
    var batch := BatchOf(m.p, childOf, ready);
    var j :| 0 <= j < next && key in batch[..next][j].consumedKeys;
    assert key in batch[j].consumedKeys;
    ConsumedIsInBuffer(m.p, m.placed, cutoff, childOf, ready, batch, key);
    StructureAt(m.p, m.placed, key);
  }

  // ---------------------------------------------------------------- the failed and unattempted records

  /** Record j of the batch is rolled back without a trace. */
  ghost predicate LeavesNoTrace(n: Machine, u: Machine, a: Assembled) {
    forall key :: key in a.consumedKeys ==> Invisible(n, u, key)
  }

  /** No record from next on consumes a key that one before it consumed. */
  ghost predicate Separate(batch: seq<Assembled>, next: int)
    requires 0 <= next <= |batch|
  {
    forall i, j, key :: 0 <= i < next <= j < |batch| && key in batch[i].consumedKeys ==> key !in batch[j].consumedKeys
  }

  /** The failed record and all unattempted ones leave no trace exactly when none of their keys was
      consumed by a record written before. */
  lemma RemainderIsInvisibleExactlyWhen(env: Env, m: Machine, cutoff: Option<Instant>, childOf: map<Key, Key>,
                                        ready: seq<Key>, rest: seq<Event>, t: Machine)
    requires Fails(env, m, cutoff, childOf, ready, rest, t)
    ensures Enabled(t, Restore) && Runs(env, m, IngestOnly(rest)) && t.phase.next <= |BatchOf(m.p, childOf, ready)|
    ensures var n, u, batch := Step(env, t, Restore), End(env, m, IngestOnly(rest)), BatchOf(m.p, childOf, ready);
      (forall j :: t.phase.next <= j < |batch| ==> LeavesNoTrace(n, u, batch[j])) <==> Separate(batch, t.phase.next)
  {
    hide Assembling, Step, BatchOf, Enabled, Runs, End, Invisible, IngestOnly;
    FailureIsInvisibleExactlyWhen(env, m, cutoff, childOf, ready, rest, t, "");
    var n, u, batch := Step(env, t, Restore), End(env, m, IngestOnly(rest)), BatchOf(m.p, childOf, ready);
    forall key ensures Invisible(n, u, key) <==> !ConsumedBySome(batch[..t.phase.next], key) {
      FailureIsInvisibleExactlyWhen(env, m, cutoff, childOf, ready, rest, t, key);
    }
    NoTraceMeansSeparate(n, u, batch, t.phase.next);
  }

  lemma NoTraceMeansSeparate(n: Machine, u: Machine, batch: seq<Assembled>, next: int)
    requires 0 <= next <= |batch|
    requires forall key :: Invisible(n, u, key) <==> !ConsumedBySome(batch[..next], key)
    ensures (forall j :: next <= j < |batch| ==> LeavesNoTrace(n, u, batch[j])) <==> Separate(batch, next)
  {
    hide Invisible;
    forall key
      ensures ConsumedBySome(batch[..next], key) <==> exists i :: 0 <= i < next && key in batch[i].consumedKeys
    {
      if i :| 0 <= i < next && key in batch[i].consumedKeys { assert key in batch[..next][i].consumedKeys; }
      if i :| 0 <= i < |batch[..next]| && key in batch[..next][i].consumedKeys { assert key in batch[i].consumedKeys; }
    }
    hide ConsumedBySome;
  }

  // ---------------------------------------------------------------- in terms of claims

  /** No two client spans name one parent, and none names itself. */
  ghost predicate Unshared(spans: map<Key, Execution>) {
    && (forall a, b, parent :: Claims(spans, a, parent) && Claims(spans, b, parent) ==> a == b)
    && (forall a :: !Claims(spans, a, a))
  }

  lemma UnsharedIsSeparate(p: Fields, childOf: map<Key, Key>, ready: seq<Key>, batch: seq<Assembled>, next: int)
    requires Unshared(p.active.spans) && IsClaimMap(p.active.spans, childOf) && Ascending(ready)
    requires batch == BatchOf(p, childOf, ready) && 0 <= next <= |batch|
    ensures Separate(batch, next)
  {
    hide BatchOf, AssembleKey, Claims, Ascending, Skipped, IsClaimMap, Less;
    BatchMembers(p, childOf, ready);
    forall i, j, key | 0 <= i < next <= j < |batch| && key in batch[i].consumedKeys
      ensures key !in batch[j].consumedKeys
    {
      UnsharedPair(p, childOf, batch[i], batch[j], key);
    }
  }

  lemma UnsharedPair(p: Fields, childOf: map<Key, Key>, a: Assembled, b: Assembled, key: Key)
    requires Unshared(p.active.spans) && IsClaimMap(p.active.spans, childOf)
    requires AssembleKey(p, a.key) == Some(a) && AssembleKey(p, b.key) == Some(b)
    requires !Skipped(childOf, a.key) && !Skipped(childOf, b.key) && Less(a.key, b.key) && key in a.consumedKeys
    ensures key !in b.consumedKeys
  {
    hide AssembleKey, ClaimOf, Less;
    AssembledKey(p, a.key);
    AssembledKey(p, b.key);
    LessIsTotal(a.key, b.key);
    assert |a.consumedKeys| == 2 ==> Claims(p.active.spans, a.key, a.consumedKeys[1]);
    assert |b.consumedKeys| == 2 ==> Claims(p.active.spans, b.key, b.consumedKeys[1]);
  }

  /** In particular nothing shows of the failed and unattempted records when no two buffered client
      spans name the same parent and none names itself. */
  lemma UnsharedFailureIsInvisible(env: Env, m: Machine, cutoff: Option<Instant>, childOf: map<Key, Key>,
                                   ready: seq<Key>, rest: seq<Event>, t: Machine)
    requires Fails(env, m, cutoff, childOf, ready, rest, t) && Unshared(m.p.active.spans)
    ensures Enabled(t, Restore) && Runs(env, m, IngestOnly(rest)) && t.phase.next <= |BatchOf(m.p, childOf, ready)|
    ensures var n, u, batch := Step(env, t, Restore), End(env, m, IngestOnly(rest)), BatchOf(m.p, childOf, ready);
      forall j :: t.phase.next <= j < |batch| ==> LeavesNoTrace(n, u, batch[j])
  {
    hide Step, BatchOf, Runs, End, LeavesNoTrace, IngestOnly, Separate, Unshared, IsClaimMap, Ascending, Reachable,
      BeginStep,
      AllDuringBatch;
    RemainderIsInvisibleExactlyWhen(env, m, cutoff, childOf, ready, rest, t);
    UnsharedIsSeparate(m.p, childOf, ready, BatchOf(m.p, childOf, ready), t.phase.next);
  }

  // ---------------------------------------------------------------- the retry

  /** A retry of a rolled-back record takes its parent along again exactly when no record written
      before the failure had consumed it: with a shared parent, the loser's record goes without. */
  lemma RetryKeepsParentExactlyWhen(env: Env, m: Machine, cutoff: Option<Instant>, childOf: map<Key, Key>,
                                    ready: seq<Key>, rest: seq<Event>, t: Machine, j: int, parent: Key)
    requires Fails(env, m, cutoff, childOf, ready, rest, t)
    requires t.phase.next <= j < |BatchOf(m.p, childOf, ready)|
    requires parent in BatchOf(m.p, childOf, ready)[j].consumedKeys
    requires !ConsumedBySome(BatchOf(m.p, childOf, ready)[..t.phase.next], BatchOf(m.p, childOf, ready)[j].key)
    ensures Enabled(t, Restore)
    ensures var n, batch := Step(env, t, Restore), BatchOf(m.p, childOf, ready);
      && AssembleKey(n.p, batch[j].key).Some?
      && (parent in AssembleKey(n.p, batch[j].key).value.consumedKeys <==>
            !ConsumedBySome(batch[..t.phase.next], parent))
  {
    hide Inv, Step, BeginStep, BatchOf, AssembleKey, Reachable, Runs, End, FailedRun, AllDuringBatch, IsClaimMap,
      IsReadyList, ConsumedBySome, Future, Claims;
    var batch, child := BatchOf(m.p, childOf, ready), BatchOf(m.p, childOf, ready)[j].key;
    FailureRollsBack(env, m, cutoff, childOf, ready, rest, t);
    ReachableStatesAreSound(env, m);
    var events, n := FailedRun(cutoff, childOf, ready, rest), Step(env, t, Restore);
    RunFuture(env, m, events);
    RecordInBatch(env, m, cutoff, childOf, ready, j, parent);
    AssemblyFinalizesDone(env, m, cutoff, childOf, ready, rest, t, child);
    AssemblyFinalizesDone(env, m, cutoff, childOf, ready, rest, t, parent);
    FirstSeenStays(env, m, events, child);
    FirstSeenStays(env, m, events, parent);
    if parent != child { ClaimOutlivesRun(env, m, events, child, parent); }
    RetryConsumes(env, n, child, parent);
  }

  lemma RecordInBatch(env: Env, m: Machine, cutoff: Option<Instant>, childOf: map<Key, Key>, ready: seq<Key>, j: int,
                      key: Key)
    requires Inv(env, m) && Enabled(m, Begin(cutoff, childOf, ready)) && 0 <= j < |BatchOf(m.p, childOf, ready)|
    requires key in BatchOf(m.p, childOf, ready)[j].consumedKeys
    ensures var child := BatchOf(m.p, childOf, ready)[j].key;
      && child in m.p.active.firstSeen && child !in m.p.emitted
      && key in m.p.active.firstSeen && key !in m.p.emitted
      && (key != child ==> Claims(m.p.active.spans, child, key))
  {
    hide KeysInv, HistoryInv, RecordsInv, StatsInv, FileInv, SeenInv, PhaseInv, BatchOf, IsClaimMap, AssembleKey,
      ClaimOf,
      Ascending;
    var batch := BatchOf(m.p, childOf, ready);
    BatchMembers(m.p, childOf, ready);
    AssembledKey(m.p, batch[j].key);
    assert batch[j].consumedKeys[0] == batch[j].key;
    ConsumedIsInBuffer(m.p, m.placed, cutoff, childOf, ready, batch, key);
    ConsumedIsInBuffer(m.p, m.placed, cutoff, childOf, ready, batch, batch[j].key);
    StructureAt(m.p, m.placed, key);
    StructureAt(m.p, m.placed, batch[j].key);
  }

  lemma RetryConsumes(env: Env, n: Machine, child: Key, parent: Key)
    requires Inv(env, n) && child in n.p.active.firstSeen
    requires parent != child ==> Claims(n.p.active.spans, child, parent)
    ensures AssembleKey(n.p, child).Some?
    ensures parent in AssembleKey(n.p, child).value.consumedKeys <==> parent in n.p.active.firstSeen
  {
    hide KeysInv, HistoryInv, RecordsInv, StatsInv, FileInv, SeenInv, PhaseInv, AssembleKey, ClaimOf;
    PresentAssembles(n.p, n.placed, child);
    AssembledKey(n.p, child);
    StructureAt(n.p, n.placed, parent);
    if parent in n.p.active.firstSeen { ConsumedKeysOf(n.p, n.placed, child, parent); }
  }
}
