/** Where the one-level parent rule stops: what shared parents, chains and self-parented spans do. */
module Edges {
  import opened Text
  import opened Observation
  import opened NormalizeLaws
  import opened Merging
  import opened MergeLaws
  import opened Processor
  import opened Machine
  import opened StepProofs
  import opened RunLaws
  import opened Drain
  import opened Audit

  // ---------------------------------------------------------------- shared parents

  /** Two client spans naming one parent span both consume it: each record carries its data and
      counts it as suppressed. Once the first is acknowledged the parent is gone, so a retry of
      the second is assembled without it. */
  lemma SharedParentIsConsumedTwice(st: Fields, first: Key, second: Key, parent: Key)
    requires Claims(st.active.spans, first, parent) && Claims(st.active.spans, second, parent)
    requires parent in st.active.spans && first != second && parent != first && parent != second
    ensures AssembleKey(st, first).Some? && AssembleKey(st, second).Some?
    ensures var a, b := AssembleKey(st, first).value, AssembleKey(st, second).value;
      && a.consumedKeys == [first, parent] && b.consumedKeys == [second, parent]
      && Acknowledge(Acknowledge(st, a), b).stats.parentsSuppressed == st.stats.parentsSuppressed + 2
      && AssembleKey(Acknowledge(st, a), second).Some?
      && AssembleKey(Acknowledge(st, a), second).value.consumedKeys == [second]
      && AssembleKey(Acknowledge(st, a), second).value.parentsSuppressed == 0
  {
    hide Merge, ClaimOf, Acknowledge;
    var a, b := AssembleKey(st, first).value, AssembleKey(st, second).value;
    AcknowledgeDrops(st, a);
    AcknowledgeDrops(Acknowledge(st, a), b);
    assert a.consumedKeys[0] == first && a.consumedKeys[1] == parent;
  }

  lemma AcknowledgeDrops(st: Fields, a: Assembled)
    ensures var next := Acknowledge(st, a);
      && next.active.spans == st.active.spans - KeySet(a.consumedKeys)
      && next.active.logs == st.active.logs - KeySet(a.consumedKeys)
      && next.stats.parentsSuppressed == st.stats.parentsSuppressed + a.parentsSuppressed
  {
    AckKeysDrop(st, a.consumedKeys);
    AckKeysSuppressNothing(st, a.consumedKeys);
  }

  lemma {:induction false} AckKeysSuppressNothing(p: Fields, keys: seq<Key>)
    ensures AckKeys(p, keys).stats.parentsSuppressed == p.stats.parentsSuppressed
  {
    hide Drop;
    if keys != [] { AckKeysSuppressNothing(p, keys[..|keys| - 1]); }
  }

  // ---------------------------------------------------------------- chains

  /** In a chain the claimed claimant is consumed by its child, so what it claims waits: nothing
      is left to consume it in this Flush. */
  lemma ChainLeavesItsRoot(env: Env, m: Machine, childOf: map<Key, Key>, ready: seq<Key>, rest: seq<Event>, t: Machine,
                           child: Key, middle: Key, root: Key)
    requires Completes(env, m, None, childOf, ready, rest, t)
    requires Claims(m.p.active.spans, child, middle) && Claims(m.p.active.spans, middle, root)
    requires child != middle && middle != root && root in m.p.active.firstSeen
    requires forall other :: Claims(m.p.active.spans, other, middle) ==> other == child
    requires forall other :: Claims(m.p.active.spans, other, root) ==> other == middle
    requires forall other :: !Claims(m.p.active.spans, other, child)
    ensures child in t.p.emitted && middle in t.p.emitted
    ensures root !in t.p.emitted && root in t.p.active.firstSeen
  {
    hide KeysInv, HistoryInv, RecordsInv, StatsInv, FileInv, SeenInv, PhaseInv, Step, BeginStep, Runs, Claims,
      IsReadyList, Reachable;
    ReachableStatesAreSound(env, m);
    ClaimantIsBuffered(m.p, m.placed, child, middle);
    ClaimantIsBuffered(m.p, m.placed, middle, root);
    assert Claims(m.p.active.spans, childOf[middle], middle) && Claims(m.p.active.spans, childOf[root], root);
    assert child !in childOf by { UnclaimedIsNotSkipped(m.p.active.spans, childOf, child); }
    assert Assembles(m.p, None, childOf, child) && !Assembles(m.p, None, childOf, middle);
    assert HasAssembledChild(m.p, None, childOf, middle) && !HasAssembledChild(m.p, None, childOf, root);
    AssemblyFinalizesExactly(env, m, None, childOf, ready, rest, t, child);
    AssemblyFinalizesExactly(env, m, None, childOf, ready, rest, t, middle);
    AssemblyFinalizesExactly(env, m, None, childOf, ready, rest, t, root);
  }

  // ---------------------------------------------------------------- self parents

  /** The key names itself and so does another span name it. */
  ghost predicate TornClaim(spans: map<Key, Execution>, key: Key) {
    Claims(spans, key, key) && exists other :: other != key && Claims(spans, other, key)
  }

  /** Which keys are skipped depends on the iteration order of a map exactly when some span is
      its own parent and another names it too. */
  lemma SkippingIsDeterminedExactlyWhen(spans: map<Key, Execution>, some: map<Key, Key>)
    requires IsClaimMap(spans, some)
    ensures (forall key :: !TornClaim(spans, key)) <==>
      (forall childOf, key :: IsClaimMap(spans, childOf) ==> (Skipped(childOf, key) <==> Skipped(some, key)))
  {
    hide Claims;
    forall childOf, key | IsClaimMap(spans, childOf) && !TornClaim(spans, key)
      ensures Skipped(childOf, key) <==> Skipped(some, key)
    {
      UntornIsDetermined(spans, some, childOf, key);
    }
    if key :| TornClaim(spans, key) { TornDependsOnOrder(spans, some, key); }
  }

  lemma UntornIsDetermined(spans: map<Key, Execution>, some: map<Key, Key>, childOf: map<Key, Key>, key: Key)
    requires IsClaimMap(spans, some) && IsClaimMap(spans, childOf) && !TornClaim(spans, key)
    ensures Skipped(childOf, key) <==> Skipped(some, key)
  {
    hide Claims;
    if key in childOf { assert Claims(spans, childOf[key], key); }
    if key in some { assert Claims(spans, some[key], key); }
  }

  lemma TornDependsOnOrder(spans: map<Key, Execution>, some: map<Key, Key>, key: Key)
    requires IsClaimMap(spans, some) && TornClaim(spans, key)
    ensures exists childOf :: IsClaimMap(spans, childOf) && Skipped(childOf, key) != Skipped(some, key)
  {
    hide Claims;
    var other :| other != key && Claims(spans, other, key);
    var itself, apart := some[key := key], some[key := other];
    assert IsClaimMap(spans, itself) && IsClaimMap(spans, apart);
    assert !Skipped(itself, key) && Skipped(apart, key);
  }

  // ---------------------------------------------------------------- outside the projection

  /** Unlike the projection, a merged tool or target depends on which signal came first, exactly
      when the two assert different ones. */
  lemma FieldsDependOnOrderExactlyWhen(a: Execution, b: Execution)
    ensures Merge(a, b).tool == Merge(b, a).tool <==> a.tool == b.tool || a.tool == "" || b.tool == ""
    ensures Merge(a, b).target == Merge(b, a).target <==> a.target == b.target || a.target == "" || b.target == ""
  {
    hide MergeStatus, MergeCorrelation, MergeSource, MergeDuration, Union, StrongerAvailability;
  }

  // ---------------------------------------------------------------- what a slot of buffer holds

  function DepositAll(slots: map<Key, Execution>, key: Key, signals: seq<Signal>): map<Key, Execution> {
    if signals == [] then slots
    else Deposit(DepositAll(slots, key, signals[..|signals| - 1]), key, signals[|signals| - 1].ex)
  }

  /** A slot buffer filled, signal by signal and with no roll-back in between, has an empty list
      of disagreements exactly when no two of its signals contradict each other. */
  lemma {:induction false} BufferedSlotIsAudited(slots: map<Key, Execution>, key: Key, signals: seq<Signal>)
    requires key !in slots && signals != [] && forall s :: s in signals ==> Genuine(s)
    ensures key in DepositAll(slots, key, signals)
    ensures var slot := DepositAll(slots, key, signals)[key];
      slot.disagreements == [] <==> !Contested(set s | s in signals)
  {
    hide Merge, Genuine, Contested;
    DepositsFold(slots, key, signals);
    SlotIsAudited(signals);
  }

  lemma {:induction false} DepositsFold(slots: map<Key, Execution>, key: Key, signals: seq<Signal>)
    requires key !in slots && signals != []
    ensures key in DepositAll(slots, key, signals) && DepositAll(slots, key, signals)[key] == Fold(signals)
  {
    hide Merge;
    if |signals| > 1 { DepositsFold(slots, key, signals[..|signals| - 1]); }
  }

  /** And it says that no signal carried an id although it is ambiguous exactly when its only
      ambiguous signal came after at least one signal without an id, and after no other. */
  lemma {:induction false} BufferedSlotMisleadsExactlyWhen(slots: map<Key, Execution>, key: Key, signals: seq<Signal>)
    requires key !in slots && signals != [] && forall s :: s in signals ==> Genuine(s)
    ensures key in DepositAll(slots, key, signals)
    ensures var slot := DepositAll(slots, key, signals)[key];
      Misleads(slot.correlation, slot.correlationDetail) <==> exists i :: Misled(signals, i)
  {
    hide Merge, Genuine, Misleads, Misled;
    DepositsFold(slots, key, signals);
    SlotMisleadsExactlyWhen(signals);
  }
}
