/** Disagreements: when a record's empty list really means that its signals agreed. */
module Audit {
  import opened Observation
  import opened Normalize
  import opened NormalizeLaws
  import opened Merging
  import opened MergeLaws

  // ---------------------------------------------------------------- the reference

  /** Both assert something, and not the same thing. */
  ghost predicate Contradict(a: Execution, b: Execution) {
    StatusesDiffer(a, b) || NamesDiffer(a.tool, b.tool) || NamesDiffer(a.target, b.target)
  }

  ghost predicate Contested(signals: set<Signal>) {
    exists s, t :: s in signals && t in signals && Contradict(s.ex, t.ex)
  }

  /** An empty list of disagreements means no two signals contradict each other, and back. */
  ghost predicate Audited(ex: Execution, signals: set<Signal>) {
    ex.disagreements == [] <==> !Contested(signals)
  }

  /** A name is kept exactly when some signal offers one, and then it is one of those. */
  ghost predicate KeepsName(kept: string, signals: set<Signal>, name: Execution -> string) {
    if kept == "" then forall s :: s in signals ==> name(s.ex) == ""
    else exists s :: s in signals && name(s.ex) == kept
  }

  /** The status is the worst asserted, and each name is one of those offered. */
  ghost predicate Keeps(ex: Execution, signals: set<Signal>) {
    && ex.status == WorstStatus(signals)
    && KeepsName(ex.tool, signals, (e: Execution) => e.tool)
    && KeepsName(ex.target, signals, (e: Execution) => e.target)
  }

  // ---------------------------------------------------------------- one merge

  lemma KeptNameMerges(name: string, a: string, A: set<Signal>, b: string, B: set<Signal>, f: Execution -> string)
    requires KeepsName(a, A, f) && KeepsName(b, B, f)
    ensures KeepsName(MergeField(name, a, b).value, A + B, f)
  {
    var kept := MergeField(name, a, b).value;
    if kept == a && a != "" {
      var s :| s in A && f(s.ex) == a;
      assert s in A + B;
    } else if kept == b && b != "" {
      var s :| s in B && f(s.ex) == b;
      assert s in A + B;
    }
  }

  lemma KeepsMerges(a: Execution, A: set<Signal>, b: Execution, B: set<Signal>)
    requires Keeps(a, A) && Keeps(b, B)
    ensures Keeps(Merge(a, b), A + B)
  {
    hide MergeCorrelation, MergeSource, MergeDuration, Union, WorstStatus;
    WorstOfUnion(A, B);
    MergeMarks(a, b);
    KeptNameMerges("tool", a.tool, A, b.tool, B, (e: Execution) => e.tool);
    KeptNameMerges("target", a.target, A, b.target, B, (e: Execution) => e.target);
  }

  lemma MergeRecordsContradiction(a: Execution, b: Execution)
    ensures Merge(a, b).disagreements == [] <==> a.disagreements == [] && !Contradict(a, b)
  {
    hide MergeCorrelation, MergeSource, MergeDuration, Union;
  }

  /** A conflict between the kept values is a conflict between two signals. */
  lemma KeptConflictIsReal(a: Execution, A: set<Signal>, b: Execution, B: set<Signal>)
    requires Keeps(a, A) && Keeps(b, B) && Contradict(a, b)
    ensures Contested(A + B)
  {
    if StatusesDiffer(a, b) {
      assert Says(A, a.status) && Says(B, b.status);
      var s, t :| s in A && s.ex.status == a.status && t in B && t.ex.status == b.status;
      assert s in A + B && t in A + B && Contradict(s.ex, t.ex);
    } else if NamesDiffer(a.tool, b.tool) {
      var s, t :| s in A && s.ex.tool == a.tool && t in B && t.ex.tool == b.tool;
      assert s in A + B && t in A + B && Contradict(s.ex, t.ex);
    } else {
      var s, t :| s in A && s.ex.target == a.target && t in B && t.ex.target == b.target;
      assert s in A + B && t in A + B && Contradict(s.ex, t.ex);
    }
  }

  /** In an uncontested set every assertion is the kept one. */
  lemma UncontestedSaysTheKept(a: Execution, A: set<Signal>, s: Signal)
    requires Keeps(a, A) && !Contested(A) && s in A
    ensures s.ex.status.StatusUnknown? || s.ex.status == a.status
    ensures s.ex.tool == "" || s.ex.tool == a.tool
    ensures s.ex.target == "" || s.ex.target == a.target
  {
    assert Says(A, s.ex.status);
    if !a.status.StatusUnknown? {
      assert Says(A, a.status);
      var t :| t in A && t.ex.status == a.status;
      assert !Contradict(s.ex, t.ex);
    }
    if s.ex.tool != "" {
      var t :| t in A && t.ex.tool == a.tool;
      assert !Contradict(s.ex, t.ex);
    }
    if s.ex.target != "" {
      var t :| t in A && t.ex.target == a.target;
      assert !Contradict(s.ex, t.ex);
    }
  }

  lemma AgreementIsComplete(a: Execution, A: set<Signal>, b: Execution, B: set<Signal>)
    requires Keeps(a, A) && Keeps(b, B) && !Contested(A) && !Contested(B) && !Contradict(a, b)
    ensures !Contested(A + B)
  {
    forall s, t | s in A + B && t in A + B ensures !Contradict(s.ex, t.ex) {
      if s in A { UncontestedSaysTheKept(a, A, s); } else { UncontestedSaysTheKept(b, B, s); }
      if t in A { UncontestedSaysTheKept(a, A, t); } else { UncontestedSaysTheKept(b, B, t); }
    }
  }

  /** merge drops the disagreements already recorded on its second argument. The list stays
      complete exactly when there were none to drop, or the result is non-empty anyway: because
      the first argument carries some, or because the two records contradict each other. */
  lemma MergeAuditsExactlyWhen(a: Execution, A: set<Signal>, b: Execution, B: set<Signal>)
    requires Keeps(a, A) && Keeps(b, B) && Audited(a, A) && Audited(b, B)
    ensures Audited(Merge(a, b), A + B) <==>
      b.disagreements == [] || a.disagreements != [] || Contradict(a, b)
    ensures a.disagreements <= Merge(a, b).disagreements
  {
    hide Merge, Keeps;
    MergeRecordsContradiction(a, b);
    MergeKeepsBase(a, b);
    if Contradict(a, b) { KeptConflictIsReal(a, A, b, B); }
    if a.disagreements == [] && b.disagreements == [] && !Contradict(a, b) { AgreementIsComplete(a, A, b, B); }
    if s, t :| s in A && t in A && Contradict(s.ex, t.ex) { assert s in A + B && t in A + B; }
    if s, t :| s in B && t in B && Contradict(s.ex, t.ex) { assert s in A + B && t in A + B; }
  }

  lemma MergeKeepsBase(a: Execution, b: Execution)
    ensures a.disagreements <= Merge(a, b).disagreements
  {
    hide MergeCorrelation, MergeSource, MergeDuration, Union, MergeStatus, MergeField;
  }

  // ---------------------------------------------------------------- a slot of the buffer

  /** What buffer leaves in a slot that received these signals in this order. */
  function Fold(signals: seq<Signal>): Execution
    requires signals != []
  {
    var last := signals[|signals| - 1].ex;
    if |signals| == 1 then last else Merge(Fold(signals[..|signals| - 1]), last)
  }

  lemma SignalIsAudited(s: Signal)
    requires Genuine(s)
    ensures Keeps(s.ex, {s}) && Audited(s.ex, {s})
  {
    SummaryOfOne(s);
    assert s in {s};
  }

  /** A slot filled by buffer alone, one signal at a time, is audit complete. */
  lemma {:induction false} SlotIsAudited(signals: seq<Signal>)
    requires signals != [] && forall s :: s in signals ==> Genuine(s)
    ensures Keeps(Fold(signals), set s | s in signals)
    ensures Audited(Fold(signals), set s | s in signals)
  {
    hide Merge, Keeps, Audited, Genuine;
    var last := signals[|signals| - 1];
    assert last in signals;
    SignalIsAudited(last);
    if |signals| == 1 {
      assert (set s | s in signals) == {last};
    } else {
      var init := signals[..|signals| - 1];
      assert signals == init + [last];
      assert forall s :: s in init ==> s in signals;
      SlotIsAudited(init);
      var before := set s | s in init;
      assert (set s | s in signals) == before + {last};
      KeepsMerges(Fold(init), before, last.ex, {last});
      SingleHasNoDisagreements(last);
      MergeAuditsExactlyWhen(Fold(init), before, last.ex, {last});
    }
  }

  lemma SingleHasNoDisagreements(s: Signal)
    requires Genuine(s)
    ensures s.ex.disagreements == []
  {}

  /** Merging two slots instead can lose a recorded contradiction: two signals that name
      different tools, merged first, are absorbed by a record that names the first tool. */
  lemma SlotMergeCanDropDisagreements(e: Execution, other: string)
    requires e.disagreements == [] && e.tool != "" && other != "" && other != e.tool
    ensures var objecting := e.(tool := other);
      && Merge(e, Merge(e, objecting)).disagreements == []
      && Merge(Merge(e, e), objecting).disagreements != []
  {
    hide Merge;
    var objecting := e.(tool := other);
    MergeRecordsContradiction(e, objecting);
    MergeRecordsContradiction(e, e);
    MergeRecordsContradiction(e, Merge(e, objecting));
    MergeRecordsContradiction(Merge(e, e), objecting);
    MergeKeepsFields(e, objecting);
    MergeKeepsFields(e, e);
  }

  lemma MergeKeepsFields(e: Execution, f: Execution)
    requires e.tool != "" && e.status == f.status && e.target == f.target
    ensures Merge(e, f).tool == e.tool && Merge(e, f).status == e.status && Merge(e, f).target == e.target
  {
    hide MergeCorrelation, MergeSource, MergeDuration, Union;
  }

  // ---------------------------------------------------------------- a misleading explanation

  /** Signals without an id come first, then an ambiguous one, then none that is ambiguous. */
  ghost predicate Misled(signals: seq<Signal>, i: int) {
    && 1 <= i < |signals| && signals[i].ex.correlation.Ambiguous?
    && (forall j :: 0 <= j < i ==> signals[j].ex.correlation.Unattributed?)
    && (forall j :: i < j < |signals| ==> !signals[j].ex.correlation.Ambiguous?)
  }

  lemma MisledSnoc(init: seq<Signal>, last: Signal)
    requires init != []
    ensures (exists i :: Misled(init + [last], i)) <==>
      || ((forall s :: s in init ==> s.ex.correlation.Unattributed?) && last.ex.correlation.Ambiguous?)
      || ((exists i :: Misled(init, i)) && !last.ex.correlation.Ambiguous?)
  {
    var signals := init + [last];
    assert signals[|init|] == last && forall i :: 0 <= i < |init| ==> signals[i] == init[i];
    if last.ex.correlation.Ambiguous? {
      if i :| Misled(signals, i) {
        assert i == |init|;
        forall s | s in init ensures s.ex.correlation.Unattributed? {
          var j :| 0 <= j < |init| && init[j] == s;
          assert signals[j] == s;
        }
      }
      if forall s :: s in init ==> s.ex.correlation.Unattributed? { assert Misled(signals, |init|); }
    } else {
      if i :| Misled(signals, i) { assert Misled(init, i); }
      if i :| Misled(init, i) { assert Misled(signals, i); }
    }
  }

  lemma MisleadStep(a: Execution, s: Signal)
    requires Sound(a) && Genuine(s)
    ensures var m := Merge(a, s.ex);
      && Sound(m)
      && (m.correlation.Unattributed? <==> a.correlation.Unattributed? && s.ex.correlation.Unattributed?)
      && (Misleads(m.correlation, m.correlationDetail) <==>
            || (a.correlation.Unattributed? && s.ex.correlation.Ambiguous?)
            || (Misleads(a.correlation, a.correlationDetail) && !s.ex.correlation.Ambiguous?))
  {
    GenuineIsSound(s);
    MergeIsTheJoin(a, s.ex);
    MisleadingDetailExactlyWhen(a, s.ex);
    hide MergeStatus, MergeField, MergeSource, MergeDuration, Union, StrongerAvailability, TransportOf,
      MergeCorrelation,
      JoinStatus, Coherent, VerdictOf, Tokens;
  }

  lemma GenuineIsSound(s: Signal)
    requires Genuine(s)
    ensures Sound(s.ex) && !Misleads(s.ex.correlation, s.ex.correlationDetail)
  {
    SignalRepresentsItself(s);
    hide Summary, Coherent, VerdictOf, Tokens, ErrorsMarked, BlankButSet, Attr, JoinKey;
  }

  /** A slot that buffer filled is ambiguous and says that no signal carried an id exactly when its
      only ambiguous signal came after at least one signal without an id, and after no other. */
  lemma {:induction false} SlotMisleadsExactlyWhen(signals: seq<Signal>)
    requires signals != [] && forall s :: s in signals ==> Genuine(s)
    ensures Sound(Fold(signals))
    ensures Fold(signals).correlation.Unattributed? <==> forall s :: s in signals ==> s.ex.correlation.Unattributed?
    ensures Misleads(Fold(signals).correlation, Fold(signals).correlationDetail) <==> exists i :: Misled(signals, i)
  {
    hide Merge, Genuine, Sound, Misleads;
    var last := signals[|signals| - 1];
    assert last in signals;
    if |signals| == 1 {
      GenuineIsSound(last);
    } else {
      hide Misled;
      var init := signals[..|signals| - 1];
      assert signals == init + [last];
      assert forall s :: s in init ==> s in signals;
      SlotMisleadsExactlyWhen(init);
      MisleadStep(Fold(init), last);
      MisledSnoc(init, last);
    }
  }
}
