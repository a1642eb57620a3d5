/** One tools/call is one record: a client span, its log, its parent span and its parent's log,
    however they arrive and however often writing them fails. */
module Calls {
  import opened Text
  import opened Observation
  import opened Normalize
  import opened Merging
  import opened MergeLaws
  import opened Processor
  import opened Machine
  import opened BufferProofs
  import opened SnapshotProofs
  import opened StepProofs
  import opened Guarantees
  import opened RunLaws
  import opened Drain
  import Sink

  /** A call waiting in the buffer: its key, the parent key it takes along if any, its span if it
      has one, the signals that wait under these keys, and how many records were accepted before. */
  datatype Call = Call(key: Key, parents: set<Key>, span: Option<Execution>, signals: set<Signal>, base: nat)

  function Keys(c: Call): set<Key> { {c.key} + c.parents }

  ghost predicate WellFormed(c: Call) {
    && (forall k :: k in c.parents ==> k != c.key && c.span.Some? && ClaimOf(c.span.value) == Some(k))
    && (forall s :: s in c.signals ==> s.key in Keys(c))
  }

  ghost predicate Buffered(p: Fields, c: Call) {
    Keys(c) <= p.active.firstSeen.Keys && (c.span.Some? ==> Holds(p.active.spans, c.key, c.span.value))
  }

  /** No client span names the call, and none but the call names its parent. */
  ghost predicate Alone(spans: map<Key, Execution>, c: Call) {
    forall other, k :: k in Keys(c) && Claims(spans, other, k) ==> other == c.key && k in c.parents
  }

  /** A run in which the call is alone whenever an assembly starts before it is finalized. */
  ghost predicate AloneRun(env: Env, m: Machine, events: seq<Event>, c: Call)
    decreases events
  {
    events == [] ||
    (&& Enabled(m, events[0])
     && (events[0].Begin? && c.key !in m.p.emitted ==> Alone(m.p.active.spans, c))
     && AloneRun(env, Step(env, m, events[0]), events[1..], c))
  }

  ghost predicate Touches(item: Item, c: Call) { exists k :: k in item.a.consumedKeys && k in Keys(c) }

  ghost predicate Theirs(item: Item, c: Call) {
    && item.a.key == c.key && Keys(c) <= KeySet(item.a.consumedKeys) && c.signals <= item.from
    && (c.span.Some? ==> KeepsIdentity(c.span.value, item.a.ex))
  }

  ghost predicate StillActive(placed: History, signals: set<Signal>) {
    forall s :: s in signals ==> s in placed && placed[s].Active?
  }

  ghost predicate Untouched(items: seq<Item>, from: int, to: int, c: Call)
    requires 0 <= from && to <= |items|
  {
    forall i :: from <= i < to ==> !Touches(items[i], c)
  }

  /** While the call is not finalized: its signals are buffered, and only its own record may take them. */
  ghost predicate Open(m: Machine, c: Call) {
    && Buffered(m.p, c) && Keys(c) !! m.p.emitted && StillActive(m.placed, c.signals)
    && 0 <= c.base <= Done(m) <= |m.accepted| && Untouched(m.accepted, c.base, Done(m), c)
    && (!m.phase.Idle? ==>
          forall j :: m.phase.next <= j < |m.phase.batch| && Touches(m.phase.batch[j], c) ==>
            Theirs(m.phase.batch[j], c))
  }

  /** Record i, and no other since the call was buffered, is theirs. */
  ghost predicate OnlyRecord(accepted: seq<Item>, i: int, c: Call) {
    && c.base <= i < |accepted| && Theirs(accepted[i], c)
    && forall j :: c.base <= j < |accepted| && j != i ==> !Touches(accepted[j], c)
  }

  ghost predicate Closed(m: Machine, c: Call) {
    && Keys(c) <= m.p.emitted
    && (exists i :: OnlyRecord(m.accepted, i, c))
    && (!m.phase.Idle? ==>
          m.phase.next <= |m.phase.batch| && Untouched(m.phase.batch, m.phase.next, |m.phase.batch|, c))
  }

  ghost predicate CallInv(m: Machine, c: Call) { if c.key in m.p.emitted then Closed(m, c) else Open(m, c) }

  // ---------------------------------------------------------------- the snapshot

  lemma AssembledKeepsIdentity(st: Fields, key: Key)
    requires key in st.active.spans && JoinKey(st.active.spans[key].traceID, st.active.spans[key].spanID) != ""
    ensures AssembleKey(st, key).Some? && KeepsIdentity(st.active.spans[key], AssembleKey(st, key).value.ex)
  {
    hide Merge, JoinKey, ClaimOf, MergeParent;
    var span := st.active.spans[key];
    var own := Assembled(key, [key], span, key in st.active.logs, false, 0);
    var joined := if ClaimOf(span).Some? then MergeParent(st, own, ClaimOf(span).value) else own;
    if ClaimOf(span).Some? { ParentKeepsIdentity(st, own, ClaimOf(span).value); }
    if key in st.active.logs { MergeKeepsIdentity(joined.ex, st.active.logs[key]); }
  }

  lemma ParentKeepsIdentity(st: Fields, a: Assembled, parent: Key)
    requires JoinKey(a.ex.traceID, a.ex.spanID) != ""
    ensures KeepsIdentity(a.ex, MergeParent(st, a, parent).ex)
  {
    hide Merge, JoinKey;
    var mid := if parent in st.active.spans then Merge(a.ex, st.active.spans[parent]) else a.ex;
    if parent in st.active.spans { MergeKeepsIdentity(a.ex, st.active.spans[parent]); }
    if parent in st.active.logs { MergeKeepsIdentity(mid, st.active.logs[parent]); }
  }

  lemma CallKeepsIdentity(p: Fields, c: Call)
    requires c.span.Some? && Holds(p.active.spans, c.key, c.span.value)
    ensures AssembleKey(p, c.key).Some? && KeepsIdentity(c.span.value, AssembleKey(p, c.key).value.ex)
  {
    hide AssembleKey, JoinKey;
    AssembledKeepsIdentity(p, c.key);
  }

  lemma CallConsumes(p: Fields, placed: History, c: Call, parent: Key)
    requires KeysInv(p, placed) && Buffered(p, c) && WellFormed(c) && parent in c.parents
    ensures AssembleKey(p, c.key).Some? && AssembleKey(p, c.key).value.consumedKeys == [c.key, parent]
  {
    hide KeysInv, Merge, ClaimOf, Holds;
    StructureAt(p, placed, parent);
    HeldClaims(p.active.spans, c.key, c.span.value, parent);
  }

  /** The record a snapshot makes of the call takes its keys, its signals and its span's identity. */
  lemma CallIsItsRecord(p: Fields, placed: History, c: Call, a: Assembled)
    requires KeysInv(p, placed) && Buffered(p, c) && WellFormed(c) && StillActive(placed, c.signals)
    requires AssembleKey(p, c.key) == Some(a)
    ensures Theirs(Item(a, LiveUnder(placed, a.consumedKeys)), c)
  {
    hide KeysInv, AssembleKey, KeepsIdentity, Holds, ClaimOf;
    AssembledKey(p, c.key);
    if c.span.Some? { CallKeepsIdentity(p, c); }
    forall k | k in Keys(c) ensures k in KeySet(a.consumedKeys) {
      if k == c.key { assert a.consumedKeys[0] == k; } else { CallConsumes(p, placed, c, k); }
    }
    forall s | s in c.signals ensures s in LiveUnder(placed, a.consumedKeys) { assert s.key in KeySet(a.consumedKeys); }
  }

  /** While the call is alone no other record of a snapshot takes one of its keys. */
  lemma BatchTouches(p: Fields, placed: History, childOf: map<Key, Key>, ready: seq<Key>, batch: seq<Assembled>, j: int,
                     c: Call, k: Key)
    requires KeysInv(p, placed) && Buffered(p, c) && WellFormed(c) && Alone(p.active.spans, c)
    requires IsClaimMap(p.active.spans, childOf) && Ascending(ready)
    requires batch == BatchOf(p, childOf, ready) && 0 <= j < |batch|
    requires k in Keys(c) && k in batch[j].consumedKeys
    ensures batch[j].key == c.key && AssembleKey(p, c.key) == Some(batch[j])
  {
    hide KeysInv, BatchOf, AssembleKey, ClaimOf, Ascending, Holds;
    BatchMembers(p, childOf, ready);
    var a := batch[j];
    assert AssembleKey(p, a.key) == Some(a) && !Skipped(childOf, a.key);
    AssembledKey(p, a.key);
    assert |a.consumedKeys| == 2 ==> Claims(p.active.spans, a.key, a.consumedKeys[1]);
    if k != c.key {
      HeldClaims(p.active.spans, c.key, c.span.value, k);
      assert Claims(p.active.spans, childOf[k], k);
    }
  }

  lemma BeginKeepsOpen(m: Machine, childOf: map<Key, Key>, ready: seq<Key>, c: Call)
    requires KeysInv(m.p, m.placed) && m.phase.Idle? && Open(m, c) && WellFormed(c)
    requires Alone(m.p.active.spans, c) && IsClaimMap(m.p.active.spans, childOf) && Ascending(ready)
    ensures Open(BeginStep(m, childOf, ready), c)
  {
    hide KeysInv, BatchOf, IsClaimMap, Ascending, Claims, LiveUnder, Theirs, Alone, WellFormed, Keys, Holds;
    var batch, n := BatchOf(m.p, childOf, ready), BeginStep(m, childOf, ready);
    forall j | 0 <= j < |n.phase.batch| && Touches(n.phase.batch[j], c) ensures Theirs(n.phase.batch[j], c) {
      var k :| k in batch[j].consumedKeys && k in Keys(c);
      BatchTouches(m.p, m.placed, childOf, ready, batch, j, c, k);
      CallIsItsRecord(m.p, m.placed, c, batch[j]);
    }
  }

  lemma BeginKeepsClosed(m: Machine, childOf: map<Key, Key>, ready: seq<Key>, c: Call)
    requires KeysInv(m.p, m.placed) && m.phase.Idle? && Closed(m, c) && Ascending(ready)
    ensures Closed(BeginStep(m, childOf, ready), c)
  {
    hide KeysInv, BatchOf, Ascending, OnlyRecord, LiveUnder, Keys;
    var batch, n := BatchOf(m.p, childOf, ready), BeginStep(m, childOf, ready);
    BeginReserves(m.p, m.placed, childOf, ready, batch);
    BatchKeys(batch);
    forall j, k | 0 <= j < |n.phase.batch| && k in n.phase.batch[j].a.consumedKeys ensures k !in Keys(c) {
      assert n.phase.batch[j].a == batch[j];
      StructureAt(m.p, m.placed, k);
    }
  }

  // ---------------------------------------------------------------- write and acknowledge

  lemma WriteKeepsCall(env: Env, m: Machine, weather: Sink.Weather, c: Call)
    requires Enabled(m, Write(weather)) && CallInv(m, c)
    ensures CallInv(WriteMachine(env, m, weather), c)
  {
    hide Sink.WriteStep, Buffered, Theirs, Touches, Keys;
    var n := WriteMachine(env, m, weather);
    assert n.p == m.p && n.placed == m.placed && m.accepted <= n.accepted;
    if c.key in m.p.emitted {
      var i :| OnlyRecord(m.accepted, i, c);
      assert OnlyRecord(n.accepted, i, c);
    }
  }

  lemma AckKeepsOpen(env: Env, m: Machine, c: Call)
    requires Enabled(m, Ack) && !Touches(m.phase.batch[m.phase.next], c)
    requires Inv(env, m) && Open(m, c) && WellFormed(c)
    ensures Open(Step(env, m, Ack), c) && c.key !in Step(env, m, Ack).p.emitted
  {
    hide Inv, AckKeys, Theirs, Holds, Touches;
    var n, item := AckStep(m), m.phase.batch[m.phase.next];
    AckKeysDrop(m.p, item.a.consumedKeys);
    AckKeysFinalize(m.p, item.a.consumedKeys);
    assert Keys(c) !! KeySet(item.a.consumedKeys) by { NotTouched(item, c); }
    if c.span.Some? { SpanStays(env, m, Ack, c.key, c.span.value); }
    HeadIsLast(env, m);
  }

  lemma NotTouched(item: Item, c: Call)
    requires !Touches(item, c)
    ensures Keys(c) !! KeySet(item.a.consumedKeys)
  {}

  lemma HeadIsLast(env: Env, m: Machine)
    requires Inv(env, m) && m.phase.Persisted?
    ensures m.phase.next < |m.phase.batch| && m.accepted != []
    ensures m.accepted[|m.accepted| - 1] == m.phase.batch[m.phase.next]
    ensures forall j :: m.phase.next < j < |m.phase.batch| ==>
      m.phase.batch[j].a.key != m.phase.batch[m.phase.next].a.key
  {
    hide KeysInv, HistoryInv, RecordsInv, StatsInv, FileInv, SeenInv, ItemInv, FromInv, OwnKeyOnly, InBatch;
  }

  /** The acknowledgement of the call's own record finalizes all of its keys together. */
  lemma AckCloses(env: Env, m: Machine, c: Call)
    requires Enabled(m, Ack) && Theirs(m.phase.batch[m.phase.next], c)
    requires Inv(env, m) && Open(m, c)
    ensures Closed(Step(env, m, Ack), c)
  {
    hide Inv, AckKeys, AckPlaces, Buffered, Keys, KeepsIdentity;
    var n, next := AckStep(m), m.phase.next;
    AckKeysFinalize(m.p, m.phase.batch[next].a.consumedKeys);
    HeadIsLast(env, m);
    hide Touches;
    assert OnlyRecord(n.accepted, |m.accepted| - 1, c);
    forall j | next < j < |m.phase.batch| ensures !Touches(m.phase.batch[j], c) {
      assert m.phase.batch[j].a.key != m.phase.batch[next].a.key;
    }
  }

  lemma AckKeepsClosed(m: Machine, c: Call)
    requires Enabled(m, Ack) && Closed(m, c)
    ensures Closed(AckStep(m), c)
  {
    hide AckKeys, AckPlaces, OnlyRecord, Touches, Keys;
    AckKeysFinalize(m.p, m.phase.batch[m.phase.next].a.consumedKeys);
  }

  lemma AckKeepsCall(env: Env, m: Machine, c: Call)
    requires Inv(env, m) && Enabled(m, Ack) && CallInv(m, c) && WellFormed(c)
    ensures CallInv(Step(env, m, Ack), c)
  {
    hide Inv, Open, Closed, AckStep, Touches, Theirs, WellFormed;
    if c.key in m.p.emitted {
      AckKeepsClosed(m, c);
      ClosedIsFinal(AckStep(m), c);
    } else if Touches(m.phase.batch[m.phase.next], c) {
      TouchedIsTheirs(m, c);
      AckCloses(env, m, c);
      ClosedIsFinal(AckStep(m), c);
    } else {
      AckKeepsOpen(env, m, c);
    }
  }

  lemma ClosedIsFinal(m: Machine, c: Call)
    requires Closed(m, c)
    ensures c.key in m.p.emitted
  {
    hide OnlyRecord, Untouched;
  }

  lemma TouchedIsTheirs(m: Machine, c: Call)
    requires Open(m, c) && !m.phase.Idle? && m.phase.next < |m.phase.batch| && Touches(m.phase.batch[m.phase.next], c)
    ensures Theirs(m.phase.batch[m.phase.next], c)
  {
    hide Touches, Theirs, Buffered;
  }

  // ---------------------------------------------------------------- every other step

  /** A step that neither starts nor advances a batch moves nothing of the call's. */
  lemma QuietKeepsOpen(m: Machine, n: Machine, c: Call)
    requires Open(m, c) && Buffered(n.p, c) && n.p.emitted == m.p.emitted
    requires n.accepted == m.accepted && Done(n) == Done(m) && StillActive(n.placed, c.signals)
    requires n.phase.Idle? || (!m.phase.Idle? && n.phase.batch == m.phase.batch && n.phase.next >= m.phase.next)
    ensures Open(n, c)
  {
    hide Buffered, StillActive, Touches, Theirs, Keys;
  }

  lemma QuietKeepsClosed(m: Machine, n: Machine, c: Call)
    requires Closed(m, c) && n.p.emitted == m.p.emitted && n.accepted == m.accepted
    requires n.phase.Idle? ||
      (!m.phase.Idle? && n.phase.batch == m.phase.batch && m.phase.next <= n.phase.next <= |n.phase.batch|)
    ensures Closed(n, c)
  {
    hide OnlyRecord, Touches, Keys;
  }

  predicate Advances(e: Event) { e.Begin? || e.Write? || e.Ack? }

  lemma QuietStep(env: Env, m: Machine, e: Event)
    requires Inv(env, m) && Enabled(m, e) && !Advances(e)
    ensures var n := Step(env, m, e);
      && n.p.emitted == m.p.emitted && n.accepted == m.accepted && Done(n) == Done(m)
      && (n.phase.Idle? ||
          (!m.phase.Idle? && n.phase.batch == m.phase.batch && m.phase.next <= n.phase.next <= |n.phase.batch|))
  {
    hide KeysInv, HistoryInv, RecordsInv, StatsInv, FileInv, SeenInv, RestoreKeys, KeysOfBatch, BufferStep,
      NormalizeSignal,
      JoinKey, PlaceFor, PromotePlaces, ItemInv, FromInv, OwnKeyOnly, InBatch;
    if e.Restore? { RestoreCountsNothing(m.p, KeysOfBatch(RecordsOf(m.phase.batch[m.phase.next..]))); }
    if e.Take? && NormalizeSignal(env, e.raw).Some? {
      BufferLeavesRest(m.p, NormalizeSignal(env, e.raw).value, KindOf(e.raw), e.now);
    }
  }

  lemma QuietKeepsActive(env: Env, m: Machine, e: Event, signals: set<Signal>)
    requires Inv(env, m) && Enabled(m, e) && !Advances(e) && StillActive(m.placed, signals)
    ensures StillActive(Step(env, m, e).placed, signals)
  {
    hide KeysInv, RecordsInv, StatsInv, FileInv, SeenInv, PhaseInv, RestoreKeys, KeysOfBatch, BufferStep,
      NormalizeSignal,
      JoinKey, PlaceFor, Genuine, Stamp;
  }

  /** A key stays buffered until it is finalized. */
  lemma BufferedStays(env: Env, m: Machine, e: Event, key: Key)
    requires Inv(env, m) && Enabled(m, e) && key in m.p.active.firstSeen && key !in Step(env, m, e).p.emitted
    ensures key in Step(env, m, e).p.active.firstSeen
  {
    hide Inv, Step, Enabled;
    var events := [e];
    assert Runs(env, m, events) by { assert events[1..] == []; }
    assert End(env, m, events) == Step(env, m, e) by { assert events[1..] == []; }
    FirstSeenStays(env, m, events, key);
  }

  lemma BufferedKeepsCall(env: Env, m: Machine, e: Event, c: Call)
    requires Inv(env, m) && Enabled(m, e) && Buffered(m.p, c) && Keys(c) !! Step(env, m, e).p.emitted
    ensures Buffered(Step(env, m, e).p, c)
  {
    hide Inv, Step, Enabled, Holds;
    if c.span.Some? { SpanStays(env, m, e, c.key, c.span.value); }
    forall k | k in Keys(c) ensures k in Step(env, m, e).p.active.firstSeen { BufferedStays(env, m, e, k); }
  }

  lemma QuietKeepsCall(env: Env, m: Machine, e: Event, c: Call)
    requires Inv(env, m) && Enabled(m, e) && !Advances(e) && CallInv(m, c)
    ensures CallInv(Step(env, m, e), c)
  {
    hide Inv, Step, Enabled, Advances, Buffered, StillActive, Untouched, OnlyRecord, Touches, Theirs, Keys;
    var n := Step(env, m, e);
    QuietStep(env, m, e);
    if c.key in m.p.emitted {
      QuietKeepsClosed(m, n, c);
    } else {
      QuietKeepsActive(env, m, e, c.signals);
      BufferedKeepsCall(env, m, e, c);
      QuietKeepsOpen(m, n, c);
    }
  }

  lemma BeginKeepsCall(env: Env, m: Machine, e: Event, c: Call)
    requires Inv(env, m) && Enabled(m, e) && e.Begin? && CallInv(m, c) && WellFormed(c)
    requires c.key !in m.p.emitted ==> Alone(m.p.active.spans, c)
    ensures CallInv(Step(env, m, e), c)
  {
    hide KeysInv, HistoryInv, RecordsInv, StatsInv, FileInv, SeenInv, BatchInv, IsClaimMap, Ascending, Alone, BatchOf,
      LiveUnder, Open, Closed, ItemsOf, WellFormed;
    if c.key in m.p.emitted {
      BeginKeepsClosed(m, e.childOf, e.ready, c);
    } else {
      BeginKeepsOpen(m, e.childOf, e.ready, c);
    }
  }

  lemma CallStep(env: Env, m: Machine, e: Event, c: Call)
    requires Inv(env, m) && Enabled(m, e) && CallInv(m, c) && WellFormed(c)
    requires e.Begin? && c.key !in m.p.emitted ==> Alone(m.p.active.spans, c)
    ensures CallInv(Step(env, m, e), c)
  {
    hide Inv, IsClaimMap, IsReadyList, Alone, CallInv, WellFormed, WriteMachine, AckStep, TakeStep, RestoreStep,
      BeginStep;
    if e.Begin? {
      BeginKeepsCall(env, m, e, c);
    } else if e.Write? {
      WriteKeepsCall(env, m, e.weather, c);
    } else if e.Ack? {
      AckKeepsCall(env, m, c);
    } else {
      QuietKeepsCall(env, m, e, c);
    }
  }

  lemma {:induction false} CallRun(env: Env, m: Machine, events: seq<Event>, c: Call)
    requires Inv(env, m) && AloneRun(env, m, events, c) && CallInv(m, c) && WellFormed(c)
    ensures Runs(env, m, events)
    ensures Inv(env, End(env, m, events)) && CallInv(End(env, m, events), c)
    decreases events
  {
    hide Inv, Step, Enabled, CallInv, Alone, WellFormed;
    if events != [] {
      StepKeeps(env, m, events[0]);
      CallStep(env, m, events[0], c);
      CallRun(env, Step(env, m, events[0]), events[1..], c);
    }
  }

  // ---------------------------------------------------------------- the guarantee

  /** The call that waits under the key in an idle state, with the parents it is paired with. */
  ghost function WaitingCall(m: Machine, key: Key, parents: set<Key>): Call {
    Call(key, parents, if key in m.p.active.spans then Some(m.p.active.spans[key]) else None,
         set s | s in m.placed && m.placed[s].Active? && s.key in {key} + parents, |m.accepted|)
  }

  /** A record of the call: under its key, with its span's ids, kind and parent, holding all of its
      signals, saying what all the signals folded into it say together, each of them under the
      call's key or the parent key the record names. */
  ghost predicate RecordsTheCall(item: Item, c: Call) {
    && item.a.key == c.key && JoinKey(item.a.ex.traceID, item.a.ex.spanID) == c.key
    && (c.span.Some? ==> KeepsIdentity(c.span.value, item.a.ex))
    && c.signals <= item.from && ProjectionOf(item.a.ex) == Summary(item.from)
    && (forall s :: s in item.from ==> s.key == c.key || ClaimOf(item.a.ex) == Some(s.key))
  }

  lemma TheirsRecordsTheCall(item: Item, placed: History, c: Call)
    requires ItemInv(item) && FromInv(placed, item) && Theirs(item, c)
    ensures RecordsTheCall(item, c)
  {
    hide Summary, ProjectionOf, JoinKey, Coherent, KeepsIdentity, ClaimOf;
  }

  lemma OpenAtStart(env: Env, m: Machine, key: Key, parents: set<Key>)
    requires Inv(env, m) && m.phase.Idle? && {key} + parents <= m.p.active.firstSeen.Keys
    ensures CallInv(m, WaitingCall(m, key, parents))
  {
    hide KeysInv, HistoryInv, RecordsInv, StatsInv, FileInv, SeenInv, Genuine, Holds, Touches;
    forall k | k in {key} + parents ensures k !in m.p.emitted { StructureAt(m.p, m.placed, k); }
    if key in m.p.active.spans { WaitingSpanHolds(env, m, key); }
  }

  lemma WaitingSpanHolds(env: Env, m: Machine, key: Key)
    requires Inv(env, m) && key in m.p.active.spans
    ensures Holds(m.p.active.spans, key, m.p.active.spans[key])
  {
    hide KeysInv, RecordsInv, StatsInv, FileInv, SeenInv, PhaseInv, Genuine, Holds;
    BufferedSpanHolds(m.p, m.placed, key);
  }

  /** What a run owes a call that waited: until it is finalized all of its signals are buffered and
      nothing acknowledged took one of its keys; once it is, exactly one record took any of them,
      that record is the call's, and all of its keys are final. */
  ghost predicate Served(n: Machine, c: Call) {
    if c.key in n.p.emitted then
      && Keys(c) <= n.p.emitted
      && exists i :: c.base <= i < |n.accepted| && RecordsTheCall(n.accepted[i], c) &&
           forall j :: c.base <= j < |n.accepted| && j != i ==> !Touches(n.accepted[j], c)
    else
      && Keys(c) !! n.p.emitted && StillActive(n.placed, c.signals)
      && forall i :: c.base <= i < Done(n) && i < |n.accepted| ==> !Touches(n.accepted[i], c)
  }

  lemma CallIsServed(env: Env, n: Machine, c: Call)
    requires Inv(env, n) && CallInv(n, c)
    ensures Served(n, c)
  {
    hide KeysInv, HistoryInv, StatsInv, FileInv, SeenInv, PhaseInv, ItemInv, FromInv, Theirs, Touches, Buffered;
    if c.key in n.p.emitted {
      var i :| OnlyRecord(n.accepted, i, c);
      TheirsRecordsTheCall(n.accepted[i], n.placed, c);
    }
  }

  /** One tools/call is one record. Whatever waits under a key in an idle processor, a span, a log
      or both, with any client span, any parent and whoever shares it: after any run in which no
      client span names the key when an assembly starts while it waits, with any ingest, any number
      of assemblies, failed writes and retries, the call is served. In particular a client span is
      recorded as the client span it is. */
  lemma OneCallOneRecord(env: Env, m: Machine, events: seq<Event>, call: Key)
    requires Reachable(env, m) && m.phase.Idle? && call in m.p.active.firstSeen
    requires AloneRun(env, m, events, WaitingCall(m, call, {}))
    ensures Runs(env, m, events) && Served(End(env, m, events), WaitingCall(m, call, {}))
  {
    hide Inv, Step, Enabled, AloneRun, CallInv, Served, Reachable;
    ReachableStatesAreSound(env, m);
    OpenAtStart(env, m, call, {});
    CallRun(env, m, events, WaitingCall(m, call, {}));
    CallIsServed(env, End(env, m, events), WaitingCall(m, call, {}));
  }

  /** And when something also waits under the parent key its client span names, and no other span
      names that parent, the two keys are served together and the parent's becomes no record. */
  lemma PairIsOneRecord(env: Env, m: Machine, events: seq<Event>, call: Key, parent: Key)
    requires Reachable(env, m) && m.phase.Idle? && call != parent
    requires Claims(m.p.active.spans, call, parent) && parent in m.p.active.firstSeen
    requires AloneRun(env, m, events, WaitingCall(m, call, {parent}))
    ensures Runs(env, m, events) && Served(End(env, m, events), WaitingCall(m, call, {parent}))
    ensures var n := End(env, m, events);
      forall i :: |m.accepted| <= i < |n.accepted| ==> n.accepted[i].a.key != parent
  {
    hide Inv, Step, Enabled, AloneRun, CallInv, Served, Reachable;
    var c := WaitingCall(m, call, {parent});
    ReachableStatesAreSound(env, m);
    PairIsBuffered(env, m, call, parent);
    OpenAtStart(env, m, call, {parent});
    CallRun(env, m, events, c);
    CallIsServed(env, End(env, m, events), c);
    ParentIsNoRecord(env, End(env, m, events), c, parent);
  }

  lemma PairIsBuffered(env: Env, m: Machine, call: Key, parent: Key)
    requires Inv(env, m) && Claims(m.p.active.spans, call, parent)
    ensures call in m.p.active.firstSeen
  {
    hide KeysInv, HistoryInv, RecordsInv, StatsInv, FileInv, SeenInv, PhaseInv, Claims;
    ClaimantIsBuffered(m.p, m.placed, call, parent);
  }

  lemma ParentIsNoRecord(env: Env, n: Machine, c: Call, parent: Key)
    requires Inv(env, n) && CallInv(n, c) && parent in c.parents && parent != c.key
    ensures forall i :: c.base <= i < |n.accepted| ==> n.accepted[i].a.key != parent
  {
    hide KeysInv, HistoryInv, StatsInv, FileInv, SeenInv, BatchInv, ItemInv, FromInv, Buffered, StillActive;
    forall i | c.base <= i < |n.accepted| ensures n.accepted[i].a.key != parent {
      ItemFirstKey(n.accepted[i]);
      assert n.accepted[i].a.key == parent ==> Touches(n.accepted[i], c);
      if c.key in n.p.emitted { var k :| OnlyRecord(n.accepted, k, c); }
    }
  }

  /** Without a parent in play: a finalized key that no record's client span names was written as
      exactly one record, its own, which holds every signal acknowledged under the key. */
  lemma UnclaimedKeyIsOneRecord(env: Env, m: Machine, key: Key)
    requires Reachable(env, m) && key in m.p.emitted
    requires forall i :: 0 <= i < |m.accepted| ==> ClaimOf(m.accepted[i].a.ex) != Some(key)
    ensures exists i :: 0 <= i < |m.accepted| && IsTheOnlyRecord(m, i, key)
  {
    hide KeysInv, HistoryInv, PhaseInv, StatsInv, FileInv, SeenInv, Reachable, ClaimOf, Represents, JoinKey,
      IsTheOnlyRecord;
    ReachableStatesAreSound(env, m);
    var i :| 0 <= i < Done(m) && key in m.accepted[i].a.consumedKeys;
    forall j | 0 <= j < |m.accepted| && key in m.accepted[j].a.consumedKeys
      ensures m.accepted[j].a.key == key && j == i
    {
      assert ItemInv(m.accepted[j]) && ItemInv(m.accepted[i]);
    }
    forall s | s in m.placed && s.key == key && m.placed[s].Acked? ensures s in m.accepted[i].from {
      assert FromInv(m.placed, m.accepted[m.placed[s].record]);
    }
    TheOnlyRecord(m, i, key);
  }

  ghost predicate IsTheOnlyRecord(m: Machine, i: int, key: Key)
    requires 0 <= i < |m.accepted|
  {
    && m.accepted[i].a.key == key
    && (forall j :: 0 <= j < |m.accepted| && j != i ==> key !in m.accepted[j].a.consumedKeys)
    && (forall s :: s in m.placed && s.key == key && m.placed[s].Acked? ==> s in m.accepted[i].from)
  }

  lemma TheOnlyRecord(m: Machine, i: int, key: Key)
    requires 0 <= i < |m.accepted| && m.accepted[i].a.key == key
    requires forall j :: 0 <= j < |m.accepted| && key in m.accepted[j].a.consumedKeys ==> j == i
    requires forall s :: s in m.placed && s.key == key && m.placed[s].Acked? ==> s in m.accepted[i].from
    ensures IsTheOnlyRecord(m, i, key)
  {}

  /** And any assembly of everything that meets no failure does write it: a buffered key no client
      span names is finalized, together with the parent it names if something waits there. */
  lemma FlushWritesTheCall(env: Env, m: Machine, childOf: map<Key, Key>, ready: seq<Key>, rest: seq<Event>, t: Machine,
                           call: Key)
    requires Completes(env, m, None, childOf, ready, rest, t)
    requires call in m.p.active.firstSeen && forall other :: !Claims(m.p.active.spans, other, call)
    ensures call in t.p.emitted
    ensures forall parent :: Claims(m.p.active.spans, call, parent) && parent in m.p.active.firstSeen ==>
      parent in t.p.emitted
  {
    hide KeysInv, HistoryInv, RecordsInv, StatsInv, FileInv, SeenInv, PhaseInv, Step, BeginStep, Runs, Claims,
      IsReadyList, Reachable;
    ReachableStatesAreSound(env, m);
    assert call !in childOf by { UnclaimedIsNotSkipped(m.p.active.spans, childOf, call); }
    AssemblyFinalizesExactly(env, m, None, childOf, ready, rest, t, call);
    forall parent | Claims(m.p.active.spans, call, parent) && parent in m.p.active.firstSeen
      ensures parent in t.p.emitted
    {
      AssemblyFinalizesExactly(env, m, None, childOf, ready, rest, t, parent);
    }
  }
}
