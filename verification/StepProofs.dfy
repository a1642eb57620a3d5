/** Every step keeps the whole invariant, so every reachable state has it. */
module StepProofs {
  import opened Text
  import opened Observation
  import opened Normalize
  import opened Telemetry
  import opened NormalizeLaws
  import opened MergeLaws
  import opened Processor
  import opened Machine
  import opened BufferProofs
  import opened SnapshotProofs
  import Sink

  // ---------------------------------------------------------------- frames over the history

  /** What later history may do to a signal already in a record. */
  ghost predicate Settles(before: History, after: History) {
    forall s :: s in before && (before[s].Active? || before[s].Acked?) ==>
      s in after && (after[s].Active? || after[s].Acked?)
  }

  lemma FromSettles(before: History, after: History, item: Item)
    requires Settles(before, after) && FromInv(before, item)
    ensures FromInv(after, item)
  {}

  /** Records survive any step that acknowledges nothing. */
  lemma RecordsFrame(emitted: set<Key>, before: History, after: History, accepted: seq<Item>, done: int)
    requires RecordsInv(emitted, before, accepted, done) && Settles(before, after)
    requires forall s :: s in after && after[s].Acked? ==> s in before && before[s] == after[s]
    ensures RecordsInv(emitted, after, accepted, done)
  {
    hide ItemInv, FromInv;
    forall i | 0 <= i < |accepted| ensures FromInv(after, accepted[i]) { FromSettles(before, after, accepted[i]); }
  }

  // ---------------------------------------------------------------- ingest

  lemma StampKeeps(p: Fields, raw: RawSignal, ex: Execution)
    requires WellNormalized(raw, ex)
    ensures WellNormalized(raw, Stamp(p, ex))
  {
    hide Coherent, VerdictOf, Tokens, ErrorsMarked, BlankButSet, StatusFits, Offers, Gives, InstantFits;
    assert forall field :: FieldOf(Stamp(p, ex), field) == FieldOf(ex, field);
  }

  lemma ArrivalIsGenuine(env: Env, m: Machine, raw: RawSignal, ex: Execution, now: Instant)
    requires NormalizeSignal(env, raw) == Some(ex) && JoinKey(ex.traceID, ex.spanID) != ""
    ensures Genuine(Arrival(m, raw, ex, now))
  {
    hide NormalizeSignal, JoinKey, WellNormalized;
    NormalizedIsWellNormalized(env, raw, ex);
    StampKeeps(m.p, raw, ex);
  }

  lemma BatchTakes(p: Fields, placed: History, batch: seq<Item>, next: nat, s: Signal)
    requires BatchInv(p.inFlight, p.emitted, placed, batch, next) && s !in placed
    ensures BatchInv(p.inFlight, p.emitted, placed[s := PlaceFor(p, s.key)], batch, next)
  {
    hide ItemInv, OwnKeyOnly;
    var after := placed[s := PlaceFor(p, s.key)];
    forall j | 0 <= j < |batch| ensures FromInv(after, batch[j]) { FromSettles(placed, after, batch[j]); }
  }

  lemma BufferSections(p: Fields, s: Signal, ex: Execution)
    ensures var q := BufferAt(p, s.key, ex, KindOf(s.raw), s.time);
      && q.inFlight == p.inFlight && q.emitted == p.emitted
      && q.stats == (if PlaceFor(p, s.key).Late?
                     then p.stats.(lateSignalsIgnored := p.stats.lateSignalsIgnored + 1) else p.stats)
  {
    hide Admit, Stamp;
  }

  /** A signal that is not a tool call, or cannot be joined, only moves a counter. */
  lemma DroppedKeeps(env: Env, m: Machine, n: Machine, raw: RawSignal)
    requires Inv(env, m) && raw in m.transit
    requires n == m.(transit := m.transit - multiset{raw}, p := m.p.(stats := n.p.stats))
    requires n.p.stats ==
        m.p.stats.(toolCallsIgnored := m.p.stats.toolCallsIgnored + 1) ||
      n.p.stats == m.p.stats.(unjoinableNoSpan := m.p.stats.unjoinableNoSpan + 1)
    ensures Inv(env, n)
  {
    hide KeyInv, KeysInv, StatsInv, FileInv, RecordsInv, BatchInv, HistoryInv;
    assert |m.transit - multiset{raw}| == |m.transit| - 1;
    StatsFrame(m.p.stats, n.p.stats, m.accepted[..Done(m)]);
    FieldsFrame(m.p, n.p, m.placed);
    FileFrame(env, m, n);
  }

  lemma ArrivalIsNew(late: nat, placed: History, s: Signal)
    requires HistoryInv(late, placed) && s.id == |placed|
    ensures s !in placed && forall r :: r in placed ==> r.id < |placed|
  {
    hide Genuine;
  }

  lemma BufferedHistory(env: Env, m: Machine, raw: RawSignal, ex: Execution, s: Signal)
    requires KeysInv(m.p, m.placed) && HistoryInv(m.p.stats.lateSignalsIgnored, m.placed)
    requires NormalizeSignal(env, raw) == Some(ex)
    requires JoinKey(ex.traceID, ex.spanID) != "" && s == Arrival(m, raw, ex, s.time)
    ensures var q, after := BufferAt(m.p, s.key, ex, KindOf(raw), s.time), m.placed[s := PlaceFor(m.p, s.key)];
      KeysInv(q, after) && HistoryInv(q.stats.lateSignalsIgnored, after)
  {
    hide KeysInv, HistoryInv, NormalizeSignal, JoinKey, Genuine, BufferAt, PlaceFor, Stamp;
    ArrivalIsNew(m.p.stats.lateSignalsIgnored, m.placed, s);
    ArrivalIsGenuine(env, m, raw, ex, s.time);
    BufferSections(m.p, s, ex);
    BufferKeepsKeys(m.p, m.placed, s, ex);
    LateTakes(m.p.stats.lateSignalsIgnored, m.placed, s, PlaceFor(m.p, s.key));
  }

  lemma BufferedKeeps(env: Env, m: Machine, n: Machine, raw: RawSignal, ex: Execution, s: Signal)
    requires Inv(env, m) && raw in m.transit && NormalizeSignal(env, raw) == Some(ex)
    requires JoinKey(ex.traceID, ex.spanID) != "" && s == Arrival(m, raw, ex, s.time)
    requires n == m.(transit := m.transit - multiset{raw}, p := BufferAt(m.p, s.key, ex, KindOf(raw), s.time),
                     placed := m.placed[s := PlaceFor(m.p, s.key)])
    ensures Inv(env, n)
  {
    hide KeysInv, NormalizeSignal, JoinKey, BufferAt, Stamp, StatsInv, FileInv, RecordsInv, BatchInv, HistoryInv,
      PlaceFor;
    assert |m.transit - multiset{raw}| == |m.transit| - 1;
    ArrivalIsNew(m.p.stats.lateSignalsIgnored, m.placed, s);
    BufferedHistory(env, m, raw, ex, s);
    BufferSections(m.p, s, ex);
    NotPlacedAcked(m.p, s.key);
    TakeSettles(m.placed, s, PlaceFor(m.p, s.key));
    RecordsFrame(m.p.emitted, m.placed, n.placed, m.accepted, Done(m));
    if !m.phase.Idle? { BatchTakes(m.p, m.placed, m.phase.batch, m.phase.next, s); }
    StatsFrame(m.p.stats, n.p.stats, m.accepted[..Done(m)]);
    FileFrame(env, m, n);
  }

  lemma NotPlacedAcked(p: Fields, key: Key)
    ensures !PlaceFor(p, key).Acked?
  {}

  lemma TakeSettles(placed: History, s: Signal, place: Place)
    requires s !in placed && !place.Acked?
    ensures Settles(placed, placed[s := place]) && |placed[s := place]| == |placed| + 1
    ensures forall r :: r in placed[s := place] && placed[s := place][r].Acked? ==>
      r in placed && placed[r] == placed[s := place][r]
  {
    assert placed[s := place].Keys == placed.Keys + {s};
  }

  lemma TakeKeeps(env: Env, m: Machine, raw: RawSignal, now: Instant)
    requires Inv(env, m) && raw in m.transit
    ensures Inv(env, TakeStep(env, m, raw, now))
  {
    hide Inv, NormalizeSignal, JoinKey, BufferAt, PlaceFor;
    var n := TakeStep(env, m, raw, now);
    match NormalizeSignal(env, raw)
    case None => DroppedKeeps(env, m, n, raw);
    case Some(ex) =>
      if JoinKey(ex.traceID, ex.spanID) == "" {
        DroppedKeeps(env, m, n, raw);
      } else {
        BufferedKeeps(env, m, n, raw, ex, Arrival(m, raw, ex, now));
      }
  }

  lemma StatsFrame(s: Stats, t: Stats, records: seq<Item>)
    requires StatsInv(s, records)
    requires t.emitted == s.emitted && t.emittedMerged == s.emittedMerged && t.emittedLogOnly == s.emittedLogOnly
    requires t.emittedSpanOnly == s.emittedSpanOnly && t.correlated == s.correlated
    requires t.unattributed == s.unattributed && t.ambiguous == s.ambiguous
    requires t.parentsSuppressed == s.parentsSuppressed
    ensures StatsInv(t, records)
  {}

  lemma FieldsFrame(p: Fields, q: Fields, placed: History)
    requires KeysInv(p, placed) && q == p.(stats := q.stats)
    ensures KeysInv(q, placed)
  {
    hide Waiting, GenerationInv, FirstSeenInv;
    forall key ensures KeyInv(q, placed, key) {
      assert KeyInv(p, placed, key);
    }
  }

  lemma FileFrame(env: Env, m: Machine, n: Machine)
    requires FileInv(env, m) && n.sink == m.sink && n.base == m.base && n.torn == m.torn && n.tornBy == m.tornBy
    requires n.accepted == m.accepted && (n.phase.Persisted? ==> m.phase.Persisted?)
    ensures FileInv(env, n)
  {}

  // ---------------------------------------------------------------- the snapshot

  lemma BufferedKey(p: Fields, placed: History, key: Key)
    requires KeysInv(p, placed) && key in p.active.firstSeen && forall s :: s in placed ==> Genuine(s)
    ensures key != "" && key !in p.emitted && (key in p.active.spans || key in p.active.logs)
  {
    hide Genuine, GenerationInv, IsFirst, Waiting;
    assert KeyInv(p, placed, key);
    hide KeyInv, KeysInv;
    assert GenerationInv(p.active, placed, key, Active);
    GenerationKeys(p.active, placed, key);
    var s :| s in placed && s.key == key;
    GenuineKey(s);
  }

  lemma GenerationKeys(g: Generation, placed: History, key: Key)
    requires GenerationInv(g, placed, key, Active)
    ensures key in g.firstSeen <==> key in g.spans || key in g.logs
  {
    hide SlotInv;
  }

  lemma ConsumedIsBuffered(p: Fields, placed: History, a: Assembled)
    requires KeysInv(p, placed) && AssembleKey(p, a.key) == Some(a)
    ensures forall key :: key in a.consumedKeys ==> key in p.active.firstSeen
  {
    hide AssembleKey, GenerationInv, KeyInv;
    AssembledKey(p, a.key);
    forall key | key in a.consumedKeys ensures key in p.active.firstSeen {
      assert KeyInv(p, placed, key);
      KeyGeneration(p, placed, key);
      GenerationKeys(p.active, placed, key);
    }
  }

  lemma KeyGeneration(p: Fields, placed: History, key: Key)
    requires KeyInv(p, placed, key)
    ensures GenerationInv(p.active, placed, key, Active) && NestingInv(p, key)
  {
    hide GenerationInv, FirstSeenInv, Waiting;
  }

  lemma ReserveKeepsKeys(p: Fields, placed: History, more: set<Key>)
    requires KeysInv(p, placed) && more <= p.active.firstSeen.Keys
    ensures KeysInv(p.(inFlight := p.inFlight + more), placed)
  {
    hide Waiting, GenerationInv, FirstSeenInv;
    var q := p.(inFlight := p.inFlight + more);
    forall key ensures KeyInv(q, placed, key) {
      assert KeyInv(p, placed, key);
    }
  }

  /** Two records of one batch overlap only when the shared key names itself as its parent. */
  lemma OverlapIsSelfParent(p: Fields, childOf: map<Key, Key>, a: Assembled, b: Assembled)
    requires IsClaimMap(p.active.spans, childOf)
    requires AssembleKey(p, a.key) == Some(a) && AssembleKey(p, b.key) == Some(b)
    requires a.key != b.key && a.key in b.consumedKeys && !Skipped(childOf, a.key)
    ensures forall key :: key in a.consumedKeys ==> key == a.key
  {
    hide AssembleKey, ClaimOf;
    AssembledKey(p, a.key);
    AssembledKey(p, b.key);
    assert Claims(p.active.spans, b.key, a.key);
    assert Claims(p.active.spans, childOf[a.key], a.key);
  }

  lemma BeginReserves(p: Fields, placed: History, childOf: map<Key, Key>, ready: seq<Key>, batch: seq<Assembled>)
    requires KeysInv(p, placed) && Ascending(ready) && batch == BatchOf(p, childOf, ready)
    ensures forall key :: key in KeysOfBatch(batch) ==> key in p.active.firstSeen
  {
    hide KeysInv, BatchOf, AssembleKey;
    BatchMembers(p, childOf, ready);
    BatchKeys(batch);
    forall key | key in KeysOfBatch(batch) ensures key in p.active.firstSeen {
      var j :| 0 <= j < |batch| && key in batch[j].consumedKeys;
      ConsumedIsBuffered(p, placed, batch[j]);
    }
  }

  lemma BeginItems(p: Fields, placed: History, childOf: map<Key, Key>, ready: seq<Key>, batch: seq<Assembled>)
    requires KeysInv(p, placed) && Ascending(ready) && batch == BatchOf(p, childOf, ready)
    requires forall key :: key in ready ==> key != ""
    ensures forall j :: 0 <= j < |batch| ==>
      ItemInv(ItemsOf(placed, batch)[j]) && FromInv(placed, ItemsOf(placed, batch)[j])
  {
    hide KeysInv, BatchOf, AssembleKey, ItemInv, FromInv, LiveUnder;
    BatchMembers(p, childOf, ready);
    forall j | 0 <= j < |batch|
      ensures ItemInv(ItemsOf(placed, batch)[j]) && FromInv(placed, ItemsOf(placed, batch)[j])
    {
      SnapshotItem(p, placed, batch[j].key);
    }
  }

  lemma ItemsOverlap(p: Fields, placed: History, childOf: map<Key, Key>, ready: seq<Key>, batch: seq<Assembled>)
    requires Ascending(ready) && batch == BatchOf(p, childOf, ready) && IsClaimMap(p.active.spans, childOf)
    ensures var items := ItemsOf(placed, batch);
      && (forall i, j :: 0 <= i < j < |items| ==> items[i].a.key != items[j].a.key)
      && (forall i, j :: 0 <= i < |items| && 0 <= j < |items| && i != j && items[i].a.key in items[j].a.consumedKeys ==>
            OwnKeyOnly(items[i]))
  {
    hide BatchOf, AssembleKey, LiveUnder, IsClaimMap, Skipped;
    BatchMembers(p, childOf, ready);
    var items := ItemsOf(placed, batch);
    forall i, j | 0 <= i < j < |items| ensures items[i].a.key != items[j].a.key {
      LessIsTotal(batch[i].key, batch[j].key);
    }
    hide Less;
    forall i, j | 0 <= i < |items| && 0 <= j < |items| && i != j && items[i].a.key in items[j].a.consumedKeys
      ensures OwnKeyOnly(items[i])
    {
      assert items[i].a.key != items[j].a.key;
      OverlapIsSelfParent(p, childOf, batch[i], batch[j]);
    }
  }

  lemma BeginBatch(p: Fields, placed: History, childOf: map<Key, Key>, ready: seq<Key>, batch: seq<Assembled>)
    requires KeysInv(p, placed) && Ascending(ready) && batch == BatchOf(p, childOf, ready)
    requires IsClaimMap(p.active.spans, childOf) && forall key :: key in ready ==> key != ""
    requires p.inFlight == {} && forall key :: key in p.active.firstSeen ==> key !in p.emitted
    ensures BatchInv(KeySet(KeysOfBatch(batch)), p.emitted, placed, ItemsOf(placed, batch), 0)
  {
    hide KeysInv, BatchOf, AssembleKey, ItemInv, FromInv, OwnKeyOnly, IsClaimMap;
    BeginReserves(p, placed, childOf, ready, batch);
    BeginItems(p, placed, childOf, ready, batch);
    ItemsOverlap(p, placed, childOf, ready, batch);
    BatchKeys(batch);
    var items := ItemsOf(placed, batch);
    forall key | key in KeySet(KeysOfBatch(batch)) ensures InBatch(items, 0, key) {
      var j :| 0 <= j < |batch| && key in batch[j].consumedKeys;
      assert key in items[j].a.consumedKeys;
    }
    forall j, key | 0 <= j < |items| && key in items[j].a.consumedKeys
      ensures key in KeySet(KeysOfBatch(batch)) && key !in p.emitted
    {
      assert key in batch[j].consumedKeys;
    }
    forall j | 0 <= j < |items| ensures items[j].a.key !in p.emitted {
      ItemFirstKey(items[j]);
    }
  }

  lemma ItemFirstKey(item: Item)
    requires ItemInv(item)
    ensures item.a.key in item.a.consumedKeys
  {
    hide Represents, JoinKey, ClaimOf;
    assert item.a.consumedKeys[0] == item.a.key;
  }

  lemma BeginKeeps(env: Env, m: Machine, cutoff: Option<Instant>, childOf: map<Key, Key>, ready: seq<Key>)
    requires Inv(env, m) && Enabled(m, Begin(cutoff, childOf, ready))
    ensures Inv(env, BeginStep(m, childOf, ready))
  {
    hide KeyInv, KeysInv, BatchOf, RecordsInv, StatsInv, BatchInv, IsClaimMap, ItemsOf, Ascending, Genuine;
    var batch, n := BatchOf(m.p, childOf, ready), BeginStep(m, childOf, ready);
    forall key | key in m.p.active.firstSeen ensures key != "" && key !in m.p.emitted {
      BufferedKey(m.p, m.placed, key);
    }
    BeginReserves(m.p, m.placed, childOf, ready, batch);
    ReserveKeepsKeys(m.p, m.placed, KeySet(KeysOfBatch(batch)));
    BeginBatch(m.p, m.placed, childOf, ready, batch);
    assert n.p.inFlight == KeySet(KeysOfBatch(batch));
    FileFrame(env, m, n);
  }

  // ---------------------------------------------------------------- skip, finish

  lemma SkipKeeps(env: Env, m: Machine)
    requires Inv(env, m) && Enabled(m, Skip)
    ensures Inv(env, Step(env, m, Skip))
  {
    hide KeyInv, ItemInv, FromInv, RecordsInv, StatsInv, HistoryInv;
    var batch, next, n := m.phase.batch, m.phase.next, Step(env, m, Skip);
    forall key | key in m.p.inFlight ensures InBatch(batch, next + 1, key) {
      var j :| next <= j < |batch| && key in batch[j].a.consumedKeys;
      FlightIsLive(m.p, m.placed, key);
      assert j != next;
    }
    FileFrame(env, m, n);
  }

  lemma FlightIsLive(p: Fields, placed: History, key: Key)
    requires KeysInv(p, placed) && key in p.inFlight
    ensures key !in p.emitted && key in p.active.firstSeen
  {
    hide GenerationInv, FirstSeenInv, Waiting;
    assert KeyInv(p, placed, key);
  }

  lemma FinishKeeps(env: Env, m: Machine)
    requires Inv(env, m) && Enabled(m, Finish)
    ensures Inv(env, m.(phase := Idle))
  {
    hide KeyInv, KeysInv, ItemInv, FromInv, RecordsInv, StatsInv, HistoryInv;
    assert forall key :: key !in m.p.inFlight;
    FileFrame(env, m, m.(phase := Idle));
  }

  // ---------------------------------------------------------------- write

  lemma RecordsAccept(emitted: set<Key>, placed: History, accepted: seq<Item>, item: Item)
    requires RecordsInv(emitted, placed, accepted, |accepted|)
    requires ItemInv(item) && FromInv(placed, item) && item.a.key !in emitted
    ensures RecordsInv(emitted, placed, accepted + [item], |accepted|)
  {
    hide ItemInv, FromInv;
    var more := accepted + [item];
    forall i | 0 <= i < |more| ensures ItemInv(more[i]) && FromInv(placed, more[i]) {
      assert more[i] == if i < |accepted| then accepted[i] else item;
    }
    forall i, j | 0 <= i < j < |more| ensures more[i].a.key != more[j].a.key {
      ItemFirstKey(accepted[i]);
      assert accepted[i].a.key in emitted;
      assert more[i] == accepted[i] && more[j] == if j < |accepted| then accepted[j] else item;
    }
    forall key | key in emitted ensures exists i :: 0 <= i < |accepted| && key in more[i].a.consumedKeys {
      var i :| 0 <= i < |accepted| && key in accepted[i].a.consumedKeys;
      assert more[i] == accepted[i];
    }
    forall i | 0 <= i < |accepted| ensures more[i] == accepted[i] {}
  }

  lemma FileAccepts(env: Env, m: Machine, weather: Sink.Weather)
    requires FileInv(env, m) && m.phase.Writing? && m.phase.next < |m.phase.batch|
    ensures FileInv(env, WriteMachine(env, m, weather))
  {
    var item := m.phase.batch[m.phase.next];
    var o, n := Sink.WriteStep(env, m.sink, item.a.ex, weather), WriteMachine(env, m, weather);
    Sink.WriteIsTransactional(env, m.sink, item.a.ex, weather);
    hide Sink.WriteStep, Sink.Lines, Sink.Line;
    if o.ok {
      AcceptedLines(env, m, item);
    } else if o.state != m.sink {
      assert n.sink.file == m.sink.file + n.torn;
      assert m.torn == [] && m.sink.file == m.base + Sink.Lines(env, Written(m.accepted));
    }
  }

  lemma AcceptedLines(env: Env, m: Machine, item: Item)
    requires FileInv(env, m) && !m.sink.poisoned && env.encode(item.a.ex).Some?
    ensures Sink.Encodable(env, Written(m.accepted + [item]))
    ensures m.sink.file + Sink.Line(env, item.a.ex) == m.base + Sink.Lines(env, Written(m.accepted + [item]))
  {
    hide Sink.Lines, Sink.Line;
    Sink.LinesSnoc(env, Written(m.accepted), item.a.ex);
    assert Written(m.accepted + [item]) == Written(m.accepted) + [item.a.ex];
  }

  lemma WriteKeeps(env: Env, m: Machine, weather: Sink.Weather)
    requires Inv(env, m) && Enabled(m, Write(weather))
    ensures Inv(env, WriteMachine(env, m, weather))
  {
    hide KeyInv, KeysInv, ItemInv, FromInv, StatsInv, HistoryInv, FileInv, Sink.WriteStep, RecordsInv, OwnKeyOnly;
    var item := m.phase.batch[m.phase.next];
    FileAccepts(env, m, weather);
    RecordsAccept(m.p.emitted, m.placed, m.accepted, item);
    assert (m.accepted + [item])[..|m.accepted|] == m.accepted;
    assert m.accepted[..|m.accepted|] == m.accepted;
  }

  lemma CountRefusalKeeps(env: Env, m: Machine)
    requires Inv(env, m) && m.phase.Refused?
    ensures Inv(env, m.(p := CountFailure(m.p), phase := Counted(m.phase.batch, m.phase.next)))
  {
    hide KeyInv, KeysInv, RecordsInv, StatsInv, HistoryInv, BatchInv;
    var n := m.(p := CountFailure(m.p), phase := Counted(m.phase.batch, m.phase.next));
    FieldsFrame(m.p, n.p, m.placed);
    StatsFrame(m.p.stats, n.p.stats, m.accepted[..Done(m)]);
    FileFrame(env, m, n);
  }

  // ---------------------------------------------------------------- acknowledge

  lemma AckSettles(placed: History, keys: set<Key>, record: nat)
    ensures Settles(placed, AckPlaces(placed, keys, record))
  {}

  lemma BatchAcks(inFlight: set<Key>, emitted: set<Key>, placed: History, batch: seq<Item>, next: nat, record: nat)
    requires BatchInv(inFlight, emitted, placed, batch, next) && next < |batch|
    ensures var keys := KeySet(batch[next].a.consumedKeys);
      BatchInv(inFlight - keys, emitted + keys, AckPlaces(placed, keys, record), batch, next + 1)
  {
    hide ItemInv, FromInv, OwnKeyOnly;
    var keys := KeySet(batch[next].a.consumedKeys);
    var after := AckPlaces(placed, keys, record);
    AckSettles(placed, keys, record);
    forall j | 0 <= j < |batch| ensures FromInv(after, batch[j]) { FromSettles(placed, after, batch[j]); }
    forall key | key in inFlight - keys ensures InBatch(batch, next + 1, key) {
      var j :| next <= j < |batch| && key in batch[j].a.consumedKeys;
      assert j != next;
    }
    forall j | next + 1 <= j < |batch| && batch[j].a.key in emitted + keys ensures OwnKeyOnly(batch[j]) {
      if batch[j].a.key in keys { assert batch[j].a.key in batch[next].a.consumedKeys; }
    }
  }

  lemma RecordsAck(emitted: set<Key>, placed: History, accepted: seq<Item>)
    requires accepted != [] && RecordsInv(emitted, placed, accepted, |accepted| - 1)
    requires var item := accepted[|accepted| - 1];
      forall s :: s in placed && placed[s].Active? && s.key in item.a.consumedKeys ==> s in item.from
    ensures var keys := KeySet(accepted[|accepted| - 1].a.consumedKeys);
      RecordsInv(emitted + keys, AckPlaces(placed, keys, |accepted| - 1), accepted, |accepted|)
  {
    hide ItemInv, FromInv;
    var n := |accepted| - 1;
    var keys := KeySet(accepted[n].a.consumedKeys);
    var after := AckPlaces(placed, keys, n);
    AckSettles(placed, keys, n);
    forall i | 0 <= i < |accepted| ensures FromInv(after, accepted[i]) { FromSettles(placed, after, accepted[i]); }
    forall key | key in emitted + keys ensures exists i :: 0 <= i < |accepted| && key in accepted[i].a.consumedKeys {
      if key in keys {
        assert key in accepted[n].a.consumedKeys;
      } else {
        var i :| 0 <= i < n && key in accepted[i].a.consumedKeys;
        assert 0 <= i < |accepted|;
      }
    }
  }

  lemma TallySnoc(records: seq<Item>, item: Item)
    ensures var t, ex, u := TallyOf(records), item.a.ex, TallyOf(records + [item]);
      && u.merged == t.merged + (if ShapeOf(ex).FromBoth? then 1 else 0)
      && u.logOnly == t.logOnly + (if ShapeOf(ex).FromLogs? then 1 else 0)
      && u.spanOnly == t.spanOnly + (if ShapeOf(ex).FromTraces? then 1 else 0)
      && u.correlated == t.correlated + (if ex.correlation.Correlated? then 1 else 0)
      && u.unattributed == t.unattributed + (if ex.correlation.Unattributed? then 1 else 0)
      && u.ambiguous == t.ambiguous + (if ex.correlation.Ambiguous? then 1 else 0)
  {
    hide ShapeOf;
    assert (records + [item])[..|records|] == records;
  }

  lemma StatsCount(s: Stats, records: seq<Item>, item: Item)
    requires StatsInv(s, records) && ItemInv(item)
    ensures StatsInv(CountRecord(s, item.a), records + [item])
  {
    hide ItemInv, ShapeOf, TallyOf;
    TallySnoc(records, item);
    assert (records + [item])[..|records|] == records;
    ItemShapes(item);
  }

  lemma ItemShapes(item: Item)
    requires ItemInv(item)
    ensures var a, shape := item.a, ShapeOf(item.a.ex);
      if a.both || |a.ex.seenFrom| > 1 then shape.FromBoth?
      else if a.loggy then shape.FromLogs?
      else shape.FromTraces?
  {
    hide Represents, JoinKey, ClaimOf;
    SeenShapes(item.a.ex, item.from);
    assert "logs" != "traces";
  }

  lemma AckKeepsInv(env: Env, m: Machine)
    requires Inv(env, m) && Enabled(m, Ack)
    ensures Inv(env, Step(env, m, Ack))
  {
    hide KeyInv, KeysInv, ItemInv, FromInv, StatsInv, HistoryInv, AckPlaces, AckKeys, RecordsInv, OwnKeyOnly;
    var n, item, r := AckStep(m), m.phase.batch[m.phase.next], |m.accepted| - 1;
    var keys := item.a.consumedKeys;
    AckKeeps(m.p, m.placed, keys, r);
    var mid := AckKeys(m.p, keys);
    FieldsFrame(mid, n.p, n.placed);
    RecordsAck(m.p.emitted, m.placed, m.accepted);
    BatchAcks(m.p.inFlight, m.p.emitted, m.placed, m.phase.batch, m.phase.next, r);
    StatsFrame(m.p.stats, mid.stats, m.accepted[..r]);
    StatsCount(mid.stats, m.accepted[..r], item);
    assert m.accepted[..r] + [item] == m.accepted == m.accepted[..|m.accepted|];
    CountRecordKeepsLate(mid.stats, item.a);
    AckedPlaces(m.placed, KeySet(keys), r);
    FileFrame(env, m, n);
  }

  lemma CountRecordKeepsLate(s: Stats, a: Assembled)
    ensures var t := CountRecord(s, a);
      && t.lateSignalsIgnored == s.lateSignalsIgnored && t.logRecordsSeen == s.logRecordsSeen
      && t.spansSeen == s.spansSeen && t.toolCallsIgnored == s.toolCallsIgnored
      && t.unjoinableNoSpan == s.unjoinableNoSpan
  {}

  lemma AckedPlaces(placed: History, keys: set<Key>, record: nat)
    ensures AckPlaces(placed, keys, record).Keys == placed.Keys
    ensures |AckPlaces(placed, keys, record)| == |placed|
  {
    assert AckPlaces(placed, keys, record).Keys == placed.Keys;
  }

  // ---------------------------------------------------------------- roll back

  lemma PromotedPlaces(placed: History, keys: set<Key>)
    ensures PromotePlaces(placed, keys).Keys == placed.Keys
    ensures |PromotePlaces(placed, keys)| == |placed|
    ensures Settles(placed, PromotePlaces(placed, keys))
    ensures forall s :: s in placed && PromotePlaces(placed, keys)[s].Acked? ==>
      placed[s] == PromotePlaces(placed, keys)[s]
  {
    assert PromotePlaces(placed, keys).Keys == placed.Keys;
  }

  lemma RestoreReleasesAll(inFlight: set<Key>, emitted: set<Key>, placed: History, batch: seq<Item>, next: nat)
    requires BatchInv(inFlight, emitted, placed, batch, next)
    ensures inFlight - KeySet(KeysOfBatch(RecordsOf(batch[next..]))) == {}
  {
    hide ItemInv, FromInv, OwnKeyOnly;
    var rest := RecordsOf(batch[next..]);
    BatchKeys(rest);
    forall key | key in inFlight ensures key in KeysOfBatch(rest) {
      var j :| next <= j < |batch| && key in batch[j].a.consumedKeys;
      assert key in rest[j - next].consumedKeys;
    }
  }

  lemma RestoreKeepsInv(env: Env, m: Machine)
    requires Inv(env, m) && Enabled(m, Restore)
    ensures Inv(env, Step(env, m, Restore))
  {
    hide KeyInv, KeysInv, StatsInv, HistoryInv, PromotePlaces, RestoreKeys, RecordsInv, BatchInv;
    var n, keys := RestoreStep(m), KeysOfBatch(RecordsOf(m.phase.batch[m.phase.next..]));
    RestoreKeeps(m.p, m.placed, keys);
    RestoreReleasesAll(m.p.inFlight, m.p.emitted, m.placed, m.phase.batch, m.phase.next);
    PromotedPlaces(m.placed, KeySet(keys));
    RecordsFrame(m.p.emitted, m.placed, n.placed, m.accepted, Done(m));
    FileFrame(env, m, n);
  }

  // ---------------------------------------------------------------- all steps, all runs

  lemma SeeKeeps(env: Env, m: Machine, raw: RawSignal)
    requires Inv(env, m)
    ensures Inv(env, Step(env, m, See(raw)))
  {
    hide KeyInv, KeysInv, StatsInv, HistoryInv, RecordsInv, BatchInv;
    var n := Step(env, m, See(raw));
    FieldsFrame(m.p, n.p, m.placed);
    StatsFrame(m.p.stats, n.p.stats, m.accepted[..Done(m)]);
    FileFrame(env, m, n);
  }

  lemma StepKeeps(env: Env, m: Machine, e: Event)
    requires Inv(env, m) && Enabled(m, e)
    ensures Inv(env, Step(env, m, e))
  {
    hide Inv, TakeStep, BeginStep, WriteMachine, AckStep, RestoreStep;
    match e
    case See(raw) => SeeKeeps(env, m, raw);
    case Take(raw, now) => TakeKeeps(env, m, raw, now);
    case Begin(cutoff, childOf, ready) => BeginKeeps(env, m, cutoff, childOf, ready);
    case Skip => SkipKeeps(env, m);
    case Write(weather) => WriteKeeps(env, m, weather);
    case Ack => AckKeepsInv(env, m);
    case CountRefusal => CountRefusalKeeps(env, m);
    case Restore => RestoreKeepsInv(env, m);
    case Finish => FinishKeeps(env, m);
  }

  lemma NothingKeepsKeys(p: Fields, key: Key)
    requires p.active == NOTHING && p.pending == NOTHING && p.pendingSignals == map[]
    requires p.inFlight == {} && p.emitted == {}
    ensures KeyInv(p, map[], key)
  {
    hide Represents, JoinKey;
    forall place, kind ensures At(map[], key, place, kind) == {} {}
    assert Waiting(map[], key) == {};
  }

  lemma NothingIsInFile(env: Env, m: Machine)
    requires m.sink == Sink.State(m.base, false) && m.torn == [] && m.accepted == [] && m.phase.Idle?
    ensures FileInv(env, m)
  {
    assert Written([]) == [];
    assert m.base + [] + [] == m.base;
  }

  lemma NothingIsRecorded()
    ensures RecordsInv({}, map[], [], 0) && HistoryInv(0, map[])
    ensures StatsInv(NO_STATS, [])
  {
    hide ItemInv, FromInv, Genuine;
    assert LateOnes(map[]) == {};
  }

  lemma InitHolds(env: Env, m: Machine)
    requires Init(m)
    ensures Inv(env, m)
  {
    hide KeyInv, HistoryInv, RecordsInv, StatsInv, FileInv, BatchInv;
    forall key ensures KeyInv(m.p, m.placed, key) { NothingKeepsKeys(m.p, key); }
    NothingIsInFile(env, m);
    NothingIsRecorded();
    assert m.accepted[..0] == [];
  }

  lemma {:induction false} RunKeeps(env: Env, m: Machine, events: seq<Event>)
    requires Inv(env, m) && Runs(env, m, events)
    ensures Inv(env, End(env, m, events))
    decreases events
  {
    hide Inv, Step;
    if events != [] {
      StepKeeps(env, m, events[0]);
      RunKeeps(env, Step(env, m, events[0]), events[1..]);
    }
  }

  ghost predicate Reachable(env: Env, m: Machine) {
    exists start, events :: Init(start) && Runs(env, start, events) && End(env, start, events) == m
  }

  /** The invariant holds in every reachable state, under every interleaving of ingest with the
      assembler and every choice of sink failures. */
  lemma ReachableStatesAreSound(env: Env, m: Machine)
    requires Reachable(env, m)
    ensures Inv(env, m)
  {
    hide Inv, Step;
    var start, events :| Init(start) && Runs(env, start, events) && End(env, start, events) == m;
    InitHolds(env, start);
    RunKeeps(env, start, events);
  }
}
