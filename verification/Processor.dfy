/** The processor: what each critical section does to the buffered signals, first as a function
    on the processor's fields, then as the methods that update them in place. */
module Processor {
  import opened Text
  import opened Observation
  import opened Normalize
  import opened Merging
  import opened MergeLaws

  datatype Stats = Stats(
    logRecordsSeen: nat, spansSeen: nat, toolCallsIgnored: nat,
    emitted: nat, emittedMerged: nat, emittedLogOnly: nat, emittedSpanOnly: nat,
    sinkWriteFailures: nat, lateSignalsIgnored: nat, unjoinableNoSpan: nat,
    parentsSuppressed: nat, correlated: nat, unattributed: nat, ambiguous: nat,
    stillBuffered: nat)

  const NO_STATS := Stats(0, 0, 0, 0, 0, 0, 0, 0, 0, 0, 0, 0, 0, 0, 0)

  /** The three maps buffer chooses between as a group: the active ones or the pending ones. */
  datatype Generation = Generation(
    spans: map<Key, Execution>, logs: map<Key, Execution>, firstSeen: map<Key, Instant>)

  datatype Fields = Fields(
    observerID: string, observerVersion: string,
    active: Generation, pending: Generation, pendingSignals: map<Key, nat>,
    inFlight: set<Key>, emitted: set<Key>, stats: Stats)

  const NOTHING := Generation(map[], map[], map[])

  function Fresh(): Fields { Fields("", "", NOTHING, NOTHING, map[], {}, {}, NO_STATS) }

  datatype Assembled = Assembled(
    key: Key, consumedKeys: seq<Key>, ex: Execution, both: bool, loggy: bool, parentsSuppressed: nat)

  // ---------------------------------------------------------------- buffer

  function Stamp(st: Fields, ex: Execution): Execution {
    if st.observerID == "" then ex
    else ex.(source := ex.source.(observerID := st.observerID, observerVersion := st.observerVersion))
  }

  function Deposit(slots: map<Key, Execution>, key: Key, ex: Execution): map<Key, Execution> {
    slots[key := if key in slots then Merge(slots[key], ex) else ex]
  }

  function Remember(times: map<Key, Instant>, key: Key, now: Instant): map<Key, Instant> {
    if key in times then times else times[key := now]
  }

  function CountAt(counts: map<Key, nat>, key: Key): nat { if key in counts then counts[key] else 0 }

  function Admit(g: Generation, key: Key, ex: Execution, kind: SignalKind, now: Instant): Generation {
    Generation(
      if kind.Logs? then g.spans else Deposit(g.spans, key, ex),
      if kind.Logs? then Deposit(g.logs, key, ex) else g.logs,
      Remember(g.firstSeen, key, now))
  }

  function Drop(g: Generation, key: Key): Generation {
    Generation(g.spans - {key}, g.logs - {key}, g.firstSeen - {key})
  }

  /** The section of buffer that runs with the mutex held, for a joinable signal. */
  function BufferAt(st: Fields, key: Key, ex: Execution, kind: SignalKind, now: Instant): Fields {
    if key in st.emitted then
      st.(stats := st.stats.(lateSignalsIgnored := st.stats.lateSignalsIgnored + 1))
    else if key in st.inFlight || key in st.pending.firstSeen then
      st.(pending := Admit(st.pending, key, Stamp(st, ex), kind, now),
          pendingSignals := st.pendingSignals[key := CountAt(st.pendingSignals, key) + 1])
    else
      st.(active := Admit(st.active, key, Stamp(st, ex), kind, now))
  }

  function BufferStep(st: Fields, ex: Execution, kind: SignalKind, now: Instant): Fields {
    var key := JoinKey(ex.traceID, ex.spanID);
    if key == "" then st.(stats := st.stats.(unjoinableNoSpan := st.stats.unjoinableNoSpan + 1))
    else BufferAt(st, key, ex, kind, now)
  }

  // ---------------------------------------------------------------- assemble: the snapshot

  /** The parent key a client span names. */
  function ClaimOf(span: Execution): Option<Key> {
    if span.spanKind == SPAN_KIND_CLIENT && span.parentSpanID != ""
    then Some(span.traceID + "/" + span.parentSpanID)
    else None
  }

  predicate Claims(spans: map<Key, Execution>, child: Key, parent: Key) {
    child in spans && ClaimOf(spans[child]) == Some(parent)
  }

  /** childOf maps every claimed parent to one of the client spans naming it; which one, when
      there are several, depends on the iteration order of a map. */
  ghost predicate IsClaimMap(spans: map<Key, Execution>, childOf: map<Key, Key>) {
    && (forall parent :: parent in childOf ==> Claims(spans, childOf[parent], parent))
    && (forall child, parent :: Claims(spans, child, parent) ==> parent in childOf)
  }

  predicate Skipped(childOf: map<Key, Key>, key: Key) { key in childOf && childOf[key] != key }

  predicate Ready(st: Fields, cutoff: Option<Instant>, key: Key) {
    key in st.active.firstSeen && (cutoff.None? || st.active.firstSeen[key] < cutoff.value)
  }

  ghost predicate IsReadyList(st: Fields, cutoff: Option<Instant>, ready: seq<Key>) {
    Ascending(ready) && forall key :: key in ready <==> Ready(st, cutoff, key)
  }

  function MergeParent(st: Fields, a: Assembled, parent: Key): Assembled {
    var withSpan :=
      if parent in st.active.spans then a.(ex := Merge(a.ex, st.active.spans[parent]), parentsSuppressed := 1) else a;
    var withLog :=
      if parent in st.active.logs then withSpan.(ex := Merge(withSpan.ex, st.active.logs[parent])) else withSpan;
    if parent in st.active.spans || parent in st.active.logs
    then withLog.(consumedKeys := a.consumedKeys + [parent])
    else withLog
  }

  function AssembleKey(st: Fields, key: Key): Option<Assembled> {
    if key !in st.active.spans && key !in st.active.logs then None
    else if key !in st.active.spans then Some(Assembled(key, [key], st.active.logs[key], false, true, 0))
    else
      var span := st.active.spans[key];
      var own := Assembled(key, [key], span, key in st.active.logs, false, 0);
      var joined := if ClaimOf(span).Some? then MergeParent(st, own, ClaimOf(span).value) else own;
      Some(if key in st.active.logs then joined.(ex := Merge(joined.ex, st.active.logs[key])) else joined)
  }

  function BatchOf(st: Fields, childOf: map<Key, Key>, ready: seq<Key>): seq<Assembled> {
    if ready == [] then []
    else
      var init, key := BatchOf(st, childOf, ready[..|ready| - 1]), ready[|ready| - 1];
      if Skipped(childOf, key) || AssembleKey(st, key).None? then init
      else init + [AssembleKey(st, key).value]
  }

  /** Every key the records of a batch consume, in order. */
  function KeysOfBatch(batch: seq<Assembled>): seq<Key> {
    if batch == [] then [] else batch[0].consumedKeys + KeysOfBatch(batch[1..])
  }

  function KeySet(keys: seq<Key>): set<Key> { set key | key in keys }

  function Reserve(st: Fields, batch: seq<Assembled>): Fields {
    st.(inFlight := st.inFlight + KeySet(KeysOfBatch(batch)))
  }

  // ---------------------------------------------------------------- emit: the acknowledgement

  function AckKey(st: Fields, key: Key): Fields {
    st.(active := Drop(st.active, key),
        pending := Drop(st.pending, key),
        pendingSignals := st.pendingSignals - {key},
        inFlight := st.inFlight - {key},
        emitted := st.emitted + {key},
        stats := st.stats.(lateSignalsIgnored := st.stats.lateSignalsIgnored + CountAt(st.pendingSignals, key)))
  }

  function AckKeys(st: Fields, keys: seq<Key>): Fields {
    if keys == [] then st else AckKey(AckKeys(st, keys[..|keys| - 1]), keys[|keys| - 1])
  }

  function CountRecord(s: Stats, a: Assembled): Stats {
    var merged := a.both || |a.ex.seenFrom| > 1;
    s.(parentsSuppressed := s.parentsSuppressed + a.parentsSuppressed,
       correlated := s.correlated + (if a.ex.correlation.Correlated? then 1 else 0),
       ambiguous := s.ambiguous + (if a.ex.correlation.Ambiguous? then 1 else 0),
       unattributed := s.unattributed + (if a.ex.correlation.Unattributed? then 1 else 0),
       emitted := s.emitted + 1,
       emittedMerged := s.emittedMerged + (if merged then 1 else 0),
       emittedLogOnly := s.emittedLogOnly + (if !merged && a.loggy then 1 else 0),
       emittedSpanOnly := s.emittedSpanOnly + (if !merged && !a.loggy then 1 else 0))
  }

  function Acknowledge(st: Fields, a: Assembled): Fields {
    var acked := AckKeys(st, a.consumedKeys);
    acked.(stats := CountRecord(acked.stats, a))
  }

  function CountFailure(st: Fields): Fields {
    st.(stats := st.stats.(sinkWriteFailures := st.stats.sinkWriteFailures + 1))
  }

  // ---------------------------------------------------------------- restoreReserved

  function FoldPending(active: map<Key, Execution>, pending: map<Key, Execution>, key: Key): map<Key, Execution> {
    if key in pending then Deposit(active, key, pending[key]) else active
  }

  function Absorb(active: Generation, pending: Generation, key: Key): Generation
    requires key in pending.firstSeen
  {
    Generation(FoldPending(active.spans, pending.spans, key), FoldPending(active.logs, pending.logs, key),
               Remember(active.firstSeen, key, pending.firstSeen[key]))
  }

  function MergePending(st: Fields, key: Key): Fields {
    if key !in st.pending.firstSeen then st
    else st.(active := Absorb(st.active, st.pending, key), pending := Drop(st.pending, key),
             pendingSignals := st.pendingSignals - {key})
  }

  function RestoreKey(st: Fields, key: Key): Fields {
    var merged := MergePending(st, key);
    merged.(inFlight := merged.inFlight - {key})
  }

  function RestoreKeys(st: Fields, keys: seq<Key>): Fields {
    if keys == [] then st else RestoreKey(RestoreKeys(st, keys[..|keys| - 1]), keys[|keys| - 1])
  }

  // ================================================================ the processor itself

  class Processor {
    var observerID: string
    var observerVersion: string
    var spans: map<Key, Execution>
    var logs: map<Key, Execution>
    var firstSeen: map<Key, Instant>
    var pendingSpans: map<Key, Execution>
    var pendingLogs: map<Key, Execution>
    var pendingFirstSeen: map<Key, Instant>
    var pendingSignals: map<Key, nat>
    var inFlight: set<Key>
    var emitted: set<Key>
    var stats: Stats

    function Current(): Fields
      reads this
    {
      Fields(observerID, observerVersion, Generation(spans, logs, firstSeen),
             Generation(pendingSpans, pendingLogs, pendingFirstSeen), pendingSignals, inFlight, emitted, stats)
    }

    constructor ()
      ensures Current() == Fresh()
    {
      observerID, observerVersion := "", "";
      spans, logs, firstSeen := map[], map[], map[];
      pendingSpans, pendingLogs, pendingFirstSeen, pendingSignals := map[], map[], map[], map[];
      inFlight, emitted, stats := {}, {}, NO_STATS;
    }

    method SetObserver(id: string, version: string)
      modifies this
      ensures Current() == old(Current()).(observerID := id, observerVersion := version)
    {
      observerID, observerVersion := id, version;
    }

    method Buffer(execution: Execution, kind: SignalKind, now: Instant)
      modifies this
      ensures Current() == BufferStep(old(Current()), execution, kind, now)
    {
      hide Merge, JoinKey, Admit;
      var ex := execution;
      var key := JoinKey(ex.traceID, ex.spanID);
      if key == "" {
        stats := stats.(unjoinableNoSpan := stats.unjoinableNoSpan + 1);
        return;
      }
      if key in emitted {
        stats := stats.(lateSignalsIgnored := stats.lateSignalsIgnored + 1);
        return;
      }
      if observerID != "" {
        ex := ex.(source := ex.source.(observerID := observerID, observerVersion := observerVersion));
      }
      var usePending := key in inFlight || key in pendingFirstSeen;
      Hold(key, ex, kind, now, usePending);
    }

    /** The end of buffer's section: store the signal in the generation chosen for it. */
    method Hold(key: Key, ex: Execution, kind: SignalKind, now: Instant, usePending: bool)
      modifies this
      ensures Current() == var st := old(Current());
        if usePending then
          st.(pending := Admit(st.pending, key, ex, kind, now),
              pendingSignals := st.pendingSignals[key := CountAt(st.pendingSignals, key) + 1])
        else st.(active := Admit(st.active, key, ex, kind, now))
    {
      hide Admit;
      if usePending {
        HoldPending(key, ex, kind, now);
        pendingSignals := pendingSignals[key := CountAt(pendingSignals, key) + 1];
      } else {
        HoldActive(key, ex, kind, now);
      }
    }

    method HoldActive(key: Key, ex: Execution, kind: SignalKind, now: Instant)
      modifies this`spans, this`logs, this`firstSeen, this`pendingSpans, this`pendingLogs
      ensures Current().active == Admit(old(Current().active), key, ex, kind, now)
      ensures pendingSpans == old(pendingSpans) && pendingLogs == old(pendingLogs)
    {
      hide Merge, Deposit;
      Store(key, ex, kind, false);
      if key !in firstSeen { firstSeen := firstSeen[key := now]; }
    }

    method HoldPending(key: Key, ex: Execution, kind: SignalKind, now: Instant)
      modifies this`spans, this`logs, this`pendingSpans, this`pendingLogs, this`pendingFirstSeen
      ensures Current().pending == Admit(old(Current().pending), key, ex, kind, now)
      ensures spans == old(spans) && logs == old(logs)
    {
      hide Merge, Deposit;
      Store(key, ex, kind, true);
      if key !in pendingFirstSeen { pendingFirstSeen := pendingFirstSeen[key := now]; }
    }

    method Store(key: Key, execution: Execution, kind: SignalKind, usePending: bool)
      modifies this`spans, this`logs, this`pendingSpans, this`pendingLogs
      ensures spans == if usePending || kind.Logs? then old(spans) else Deposit(old(spans), key, execution)
      ensures logs == if usePending || kind.Traces? then old(logs) else Deposit(old(logs), key, execution)
      ensures pendingSpans ==
        if !usePending || kind.Logs? then old(pendingSpans) else Deposit(old(pendingSpans), key, execution)
      ensures pendingLogs ==
        if !usePending || kind.Traces? then old(pendingLogs) else Deposit(old(pendingLogs), key, execution)
    {
      hide Merge;
      var ex := execution;
      var dst := if kind.Logs? then (if usePending then pendingLogs else logs)
                 else (if usePending then pendingSpans else spans);
      if key in dst { ex := Merge(dst[key], ex); }
      dst := dst[key := ex];
      if kind.Logs? {
        if usePending { pendingLogs := dst; } else { logs := dst; }
      } else {
        if usePending { pendingSpans := dst; } else { spans := dst; }
      }
    }

    /** Stats: every key with a live signal is counted once. */
    method ReadStats() returns (s: Stats)
      ensures s == stats.(stillBuffered := |firstSeen.Keys + pendingFirstSeen.Keys|)
    {
      var still := |firstSeen|;
      var todo := pendingFirstSeen.Keys;
      ghost var counted := firstSeen.Keys;
      while todo != {}
        invariant todo <= pendingFirstSeen.Keys && still == |counted|
        invariant counted == firstSeen.Keys + (pendingFirstSeen.Keys - todo)
        decreases todo
      {
        var key :| key in todo;
        todo := todo - {key};
        if key !in firstSeen { still := still + 1; }
        counted := counted + {key};
      }
      return stats.(stillBuffered := still);
    }

    method ReadyKeys(cutoff: Option<Instant>) returns (keys: seq<Key>)
      ensures IsReadyList(Current(), cutoff, keys)
      ensures forall key :: key in keys <==> key in firstSeen && (cutoff.None? || firstSeen[key] < cutoff.value)
    {
      keys := [];
      var todo := firstSeen.Keys;
      while todo != {}
        invariant todo <= firstSeen.Keys
        invariant forall key :: key in keys <==> key !in todo && Ready(Current(), cutoff, key)
        decreases todo
      {
        var key :| key in todo;
        todo := todo - {key};
        if cutoff.None? || firstSeen[key] < cutoff.value { keys := keys + [key]; }
      }
      keys := Sort(keys);
    }

    method ChildMap() returns (childOf: map<Key, Key>)
      ensures IsClaimMap(spans, childOf)
    {
      childOf := map[];
      var todo := spans.Keys;
      while todo != {}
        invariant todo <= spans.Keys
        invariant forall parent :: parent in childOf ==> Claims(spans, childOf[parent], parent)
        invariant forall child, parent :: child !in todo && Claims(spans, child, parent) ==> parent in childOf
        decreases todo
      {
        var key :| key in todo;
        todo := todo - {key};
        if ClaimOf(spans[key]).Some? { childOf := childOf[ClaimOf(spans[key]).value := key]; }
      }
    }

    /** The section of assemble that snapshots the ready executions and reserves their keys. */
    method Snapshot(cutoff: Option<Instant>) returns (out: seq<Assembled>, childOf: map<Key, Key>, ready: seq<Key>)
      modifies this
      ensures IsReadyList(old(Current()), cutoff, ready)
      ensures IsClaimMap(old(spans), childOf)
      ensures out == BatchOf(old(Current()), childOf, ready)
      ensures Current() == Reserve(old(Current()), out)
    {
      hide Merge, AssembleKey;
      ready := ReadyKeys(cutoff);
      childOf := ChildMap();
      out := [];
      for i := 0 to |ready|
        invariant Current() == old(Current())
        invariant out == BatchOf(Current(), childOf, ready[..i])
      {
        assert ready[..i + 1][..i] == ready[..i];
        if ready[i] in childOf && childOf[ready[i]] != ready[i] { continue; }
        var a := AssembleKey(Current(), ready[i]);
        if a.Some? { out := out + [a.value]; }
      }
      assert ready[..|ready|] == ready;
      ReserveAll(out);
    }

    method ReserveAll(batch: seq<Assembled>)
      modifies this`inFlight
      ensures inFlight == old(inFlight) + KeySet(KeysOfBatch(batch))
    {
      for i := 0 to |batch|
        invariant inFlight == old(inFlight) + KeySet(KeysOfBatch(batch[..i]))
      {
        BatchKeysSnoc(batch[..i], batch[i]);
        assert batch[..i + 1] == batch[..i] + [batch[i]];
        ghost var before := inFlight;
        for j := 0 to |batch[i].consumedKeys|
          invariant inFlight == before + KeySet(batch[i].consumedKeys[..j])
        {
          inFlight := inFlight + {batch[i].consumedKeys[j]};
        }
        assert batch[i].consumedKeys[..|batch[i].consumedKeys|] == batch[i].consumedKeys;
      }
      assert batch[..|batch|] == batch;
    }

    method DiscardPending(key: Key) returns (dropped: nat)
      modifies this`pendingSpans, this`pendingLogs, this`pendingFirstSeen, this`pendingSignals
      ensures dropped == CountAt(old(pendingSignals), key)
      ensures Current().pending == Drop(old(Current().pending), key) && pendingSignals == old(pendingSignals) - {key}
    {
      dropped := CountAt(pendingSignals, key);
      pendingSpans := pendingSpans - {key};
      pendingLogs := pendingLogs - {key};
      pendingFirstSeen := pendingFirstSeen - {key};
      pendingSignals := pendingSignals - {key};
    }

    method Finalize(key: Key)
      modifies this
      ensures Current() == AckKey(old(Current()), key)
    {
      DropActive(key);
      hide Drop;
      inFlight := inFlight - {key};
      var dropped := DiscardPending(key);
      stats := stats.(lateSignalsIgnored := stats.lateSignalsIgnored + dropped);
      emitted := emitted + {key};
    }

    method DropActive(key: Key)
      modifies this`spans, this`logs, this`firstSeen
      ensures Current().active == Drop(old(Current().active), key)
    {
      spans := spans - {key};
      logs := logs - {key};
      firstSeen := firstSeen - {key};
    }

    /** The section of emit that acknowledges a persisted record. */
    method AcknowledgeRecord(a: Assembled)
      modifies this
      ensures Current() == Acknowledge(old(Current()), a)
    {
      for i := 0 to |a.consumedKeys|
        invariant Current() == AckKeys(old(Current()), a.consumedKeys[..i])
      {
        assert a.consumedKeys[..i + 1][..i] == a.consumedKeys[..i];
        Finalize(a.consumedKeys[i]);
      }
      assert a.consumedKeys[..|a.consumedKeys|] == a.consumedKeys;
      CountEmitted(a);
    }

    method CountEmitted(a: Assembled)
      modifies this`stats
      ensures stats == CountRecord(old(stats), a)
    {
      stats := stats.(parentsSuppressed := stats.parentsSuppressed + a.parentsSuppressed);
      match a.ex.correlation {
        case Correlated => stats := stats.(correlated := stats.correlated + 1);
        case Ambiguous => stats := stats.(ambiguous := stats.ambiguous + 1);
        case Unattributed => stats := stats.(unattributed := stats.unattributed + 1);
      }
      stats := stats.(emitted := stats.emitted + 1);
      if a.both || |a.ex.seenFrom| > 1 {
        stats := stats.(emittedMerged := stats.emittedMerged + 1);
      } else if a.loggy {
        stats := stats.(emittedLogOnly := stats.emittedLogOnly + 1);
      } else {
        stats := stats.(emittedSpanOnly := stats.emittedSpanOnly + 1);
      }
    }

    method FoldPendingSlots(key: Key)
      modifies this`spans, this`logs, this`pendingSpans, this`pendingLogs
      ensures spans == FoldPending(old(spans), old(pendingSpans), key) && pendingSpans == old(pendingSpans) - {key}
      ensures logs == FoldPending(old(logs), old(pendingLogs), key) && pendingLogs == old(pendingLogs) - {key}
    {
      hide Merge;
      if key in pendingSpans {
        spans := spans[key := if key in spans then Merge(spans[key], pendingSpans[key]) else pendingSpans[key]];
        pendingSpans := pendingSpans - {key};
      }
      if key in pendingLogs {
        logs := logs[key := if key in logs then Merge(logs[key], pendingLogs[key]) else pendingLogs[key]];
        pendingLogs := pendingLogs - {key};
      }
    }

    method MergePendingIntoActive(key: Key)
      modifies this
      ensures Current() == MergePending(old(Current()), key)
    {
      if key !in pendingFirstSeen { return; }
      AbsorbPending(key);
      hide Absorb, Drop;
      pendingSignals := pendingSignals - {key};
    }

    method AbsorbPending(key: Key)
      requires key in pendingFirstSeen
      modifies this`spans, this`logs, this`firstSeen, this`pendingSpans, this`pendingLogs, this`pendingFirstSeen
      ensures Current().active == Absorb(old(Current().active), old(Current().pending), key)
      ensures Current().pending == Drop(old(Current().pending), key)
    {
      hide FoldPending;
      var seen := pendingFirstSeen[key];
      FoldPendingSlots(key);
      if key !in firstSeen { firstSeen := firstSeen[key := seen]; }
      pendingFirstSeen := pendingFirstSeen - {key};
    }

    /** restoreReserved: each consumed key once, although a batch may name it several times. */
    method RestoreReserved(records: seq<Assembled>)
      modifies this
      ensures Current() == RestoreKeys(old(Current()), KeysOfBatch(records))
    {
      var restored: set<Key> := {};
      ghost var done: seq<Key> := [];
      for i := 0 to |records|
        invariant done == KeysOfBatch(records[..i])
        invariant forall key :: key in restored <==> key in done
        invariant Current() == RestoreKeys(old(Current()), done)
      {
        var keys := records[i].consumedKeys;
        BatchKeysSnoc(records[..i], records[i]);
        assert records[..i + 1] == records[..i] + [records[i]];
        ghost var before := done;
        for j := 0 to |keys|
          invariant done == before + keys[..j]
          invariant forall key :: key in restored <==> key in done
          invariant Current() == RestoreKeys(old(Current()), done)
        {
          var key := keys[j];
          assert (done + [key])[..|done|] == done;
          RestoredStays(old(Current()), done);
          done := done + [key];
          if key in restored { continue; }
          restored := restored + {key};
          MergePendingIntoActive(key);
          inFlight := inFlight - {key};
        }
        assert keys[..|keys|] == keys;
      }
      assert records[..|records|] == records;
    }
  }

  lemma {:induction false} BatchKeysSnoc(batch: seq<Assembled>, a: Assembled)
    ensures KeysOfBatch(batch + [a]) == KeysOfBatch(batch) + a.consumedKeys
  {
    if batch == [] {
      assert [a][1..] == [];
    } else {
      assert (batch + [a])[1..] == batch[1..] + [a];
      BatchKeysSnoc(batch[1..], a);
    }
  }

  /** A restored key has nothing left to restore. */
  lemma {:induction false} RestoredStays(st: Fields, keys: seq<Key>)
    ensures forall key :: key in keys ==> RestoreKey(RestoreKeys(st, keys), key) == RestoreKeys(st, keys)
  {
    if keys != [] {
      var init, last := keys[..|keys| - 1], keys[|keys| - 1];
      RestoredStays(st, init);
      assert keys == init + [last];
      var mid, end := RestoreKeys(st, init), RestoreKeys(st, keys);
      forall key | key in keys ensures RestoreKey(end, key) == end {
        if key == last {
          assert last !in end.pending.firstSeen && end.inFlight - {last} == end.inFlight;
        } else {
          assert key in init && RestoreKey(mid, key) == mid;
          RestoredKeyIsQuiet(mid, key);
          assert key !in end.pending.firstSeen && end.inFlight - {key} == end.inFlight;
        }
      }
    }
  }

  lemma RestoredKeyIsQuiet(st: Fields, key: Key)
    requires RestoreKey(st, key) == st
    ensures key !in st.pending.firstSeen && key !in st.inFlight
  {
    assert key !in RestoreKey(st, key).pending.firstSeen by {
      assert key !in MergePending(st, key).pending.firstSeen;
    }
    assert key !in RestoreKey(st, key).inFlight;
  }
}
