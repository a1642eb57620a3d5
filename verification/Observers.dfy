/** The observer's identity on its way from the configuration to every written record. */
module Observers {
  import opened Text
  import opened Observation
  import opened Normalize
  import opened Merging
  import opened MergeLaws
  import opened Processor
  import opened Machine
  import opened StepProofs
  import opened RunLaws
  import Sink

  /** The record names this observer and its version; without an id it names neither. */
  predicate Sourced(id: string, version: string, ex: Execution) {
    && ex.source.observerType == "agentgateway_otlp"
    && ex.source.observerID == id
    && ex.source.observerVersion == (if id == "" then "" else version)
  }

  ghost predicate SlotsSourced(id: string, version: string, slots: map<Key, Execution>) {
    forall key :: key in slots ==> Sourced(id, version, slots[key])
  }

  ghost predicate BufferSourced(id: string, version: string, p: Fields) {
    && SlotsSourced(id, version, p.active.spans) && SlotsSourced(id, version, p.active.logs)
    && SlotsSourced(id, version, p.pending.spans) && SlotsSourced(id, version, p.pending.logs)
  }

  ghost predicate ItemsSourced(id: string, version: string, items: seq<Item>) {
    forall i :: 0 <= i < |items| ==> Sourced(id, version, items[i].a.ex)
  }

  ghost predicate ObserverInv(id: string, version: string, m: Machine) {
    && m.p.observerID == id && m.p.observerVersion == version
    && BufferSourced(id, version, m.p)
    && ItemsSourced(id, version, m.accepted)
    && (!m.phase.Idle? ==> ItemsSourced(id, version, m.phase.batch))
  }

  // ---------------------------------------------------------------- slots

  lemma MergeSourced(id: string, version: string, a: Execution, b: Execution)
    requires Sourced(id, version, a) && Sourced(id, version, b)
    ensures Sourced(id, version, Merge(a, b))
  {
    hide MergeStatus, MergeCorrelation, MergeField, MergeDuration, Union, StrongerAvailability, TransportOf;
  }

  lemma DepositSourced(id: string, version: string, slots: map<Key, Execution>, key: Key, ex: Execution)
    requires SlotsSourced(id, version, slots) && Sourced(id, version, ex)
    ensures SlotsSourced(id, version, Deposit(slots, key, ex))
  {
    hide Merge, Sourced;
    if key in slots { MergeSourced(id, version, slots[key], ex); }
  }

  /** A normalized signal names no observer yet, and buffer stamps it. */
  lemma StampSourced(env: Env, raw: RawSignal, ex: Execution, p: Fields)
    requires NormalizeSignal(env, raw) == Some(ex)
    ensures Sourced(p.observerID, p.observerVersion, Stamp(p, ex))
  {
    hide AttributesOf, IsToolCall, Classify, StatusRule, Attr, Get, HexID, FirstNonEmpty, DurationMS, Offered,
      LogCompleted;
  }

  lemma BufferStepSourced(id: string, version: string, p: Fields, ex: Execution, kind: SignalKind, now: Instant)
    requires BufferSourced(id, version, p) && Sourced(id, version, Stamp(p, ex))
    ensures BufferSourced(id, version, BufferStep(p, ex, kind, now))
  {
    hide JoinKey, Deposit, Sourced, SlotsSourced, Stamp, Remember;
    var key, stamped := JoinKey(ex.traceID, ex.spanID), Stamp(p, ex);
    DepositSourced(id, version, p.active.spans, key, stamped);
    DepositSourced(id, version, p.active.logs, key, stamped);
    DepositSourced(id, version, p.pending.spans, key, stamped);
    DepositSourced(id, version, p.pending.logs, key, stamped);
  }

  lemma AssembledSourced(id: string, version: string, p: Fields, key: Key)
    requires BufferSourced(id, version, p) && AssembleKey(p, key).Some?
    ensures Sourced(id, version, AssembleKey(p, key).value.ex)
  {
    hide Merge, Sourced, ClaimOf;
    if key in p.active.spans {
      var span := p.active.spans[key];
      var ex := span;
      if ClaimOf(span).Some? {
        var parent := ClaimOf(span).value;
        if parent in p.active.spans {
          MergeSourced(id, version, ex, p.active.spans[parent]);
          ex := Merge(ex, p.active.spans[parent]);
        }
        if parent in p.active.logs {
          MergeSourced(id, version, ex, p.active.logs[parent]);
          ex := Merge(ex, p.active.logs[parent]);
        }
      }
      if key in p.active.logs { MergeSourced(id, version, ex, p.active.logs[key]); }
    }
  }

  lemma {:induction false} BatchSourced(id: string, version: string, p: Fields, childOf: map<Key, Key>, ready: seq<Key>)
    requires BufferSourced(id, version, p)
    ensures forall i :: 0 <= i < |BatchOf(p, childOf, ready)| ==>
      Sourced(id, version, BatchOf(p, childOf, ready)[i].ex)
  {
    hide AssembleKey, Sourced, BufferSourced;
    if ready != [] {
      var key := ready[|ready| - 1];
      BatchSourced(id, version, p, childOf, ready[..|ready| - 1]);
      if AssembleKey(p, key).Some? { AssembledSourced(id, version, p, key); }
    }
  }

  lemma AckKeysSourced(id: string, version: string, p: Fields, keys: seq<Key>)
    requires BufferSourced(id, version, p)
    ensures BufferSourced(id, version, AckKeys(p, keys))
  {
    hide AckKeys, Sourced;
    AckKeysDrop(p, keys);
  }

  lemma {:induction false} RestoreKeysSourced(id: string, version: string, p: Fields, keys: seq<Key>)
    requires BufferSourced(id, version, p)
    ensures BufferSourced(id, version, RestoreKeys(p, keys))
  {
    hide Deposit, Sourced;
    if keys != [] {
      var q, key := RestoreKeys(p, keys[..|keys| - 1]), keys[|keys| - 1];
      RestoreKeysSourced(id, version, p, keys[..|keys| - 1]);
      if key in q.pending.spans { DepositSourced(id, version, q.active.spans, key, q.pending.spans[key]); }
      if key in q.pending.logs { DepositSourced(id, version, q.active.logs, key, q.pending.logs[key]); }
    }
  }

  // ---------------------------------------------------------------- every run

  lemma StepSourced(env: Env, id: string, version: string, m: Machine, e: Event)
    requires Enabled(m, e) && ObserverInv(id, version, m)
    ensures ObserverInv(id, version, Step(env, m, e))
  {
    hide Sourced, BufferSourced, BufferStep, Stamp, NormalizeSignal, BatchOf, AckKeys, RestoreKeys, KeysOfBatch,
      RecordsOf, PlaceFor, AckPlaces, PromotePlaces, LiveUnder, IsClaimMap, IsReadyList, Sink.WriteStep, JoinKey;
    match e
    case Take(raw, now) =>
      if NormalizeSignal(env, raw).Some? {
        var ex := NormalizeSignal(env, raw).value;
        StampSourced(env, raw, ex, m.p);
        BufferStepSourced(id, version, m.p, ex, KindOf(raw), now);
        BufferLeavesRest(m.p, ex, KindOf(raw), now);
      }
      SameSlotsSourced(id, version, m.p, m.p.(stats := Step(env, m, e).p.stats));
    case Begin(_, childOf, ready) =>
      BatchSourced(id, version, m.p, childOf, ready);
      SameSlotsSourced(id, version, m.p, Step(env, m, e).p);
    case Ack =>
      var keys := m.phase.batch[m.phase.next].a.consumedKeys;
      AckKeysSourced(id, version, m.p, keys);
      AckKeysKeepObserver(m.p, keys);
      SameSlotsSourced(id, version, AckKeys(m.p, keys), Step(env, m, e).p);
    case Restore =>
      var keys := KeysOfBatch(RecordsOf(m.phase.batch[m.phase.next..]));
      RestoreKeysSourced(id, version, m.p, keys);
      RestoreKeysKeepObserver(m.p, keys);
    case _ => SameSlotsSourced(id, version, m.p, Step(env, m, e).p);
  }

  lemma SameSlotsSourced(id: string, version: string, p: Fields, q: Fields)
    requires BufferSourced(id, version, p) && q.active == p.active && q.pending == p.pending
    ensures BufferSourced(id, version, q)
  {
    hide SlotsSourced;
  }

  lemma {:induction false} RunSourced(env: Env, id: string, version: string, m: Machine, events: seq<Event>)
    requires ObserverInv(id, version, m) && Runs(env, m, events)
    ensures ObserverInv(id, version, End(env, m, events))
    decreases events
  {
    hide ObserverInv, Step, Enabled;
    if events != [] {
      StepSourced(env, id, version, m, events[0]);
      RunSourced(env, id, version, Step(env, m, events[0]), events[1..]);
    }
  }

  /** The identity given to the processor reaches every slot and every record the sink accepted,
      through every merge, roll-back and retry; and where none was given none appears. */
  lemma EveryRecordNamesItsObserver(env: Env, m: Machine)
    requires Reachable(env, m)
    ensures var id, version := m.p.observerID, m.p.observerVersion;
      && (forall i :: 0 <= i < |m.accepted| ==> Sourced(id, version, m.accepted[i].a.ex))
      && (forall key :: key in m.p.active.spans ==> Sourced(id, version, m.p.active.spans[key]))
      && (forall key :: key in m.p.active.logs ==> Sourced(id, version, m.p.active.logs[key]))
      && (forall key :: key in m.p.pending.spans ==> Sourced(id, version, m.p.pending.spans[key]))
      && (forall key :: key in m.p.pending.logs ==> Sourced(id, version, m.p.pending.logs[key]))
  {
    hide Step, Enabled, Runs, End;
    var start, events :| Init(start) && Runs(env, start, events) && End(env, start, events) == m;
    RunSourced(env, start.p.observerID, start.p.observerVersion, start, events);
  }
}
