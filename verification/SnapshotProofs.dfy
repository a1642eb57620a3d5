/** What a snapshot contains: each record is exactly the signals live under its keys. */
module SnapshotProofs {
  import opened Text
  import opened Observation
  import opened Normalize
  import opened Merging
  import opened MergeLaws
  import opened Processor
  import opened Machine
  import opened BufferProofs

  // ---------------------------------------------------------------- the batch as a whole

  lemma AssembledKey(st: Fields, key: Key)
    ensures AssembleKey(st, key).Some? ==>
      var a := AssembleKey(st, key).value;
      && a.key == key && 1 <= |a.consumedKeys| <= 2 && a.consumedKeys[0] == key
      && (key !in st.active.spans ==> |a.consumedKeys| == 1)
      && (|a.consumedKeys| == 2 ==>
            key in st.active.spans && ClaimOf(st.active.spans[key]) == Some(a.consumedKeys[1]) &&
            (a.consumedKeys[1] in st.active.spans || a.consumedKeys[1] in st.active.logs))
    ensures AssembleKey(st, key).Some? <==> key in st.active.spans || key in st.active.logs
  {
    hide Merge, ClaimOf;
  }

  /** The batch holds one record for every ready key that is present and not skipped. */
  lemma {:induction false} BatchMembers(st: Fields, childOf: map<Key, Key>, ready: seq<Key>)
    requires Ascending(ready)
    ensures var batch := BatchOf(st, childOf, ready);
      && (forall i :: 0 <= i < |batch| ==>
            batch[i].key in ready && !Skipped(childOf, batch[i].key) &&
            AssembleKey(st, batch[i].key) == Some(batch[i]))
      && (forall i, j :: 0 <= i < j < |batch| ==> Less(batch[i].key, batch[j].key))
      && (forall key :: key in ready && !Skipped(childOf, key) && AssembleKey(st, key).Some? ==>
            exists i :: 0 <= i < |batch| && batch[i].key == key)
  {
    hide AssembleKey, Less, Skipped;
    if ready != [] {
      var init, key := ready[..|ready| - 1], ready[|ready| - 1];
      assert ready == init + [key];
      BatchMembers(st, childOf, init);
      var before := BatchOf(st, childOf, init);
      AssembledKey(st, key);
      forall i | 0 <= i < |before| ensures Less(before[i].key, key) {
        var r :| 0 <= r < |init| && init[r] == before[i].key;
        assert ready[r] == before[i].key;
      }
      var batch := BatchOf(st, childOf, ready);
      forall k | k in ready && !Skipped(childOf, k) && AssembleKey(st, k).Some?
        ensures exists i :: 0 <= i < |batch| && batch[i].key == k
      {
        if k == key {
          assert batch[|before|].key == key;
        } else {
          assert k in init;
          var i :| 0 <= i < |before| && before[i].key == k;
          assert batch[i].key == k;
        }
      }
    }
  }

  lemma {:induction false} BatchKeys(batch: seq<Assembled>)
    ensures forall key :: key in KeysOfBatch(batch) <==> exists j :: 0 <= j < |batch| && key in batch[j].consumedKeys
  {
    if batch != [] {
      BatchKeys(batch[1..]);
      forall key ensures key in KeysOfBatch(batch) <==> exists j :: 0 <= j < |batch| && key in batch[j].consumedKeys {
        if key in KeysOfBatch(batch[1..]) {
          var j :| 0 <= j < |batch[1..]| && key in batch[1..][j].consumedKeys;
          assert key in batch[j + 1].consumedKeys;
        }
        if j :| 0 <= j < |batch| && key in batch[j].consumedKeys {
          if j > 0 { assert key in batch[1..][j - 1].consumedKeys; }
        }
      }
    }
  }

  // ---------------------------------------------------------------- one record

  lemma FoldSlot(ex: Execution, from: set<Signal>, slots: map<Key, Execution>, placed: History, key: Key,
                 kind: SignalKind)
    requires Represents(ex, from) && SlotInv(slots, placed, key, Active, kind) && JoinKey(ex.traceID, ex.spanID) != ""
    ensures var out := if key in slots then Merge(ex, slots[key]) else ex;
      && Represents(out, from + At(placed, key, Active, kind))
      && JoinKey(out.traceID, out.spanID) == JoinKey(ex.traceID, ex.spanID)
      && (ClaimOf(ex).Some? ==> ClaimOf(out) == ClaimOf(ex))
  {
    hide Merge, Represents, JoinKey, ClaimOf;
    if key in slots {
      MergeRepresents(ex, from, slots[key], At(placed, key, Active, kind));
      MergeKeepsIdentity(ex, slots[key]);
    } else {
      assert from + At(placed, key, Active, kind) == from;
    }
  }

  ghost function LiveAt(placed: History, key: Key): set<Signal> {
    At(placed, key, Active, Traces) + At(placed, key, Active, Logs)
  }

  lemma LiveUnderOne(placed: History, key: Key)
    ensures LiveUnder(placed, [key]) == LiveAt(placed, key)
  {
    forall s ensures s in LiveUnder(placed, [key]) <==> s in LiveAt(placed, key) {}
  }

  lemma LiveUnderTwo(placed: History, key: Key, parent: Key)
    ensures LiveUnder(placed, [key, parent]) == LiveAt(placed, key) + LiveAt(placed, parent)
  {
    forall s ensures s in LiveUnder(placed, [key, parent]) <==> s in LiveAt(placed, key) + LiveAt(placed, parent) {}
  }

  lemma ParentFolds(st: Fields, placed: History, a: Assembled, from: set<Signal>, parent: Key)
    requires KeyInv(st, placed, parent) && Represents(a.ex, from)
    requires JoinKey(a.ex.traceID, a.ex.spanID) == a.key != "" && ClaimOf(a.ex) == Some(parent)
    ensures var out := MergeParent(st, a, parent);
      && Represents(out.ex, from + LiveAt(placed, parent))
      && JoinKey(out.ex.traceID, out.ex.spanID) == a.key && ClaimOf(out.ex) == Some(parent)
      && out.key == a.key && out.both == a.both && out.loggy == a.loggy
      && out.consumedKeys == a.consumedKeys + (if LiveAt(placed, parent) == {} then [] else [parent])
  {
    hide Merge, Represents, JoinKey, ClaimOf, At, FirstSeenInv, NestingInv, Waiting;
    var g := st.active;
    var spanIDs, logIDs := At(placed, parent, Active, Traces), At(placed, parent, Active, Logs);
    FoldSlot(a.ex, from, g.spans, placed, parent, Traces);
    var mid := if parent in g.spans then Merge(a.ex, g.spans[parent]) else a.ex;
    FoldSlot(mid, from + spanIDs, g.logs, placed, parent, Logs);
    assert from + spanIDs + logIDs == from + LiveAt(placed, parent);
  }

  /** The part of ItemInv about identity and content. */
  ghost predicate Built(a: Assembled, from: set<Signal>) {
    && Represents(a.ex, from)
    && JoinKey(a.ex.traceID, a.ex.spanID) == a.key
    && (|a.consumedKeys| == 2 ==> ClaimOf(a.ex) == Some(a.consumedKeys[1]))
  }

  lemma LoneBuilds(st: Fields, placed: History, key: Key)
    requires KeyInv(st, placed, key) && AssembleKey(st, key).Some? && key != ""
    requires key !in st.active.spans || ClaimOf(st.active.spans[key]).None?
    ensures Built(AssembleKey(st, key).value, LiveUnder(placed, [key]))
    ensures AssembleKey(st, key).value.consumedKeys == [key]
  {
    hide Represents, JoinKey, ClaimOf, Merge, At, LiveUnder, FirstSeenInv, NestingInv, Waiting;
    var g := st.active;
    LiveUnderOne(placed, key);
    if key !in g.spans {
      assert LiveAt(placed, key) == At(placed, key, Active, Logs);
    } else {
      FoldSlot(g.spans[key], At(placed, key, Active, Traces), g.logs, placed, key, Logs);
    }
  }

  lemma SlotSays(slots: map<Key, Execution>, placed: History, key: Key, kind: SignalKind)
    requires SlotInv(slots, placed, key, Active, kind) && key in slots
    ensures Represents(slots[key], At(placed, key, Active, kind))
    ensures JoinKey(slots[key].traceID, slots[key].spanID) == key
  {
    hide Represents, JoinKey, At;
  }

  lemma ChildIs(st: Fields, key: Key, parent: Key)
    requires key in st.active.spans && ClaimOf(st.active.spans[key]) == Some(parent)
    ensures var own := Assembled(key, [key], st.active.spans[key], key in st.active.logs, false, 0);
      var joined := MergeParent(st, own, parent);
      AssembleKey(st, key) ==
        Some(if key in st.active.logs then joined.(ex := Merge(joined.ex, st.active.logs[key])) else joined)
  {
    hide Merge, MergeParent, ClaimOf;
  }

  lemma ChildBuilds(st: Fields, placed: History, key: Key, parent: Key)
    requires KeyInv(st, placed, key) && KeyInv(st, placed, parent) && key != ""
    requires key in st.active.spans && ClaimOf(st.active.spans[key]) == Some(parent)
    ensures var a := AssembleKey(st, key).value; Built(a, LiveUnder(placed, a.consumedKeys))
  {
    hide Represents, JoinKey, ClaimOf, Merge, At, LiveUnder, MergeParent, AssembleKey, FirstSeenInv, NestingInv,
      Waiting, SlotInv;
    ChildIs(st, key, parent);
    SlotSays(st.active.spans, placed, key, Traces);
    var g := st.active;
    var span, spanIDs := g.spans[key], At(placed, key, Active, Traces);
    var own := Assembled(key, [key], span, key in g.logs, false, 0);
    var parents := LiveAt(placed, parent);
    LiveUnderOne(placed, key);
    LiveUnderTwo(placed, key, parent);
    ParentFolds(st, placed, own, spanIDs, parent);
    FoldSlot(MergeParent(st, own, parent).ex, spanIDs + parents, g.logs, placed, key, Logs);
    assert spanIDs + parents + At(placed, key, Active, Logs) == LiveAt(placed, key) + parents;
    if parents == {} {
      assert [key] + [] == [key];
      assert LiveAt(placed, key) + parents == LiveAt(placed, key);
    } else {
      assert [key] + [parent] == [key, parent];
    }
  }

  lemma AssembleBuilds(st: Fields, placed: History, key: Key)
    requires KeysInv(st, placed) && AssembleKey(st, key).Some? && key != ""
    ensures var a := AssembleKey(st, key).value; Built(a, LiveUnder(placed, a.consumedKeys))
  {
    hide Built, KeyInv, ClaimOf, AssembleKey, KeysInv;
    KeyInvOf(st, placed, key);
    if key in st.active.spans && ClaimOf(st.active.spans[key]).Some? {
      var parent := ClaimOf(st.active.spans[key]).value;
      KeyInvOf(st, placed, parent);
      ChildBuilds(st, placed, key, parent);
    } else {
      LoneBuilds(st, placed, key);
    }
  }

  lemma AssembledFlags(st: Fields, key: Key)
    requires AssembleKey(st, key).Some?
    ensures var a := AssembleKey(st, key).value;
      && (a.both <==> key in st.active.spans && key in st.active.logs)
      && (a.loggy <==> key !in st.active.spans)
      && a.parentsSuppressed == (if |a.consumedKeys| == 2 && a.consumedKeys[1] in st.active.spans then 1 else 0)
  {
    hide Merge, ClaimOf;
  }

  lemma KeyInvOf(st: Fields, placed: History, key: Key)
    requires KeysInv(st, placed)
    ensures KeyInv(st, placed, key)
  {
    hide KeyInv;
  }

  // ---------------------------------------------------------------- the flags

  lemma SeenFromSignals(ex: Execution, from: set<Signal>)
    requires Represents(ex, from)
    ensures forall v :: v in ex.seenFrom <==> exists s :: s in from && v == NameOf(KindOf(s.raw))
  {
    hide VerdictOf, WorstStatus, StrongestArgs, StrongestResult, Coherent, TransportOf, FieldsFrom, ErrorsOf;
    assert (set v | v in ex.seenFrom) == KindsOf(from);
    forall v ensures v in ex.seenFrom <==> exists s :: s in from && v == NameOf(KindOf(s.raw)) {
      assert v in ex.seenFrom <==> v in KindsOf(from);
    }
  }

  /** A record is seen from logs, from traces, or from both, and from nothing else. */
  lemma SeenShapes(ex: Execution, from: set<Signal>)
    requires Represents(ex, from)
    ensures ex.seenFrom == ["logs"] || ex.seenFrom == ["traces"] || ex.seenFrom == ["logs", "traces"]
    ensures "logs" in ex.seenFrom <==> exists s :: s in from && KindOf(s.raw).Logs?
    ensures "traces" in ex.seenFrom <==> exists s :: s in from && KindOf(s.raw).Traces?
  {
    hide Represents;
    SeenFromSignals(ex, from);
    RepresentsSomething(ex, from);
    SeenNames(ex.seenFrom, from);
    hide NameOf, KindOf;
    ListOfNames(ex.seenFrom);
  }

  lemma SeenNames(seen: seq<string>, from: set<Signal>)
    requires from != {} && forall v :: v in seen <==> exists s :: s in from && v == NameOf(KindOf(s.raw))
    ensures "logs" in seen <==> exists s :: s in from && KindOf(s.raw).Logs?
    ensures "traces" in seen <==> exists s :: s in from && KindOf(s.raw).Traces?
    ensures (forall v :: v in seen ==> v == "logs" || v == "traces") && ("logs" in seen || "traces" in seen)
  {
    assert "logs" != "traces";
    var s :| s in from;
    assert NameOf(KindOf(s.raw)) in seen;
  }

  lemma ListOfNames(seen: seq<string>)
    requires Ascending(seen) && forall v :: v in seen ==> v == "logs" || v == "traces"
    requires "logs" in seen || "traces" in seen
    ensures seen == ["logs"] || seen == ["traces"] || seen == ["logs", "traces"]
  {
    hide Ascending;
    OrderedNames();
    if "logs" in seen && "traces" in seen {
      AscendingIsUnique(seen, ["logs", "traces"]);
    } else if "logs" in seen {
      AscendingIsUnique(seen, ["logs"]);
    } else {
      AscendingIsUnique(seen, ["traces"]);
    }
  }

  lemma OrderedNames()
    ensures "logs" != "traces"
    ensures Ascending(["logs"]) && Ascending(["traces"]) && Ascending(["logs", "traces"])
  {
    assert Less("logs", "traces");
  }

  lemma RepresentsSomething(ex: Execution, from: set<Signal>)
    requires Represents(ex, from)
    ensures from != {} && Ascending(ex.seenFrom)
  {
    hide Summary, Coherent, TransportOf;
  }

  lemma SlotsArePresent(st: Fields, placed: History, key: Key)
    requires KeyInv(st, placed, key)
    ensures key in st.active.spans <==> At(placed, key, Active, Traces) != {}
    ensures key in st.active.logs <==> At(placed, key, Active, Logs) != {}
  {
    hide At, Represents, FirstSeenInv, NestingInv, JoinKey, Waiting;
  }

  /** The flags the counters read are right about the record. */
  lemma FlagsAreRight(a: Assembled, from: set<Signal>, placed: History, st: Fields)
    requires KeyInv(st, placed, a.key) && Represents(a.ex, from)
    requires a.both <==> a.key in st.active.spans && a.key in st.active.logs
    requires a.loggy <==> a.key !in st.active.spans
    requires LiveAt(placed, a.key) <= from && (a.loggy ==> from == LiveAt(placed, a.key))
    ensures a.both ==> |a.ex.seenFrom| > 1
    ensures a.loggy ==> a.ex.seenFrom == ["logs"]
    ensures !a.loggy ==> "traces" in a.ex.seenFrom
  {
    hide Represents, KeyInv;
    SeenShapes(a.ex, from);
    SlotsArePresent(st, placed, a.key);
    var spanIDs, logIDs := At(placed, a.key, Active, Traces), At(placed, a.key, Active, Logs);
    if !a.loggy {
      var s :| s in spanIDs;
      assert s in from;
    }
    if a.both {
      var s :| s in logIDs;
      assert s in from;
    }
    if a.loggy {
      assert spanIDs == {};
      assert from == logIDs;
    }
  }

  lemma SuppressesParentSpan(st: Fields, placed: History, a: Assembled, key: Key)
    requires KeyInv(st, placed, key) && key in a.consumedKeys
    ensures SpanUnder(LiveUnder(placed, a.consumedKeys), key) <==> key in st.active.spans
  {
    hide KeyInv, At;
    SlotsArePresent(st, placed, key);
    SpanIsPlaced(placed, a.consumedKeys, key);
  }

  lemma SpanIsPlaced(placed: History, keys: seq<Key>, key: Key)
    requires key in keys
    ensures SpanUnder(LiveUnder(placed, keys), key) <==> At(placed, key, Active, Traces) != {}
  {
    if s :| s in LiveUnder(placed, keys) && s.key == key && KindOf(s.raw).Traces? {
      assert s in At(placed, key, Active, Traces);
    }
    if At(placed, key, Active, Traces) != {} {
      var s :| s in At(placed, key, Active, Traces);
      assert s in LiveUnder(placed, keys);
    }
  }

  /** Every record of a snapshot satisfies the record invariant. */
  lemma SnapshotItem(st: Fields, placed: History, key: Key)
    requires KeysInv(st, placed) && AssembleKey(st, key).Some? && key != ""
    ensures var a := AssembleKey(st, key).value; var item := Item(a, LiveUnder(placed, a.consumedKeys));
      ItemInv(item) && FromInv(placed, item)
  {
    hide AssembleKey, KeyInv, KeysInv, Represents, LiveAt, LiveUnder, ClaimOf, JoinKey, FromInv, SpanUnder;
    var a := AssembleKey(st, key).value;
    AssembledKey(st, key);
    AssembleBuilds(st, placed, key);
    AssembledFlags(st, key);
    KeyInvOf(st, placed, key);
    LiveUnderOne(placed, key);
    if |a.consumedKeys| == 2 {
      assert a.consumedKeys == [key, a.consumedKeys[1]];
      LiveUnderTwo(placed, key, a.consumedKeys[1]);
      KeyInvOf(st, placed, a.consumedKeys[1]);
      SuppressesParentSpan(st, placed, a, a.consumedKeys[1]);
    } else {
      assert a.consumedKeys == [key];
    }
    FlagsAreRight(a, LiveUnder(placed, a.consumedKeys), placed, st);
    FromLive(placed, a);
  }

  lemma FromLive(placed: History, a: Assembled)
    ensures FromInv(placed, Item(a, LiveUnder(placed, a.consumedKeys)))
  {}
}
