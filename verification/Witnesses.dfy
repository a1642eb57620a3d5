/** The claim graphs the other theorems single out do arise: spans that name each other, chains and
    shared parents, each from client spans as they arrive. */
module Witnesses {
  import opened Text
  import opened Observation
  import opened Normalize
  import opened NormalizeLaws
  import opened MergeLaws
  import opened Processor
  import opened Machine
  import opened StepProofs
  import opened Guarantees
  import opened RunLaws
  import opened Drain
  import opened Pipeline
  import Sink

  // ---------------------------------------------------------------- client spans

  /** A tools/call client span of one trace. */
  function ClientSpan(id: byte, parent: byte): Span {
    Span([1], [id], [parent], KindClient, 1, 2, None,
         [KeyValue("mcp.method.name", Some(StringValue("tools/call"))),
          KeyValue("gen_ai.tool.name", Some(StringValue("restart")))])
  }

  function KeyFor(id: byte): Key { HexID([1]) + "/" + HexID([id]) }

  lemma KeysDiffer(a: byte, b: byte)
    requires a != b
    ensures KeyFor(a) != KeyFor(b)
  {
    hide HexID;
    assert [a][0] == a && [b][0] == b;
    HexKeysAreExact([1], [a], [1], [b]);
    KeyForIsJoinKey(a);
    KeyForIsJoinKey(b);
  }

  lemma KeyForIsJoinKey(id: byte)
    ensures JoinKey(HexID([1]), HexID([id])) == KeyFor(id) != ""
  {
    hide HexID, TrimSpace;
    HexIsTrimmed([1]);
    HexIsTrimmed([id]);
  }

  lemma SpanAttributes(id: byte, parent: byte)
    ensures AttributesOf(ClientSpan(id, parent).attributes) ==
      map["mcp.method.name" := "tools/call", "gen_ai.tool.name" := "restart"]
  {
    var a := ClientSpan(id, parent).attributes;
    assert AttributesOf(a[..0]) == map[];
    assert a[..1][..0] == a[..0] && a[..2][..1] == a[..1] && a[..2] == a;
    assert AttributesOf(a[..1]) == map["mcp.method.name" := "tools/call"];
  }

  lemma ClientSpanNormalizes(env: Env, id: byte, parent: byte)
    ensures NormalizeSignal(env, RawSpan(ClientSpan(id, parent))).Some?
    ensures var ex := NormalizeSignal(env, RawSpan(ClientSpan(id, parent))).value;
      JoinKey(ex.traceID, ex.spanID) == KeyFor(id) && ClaimOf(ex) == Some(KeyFor(parent))
  {
    hide AttributesOf, SourceFrom, Classify, StatusRule, Offered, HexID, TrimSpace;
    var span := ClientSpan(id, parent);
    SpanAttributes(id, parent);
    var attrs := AttributesOf(span.attributes);
    assert Attr(attrs, MethodName) == "tools/call" && Attr(attrs, ToolName) == "restart";
    assert Get(attrs, "mcp.resource.type") == "";
    hide Attr, Get;
    HexIsTrimmed([1]);
    HexIsTrimmed([id]);
    HexIsTrimmed([parent]);
    assert HexID([parent]) != "";
    KeyForIsJoinKey(id);
  }

  // ---------------------------------------------------------------- arrivals

  /** An idle processor that has written nothing and holds spans under exactly these keys. */
  ghost predicate Holding(env: Env, m: Machine, keys: set<Key>) {
    && Reachable(env, m) && m.phase.Idle? && m.p.emitted == {}
    && m.p.active.spans.Keys == keys && m.p.active.firstSeen.Keys == keys
  }

  ghost predicate ClaimsGrow(before: map<Key, Execution>, after: map<Key, Execution>, id: byte, parent: byte) {
    forall child, key :: Claims(after, child, key) <==>
      Claims(before, child, key) || (child == KeyFor(id) && key == KeyFor(parent))
  }

  lemma Empty(env: Env) returns (m: Machine)
    ensures Holding(env, m, {}) && forall child, key :: !Claims(m.p.active.spans, child, key)
  {
    m := Machine(Fresh(), Idle, Sink.State([], false), multiset{}, [], [], None, map[], []);
    assert Init(m) && Runs(env, m, []) && End(env, m, []) == m;
  }

  lemma NothingElsewhere(env: Env, m: Machine, key: Key)
    requires Reachable(env, m) && m.phase.Idle?
    ensures key !in m.p.inFlight && key !in m.p.pending.firstSeen
  {
    hide KeysInv, HistoryInv, RecordsInv, StatsInv, FileInv, SeenInv, Reachable;
    ReachableStatesAreSound(env, m);
    StructureAt(m.p, m.placed, key);
  }

  lemma Buffers(p: Fields, ex: Execution, id: byte, parent: byte)
    requires JoinKey(ex.traceID, ex.spanID) == KeyFor(id) != "" && ClaimOf(ex) == Some(KeyFor(parent))
    requires KeyFor(id) !in p.active.spans && KeyFor(id) !in p.emitted
    requires KeyFor(id) !in p.inFlight && KeyFor(id) !in p.pending.firstSeen
    ensures var q := BufferStep(p, ex, Traces, 0);
      && ClaimsGrow(p.active.spans, q.active.spans, id, parent) && q.emitted == p.emitted
      && q.active.spans.Keys == p.active.spans.Keys + {KeyFor(id)}
      && q.active.firstSeen.Keys == p.active.firstSeen.Keys + {KeyFor(id)}
  {
    hide JoinKey, KeyFor;
    var q := BufferStep(p, ex, Traces, 0);
    assert q.active.spans == p.active.spans[KeyFor(id) := Stamp(p, ex)];
    assert ClaimOf(Stamp(p, ex)) == ClaimOf(ex);
    hide ClaimOf;
  }

  /** The client span arrives. */
  lemma Arrives(env: Env, m: Machine, keys: set<Key>, id: byte, parent: byte) returns (n: Machine)
    requires Holding(env, m, keys) && KeyFor(id) !in keys
    ensures Holding(env, n, keys + {KeyFor(id)}) && ClaimsGrow(m.p.active.spans, n.p.active.spans, id, parent)
  {
    hide Reachable, NormalizeSignal, BufferStep, Step, Enabled, JoinKey, ClaimOf, KeyFor, ClaimsGrow, Leads;
    var raw := RawSpan(ClientSpan(id, parent));
    ClientSpanNormalizes(env, id, parent);
    KeyForIsJoinKey(id);
    NothingElsewhere(env, m, KeyFor(id));
    ConsumeIsTwoSteps(env, m, raw, 0);
    n := Step(env, Step(env, m, See(raw)), Take(raw, 0));
    LeadsByTwo(env, m, See(raw), Take(raw, 0));
    ReachableOn(env, m, [See(raw), Take(raw, 0)], n);
    var seen := m.p.(stats := CountSeen(m.p.stats, raw));
    Buffers(seen, NormalizeSignal(env, raw).value, id, parent);
  }

  // ---------------------------------------------------------------- the graphs

  /** Two client spans that name each other: a buffer no Flush can empty. */
  lemma MutualClaimsArise(env: Env) returns (m: Machine)
    ensures Reachable(env, m) && m.phase.Idle? && m.p.active.firstSeen != map[] && OnlyCycles(m.p)
  {
    hide Reachable, KeyFor, Claims, NamesAnother;
    var a, b := KeyFor(1), KeyFor(2);
    KeysDiffer(1, 2);
    var m0 := Empty(env);
    var m1 := Arrives(env, m0, {}, 1, 2);
    m := Arrives(env, m1, {a}, 2, 1);
    assert {} + {a} == {a};
    assert Claims(m.p.active.spans, a, b) && Claims(m.p.active.spans, b, a);
    assert a in m.p.active.firstSeen.Keys && b in m.p.active.firstSeen.Keys;
    NamesIt(m.p, a, b);
    NamesIt(m.p, b, a);
    assert forall key :: key in m.p.active.firstSeen ==> key == a || key == b;
  }

  lemma NamesIt(p: Fields, key: Key, parent: Key)
    requires Claims(p.active.spans, key, parent) && parent in p.active.firstSeen && parent != key
    ensures NamesAnother(p, key)
  {
    hide Claims;
  }

  /** A chain of claims, as ChainLeavesItsRoot takes it. */
  lemma ChainArises(env: Env) returns (m: Machine, child: Key, middle: Key, root: Key)
    ensures Reachable(env, m) && m.phase.Idle? && child != middle && middle != root && root in m.p.active.firstSeen
    ensures Claims(m.p.active.spans, child, middle) && Claims(m.p.active.spans, middle, root)
    ensures forall other :: Claims(m.p.active.spans, other, middle) ==> other == child
    ensures forall other :: Claims(m.p.active.spans, other, root) ==> other == middle
    ensures forall other :: !Claims(m.p.active.spans, other, child)
  {
    hide Reachable, KeyFor, Claims;
    child, middle, root := KeyFor(1), KeyFor(2), KeyFor(3);
    DistinctKeys();
    var m0 := Empty(env);
    var m1 := Arrives(env, m0, {}, 1, 2);
    assert {} + {child} == {child};
    var m2 := Arrives(env, m1, {child}, 2, 3);
    assert {child} + {middle} == {child, middle};
    m := Arrives(env, m2, {child, middle}, 3, 4);
    assert root in m.p.active.firstSeen.Keys;
  }

  /** Two client spans of one parent, as SharedParentIsConsumedTwice takes them. */
  lemma SharedParentArises(env: Env) returns (m: Machine, first: Key, second: Key, parent: Key)
    ensures Reachable(env, m) && m.phase.Idle? && parent in m.p.active.spans
    ensures first != second && parent != first && parent != second
    ensures Claims(m.p.active.spans, first, parent) && Claims(m.p.active.spans, second, parent)
  {
    hide Reachable, KeyFor, Claims;
    first, second, parent := KeyFor(1), KeyFor(2), KeyFor(3);
    DistinctKeys();
    var m0 := Empty(env);
    var m1 := Arrives(env, m0, {}, 1, 3);
    assert {} + {first} == {first};
    var m2 := Arrives(env, m1, {first}, 2, 3);
    assert {first} + {second} == {first, second};
    m := Arrives(env, m2, {first, second}, 3, 4);
    assert parent in m.p.active.spans.Keys;
  }

  lemma DistinctKeys()
    ensures KeyFor(1) != KeyFor(2) && KeyFor(1) != KeyFor(3) && KeyFor(2) != KeyFor(3)
    ensures KeyFor(1) != KeyFor(4) && KeyFor(2) != KeyFor(4) && KeyFor(3) != KeyFor(4)
  {
    hide KeyFor;
    KeysDiffer(1, 2);
    KeysDiffer(1, 3);
    KeysDiffer(2, 3);
    KeysDiffer(1, 4);
    KeysDiffer(2, 4);
    KeysDiffer(3, 4);
  }
}
