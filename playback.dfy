/**
 * Playback order: `generatePlayback` turns the bubbles and connections into the sequence of
 * bubbles to read out, by one of several modes (linear, branch, root-based, dependency path,
 * type filter, loop, weighted). Bubbles are the JavaScript objects they are; the graph helpers
 * see them through their string ids.
 */
module Playback {
  import opened Wrappers
  import opened JsValue
  import Graph

  // Priority order

  /** `node.priority || 0`, the value the comparator subtracts. */
  function PriorityValue(node: Value): Value {
    Or(Get(node, "priority"), Num(0.0))
  }

  /**
   * The sort key of a bubble: its priority as `Number` reads it, squashed into [-1, 1] so that
   * `Infinity` and `-Infinity` sit at the two ends; a priority that reads as NaN counts as 0.
   */
  function PriorityKey(node: Value): (r: real)
    ensures -1.0 <= r <= 1.0
    ensures IsPositiveInfinity(PriorityValue(node)) <==> r == 1.0
    ensures IsNegativeInfinity(PriorityValue(node)) <==> r == -1.0
  {
    var v := PriorityValue(node);
    InfinityIsNotFinite(v);
    if IsPositiveInfinity(v) then 1.0
    else if IsNegativeInfinity(v) then -1.0
    else match ToFinite(v)
      case None => 0.0
      case Some(p) => Squash(p)
  }

  function Abs(p: real): real {
    if p < 0.0 then -p else p
  }

  /** `p / (1 + |p|)`: the reals mapped in order onto the open interval (-1, 1). */
  function Squash(p: real): (r: real)
    ensures -1.0 < r < 1.0
    ensures r == 0.0 <==> p == 0.0
  {
    var d := 1.0 + Abs(p);
    assert p / d * d == p;
    p / d
  }

  /** Cross-multiplying by positive denominators keeps a strict order. */
  lemma DivideLess(p: real, dp: real, q: real, dq: real)
    requires dp > 0.0 && dq > 0.0 && p * dq < q * dp
    ensures p / dp < q / dq
  {
    var x, y := p / dp, q / dq;
    assert x * dp == p && y * dq == q;
    assert x * (dp * dq) == p * dq;
    assert y * (dp * dq) == q * dp;
  }

  /** `Squash` keeps the order of the reals strictly. */
  lemma SquashMonotone(p: real, q: real)
    requires p < q
    ensures Squash(p) < Squash(q)
  {
    var dp, dq := 1.0 + Abs(p), 1.0 + Abs(q);
    if 0.0 <= p {
      assert p * dq == p + p * q && q * dp == q + q * p;
    } else if q < 0.0 {
      assert p * dq == p - p * q && q * dp == q - q * p;
    } else {
      assert p * dq < 0.0 <= q * dp;
    }
    DivideLess(p, dp, q, dq);
  }

  /**
   * The comparator `(b.priority || 0) - (a.priority || 0)` orders two bubbles as their keys do:
   * finite priorities by value, a priority reading as `Infinity` before every other, and one
   * reading as `-Infinity` after every other (the difference of two equal infinities is NaN,
   * which the sort takes as a tie, as it takes equal keys).
   */
  lemma PriorityKeyOrder(a: Value, b: Value)
    ensures ToFinite(PriorityValue(a)).Some? && ToFinite(PriorityValue(b)).Some? ==>
      (PriorityKey(a) >= PriorityKey(b) <==> ToFinite(PriorityValue(a)).value >= ToFinite(PriorityValue(b)).value)
    ensures IsPositiveInfinity(PriorityValue(a)) && !IsPositiveInfinity(PriorityValue(b)) ==> PriorityKey(a) > PriorityKey(b)
    ensures IsNegativeInfinity(PriorityValue(b)) && !IsNegativeInfinity(PriorityValue(a)) ==> PriorityKey(a) > PriorityKey(b)
  {
    var va, vb := PriorityValue(a), PriorityValue(b);
    InfinityIsNotFinite(va);
    InfinityIsNotFinite(vb);
    if ToFinite(va).Some? && ToFinite(vb).Some? {
      var p, q := ToFinite(va).value, ToFinite(vb).value;
      if p < q {
        SquashMonotone(p, q);
      } else if q < p {
        SquashMonotone(q, p);
      }
    }
  }

  /** Non-increasing by `key`. */
  predicate SortedBy<T>(s: seq<T>, key: T -> real) {
    forall i, j :: 0 <= i < j < |s| ==> key(s[i]) >= key(s[j])
  }

  /** The elements of `s` whose key is `k`, in order. */
  function WithKey<T>(s: seq<T>, key: T -> real, k: real): (r: seq<T>)
    ensures |r| <= |s|
  {
    if s == [] then []
    else WithKey(s[..|s| - 1], key, k) + (if key(s[|s| - 1]) == k then [s[|s| - 1]] else [])
  }

  /** `x` placed after every element of `t` whose key is at least its own. */
  function Insert<T>(t: seq<T>, x: T, key: T -> real): (r: seq<T>)
    ensures multiset(r) == multiset(t) + multiset{x} && |r| == |t| + 1
  {
    if t == [] || key(t[|t| - 1]) >= key(x) then t + [x]
    else
      var init, last := t[..|t| - 1], t[|t| - 1];
      assert t == init + [last];
      Insert(init, x, key) + [last]
  }

  /** A stable insertion sort by descending key. */
  function SortBy<T>(s: seq<T>, key: T -> real): (r: seq<T>)
    ensures multiset(r) == multiset(s) && |r| == |s|
  {
    if s == [] then []
    else
      var init, last := s[..|s| - 1], s[|s| - 1];
      assert s == init + [last];
      Insert(SortBy(init, key), last, key)
  }

  /** `sortByPriority`: a stable sort by descending `priority || 0`, on a copy. */
  function SortByPriority(s: seq<Value>): (r: seq<Value>)
    ensures multiset(r) == multiset(s) && SortedBy(r, PriorityKey)
    ensures forall k :: WithKey(r, PriorityKey, k) == WithKey(s, PriorityKey, k)
  {
    SortSorted(s, PriorityKey);
    forall k ensures WithKey(SortBy(s, PriorityKey), PriorityKey, k) == WithKey(s, PriorityKey, k) {
      SortStable(s, PriorityKey, k);
    }
    SortBy(s, PriorityKey)
  }

  lemma {:induction false} InsertSorted<T>(t: seq<T>, x: T, key: T -> real)
    requires SortedBy(t, key)
    ensures SortedBy(Insert(t, x, key), key)
    decreases |t|
  {
    if t == [] || key(t[|t| - 1]) >= key(x) {
    } else {
      var init := t[..|t| - 1];
      var last := t[|t| - 1];
      InsertSorted(init, x, key);
      var u := Insert(init, x, key);
      forall y | y in u ensures key(y) >= key(last) {
        assert y in multiset(u);
        if y != x {
          assert y in multiset(init);
          var k :| 0 <= k < |init| && init[k] == y;
          assert t[k] == y;
        }
      }
      var r := u + [last];
      forall i, j | 0 <= i < j < |r| ensures key(r[i]) >= key(r[j]) {
        if j == |r| - 1 {
          assert r[i] in u;
        }
      }
    }
  }

  /** The result of the sort is in non-increasing key order. */
  lemma {:induction false} SortSorted<T>(s: seq<T>, key: T -> real)
    ensures SortedBy(SortBy(s, key), key)
    decreases |s|
  {
    if s != [] {
      SortSorted(s[..|s| - 1], key);
      InsertSorted(SortBy(s[..|s| - 1], key), s[|s| - 1], key);
    }
  }

  lemma WithKeySnoc<T>(s: seq<T>, x: T, key: T -> real, k: real)
    ensures WithKey(s + [x], key, k) == WithKey(s, key, k) + (if key(x) == k then [x] else [])
  {
    assert (s + [x])[..|s|] == s;
  }

  /** Inserting keeps each key class in order, with `x` last in its own. */
  lemma {:induction false} InsertStable<T>(t: seq<T>, x: T, key: T -> real, k: real)
    requires SortedBy(t, key)
    ensures WithKey(Insert(t, x, key), key, k) == WithKey(t, key, k) + (if key(x) == k then [x] else [])
    decreases |t|
  {
    if t == [] || key(t[|t| - 1]) >= key(x) {
      WithKeySnoc(t, x, key, k);
    } else {
      var init := t[..|t| - 1];
      var last := t[|t| - 1];
      assert SortedBy(init, key);
      InsertStable(init, x, key, k);
      WithKeySnoc(Insert(init, x, key), last, key, k);
    }
  }

  /** The sort is stable: each key class keeps its input order. */
  lemma {:induction false} SortStable<T>(s: seq<T>, key: T -> real, k: real)
    ensures WithKey(SortBy(s, key), key, k) == WithKey(s, key, k)
    decreases |s|
  {
    if s != [] {
      var init := s[..|s| - 1];
      SortStable(init, key, k);
      SortSorted(init, key);
      InsertStable(SortBy(init, key), s[|s| - 1], key, k);
    }
  }

  // Looking bubbles up by id

  /** No bubble after the `i`th carries its id. */
  predicate LastWithId(nodes: seq<Value>, i: int)
    requires 0 <= i < |nodes|
  {
    forall j :: i < j < |nodes| ==> Get(nodes[j], "id") != Get(nodes[i], "id")
  }

  /** `getNodeById`: each id mapped to the last bubble carrying it. */
  function NodeById(nodes: seq<Value>): (m: map<Value, Value>)
    ensures forall id :: id in m ==> m[id] in nodes && Get(m[id], "id") == id
    ensures forall i :: 0 <= i < |nodes| ==> Get(nodes[i], "id") in m
    // `Map.set` overwrites: a bubble no later bubble shares its id with is the one kept.
    ensures forall i :: 0 <= i < |nodes| && LastWithId(nodes, i) ==> m[Get(nodes[i], "id")] == nodes[i]
  {
    if nodes == [] then map[]
    else
      var init := nodes[..|nodes| - 1];
      var last := nodes[|nodes| - 1];
      var m := NodeById(init);
      assert forall id :: id in m ==> m[id] in nodes by {
        forall id | id in m ensures m[id] in nodes {
          var k :| 0 <= k < |init| && init[k] == m[id];
          assert nodes[k] == m[id];
        }
      }
      var r := m[Get(last, "id") := last];
      forall i | 0 <= i < |nodes| - 1 ensures Get(nodes[i], "id") in r {
        assert init[i] == nodes[i];
      }
      forall i | 0 <= i < |nodes| - 1 && LastWithId(nodes, i) ensures r[Get(nodes[i], "id")] == nodes[i] {
        assert Get(last, "id") != Get(nodes[i], "id");
        assert init[i] == nodes[i];
        forall j | i < j < |init| ensures Get(init[j], "id") != Get(init[i], "id") {
          assert init[j] == nodes[j];
        }
        assert LastWithId(init, i);
      }
      r
  }

  /** `ids.map((id) => nodeById.get(id)).filter(Boolean)`: the bubbles of the ids that have one. */
  function BubblesOf(ids: seq<Graph.Id>, byId: map<Value, Value>): (r: seq<Value>)
    ensures |r| <= |ids|
    ensures forall x :: x in r ==> exists id :: id in ids && Str(id) in byId && byId[Str(id)] == x
    ensures forall id :: id in ids && Str(id) in byId ==> byId[Str(id)] in r
  {
    if ids == [] then []
    else (if Str(ids[0]) in byId then [byId[Str(ids[0])]] else []) + BubblesOf(ids[1..], byId)
  }

  /** Each id contributes its own bubble, in the ids' order, or nothing when it has none. */
  lemma {:induction false} BubblesOfIsFilter(a: seq<Graph.Id>, b: seq<Graph.Id>, x: Graph.Id, byId: map<Value, Value>)
    ensures BubblesOf([x], byId) == if Str(x) in byId then [byId[Str(x)]] else []
    ensures BubblesOf(a + b, byId) == BubblesOf(a, byId) + BubblesOf(b, byId)
    decreases |a|
  {
    if a == [] {
      assert a + b == b;
    } else {
      assert (a + b)[0] == a[0];
      assert (a + b)[1..] == a[1..] + b;
      BubblesOfIsFilter(a[1..], b, x, byId);
    }
  }

  // The bubbles and connections as the graph helpers see them

  /** Every bubble is an object with a string id. */
  predicate StringIds(nodes: seq<Value>) {
    forall i :: 0 <= i < |nodes| ==> nodes[i].Obj? && Get(nodes[i], "id").Str?
  }

  function IdsOf(nodes: seq<Value>): (r: seq<Graph.Id>)
    requires StringIds(nodes)
    ensures |r| == |nodes| && forall i :: 0 <= i < |nodes| ==> Str(r[i]) == Get(nodes[i], "id")
  {
    if nodes == [] then [] else [Get(nodes[0], "id").s] + IdsOf(nodes[1..])
  }

  /** `getNodeId(endpoint)`: a string is an id, an object gives its `id`; "" stands for none. */
  function EndpointId(endpoint: Value): Graph.Id {
    if endpoint.Str? then endpoint.s
    else if Get(endpoint, "id").Str? then Get(endpoint, "id").s
    else ""
  }

  function LinkOf(edge: Value): Graph.Link {
    Graph.Link(EndpointId(Get(edge, "from")), EndpointId(Get(edge, "to")),
      if Get(edge, "type").Str? then Get(edge, "type").s else "")
  }

  function LinksOf(edges: seq<Value>): (r: seq<Graph.Link>)
    ensures |r| == |edges| && forall i :: 0 <= i < |edges| ==> r[i] == LinkOf(edges[i])
  {
    if edges == [] then [] else [LinkOf(edges[0])] + LinksOf(edges[1..])
  }

  // Modes

  /** `Array.isArray(v) ? v : []`. */
  function ItemsOf(v: Value): seq<Value> {
    if v.Arr? then v.items else []
  }

  /** The options `generatePlayback` reads, or `{}` for a non-object. */
  function OptionsOf(options: Value): Value {
    if IsObject(options) then options else Obj(map[])
  }

  /** What the model asks of the options: object bubbles with string ids, and string start ids. */
  predicate WellFormedOptions(options: Value) {
    var opts := OptionsOf(options);
    && StringIds(ItemsOf(Get(opts, "nodes")))
    && (Truthy(Get(opts, "startNodeId")) ==> Get(opts, "startNodeId").Str?)
    && (Truthy(Get(opts, "targetNodeId")) ==> Get(opts, "targetNodeId").Str?)
  }

  /** `type-filter`: the bubbles whose `type` is the option's, or all of them for a falsy option. */
  function TypeFilter(nodes: seq<Value>, t: Value): (r: seq<Value>)
    ensures |r| <= |nodes|
    ensures forall x :: x in r <==> x in nodes && (!Truthy(t) || Get(x, "type") == t)
  {
    if nodes == [] then []
    else (if !Truthy(t) || Get(nodes[0], "type") == t then [nodes[0]] else []) + TypeFilter(nodes[1..], t)
  }

  /** `filter` keeps each bubble, in order and once, exactly when its type matches. */
  lemma {:induction false} TypeFilterIsFilter(a: seq<Value>, b: seq<Value>, x: Value, t: Value)
    ensures TypeFilter([x], t) == if !Truthy(t) || Get(x, "type") == t then [x] else []
    ensures TypeFilter(a + b, t) == TypeFilter(a, t) + TypeFilter(b, t)
    decreases |a|
  {
    if a == [] {
      assert a + b == b;
    } else {
      assert (a + b)[0] == a[0];
      assert (a + b)[1..] == a[1..] + b;
      TypeFilterIsFilter(a[1..], b, x, t);
    }
  }

  /** A falsy type option keeps every bubble, in order. */
  lemma {:induction false} TypeFilterAll(nodes: seq<Value>, t: Value)
    requires !Truthy(t)
    ensures TypeFilter(nodes, t) == nodes
    decreases |nodes|
  {
    if nodes != [] {
      TypeFilterAll(nodes[1..], t);
    }
  }

  /** The number of rounds of `loop`: `max(1, floor(loops))` for a finite number, else 2. */
  function LoopCount(loops: Value): (n: nat)
    ensures n >= 1
    ensures !IsFinite(loops) ==> n == 2
    ensures IsFinite(loops) && loops.n >= 1.0 ==> n == loops.n.Floor
  {
    if IsFinite(loops) then (if loops.n.Floor < 1 then 1 else loops.n.Floor) else 2
  }

  /** `s` repeated `n` times. */
  function Repeat(s: seq<Value>, n: nat): (r: seq<Value>)
    ensures |r| == n * |s|
  {
    if n == 0 then [] else Repeat(s, n - 1) + s
  }

  /** Round `q` of the repetition holds `s` again: position `q * |s| + j` is `s[j]`. */
  lemma {:induction false} RepeatAt(s: seq<Value>, n: nat, q: nat, j: nat)
    requires q < n && j < |s|
    ensures q * |s| + j < |Repeat(s, n)| && Repeat(s, n)[q * |s| + j] == s[j]
    decreases n
  {
    var prev := Repeat(s, n - 1);
    assert n * |s| == (n - 1) * |s| + |s|;
    if q == n - 1 {
      assert Repeat(s, n)[q * |s| + j] == s[j];
    } else {
      RepeatAt(s, n - 1, q, j);
      assert q * |s| + j < |prev|;
    }
  }

  /** The `loop` mode: the bubbles pushed `rounds` times over. */
  method LoopPlayback(nodes: seq<Value>, rounds: nat) returns (result: seq<Value>)
    ensures result == Repeat(nodes, rounds)
  {
    result := [];
    for i := 0 to rounds
      invariant result == Repeat(nodes, i)
    {
      result := result + nodes;
    }
  }

  /** `minPriority` when it is a finite number. */
  function MinPriority(opts: Value): Option<real> {
    if IsFinite(Get(opts, "minPriority")) then Some(Get(opts, "minPriority").n) else None
  }

  /** `tag` when it is a non-empty string. */
  function TagOption(opts: Value): Option<string> {
    if Get(opts, "tag").Str? && Get(opts, "tag").s != [] then Some(Get(opts, "tag").s) else None
  }

  /** The `weighted` filter: priority at least the minimum, and the tag among the bubble's tags. */
  predicate Weighted(node: Value, minPriority: Option<real>, tag: Option<string>) {
    && (minPriority.Some? ==> AtLeast(Or(Get(node, "priority"), Num(0.0)), minPriority.value))
    && (tag.Some? ==> Get(node, "tags").Arr? && Str(tag.value) in Get(node, "tags").items)
  }

  function WeightedFilter(nodes: seq<Value>, minPriority: Option<real>, tag: Option<string>): (r: seq<Value>)
    ensures |r| <= |nodes|
    ensures forall x :: x in r <==> x in nodes && Weighted(x, minPriority, tag)
  {
    if nodes == [] then []
    else (if Weighted(nodes[0], minPriority, tag) then [nodes[0]] else []) + WeightedFilter(nodes[1..], minPriority, tag)
  }

  /** `filter` keeps each bubble, in order and once, exactly when it passes the weighted test. */
  lemma {:induction false} WeightedFilterIsFilter(a: seq<Value>, b: seq<Value>, x: Value, minPriority: Option<real>, tag: Option<string>)
    ensures WeightedFilter([x], minPriority, tag) == if Weighted(x, minPriority, tag) then [x] else []
    ensures WeightedFilter(a + b, minPriority, tag) == WeightedFilter(a, minPriority, tag) + WeightedFilter(b, minPriority, tag)
    decreases |a|
  {
    if a == [] {
      assert a + b == b;
    } else {
      assert (a + b)[0] == a[0];
      assert (a + b)[1..] == a[1..] + b;
      WeightedFilterIsFilter(a[1..], b, x, minPriority, tag);
    }
  }

  /**
   * `generatePlayback`. `graphLoaded` says whether the graph helpers are present; without them
   * `branch` plays the start alone, `root-based` nothing and `dependency-path` the target alone.
   */
  method GeneratePlayback(mode: Value, options: Value, graphLoaded: bool) returns (r: seq<Value>)
    requires WellFormedOptions(options)
    ensures var nodes := ItemsOf(Get(OptionsOf(options), "nodes"));
      && (nodes == [] ==> r == [])
      && ((nodes != [] && mode !in {Str("branch"), Str("root-based"), Str("dependency-path"),
             Str("type-filter"), Str("loop"), Str("weighted")}) ==> r == nodes)
      && (nodes != [] && mode == Str("type-filter") ==> r == TypeFilter(nodes, Get(OptionsOf(options), "type")))
      && (nodes != [] && mode == Str("loop") ==> r == Repeat(nodes, LoopCount(Get(OptionsOf(options), "loops"))))
      && (nodes != [] && mode == Str("weighted") ==>
            r == SortByPriority(WeightedFilter(nodes, MinPriority(OptionsOf(options)), TagOption(OptionsOf(options)))))
      && (nodes != [] && mode in {Str("branch"), Str("root-based"), Str("dependency-path")} ==>
            forall x :: x in r ==> x in nodes)
      && (nodes != [] && mode == Str("branch") ==>
            var start := Or(Get(OptionsOf(options), "startNodeId"), Get(nodes[0], "id"));
            start in NodeById(nodes) ==> |r| >= 1 && r[0] == NodeById(nodes)[start])
  {
    var opts := OptionsOf(options);
    var nodes := ItemsOf(Get(opts, "nodes"));
    var edges := ItemsOf(Get(opts, "edges"));
    if nodes == [] {
      return [];
    }
    var ids := IdsOf(nodes);
    var links := LinksOf(edges);
    var byId := NodeById(nodes);
    if mode == Str("linear") {
      r := nodes;
    } else if mode == Str("branch") {
      var start := Or(Get(opts, "startNodeId"), Get(nodes[0], "id"));
      var descendants := [];
      if graphLoaded {
        descendants := Graph.GetDescendants(start.s, ids, links);
      }
      r := BubblesOf([start.s] + descendants, byId);
      assert start == Str(start.s);
      if start in byId {
        assert r[0] == byId[start];
      }
    } else if mode == Str("root-based") {
      var roots := if graphLoaded then Graph.Roots(ids, links) else [];
      r := BubblesOf(roots, byId);
    } else if mode == Str("dependency-path") {
      var target := Or(Get(opts, "targetNodeId"), Get(nodes[0], "id"));
      var path := [target.s];
      if graphLoaded {
        path := Graph.GetDependencyPath(target.s, ids, links);
      }
      r := BubblesOf(path, byId);
    } else if mode == Str("type-filter") {
      r := TypeFilter(nodes, Get(opts, "type"));
    } else if mode == Str("loop") {
      r := LoopPlayback(nodes, LoopCount(Get(opts, "loops")));
    } else if mode == Str("weighted") {
      r := SortByPriority(WeightedFilter(nodes, MinPriority(opts), TagOption(opts)));
    } else {
      r := nodes;
    }
  }
}
