/**
 * Graph utilities over the bubble map: adjacency lists, reachability forwards and backwards,
 * the dependency chain above a node, connected components, cycle detection, roots and a
 * validation summary. Nodes are given by their ids and edges by their endpoint ids; an edge
 * counts only when both endpoints are node ids.
 */
module Graph {
  import opened Wrappers
  import opened JsValue

  type Id = string

  /** An edge with its endpoint ids resolved (`fromId`, `toId`) and its `type` ("" when absent). */
  datatype Link = Link(from: Id, to: Id, kind: string)

  function NodeIds(nodes: seq<Id>): set<Id> {
    set n | n in nodes
  }

  /** An edge is kept when both endpoints are node ids. */
  predicate Kept(ids: set<Id>, e: Link) {
    e.from in ids && e.to in ids
  }

  /** The kept edges leaving `v`, in input order. */
  function OutLinks(ids: set<Id>, edges: seq<Link>, v: Id): seq<Link> {
    if edges == [] then []
    else
      var e := edges[|edges| - 1];
      OutLinks(ids, edges[..|edges| - 1], v) + (if Kept(ids, e) && e.from == v then [e] else [])
  }

  /** The kept edges entering `v`, in input order. */
  function InLinks(ids: set<Id>, edges: seq<Link>, v: Id): seq<Link> {
    if edges == [] then []
    else
      var e := edges[|edges| - 1];
      InLinks(ids, edges[..|edges| - 1], v) + (if Kept(ids, e) && e.to == v then [e] else [])
  }

  /** An edge leaves `v` in the lists exactly when it is a kept edge from `v`. */
  lemma {:induction false} OutLinksSpec(ids: set<Id>, edges: seq<Link>, v: Id, e: Link)
    ensures e in OutLinks(ids, edges, v) <==> e in edges && Kept(ids, e) && e.from == v
    decreases |edges|
  {
    if edges != [] {
      var init := edges[..|edges| - 1];
      OutLinksSpec(ids, init, v, e);
      assert edges == init + [edges[|edges| - 1]];
    }
  }

  /** An edge enters `v` in the lists exactly when it is a kept edge to `v`. */
  lemma {:induction false} InLinksSpec(ids: set<Id>, edges: seq<Link>, v: Id, e: Link)
    ensures e in InLinks(ids, edges, v) <==> e in edges && Kept(ids, e) && e.to == v
    decreases |edges|
  {
    if edges != [] {
      var init := edges[..|edges| - 1];
      InLinksSpec(ids, init, v, e);
      assert edges == init + [edges[|edges| - 1]];
    }
  }

  /** The outgoing lists `buildAdjacency` computes: one per node id. */
  function OutMap(nodes: seq<Id>, edges: seq<Link>): map<Id, seq<Link>> {
    map v | v in NodeIds(nodes) :: OutLinks(NodeIds(nodes), edges, v)
  }

  /** The incoming lists `buildAdjacency` computes: one per node id. */
  function InMap(nodes: seq<Id>, edges: seq<Link>): map<Id, seq<Link>> {
    map v | v in NodeIds(nodes) :: InLinks(NodeIds(nodes), edges, v)
  }

  /** Extending the edge list by one edge appends it to its source's outgoing list only. */
  lemma OutStep(ids: set<Id>, edges: seq<Link>, i: nat, out: map<Id, seq<Link>>, out': map<Id, seq<Link>>)
    requires i < |edges| && out.Keys == ids
    requires forall v :: v in ids ==> out[v] == OutLinks(ids, edges[..i], v)
    requires var e := edges[i]; out' == if Kept(ids, e) then out[e.from := out[e.from] + [e]] else out
    ensures out'.Keys == ids
    ensures forall v :: v in ids ==> out'[v] == OutLinks(ids, edges[..i + 1], v)
  {
    assert edges[..i + 1][..i] == edges[..i];
  }

  /** Extending the edge list by one edge appends it to its target's incoming list only. */
  lemma InStep(ids: set<Id>, edges: seq<Link>, i: nat, inc: map<Id, seq<Link>>, inc': map<Id, seq<Link>>)
    requires i < |edges| && inc.Keys == ids
    requires forall v :: v in ids ==> inc[v] == InLinks(ids, edges[..i], v)
    requires var e := edges[i]; inc' == if Kept(ids, e) then inc[e.to := inc[e.to] + [e]] else inc
    ensures inc'.Keys == ids
    ensures forall v :: v in ids ==> inc'[v] == InLinks(ids, edges[..i + 1], v)
  {
    assert edges[..i + 1][..i] == edges[..i];
  }

  /**
   * `buildAdjacency`: every node id gets a (possibly empty) outgoing and incoming list, and each
   * kept edge is appended to its source's outgoing list and its target's incoming list.
   */
  method BuildAdjacency(nodes: seq<Id>, edges: seq<Link>) returns (outgoing: map<Id, seq<Link>>, incoming: map<Id, seq<Link>>)
    ensures outgoing == OutMap(nodes, edges) && incoming == InMap(nodes, edges)
  {
    var ids := NodeIds(nodes);
    outgoing := map v | v in ids :: [];
    incoming := map v | v in ids :: [];
    for i := 0 to |edges|
      invariant outgoing.Keys == ids && incoming.Keys == ids
      invariant forall v :: v in ids ==> outgoing[v] == OutLinks(ids, edges[..i], v)
      invariant forall v :: v in ids ==> incoming[v] == InLinks(ids, edges[..i], v)
    {
      var e := edges[i];
      var out', inc' := outgoing, incoming;
      if e.from in ids && e.to in ids {
        out' := outgoing[e.from := outgoing[e.from] + [e]];
        inc' := incoming[e.to := incoming[e.to] + [e]];
      }
      OutStep(ids, edges, i, outgoing, out');
      InStep(ids, edges, i, incoming, inc');
      outgoing, incoming := out', inc';
    }
    assert edges[..|edges|] == edges;
  }

  // Reachability over neighbour lists

  /** No element occurs twice (a JavaScript `Set` read back with `Array.from`). */
  predicate Distinct(s: seq<Id>) {
    forall i, j :: 0 <= i < j < |s| ==> s[i] != s[j]
  }

  /** `neighborMap.get(v) || []`. */
  function Succ(g: map<Id, seq<Id>>, v: Id): seq<Id> {
    if v in g then g[v] else []
  }

  /** Each element of `p` is a neighbour of the one before it. */
  predicate IsWalk(g: map<Id, seq<Id>>, p: seq<Id>) {
    forall i :: 0 <= i < |p| - 1 ==> p[i + 1] in Succ(g, p[i])
  }

  /** `p` is a walk of at least one step from `s` to `t`. */
  predicate PathFromTo(g: map<Id, seq<Id>>, s: Id, t: Id, p: seq<Id>) {
    |p| >= 2 && p[0] == s && p[|p| - 1] == t && IsWalk(g, p)
  }

  /** `t` can be reached from `s` in one or more steps. */
  ghost predicate Reaches(g: map<Id, seq<Id>>, s: Id, t: Id) {
    exists p :: PathFromTo(g, s, t, p)
  }

  /** Every neighbour of a member of `S` is in `S`. */
  predicate Closed(g: map<Id, seq<Id>>, S: set<Id>) {
    forall v, w :: v in S && w in Succ(g, v) ==> w in S
  }

  /** Every id that occurs in some neighbour list. */
  function Targets(g: map<Id, seq<Id>>): set<Id> {
    set v, i | v in g && 0 <= i < |g[v]| :: g[v][i]
  }

  /** A walk may be extended by a neighbour of its last element. */
  lemma WalkSnoc(g: map<Id, seq<Id>>, p: seq<Id>, w: Id)
    requires |p| >= 1 && IsWalk(g, p) && w in Succ(g, p[|p| - 1])
    ensures IsWalk(g, p + [w])
  {
    var q := p + [w];
    forall i | 0 <= i < |q| - 1 ensures q[i + 1] in Succ(g, q[i]) {
      if i < |p| - 1 {
        assert q[i] == p[i] && q[i + 1] == p[i + 1];
      }
    }
  }

  /** A walk that starts in a closed set stays in it. */
  lemma {:induction false} WalkInClosed(g: map<Id, seq<Id>>, S: set<Id>, p: seq<Id>, k: nat)
    requires Closed(g, S) && IsWalk(g, p) && |p| >= 1 && p[0] in S && k < |p|
    ensures p[k] in S
  {
    if k > 0 {
      WalkInClosed(g, S, p, k - 1);
      assert p[k] in Succ(g, p[k - 1]);
    }
  }

  /** Whatever a member of a closed set reaches is in the set. */
  lemma ReachesInClosed(g: map<Id, seq<Id>>, S: set<Id>, s: Id, t: Id)
    requires Closed(g, S) && s in S && Reaches(g, s, t)
    ensures t in S
  {
    var p :| PathFromTo(g, s, t, p);
    WalkInClosed(g, S, p, |p| - 1);
  }

  /** A path to `v` followed by a neighbour of `v` is a path to that neighbour. */
  lemma PathSnoc(g: map<Id, seq<Id>>, s: Id, v: Id, p: seq<Id>, w: Id)
    requires (p == [s] && v == s) || PathFromTo(g, s, v, p)
    requires w in Succ(g, v)
    ensures PathFromTo(g, s, w, p + [w])
  {
    WalkSnoc(g, p, w);
  }

  /** A repetition-free list drawn from `U` is no longer than `U` is large. */
  lemma {:induction false} DistinctBound(s: seq<Id>, U: set<Id>)
    requires Distinct(s) && forall x :: x in s ==> x in U
    ensures |s| <= |U|
    decreases |s|
  {
    if s != [] {
      var x := s[|s| - 1];
      var init := s[..|s| - 1];
      assert x !in init;
      DistinctBound(init, U - {x});
    }
  }

  // Forward and backward walks

  /** `edge.toId || edge.fromId`: the target, or the source when the target id is empty. */
  function NextId(e: Link): Id {
    if e.to != "" then e.to else e.from
  }

  function Nexts(links: seq<Link>): (r: seq<Id>)
    ensures |r| == |links| && forall i :: 0 <= i < |links| ==> r[i] == NextId(links[i])
  {
    seq(|links|, i requires 0 <= i < |links| => NextId(links[i]))
  }

  /** The neighbour lists `walk` follows: each edge list read through `NextId`. */
  function NextGraph(m: map<Id, seq<Link>>): map<Id, seq<Id>> {
    map v | v in m :: Nexts(m[v])
  }

  /** The `walk` loop invariant: paths to every visited id, and the processed ids closed. */
  ghost predicate WalkInvariant(g: map<Id, seq<Id>>, start: Id, visited: seq<Id>, queue: seq<Id>,
                                done: set<Id>, paths: map<Id, seq<Id>>)
  {
    && Distinct(visited) && start !in visited
    && (forall v :: v in visited ==> v in Targets(g))
    && (forall v :: v in visited ==> v in paths && PathFromTo(g, start, v, paths[v]))
    && (forall q :: q in queue ==> q == start || q in visited)
    && (forall v, w :: v in done && w in Succ(g, v) ==> w == start || w in visited)
  }

  /** Visiting a new neighbour of a visited id (or of `start`) keeps the invariant. */
  lemma VisitStep(g: map<Id, seq<Id>>, start: Id, visited: seq<Id>, queue: seq<Id>, done: set<Id>,
                  paths: map<Id, seq<Id>>, current: Id, next: Id)
    requires WalkInvariant(g, start, visited, queue, done, paths)
    requires current == start || current in visited
    requires next in Succ(g, current) && next !in visited && next != start
    ensures var p := (if current == start then [start] else paths[current]) + [next];
      WalkInvariant(g, start, visited + [next], queue + [next], done, paths[next := p])
  {
    var p := (if current == start then [start] else paths[current]) + [next];
    var vs, qs, ps := visited + [next], queue + [next], paths[next := p];
    assert Distinct(vs) by {
      forall i, j | 0 <= i < j < |vs|
        ensures vs[i] != vs[j]
      {
        if j == |visited| {
          assert vs[i] == visited[i] && vs[j] == next;
        } else {
          assert vs[i] == visited[i] && vs[j] == visited[j];
        }
      }
    }
    assert forall v :: v in vs ==> v in visited || v == next;
    assert start !in vs;
    assert forall v :: v in vs ==> v in Targets(g) by {
      var k :| 0 <= k < |g[current]| && g[current][k] == next;
      assert next in Targets(g);
    }
    forall v | v in vs
      ensures v in ps && PathFromTo(g, start, v, ps[v])
    {
      if v == next {
        PathSnoc(g, start, current, if current == start then [start] else paths[current], next);
      } else {
        assert v in visited;
      }
    }
    assert forall q :: q in qs ==> q == start || q in vs;
    assert forall v, w :: v in done && w in Succ(g, v) ==> w == start || w in vs by {
      forall v, w | v in done && w in Succ(g, v) ensures w == start || w in vs {
        assert w == start || w in visited;
      }
    }
  }

  /** Taking the head off the queue keeps the invariant. */
  lemma DequeueStep(g: map<Id, seq<Id>>, start: Id, visited: seq<Id>, queue: seq<Id>, done: set<Id>,
                    paths: map<Id, seq<Id>>)
    requires WalkInvariant(g, start, visited, queue, done, paths) && queue != []
    ensures WalkInvariant(g, start, visited, queue[1..], done, paths)
    ensures queue[0] == start || queue[0] in visited
  {
    assert forall q :: q in queue[1..] ==> q in queue;
  }

  /**
   * The `neighbors.forEach` of `walk`: each neighbour not yet visited and not `start` is
   * appended to both `visited` and the queue, in list order.
   */
  method VisitNeighbors(start: Id, current: Id, neighbors: seq<Link>, visited: seq<Id>, queue: seq<Id>,
                        ghost g: map<Id, seq<Id>>, ghost done: set<Id>, ghost paths: map<Id, seq<Id>>)
    returns (visited': seq<Id>, queue': seq<Id>, ghost paths': map<Id, seq<Id>>)
    requires WalkInvariant(g, start, visited, queue, done, paths)
    requires current == start || current in visited
    requires Succ(g, current) == Nexts(neighbors)
    ensures WalkInvariant(g, start, visited', queue', done, paths')
    ensures |visited| <= |visited'| && visited'[..|visited|] == visited
    ensures queue' == queue + visited'[|visited|..]
    ensures forall w :: w in Succ(g, current) ==> w == start || w in visited'
  {
    visited', queue', paths' := visited, queue, paths;
    for i := 0 to |neighbors|
      invariant WalkInvariant(g, start, visited', queue', done, paths')
      invariant |visited| <= |visited'| && visited'[..|visited|] == visited
      invariant queue' == queue + visited'[|visited|..]
      invariant forall j :: 0 <= j < i ==> NextId(neighbors[j]) == start || NextId(neighbors[j]) in visited'
    {
      var nextId := NextId(neighbors[i]);
      if nextId !in visited' && nextId != start {
        assert nextId in Succ(g, current);
        assert current == start || current in visited' by {
          if current != start { assert current in visited'[..|visited|]; }
        }
        VisitStep(g, start, visited', queue', done, paths', current, nextId);
        assert forall y :: y in visited' ==> y in visited' + [nextId];
        paths' := paths'[nextId := (if current == start then [start] else paths'[current]) + [nextId]];
        assert (visited' + [nextId])[|visited|..] == visited'[|visited|..] + [nextId];
        visited' := visited' + [nextId];
        queue' := queue' + [nextId];
      }
    }
  }

  /**
   * `walk`: breadth-first search from `start` along `NextId`; the result holds, without
   * repetition, exactly the ids reachable in one or more steps other than `start` itself.
   */
  method Walk(start: Id, neighborMap: map<Id, seq<Link>>) returns (visited: seq<Id>)
    ensures Distinct(visited)
    ensures forall v :: v in visited <==> v != start && Reaches(NextGraph(neighborMap), start, v)
  {
    ghost var g := NextGraph(neighborMap);
    ghost var done: set<Id> := {};
    ghost var paths: map<Id, seq<Id>> := map[];
    visited := [];
    var queue := [start];
    while queue != []
      invariant WalkInvariant(g, start, visited, queue, done, paths)
      invariant forall v :: v == start || v in visited ==> v in done || v in queue
      invariant |visited| <= |Targets(g)|
      decreases |Targets(g)| - |visited|, |queue|
    {
      DequeueStep(g, start, visited, queue, done, paths);
      var current := queue[0];
      var rest := queue[1..];
      var neighbors := if current in neighborMap then neighborMap[current] else [];
      assert Succ(g, current) == Nexts(neighbors);
      ghost var before := visited;
      visited, queue, paths := VisitNeighbors(start, current, neighbors, visited, rest, g, done, paths);
      assert forall v :: v in before ==> v in visited by {
        assert forall v :: v in before ==> v in visited[..|before|];
      }
      assert forall v :: v in rest ==> v in queue;
      done := done + {current};
      DistinctBound(visited, Targets(g));
    }
    WalkComplete(g, start, visited, done);
    WalkSound(g, start, visited, paths);
  }

  /** Every visited id has a path from `start`. */
  lemma WalkSound(g: map<Id, seq<Id>>, start: Id, visited: seq<Id>, paths: map<Id, seq<Id>>)
    requires forall v :: v in visited ==> v in paths && PathFromTo(g, start, v, paths[v])
    ensures forall v :: v in visited ==> Reaches(g, start, v)
  {
    forall v | v in visited ensures Reaches(g, start, v) {
      assert PathFromTo(g, start, v, paths[v]);
    }
  }

  /** When the queue is empty, the visited ids and `start` form a closed set. */
  lemma WalkComplete(g: map<Id, seq<Id>>, start: Id, visited: seq<Id>, done: set<Id>)
    requires forall v, w :: v in done && w in Succ(g, v) ==> w == start || w in visited
    requires forall v :: v == start || v in visited ==> v in done
    requires start !in visited
    ensures forall v :: Reaches(g, start, v) && v != start ==> v in visited
  {
    var S := {start} + set v | v in visited;
    assert Closed(g, S);
    forall v | Reaches(g, start, v) && v != start ensures v in visited {
      ReachesInClosed(g, S, start, v);
    }
  }

  /** `{ ...edge, toId: edge.fromId }` for each edge of a list. */
  function Flip(links: seq<Link>): (r: seq<Link>)
    ensures |r| == |links| && forall i :: 0 <= i < |links| ==> r[i] == links[i].(to := links[i].from)
  {
    seq(|links|, i requires 0 <= i < |links| => links[i].(to := links[i].from))
  }

  /** The `reversed` map of `getAncestors`: incoming lists with each edge pointing at its source. */
  function Reversed(incoming: map<Id, seq<Link>>): map<Id, seq<Link>> {
    map v | v in incoming :: Flip(incoming[v])
  }

  /** The graph `getDescendants` walks. */
  function DescendantGraph(nodes: seq<Id>, edges: seq<Link>): map<Id, seq<Id>> {
    NextGraph(OutMap(nodes, edges))
  }

  /** The graph `getAncestors` walks. */
  function AncestorGraph(nodes: seq<Id>, edges: seq<Link>): map<Id, seq<Id>> {
    NextGraph(Reversed(InMap(nodes, edges)))
  }

  /** `getDescendants`: the ids reachable from `nodeId` along kept edges, without `nodeId`. */
  method GetDescendants(nodeId: Id, nodes: seq<Id>, edges: seq<Link>) returns (r: seq<Id>)
    ensures Distinct(r)
    ensures forall v :: v in r <==> v != nodeId && Reaches(DescendantGraph(nodes, edges), nodeId, v)
  {
    var outgoing, incoming := BuildAdjacency(nodes, edges);
    r := Walk(nodeId, outgoing);
  }

  /** `getAncestors`: the ids from which `nodeId` is reachable along kept edges, without `nodeId`. */
  method GetAncestors(nodeId: Id, nodes: seq<Id>, edges: seq<Link>) returns (r: seq<Id>)
    ensures Distinct(r)
    ensures forall v :: v in r <==> v != nodeId && Reaches(AncestorGraph(nodes, edges), nodeId, v)
  {
    var outgoing, incoming := BuildAdjacency(nodes, edges);
    var reversed := Reversed(incoming);
    r := Walk(nodeId, reversed);
  }

  /** `getBranchFromRoot`: the root followed by its descendants. */
  method GetBranchFromRoot(rootId: Id, nodes: seq<Id>, edges: seq<Link>) returns (r: seq<Id>)
    ensures |r| >= 1 && r[0] == rootId && Distinct(r)
    ensures forall v :: v in r <==> v == rootId || Reaches(DescendantGraph(nodes, edges), rootId, v)
  {
    var descendants := GetDescendants(rootId, nodes, edges);
    r := [rootId] + descendants;
    assert forall v :: v in r <==> v == rootId || v in descendants;
    forall i, j | 0 <= i < j < |r| ensures r[i] != r[j] {
      assert r[j] == descendants[j - 1] && r[j] in descendants;
      if i > 0 { assert r[i] == descendants[i - 1]; }
    }
  }

  /**
   * With no empty node id, one step of `getDescendants` follows exactly one kept edge forwards.
   * (An empty target id makes `edge.toId || edge.fromId` fall back to the source.)
   */
  lemma DescendantStep(nodes: seq<Id>, edges: seq<Link>, v: Id, w: Id)
    requires "" !in NodeIds(nodes)
    ensures w in Succ(DescendantGraph(nodes, edges), v) <==>
      exists e :: e in edges && Kept(NodeIds(nodes), e) && e.from == v && e.to == w
  {
    var ids := NodeIds(nodes);
    if v in ids {
      var ls := OutLinks(ids, edges, v);
      assert Succ(DescendantGraph(nodes, edges), v) == Nexts(ls);
      if w in Nexts(ls) {
        var k :| 0 <= k < |ls| && Nexts(ls)[k] == w;
        OutLinksSpec(ids, edges, v, ls[k]);
      }
      if e :| e in edges && Kept(ids, e) && e.from == v && e.to == w {
        OutLinksSpec(ids, edges, v, e);
        var k :| 0 <= k < |ls| && ls[k] == e;
        assert Nexts(ls)[k] == w;
      }
    }
  }

  /** One step of `getAncestors` follows exactly one kept edge backwards. */
  lemma AncestorStep(nodes: seq<Id>, edges: seq<Link>, v: Id, w: Id)
    ensures w in Succ(AncestorGraph(nodes, edges), v) <==>
      exists e :: e in edges && Kept(NodeIds(nodes), e) && e.to == v && e.from == w
  {
    var ids := NodeIds(nodes);
    if v in ids {
      var ls := InLinks(ids, edges, v);
      assert Succ(AncestorGraph(nodes, edges), v) == Nexts(Flip(ls));
      if w in Nexts(Flip(ls)) {
        var k :| 0 <= k < |ls| && Nexts(Flip(ls))[k] == w;
        InLinksSpec(ids, edges, v, ls[k]);
      }
      if e :| e in edges && Kept(ids, e) && e.to == v && e.from == w {
        InLinksSpec(ids, edges, v, e);
        var k :| 0 <= k < |ls| && ls[k] == e;
        assert Nexts(Flip(ls))[k] == w;
      }
    }
  }

  // Connected component

  function Tos(links: seq<Link>): (r: seq<Id>)
    ensures |r| == |links| && forall i :: 0 <= i < |links| ==> r[i] == links[i].to
  {
    seq(|links|, i requires 0 <= i < |links| => links[i].to)
  }

  function Froms(links: seq<Link>): (r: seq<Id>)
    ensures |r| == |links| && forall i :: 0 <= i < |links| ==> r[i] == links[i].from
  {
    seq(|links|, i requires 0 <= i < |links| => links[i].from)
  }

  /** The `neighbors` map of `getConnectedComponent`: targets of outgoing edges, then sources of incoming ones. */
  function Undirected(outgoing: map<Id, seq<Link>>, incoming: map<Id, seq<Link>>): map<Id, seq<Id>> {
    map v | v in outgoing.Keys + incoming.Keys ::
      (if v in outgoing then Tos(outgoing[v]) else []) + (if v in incoming then Froms(incoming[v]) else [])
  }

  function UndirectedGraph(nodes: seq<Id>, edges: seq<Link>): map<Id, seq<Id>> {
    Undirected(OutMap(nodes, edges), InMap(nodes, edges))
  }

  /** The component loop invariant: `start` first, paths to the rest, the processed ids closed. */
  ghost predicate ComponentInvariant(g: map<Id, seq<Id>>, start: Id, visited: seq<Id>, queue: seq<Id>,
                                     done: set<Id>, paths: map<Id, seq<Id>>)
  {
    && Distinct(visited) && |visited| >= 1 && visited[0] == start
    && (forall v :: v in visited ==> v == start || v in Targets(g))
    && (forall v :: v in visited && v != start ==> v in paths && PathFromTo(g, start, v, paths[v]))
    && (forall q :: q in queue ==> q in visited)
    && (forall v, w :: v in done && w in Succ(g, v) ==> w in visited)
  }

  /** Visiting a new neighbour of a visited id keeps the component invariant. */
  lemma ComponentVisitStep(g: map<Id, seq<Id>>, start: Id, visited: seq<Id>, queue: seq<Id>, done: set<Id>,
                           paths: map<Id, seq<Id>>, current: Id, next: Id)
    requires ComponentInvariant(g, start, visited, queue, done, paths)
    requires current in visited && next in Succ(g, current) && next !in visited
    ensures var p := (if current == start then [start] else paths[current]) + [next];
      ComponentInvariant(g, start, visited + [next], queue + [next], done, paths[next := p])
  {
    var p := (if current == start then [start] else paths[current]) + [next];
    var vs, qs, ps := visited + [next], queue + [next], paths[next := p];
    assert Distinct(vs) by {
      forall i, j | 0 <= i < j < |vs|
        ensures vs[i] != vs[j]
      {
        if j == |visited| {
          assert vs[i] == visited[i] && vs[j] == next;
        } else {
          assert vs[i] == visited[i] && vs[j] == visited[j];
        }
      }
    }
    assert vs[0] == start;
    assert forall v :: v in vs ==> v in visited || v == next;
    assert forall v :: v in vs ==> v == start || v in Targets(g) by {
      var k :| 0 <= k < |g[current]| && g[current][k] == next;
      assert next in Targets(g);
    }
    forall v | v in vs && v != start
      ensures v in ps && PathFromTo(g, start, v, ps[v])
    {
      if v == next {
        PathSnoc(g, start, current, if current == start then [start] else paths[current], next);
      } else {
        assert v in visited;
      }
    }
    assert forall q :: q in qs ==> q in vs;
    assert forall v, w :: v in done && w in Succ(g, v) ==> w in vs by {
      forall v, w | v in done && w in Succ(g, v) ensures w in vs {
        assert w in visited;
      }
    }
  }

  /**
   * The `forEach` of `getConnectedComponent` over one id's neighbours: each one not yet
   * visited is appended to both `visited` and the queue, in list order.
   */
  method VisitComponentNeighbors(start: Id, current: Id, neighbors: seq<Id>, visited: seq<Id>, queue: seq<Id>,
                                 ghost g: map<Id, seq<Id>>, ghost done: set<Id>, ghost paths: map<Id, seq<Id>>)
    returns (visited': seq<Id>, queue': seq<Id>, ghost paths': map<Id, seq<Id>>)
    requires ComponentInvariant(g, start, visited, queue, done, paths)
    requires current in visited && Succ(g, current) == neighbors
    ensures ComponentInvariant(g, start, visited', queue', done, paths')
    ensures |visited| <= |visited'| && visited'[..|visited|] == visited
    ensures queue' == queue + visited'[|visited|..]
    ensures forall w :: w in neighbors ==> w in visited'
  {
    visited', queue', paths' := visited, queue, paths;
    for i := 0 to |neighbors|
      invariant ComponentInvariant(g, start, visited', queue', done, paths')
      invariant |visited| <= |visited'| && visited'[..|visited|] == visited
      invariant queue' == queue + visited'[|visited|..]
      invariant forall j :: 0 <= j < i ==> neighbors[j] in visited'
    {
      var next := neighbors[i];
      if next !in visited' {
        assert current in visited' by { assert current in visited'[..|visited|]; }
        ComponentVisitStep(g, start, visited', queue', done, paths', current, next);
        assert forall y :: y in visited' ==> y in visited' + [next];
        paths' := paths'[next := (if current == start then [start] else paths'[current]) + [next]];
        assert (visited' + [next])[|visited|..] == visited'[|visited|..] + [next];
        visited' := visited' + [next];
        queue' := queue' + [next];
      }
    }
  }

  /** Once all neighbours of `current` are visited, it may join the processed ids. */
  lemma ComponentDone(g: map<Id, seq<Id>>, start: Id, visited: seq<Id>, queue: seq<Id>, done: set<Id>,
                      paths: map<Id, seq<Id>>, current: Id)
    requires ComponentInvariant(g, start, visited, queue, done, paths)
    requires forall w :: w in Succ(g, current) ==> w in visited
    ensures ComponentInvariant(g, start, visited, queue, done + {current}, paths)
  {
  }

  /**
   * `getConnectedComponent`: `nodeId` first, then without repetition every id reachable from it
   * when kept edges are followed in either direction.
   */
  method GetConnectedComponent(nodeId: Id, nodes: seq<Id>, edges: seq<Link>) returns (visited: seq<Id>)
    ensures |visited| >= 1 && visited[0] == nodeId && Distinct(visited)
    ensures forall v :: v in visited <==> v == nodeId || Reaches(UndirectedGraph(nodes, edges), nodeId, v)
  {
    var outgoing, incoming := BuildAdjacency(nodes, edges);
    var neighbors := Undirected(outgoing, incoming);
    ghost var g := neighbors;
    ghost var done: set<Id> := {};
    ghost var paths: map<Id, seq<Id>> := map[];
    visited := [nodeId];
    var queue := [nodeId];
    while queue != []
      invariant ComponentInvariant(g, nodeId, visited, queue, done, paths)
      invariant forall v :: v in visited ==> v in done || v in queue
      invariant |visited| <= |Targets(g) + {nodeId}|
      decreases |Targets(g) + {nodeId}| - |visited|, |queue|
    {
      var current := queue[0];
      var rest := queue[1..];
      assert current in visited;
      assert forall q :: q in rest ==> q in queue;
      ghost var before, queue0 := visited, queue;
      visited, queue, paths := VisitComponentNeighbors(nodeId, current, Succ(neighbors, current), visited, rest, g, done, paths);
      ComponentDone(g, nodeId, visited, queue, done, paths, current);
      forall v | v in visited ensures v in done + {current} || v in queue {
        if v in visited[..|before|] {
          assert v in before && (v in done || v in queue0);
          if v != current && v !in done {
            assert v in rest;
          }
        } else {
          var k :| 0 <= k < |visited| && visited[k] == v;
          assert visited[|before|..][k - |before|] == v;
        }
      }
      done := done + {current};
      DistinctBound(visited, Targets(g) + {nodeId});
    }
    ComponentComplete(g, nodeId, visited, done);
    ComponentSound(g, nodeId, visited, paths);
  }

  /** When the queue is empty, the visited ids form a closed set. */
  lemma ComponentComplete(g: map<Id, seq<Id>>, start: Id, visited: seq<Id>, done: set<Id>)
    requires forall v, w :: v in done && w in Succ(g, v) ==> w in visited
    requires forall v :: v in visited ==> v in done
    requires start in visited
    ensures forall v :: Reaches(g, start, v) ==> v in visited
  {
    var S := set v | v in visited;
    assert Closed(g, S);
    forall v | Reaches(g, start, v) ensures v in visited {
      ReachesInClosed(g, S, start, v);
    }
  }

  /** Every visited id other than the start has a path from it. */
  lemma ComponentSound(g: map<Id, seq<Id>>, start: Id, visited: seq<Id>, paths: map<Id, seq<Id>>)
    requires forall v :: v in visited && v != start ==> v in paths && PathFromTo(g, start, v, paths[v])
    ensures forall v :: v in visited && v != start ==> Reaches(g, start, v)
  {
    forall v | v in visited && v != start ensures Reaches(g, start, v) {
      assert PathFromTo(g, start, v, paths[v]);
    }
  }

  /** Each kept edge is a neighbour step both ways in the component's graph. */
  lemma UndirectedStep(nodes: seq<Id>, edges: seq<Link>, e: Link)
    requires e in edges && Kept(NodeIds(nodes), e)
    ensures e.to in Succ(UndirectedGraph(nodes, edges), e.from)
    ensures e.from in Succ(UndirectedGraph(nodes, edges), e.to)
  {
    UndirectedForward(nodes, edges, e);
    UndirectedBackward(nodes, edges, e);
  }

  lemma UndirectedForward(nodes: seq<Id>, edges: seq<Link>, e: Link)
    requires e in edges && Kept(NodeIds(nodes), e)
    ensures e.to in Succ(UndirectedGraph(nodes, edges), e.from)
  {
    var ids := NodeIds(nodes);
    var outs := OutLinks(ids, edges, e.from);
    OutLinksSpec(ids, edges, e.from, e);
    var k :| 0 <= k < |outs| && outs[k] == e;
    assert Succ(UndirectedGraph(nodes, edges), e.from) == Tos(outs) + Froms(InLinks(ids, edges, e.from));
    assert Tos(outs)[k] == e.to;
  }

  lemma UndirectedBackward(nodes: seq<Id>, edges: seq<Link>, e: Link)
    requires e in edges && Kept(NodeIds(nodes), e)
    ensures e.from in Succ(UndirectedGraph(nodes, edges), e.to)
  {
    var ids := NodeIds(nodes);
    var ins := InLinks(ids, edges, e.to);
    InLinksSpec(ids, edges, e.to, e);
    var m :| 0 <= m < |ins| && ins[m] == e;
    assert Succ(UndirectedGraph(nodes, edges), e.to) == Tos(OutLinks(ids, edges, e.to)) + Froms(ins);
    assert Froms(ins)[m] == e.from;
  }

  /** The component is closed under kept edges in both directions. */
  lemma ComponentClosed(nodes: seq<Id>, edges: seq<Link>, nodeId: Id, e: Link)
    requires e in edges && Kept(NodeIds(nodes), e)
    ensures var g := UndirectedGraph(nodes, edges);
      && (e.from == nodeId || Reaches(g, nodeId, e.from) ==> Reaches(g, nodeId, e.to))
      && (e.to == nodeId || Reaches(g, nodeId, e.to) ==> Reaches(g, nodeId, e.from))
  {
    var g := UndirectedGraph(nodes, edges);
    UndirectedStep(nodes, edges, e);
    if e.from == nodeId || Reaches(g, nodeId, e.from) {
      var p := if e.from == nodeId then [nodeId] else var q :| PathFromTo(g, nodeId, e.from, q); q;
      PathSnoc(g, nodeId, e.from, p, e.to);
    }
    if e.to == nodeId || Reaches(g, nodeId, e.to) {
      var p := if e.to == nodeId then [nodeId] else var q :| PathFromTo(g, nodeId, e.to, q); q;
      PathSnoc(g, nodeId, e.to, p, e.from);
    }
  }

  // Cycle detection

  /** The graph `detectCycles` searches: each outgoing list read through `toId`. */
  function ToGraph(outgoing: map<Id, seq<Link>>): map<Id, seq<Id>> {
    map v | v in outgoing :: Tos(outgoing[v])
  }

  function ForwardGraph(nodes: seq<Id>, edges: seq<Link>): map<Id, seq<Id>> {
    ToGraph(OutMap(nodes, edges))
  }

  /** Some walk of one or more steps returns to where it started. */
  ghost predicate HasCycle(g: map<Id, seq<Id>>) {
    exists p :: |p| >= 2 && p[0] == p[|p| - 1] && IsWalk(g, p)
  }

  /** Every neighbour of a node with a list has a list too. */
  predicate KeysClosed(g: map<Id, seq<Id>>) {
    forall v, w :: v in g && w in Succ(g, v) ==> w in g
  }

  /** Every neighbour of a finished id finished before it. */
  predicate Finished(g: map<Id, seq<Id>>, order: seq<Id>) {
    forall k, w :: 0 <= k < |order| && w in Succ(g, order[k]) ==> w in order[..k]
  }

  /** The position of the first occurrence of `v`. */
  function IndexIn(s: seq<Id>, v: Id): (k: nat)
    requires v in s
    ensures k < |s| && s[k] == v && v !in s[..k]
  {
    if s[0] == v then 0 else 1 + IndexIn(s[1..], v)
  }

  /** A step out of a finished id leads to an id that finished earlier. */
  lemma EdgeLowersRank(g: map<Id, seq<Id>>, order: seq<Id>, v: Id, w: Id)
    requires Finished(g, order) && v in order && w in Succ(g, v)
    ensures w in order && IndexIn(order, w) < IndexIn(order, v)
  {
    var k := IndexIn(order, v);
    assert w in order[..k];
    var j :| 0 <= j < k && order[..k][j] == w;
    assert order[j] == w;
  }

  /** Along a walk from a finished id the first positions drop by at least one per step. */
  lemma {:induction false} WalkRank(g: map<Id, seq<Id>>, order: seq<Id>, p: seq<Id>, j: nat)
    requires Finished(g, order) && IsWalk(g, p) && |p| >= 1 && p[0] in order && j < |p|
    ensures p[j] in order && IndexIn(order, p[j]) + j <= IndexIn(order, p[0])
  {
    if j > 0 {
      WalkRank(g, order, p, j - 1);
      EdgeLowersRank(g, order, p[j - 1], p[j]);
    }
  }

  /** When every id with a list has finished, there is no cycle. */
  lemma FinishedAcyclic(g: map<Id, seq<Id>>, order: seq<Id>)
    requires Finished(g, order) && forall v :: v in g ==> v in order
    ensures !HasCycle(g)
  {
    if HasCycle(g) {
      var p :| |p| >= 2 && p[0] == p[|p| - 1] && IsWalk(g, p);
      assert p[1] in Succ(g, p[0]);
      WalkRank(g, order, p, |p| - 1);
    }
  }

  /** An edge back into the current search path closes a cycle. */
  lemma BackEdgeCycle(g: map<Id, seq<Id>>, stack: seq<Id>, w: Id)
    requires IsWalk(g, stack) && stack != [] && w in stack && w in Succ(g, stack[|stack| - 1])
    ensures HasCycle(g)
  {
    var k :| 0 <= k < |stack| && stack[k] == w;
    var tail := stack[k..];
    assert IsWalk(g, tail) by {
      forall i | 0 <= i < |tail| - 1 ensures tail[i + 1] in Succ(g, tail[i]) {
        assert tail[i] == stack[k + i] && tail[i + 1] == stack[k + i + 1];
      }
    }
    WalkSnoc(g, tail, w);
    var p := tail + [w];
    assert p[0] == w && p[|p| - 1] == w;
  }

  /** `b` is `a` with more ids appended. */
  predicate Extends(a: seq<Id>, b: seq<Id>) {
    |a| <= |b| && b[..|a|] == a
  }

  /** After one more child search, the first `i + 1` children have finished. */
  lemma ChildStep(links: seq<Link>, i: nat, visited: seq<Id>, before: seq<Id>, after: seq<Id>)
    requires i < |links| && Extends(visited, before) && Extends(before, after)
    requires (forall j :: 0 <= j < i ==> links[j].to in before) && links[i].to in after
    ensures Extends(visited, after) && forall j :: 0 <= j <= i ==> links[j].to in after
  {
    assert after[..|visited|] == before[..|visited|];
    forall j | 0 <= j < i ensures links[j].to in after {
      var k :| 0 <= k < |before| && before[k] == links[j].to;
      assert after[k] == before[k];
    }
  }

  /**
   * The recursive `dfs` of `detectCycles`. `visiting` holds the ids on the current search path
   * (the ghost `stack`); it is passed by value because the search removes each id again before
   * returning. The result is true only when a cycle exists; when false, `nodeId` and everything
   * it reaches have finished.
   */
  method Dfs(outgoing: map<Id, seq<Link>>, nodeId: Id, visiting: set<Id>, visited: seq<Id>,
             ghost g: map<Id, seq<Id>>, ghost stack: seq<Id>)
    returns (found: bool, visited': seq<Id>)
    requires g == ToGraph(outgoing) && KeysClosed(g)
    requires IsWalk(g, stack) && visiting == set x | x in stack
    requires stack == [] || nodeId in Succ(g, stack[|stack| - 1])
    requires Finished(g, visited) && forall x :: x in visited ==> x !in visiting
    ensures found ==> HasCycle(g)
    ensures !found ==> && Finished(g, visited') && nodeId in visited' && Extends(visited, visited')
                       && forall x :: x in visited' ==> x !in visiting
    decreases |g.Keys - visiting|, 1
  {
    if nodeId in visiting {
      BackEdgeCycle(g, stack, nodeId);
      return true, visited;
    }
    if nodeId in visited {
      return false, visited;
    }
    var links := if nodeId in outgoing then outgoing[nodeId] else [];
    var inner := visiting + {nodeId};
    ghost var path := stack + [nodeId];
    if stack != [] {
      WalkSnoc(g, stack, nodeId);
    }
    found, visited' := DfsChildren(outgoing, nodeId, links, visiting, inner, visited, g, path);
    if !found {
      FinishOne(g, visited', nodeId, links);
      AppendFinished(visited, visited', nodeId, visiting);
    }
    visited' := visited' + [nodeId];
  }

  /**
   * `(outgoing.get(nodeId) || []).some((edge) => dfs(edge.toId))`, searched with `nodeId`
   * added to `visiting`; it stops at the first child search that finds a cycle.
   */
  method DfsChildren(outgoing: map<Id, seq<Link>>, nodeId: Id, links: seq<Link>, visiting: set<Id>,
                     inner: set<Id>, visited: seq<Id>, ghost g: map<Id, seq<Id>>, ghost path: seq<Id>)
    returns (found: bool, visited': seq<Id>)
    requires g == ToGraph(outgoing) && KeysClosed(g)
    requires links == (if nodeId in outgoing then outgoing[nodeId] else [])
    requires inner == visiting + {nodeId} && nodeId !in visiting
    requires path != [] && path[|path| - 1] == nodeId && IsWalk(g, path) && inner == set x | x in path
    requires Finished(g, visited) && forall x :: x in visited ==> x !in inner
    ensures found ==> HasCycle(g)
    ensures !found ==> && Finished(g, visited') && Extends(visited, visited')
                       && (forall x :: x in visited' ==> x !in inner)
                       && forall j :: 0 <= j < |links| ==> links[j].to in visited'
    decreases |g.Keys - visiting|, 0
  {
    found, visited' := false, visited;
    var i := 0;
    while i < |links| && !found
      invariant 0 <= i <= |links|
      invariant found ==> HasCycle(g)
      invariant !found ==> && Finished(g, visited') && Extends(visited, visited')
                           && (forall x :: x in visited' ==> x !in inner)
                           && forall j :: 0 <= j < i ==> links[j].to in visited'
    {
      assert nodeId in g && links[i].to in Succ(g, nodeId);
      assert |g.Keys - inner| < |g.Keys - visiting| by {
        assert (g.Keys - inner) + {nodeId} == g.Keys - visiting;
      }
      ghost var before := visited';
      found, visited' := Dfs(outgoing, links[i].to, inner, visited', g, path);
      if !found {
        ChildStep(links, i, visited, before, visited');
      }
      i := i + 1;
    }
  }

  /** Appending an id outside `visiting` keeps the extension and the disjointness. */
  lemma AppendFinished(visited: seq<Id>, after: seq<Id>, v: Id, visiting: set<Id>)
    requires Extends(visited, after) && v !in visiting && forall x :: x in after ==> x !in visiting
    ensures Extends(visited, after + [v]) && forall x :: x in after + [v] ==> x !in visiting
  {
    assert (after + [v])[..|visited|] == after[..|visited|];
  }

  /** Appending an id whose neighbours have all finished keeps the finished order. */
  lemma FinishOne(g: map<Id, seq<Id>>, order: seq<Id>, v: Id, links: seq<Link>)
    requires Finished(g, order) && Succ(g, v) == Tos(links)
    requires forall j :: 0 <= j < |links| ==> links[j].to in order
    ensures Finished(g, order + [v])
  {
    var o := order + [v];
    forall k, w | 0 <= k < |o| && w in Succ(g, o[k]) ensures w in o[..k] {
      if k < |order| {
        assert o[k] == order[k] && o[..k] == order[..k];
      } else {
        var j :| 0 <= j < |links| && Tos(links)[j] == w;
        assert o[..k] == order;
      }
    }
  }

  /** `detectCycles`: true exactly when the kept edges contain a directed cycle. */
  method DetectCycles(nodes: seq<Id>, edges: seq<Link>) returns (r: bool)
    ensures r <==> HasCycle(ForwardGraph(nodes, edges))
  {
    var outgoing, incoming := BuildAdjacency(nodes, edges);
    ghost var g := ToGraph(outgoing);
    ForwardKeysClosed(nodes, edges);
    var visited: seq<Id> := [];
    r := false;
    var i := 0;
    while i < |nodes| && !r
      invariant 0 <= i <= |nodes|
      invariant r ==> HasCycle(g)
      invariant !r ==> Finished(g, visited) && forall j :: 0 <= j < i ==> nodes[j] in visited
    {
      ghost var before := visited;
      r, visited := Dfs(outgoing, nodes[i], {}, visited, g, []);
      if !r {
        forall j | 0 <= j < i ensures nodes[j] in visited {
          var k :| 0 <= k < |before| && before[k] == nodes[j];
          assert visited[k] == before[k];
        }
      }
      i := i + 1;
    }
    if !r {
      FinishedAcyclic(g, visited);
    }
  }

  /** Kept edges lead from node ids to node ids. */
  lemma ForwardKeysClosed(nodes: seq<Id>, edges: seq<Link>)
    ensures KeysClosed(ForwardGraph(nodes, edges))
  {
    var g := ForwardGraph(nodes, edges);
    var ids := NodeIds(nodes);
    forall v, w | v in g && w in Succ(g, v) ensures w in g {
      var ls := OutLinks(ids, edges, v);
      var k :| 0 <= k < |ls| && Tos(ls)[k] == w;
      OutLinksSpec(ids, edges, v, ls[k]);
    }
  }

  /** One step of `detectCycles` follows exactly one kept edge forwards. */
  lemma ForwardStep(nodes: seq<Id>, edges: seq<Link>, v: Id, w: Id)
    ensures w in Succ(ForwardGraph(nodes, edges), v) <==>
      exists e :: e in edges && Kept(NodeIds(nodes), e) && e.from == v && e.to == w
  {
    var ids := NodeIds(nodes);
    if v in ids {
      var ls := OutLinks(ids, edges, v);
      assert Succ(ForwardGraph(nodes, edges), v) == Tos(ls);
      if w in Tos(ls) {
        var k :| 0 <= k < |ls| && Tos(ls)[k] == w;
        OutLinksSpec(ids, edges, v, ls[k]);
      }
      if e :| e in edges && Kept(ids, e) && e.from == v && e.to == w {
        OutLinksSpec(ids, edges, v, e);
        var k :| 0 <= k < |ls| && ls[k] == e;
        assert Tos(ls)[k] == w;
      }
    }
  }

  // Dependency path

  /** The `dependency` edges of a list, in order. */
  function Dependencies(links: seq<Link>): (r: seq<Link>)
    ensures forall e :: e in r <==> e in links && e.kind == "dependency"
  {
    if links == [] then []
    else (if links[0].kind == "dependency" then [links[0]] else []) + Dependencies(links[1..])
  }

  /** `incoming.get(v) || []`. */
  function Incoming(nodes: seq<Id>, edges: seq<Link>, v: Id): seq<Link> {
    if v in NodeIds(nodes) then InLinks(NodeIds(nodes), edges, v) else []
  }

  /** The source of the first kept `dependency` edge into `v`, if there is one. */
  function FirstDependency(nodes: seq<Id>, edges: seq<Link>, v: Id): Option<Id> {
    var deps := Dependencies(Incoming(nodes, edges, v));
    if deps == [] then None else Some(deps[0].from)
  }

  /** `FirstDependency` names a kept dependency edge into `v`, and is absent only when there is none. */
  lemma FirstDependencySpec(nodes: seq<Id>, edges: seq<Link>, v: Id)
    ensures FirstDependency(nodes, edges, v).None? <==>
      forall e :: e in edges && Kept(NodeIds(nodes), e) && e.to == v ==> e.kind != "dependency"
    ensures FirstDependency(nodes, edges, v).Some? ==>
      exists e :: e in edges && Kept(NodeIds(nodes), e) && e.to == v && e.kind == "dependency"
        && e.from == FirstDependency(nodes, edges, v).value
  {
    var ids := NodeIds(nodes);
    var deps := Dependencies(Incoming(nodes, edges, v));
    forall e | e in edges && Kept(ids, e) && e.to == v && e.kind == "dependency" ensures e in deps {
      InLinksSpec(ids, edges, v, e);
    }
    if deps != [] {
      InLinksSpec(ids, edges, v, deps[0]);
    }
  }

  /** The loop invariant of `getDependencyPath`, over `full`, the path built so far followed by `nodeId`. */
  predicate DependencyChain(nodes: seq<Id>, edges: seq<Link>, full: seq<Id>) {
    && |full| >= 1
    && (forall k :: 0 <= k < |full| - 1 ==> FirstDependency(nodes, edges, full[k + 1]) == Some(full[k]))
    && Distinct(full[1..])
  }

  /**
   * `getDependencyPath`: starting at `nodeId`, repeatedly step to the source of the first
   * dependency edge into the current id, prepending it, until the id is empty, has no such edge
   * or was already passed; the result ends with `nodeId`.
   */
  method GetDependencyPath(nodeId: Id, nodes: seq<Id>, edges: seq<Link>) returns (path: seq<Id>)
    ensures |path| >= 1 && path[|path| - 1] == nodeId
    ensures forall k :: 0 <= k < |path| - 1 ==> FirstDependency(nodes, edges, path[k + 1]) == Some(path[k])
    ensures path[0] == "" || FirstDependency(nodes, edges, path[0]).None? || path[0] in path[1..]
    ensures Distinct(path[1..])
  {
    var outgoing, incoming := BuildAdjacency(nodes, edges);
    IncomingLookup(nodes, edges, incoming);
    path := FollowDependencies(nodeId, incoming, nodes, edges);
  }

  /** `incoming.get(v) || []`. */
  function Lookup(incoming: map<Id, seq<Link>>, v: Id): seq<Link> {
    if v in incoming then incoming[v] else []
  }

  /** Looking up the map `buildAdjacency` returns gives the kept edges into the id. */
  lemma IncomingLookup(nodes: seq<Id>, edges: seq<Link>, incoming: map<Id, seq<Link>>)
    requires incoming == InMap(nodes, edges)
    ensures forall v :: Lookup(incoming, v) == Incoming(nodes, edges, v)
  {
  }

  /** The loop of `getDependencyPath`, over the incoming lists it looks up. */
  method FollowDependencies(nodeId: Id, incoming: map<Id, seq<Link>>, ghost nodes: seq<Id>, ghost edges: seq<Link>)
    returns (path: seq<Id>)
    requires forall v :: Lookup(incoming, v) == Incoming(nodes, edges, v)
    ensures |path| >= 1 && path[|path| - 1] == nodeId
    ensures forall k :: 0 <= k < |path| - 1 ==> FirstDependency(nodes, edges, path[k + 1]) == Some(path[k])
    ensures path[0] == "" || FirstDependency(nodes, edges, path[0]).None? || path[0] in path[1..]
    ensures Distinct(path[1..])
  {
    path := [];
    var cursor := nodeId;
    var seen: set<Id> := {};
    assert ([] + [nodeId])[1..] == [];
    while cursor != "" && cursor !in seen
      invariant PathState(nodes, edges, nodeId, path, cursor, seen)
      invariant seen <= incoming.Keys
      decreases |incoming.Keys - seen|
    {
      var deps := Dependencies(Lookup(incoming, cursor));
      if deps == [] {
        break;
      }
      var next := deps[0].from;
      PathStep(nodes, edges, nodeId, path, cursor, seen, next);
      seen := seen + {cursor};
      path := [next] + path;
      cursor := next;
    }
    PathDone(nodes, edges, nodeId, path, cursor, seen);
    path := path + [nodeId];
  }

  /** The state of `getDependencyPath`'s loop: the chain so far, its head the cursor, the rest seen. */
  ghost predicate PathState(nodes: seq<Id>, edges: seq<Link>, nodeId: Id, path: seq<Id>, cursor: Id, seen: set<Id>) {
    var chain := path + [nodeId];
    && DependencyChain(nodes, edges, chain) && cursor == chain[0]
    && (forall x :: x in seen <==> x in chain[1..])
  }

  /** When the loop stops, the chain meets every promise of `getDependencyPath`. */
  lemma PathDone(nodes: seq<Id>, edges: seq<Link>, nodeId: Id, path: seq<Id>, cursor: Id, seen: set<Id>)
    requires PathState(nodes, edges, nodeId, path, cursor, seen)
    requires cursor == "" || cursor in seen || FirstDependency(nodes, edges, cursor).None?
    ensures var p := path + [nodeId];
      && |p| >= 1 && p[|p| - 1] == nodeId
      && (forall k :: 0 <= k < |p| - 1 ==> FirstDependency(nodes, edges, p[k + 1]) == Some(p[k]))
      && (p[0] == "" || FirstDependency(nodes, edges, p[0]).None? || p[0] in p[1..])
      && Distinct(p[1..])
  {
  }

  lemma PathStep(nodes: seq<Id>, edges: seq<Link>, nodeId: Id, path: seq<Id>, cursor: Id, seen: set<Id>, next: Id)
    requires PathState(nodes, edges, nodeId, path, cursor, seen) && cursor !in seen
    requires FirstDependency(nodes, edges, cursor) == Some(next)
    ensures PathState(nodes, edges, nodeId, [next] + path, next, seen + {cursor})
  {
    var chain := path + [nodeId];
    ChainPrepend(nodes, edges, chain, next);
    assert [next] + path + [nodeId] == [next] + chain;
  }

  /** Prepending the first dependency of the chain's head, not met before, extends the chain. */
  lemma ChainPrepend(nodes: seq<Id>, edges: seq<Link>, full: seq<Id>, next: Id)
    requires DependencyChain(nodes, edges, full) && full[0] !in full[1..]
    requires FirstDependency(nodes, edges, full[0]) == Some(next)
    ensures DependencyChain(nodes, edges, [next] + full)
    ensures ([next] + full)[1..] == full && ([next] + full)[0] == next
  {
    var f := [next] + full;
    assert f[1..] == full;
    forall i, j | 0 <= i < j < |full| ensures full[i] != full[j] {
      if i > 0 {
        assert full[i] == full[1..][i - 1] && full[j] == full[1..][j - 1];
      } else {
        assert full[j] == full[1..][j - 1];
      }
    }
  }

  // Roots

  /** `getRoots`: the node ids, in input order, with no kept incoming edge. */
  function Roots(nodes: seq<Id>, edges: seq<Link>): (r: seq<Id>)
    ensures forall x :: x in r <==> x in nodes && InLinks(NodeIds(nodes), edges, x) == []
  {
    RootsAmong(NodeIds(nodes), edges, nodes)
  }

  function RootsAmong(ids: set<Id>, edges: seq<Link>, ns: seq<Id>): (r: seq<Id>)
    ensures forall x :: x in r <==> x in ns && InLinks(ids, edges, x) == []
    ensures |r| <= |ns|
  {
    if ns == [] then []
    else (if InLinks(ids, edges, ns[0]) == [] then [ns[0]] else []) + RootsAmong(ids, edges, ns[1..])
  }

  /** `filter` keeps each node, in order and once, exactly when no kept edge enters it. */
  lemma {:induction false} RootsAmongIsFilter(a: seq<Id>, b: seq<Id>, x: Id, ids: set<Id>, edges: seq<Link>)
    ensures RootsAmong(ids, edges, [x]) == if InLinks(ids, edges, x) == [] then [x] else []
    ensures RootsAmong(ids, edges, a + b) == RootsAmong(ids, edges, a) + RootsAmong(ids, edges, b)
    decreases |a|
  {
    if a == [] {
      assert a + b == b;
    } else {
      assert (a + b)[0] == a[0];
      assert (a + b)[1..] == a[1..] + b;
      RootsAmongIsFilter(a[1..], b, x, ids, edges);
    }
  }

  /** A root is exactly a node that no kept edge enters. */
  lemma RootsSpec(nodes: seq<Id>, edges: seq<Link>, x: Id)
    ensures x in Roots(nodes, edges) <==>
      x in nodes && forall e :: e in edges && Kept(NodeIds(nodes), e) ==> e.to != x
  {
    var ids := NodeIds(nodes);
    var ls := InLinks(ids, edges, x);
    forall e | e in edges && Kept(ids, e) && e.to == x ensures e in ls {
      InLinksSpec(ids, edges, x, e);
    }
    if ls != [] {
      InLinksSpec(ids, edges, x, ls[0]);
    }
  }

  // Validation

  /** The edge `i` enters `v` and is kept. */
  predicate IntoAt(ids: set<Id>, edges: seq<Link>, i: int, v: Id) {
    0 <= i < |edges| && Kept(ids, edges[i]) && edges[i].to == v
  }

  lemma {:induction false} InLinksOne(ids: set<Id>, edges: seq<Link>, v: Id)
    ensures |InLinks(ids, edges, v)| >= 1 <==> exists i :: IntoAt(ids, edges, i, v)
    decreases |edges|
  {
    if edges != [] {
      var init := edges[..|edges| - 1];
      InLinksOne(ids, init, v);
      forall i | IntoAt(ids, init, i, v) ensures IntoAt(ids, edges, i, v) { }
      var last := |edges| - 1;
      assert InLinks(ids, edges, v) ==
        InLinks(ids, init, v) + (if IntoAt(ids, edges, last, v) then [edges[last]] else []);
      if i :| IntoAt(ids, edges, i, v) {
        if i < |init| {
          assert IntoAt(ids, init, i, v);
        }
      }
    }
  }

  /** A node has two or more incoming lists entries exactly when two kept edges enter it. */
  lemma {:induction false} InLinksTwo(ids: set<Id>, edges: seq<Link>, v: Id)
    ensures |InLinks(ids, edges, v)| >= 2 <==>
      exists i, j :: i < j && IntoAt(ids, edges, i, v) && IntoAt(ids, edges, j, v)
    decreases |edges|
  {
    if edges != [] {
      var init := edges[..|edges| - 1];
      var last := |edges| - 1;
      InLinksTwo(ids, init, v);
      InLinksOne(ids, init, v);
      forall i | IntoAt(ids, init, i, v) ensures IntoAt(ids, edges, i, v) { }
      forall i | IntoAt(ids, edges, i, v) && i < |init| ensures IntoAt(ids, init, i, v) { }
      if IntoAt(ids, edges, last, v) {
        if |InLinks(ids, edges, v)| >= 2 {
          var i :| IntoAt(ids, init, i, v);
          assert i < last && IntoAt(ids, edges, i, v);
        }
      }
    }
  }

  /** `hasMultiParentNodes`: some node has more than one kept incoming edge. */
  predicate HasMultiParent(nodes: seq<Id>, edges: seq<Link>) {
    exists n :: n in nodes && |InLinks(NodeIds(nodes), edges, n)| > 1
  }

  lemma MultiParentSpec(nodes: seq<Id>, edges: seq<Link>)
    ensures HasMultiParent(nodes, edges) <==>
      exists n, i, j :: n in nodes && i < j && IntoAt(NodeIds(nodes), edges, i, n) && IntoAt(NodeIds(nodes), edges, j, n)
  {
    var ids := NodeIds(nodes);
    if HasMultiParent(nodes, edges) {
      var n :| n in nodes && |InLinks(ids, edges, n)| > 1;
      InLinksTwo(ids, edges, n);
    }
    if n, i, j :| n in nodes && i < j && IntoAt(ids, edges, i, n) && IntoAt(ids, edges, j, n) {
      InLinksTwo(ids, edges, n);
    }
  }

  /** Some raw edge, kept or not, leaves `v`. */
  predicate HasOutgoing(edges: seq<Link>, v: Id) {
    exists e :: e in edges && e.from == v
  }

  /** `orphanNodes`: the node ids, in order, with no kept incoming edge and no edge at all leaving them. */
  function Orphans(nodes: seq<Id>, edges: seq<Link>): (r: seq<Id>)
    ensures forall x :: x in r <==> x in nodes && InLinks(NodeIds(nodes), edges, x) == [] && !HasOutgoing(edges, x)
  {
    OrphansAmong(NodeIds(nodes), edges, nodes)
  }

  function OrphansAmong(ids: set<Id>, edges: seq<Link>, ns: seq<Id>): (r: seq<Id>)
    ensures forall x :: x in r <==> x in ns && InLinks(ids, edges, x) == [] && !HasOutgoing(edges, x)
  {
    if ns == [] then []
    else
      (if InLinks(ids, edges, ns[0]) == [] && !HasOutgoing(edges, ns[0]) then [ns[0]] else [])
        + OrphansAmong(ids, edges, ns[1..])
  }

  /** `filter` keeps each node, in order and once, exactly when no kept edge enters it and no edge leaves it. */
  lemma {:induction false} OrphansAmongIsFilter(a: seq<Id>, b: seq<Id>, x: Id, ids: set<Id>, edges: seq<Link>)
    ensures OrphansAmong(ids, edges, [x]) == if InLinks(ids, edges, x) == [] && !HasOutgoing(edges, x) then [x] else []
    ensures OrphansAmong(ids, edges, a + b) == OrphansAmong(ids, edges, a) + OrphansAmong(ids, edges, b)
    decreases |a|
  {
    if a == [] {
      assert a + b == b;
    } else {
      assert (a + b)[0] == a[0];
      assert (a + b)[1..] == a[1..] + b;
      OrphansAmongIsFilter(a[1..], b, x, ids, edges);
    }
  }

  /** An orphan is a root that no edge leaves. */
  lemma OrphanIsRoot(nodes: seq<Id>, edges: seq<Link>, x: Id)
    ensures x in Orphans(nodes, edges) <==> x in Roots(nodes, edges) && !HasOutgoing(edges, x)
  {
  }

  /** The key `validateGraph` gives an edge; an absent type counts as `sequence`. */
  function EdgeKey(e: Link): string {
    e.from + "->" + e.to + ":" + (if e.kind == "" then "sequence" else e.kind)
  }

  function EdgeKeys(edges: seq<Link>): (r: seq<string>)
    ensures |r| == |edges| && forall i :: 0 <= i < |edges| ==> r[i] == EdgeKey(edges[i])
  {
    if edges == [] then [] else EdgeKeys(edges[..|edges| - 1]) + [EdgeKey(edges[|edges| - 1])]
  }

  /** Every key that was already met, at each later occurrence. */
  function DuplicateKeys(keys: seq<string>): seq<string> {
    if keys == [] then []
    else
      var init := keys[..|keys| - 1];
      var k := keys[|keys| - 1];
      DuplicateKeys(init) + (if k in init then [k] else [])
  }

  /** Appending a key lists it as a duplicate exactly when it was already present. */
  lemma DuplicateKeysAppend(keys: seq<string>, key: string)
    ensures DuplicateKeys(keys + [key]) == DuplicateKeys(keys) + (if key in keys then [key] else [])
  {
    assert (keys + [key])[..|keys|] == keys;
  }

  /** A key is listed once for each occurrence after its first. */
  lemma {:induction false} DuplicateKeysCount(keys: seq<string>, k: string)
    ensures multiset(DuplicateKeys(keys))[k] == if multiset(keys)[k] == 0 then 0 else multiset(keys)[k] - 1
    decreases |keys|
  {
    if keys != [] {
      var init := keys[..|keys| - 1];
      DuplicateKeysCount(init, k);
      assert keys == init + [keys[|keys| - 1]];
    }
  }

  /** The `duplicateEdges` loop of `validateGraph`. */
  method FindDuplicateEdges(edges: seq<Link>) returns (duplicates: seq<string>)
    ensures duplicates == DuplicateKeys(EdgeKeys(edges))
  {
    duplicates := [];
    var keySet: set<string> := {};
    for i := 0 to |edges|
      invariant duplicates == DuplicateKeys(EdgeKeys(edges[..i]))
      invariant forall k :: k in keySet <==> k in EdgeKeys(edges[..i])
    {
      var key := EdgeKey(edges[i]);
      assert EdgeKeys(edges[..i + 1]) == EdgeKeys(edges[..i]) + [key] by {
        assert edges[..i + 1][..i] == edges[..i];
      }
      DuplicateKeysAppend(EdgeKeys(edges[..i]), key);
      if key in keySet {
        duplicates := duplicates + [key];
      }
      keySet := keySet + {key};
    }
    assert edges[..|edges|] == edges;
  }

  /** `c` is the connected component `getConnectedComponent` returns for `n`. */
  ghost predicate IsComponentOf(nodes: seq<Id>, edges: seq<Link>, n: Id, c: seq<Id>) {
    && |c| >= 1 && c[0] == n && Distinct(c)
    && forall v :: v in c <==> v == n || Reaches(UndirectedGraph(nodes, edges), n, v)
  }

  /** The `disconnectedClusters` loop of `validateGraph`. */
  method FindClusters(nodes: seq<Id>, edges: seq<Link>) returns (clusters: seq<seq<Id>>)
    ensures forall k :: 0 <= k < |clusters| ==>
      && 0 < |clusters[k]| < |NodeIds(nodes)| && clusters[k][0] in nodes
      && IsComponentOf(nodes, edges, clusters[k][0], clusters[k])
    ensures forall k, l :: 0 <= k < l < |clusters| ==> clusters[l][0] !in clusters[k]
  {
    clusters := [];
    var seen: set<Id> := {};
    var size := |NodeIds(nodes)|;
    for i := 0 to |nodes|
      invariant forall k :: 0 <= k < |clusters| ==>
        && 0 < |clusters[k]| < size && clusters[k][0] in nodes
        && IsComponentOf(nodes, edges, clusters[k][0], clusters[k])
      invariant forall k, l :: 0 <= k < l < |clusters| ==> clusters[l][0] !in clusters[k]
      invariant forall k, x :: 0 <= k < |clusters| && x in clusters[k] ==> x in seen
    {
      var n := nodes[i];
      if n !in seen {
        var component := GetConnectedComponent(n, nodes, edges);
        seen := seen + set x | x in component;
        if |component| > 0 && |component| < size {
          clusters := clusters + [component];
        }
      }
    }
  }

  /** The summary `validateGraph` returns. */
  datatype Validation = Validation(
    orphanNodes: seq<Id>,
    duplicateEdges: seq<string>,
    roots: seq<Id>,
    hasCycle: bool,
    disconnectedClusters: seq<seq<Id>>,
    hasMultiParentNodes: bool)

  /** `validateGraph`; cycle detection is skipped only when `options.detectCycles` is `false`. */
  method ValidateGraph(nodes: seq<Id>, edges: seq<Link>, options: Value) returns (r: Validation)
    ensures r.orphanNodes == Orphans(nodes, edges)
    ensures r.duplicateEdges == DuplicateKeys(EdgeKeys(edges))
    ensures r.roots == Roots(nodes, edges)
    ensures r.hasCycle <==> Get(options, "detectCycles") != Bool(false) && HasCycle(ForwardGraph(nodes, edges))
    ensures forall k :: 0 <= k < |r.disconnectedClusters| ==>
      && 0 < |r.disconnectedClusters[k]| < |NodeIds(nodes)| && r.disconnectedClusters[k][0] in nodes
      && IsComponentOf(nodes, edges, r.disconnectedClusters[k][0], r.disconnectedClusters[k])
    ensures forall k, l :: 0 <= k < l < |r.disconnectedClusters| ==>
      r.disconnectedClusters[l][0] !in r.disconnectedClusters[k]
    ensures r.hasMultiParentNodes <==> HasMultiParent(nodes, edges)
  {
    var duplicates := FindDuplicateEdges(edges);
    var clusters := FindClusters(nodes, edges);
    var cycle := false;
    if Get(options, "detectCycles") != Bool(false) {
      cycle := DetectCycles(nodes, edges);
    }
    r := Validation(Orphans(nodes, edges), duplicates, Roots(nodes, edges), cycle, clusters, HasMultiParent(nodes, edges));
  }
}
