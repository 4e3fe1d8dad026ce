/** The dependency graph's searches: shortest directed chain, and expansion to a bounded depth. */
module DependencyGraph {
  import opened Basics

  datatype Edge = Edge(id: Name, source: Name, target: Name)

  /** `path` is a chain of stored edges from `a` to `b`. */
  ghost predicate IsChain(edges: seq<Edge>, a: Name, b: Name, path: seq<Edge>)
    decreases |path|
  {
    if path == [] then a == b
    else
      var last := path[|path| - 1];
      last in edges && last.target == b && IsChain(edges, a, last.source, path[..|path| - 1])
  }

  ghost predicate Closed(nodes: set<Name>, edges: seq<Edge>) {
    forall e :: e in edges ==> e.source in nodes && e.target in nodes
  }

  datatype PathResult = UnknownEndpoint | NoPath | Found(path: seq<Edge>)

  /** Every chain from `a` to `v` has at least `n` edges. */
  ghost predicate AtLeast(edges: seq<Edge>, a: Name, v: Name, n: nat) {
    forall p :: IsChain(edges, a, v, p) ==> |p| >= n
  }

  ghost predicate Done(edges: seq<Edge>, seen: set<Name>, v: Name) {
    forall e :: e in edges && e.source == v ==> e.target in seen
  }

  /** `dist` gives every seen node the length of a shortest chain. */
  ghost predicate Distances(edges: seq<Edge>, a: Name, dist: map<Name, nat>) {
    a in dist && forall v :: v in dist ==> AtLeast(edges, a, v, dist[v])
  }

  ghost predicate NearerDone(edges: seq<Edge>, dist: map<Name, nat>, n: nat) {
    forall v :: v in dist && dist[v] < n ==> Done(edges, dist.Keys, v)
  }

  /** If all nodes nearer than `n` have been expanded, every chain of at most `n` edges ends in a seen node. */
  lemma {:induction false} ShortChainsEndSeen(edges: seq<Edge>, a: Name, dist: map<Name, nat>, n: nat, b: Name,
                                              path: seq<Edge>)
    requires Distances(edges, a, dist) && NearerDone(edges, dist, n)
    requires IsChain(edges, a, b, path) && |path| <= n
    ensures b in dist
    decreases |path|
  {
    if path != [] {
      var last, init := path[|path| - 1], path[..|path| - 1];
      ShortChainsEndSeen(edges, a, dist, n, last.source, init);
      assert AtLeast(edges, a, last.source, dist[last.source]);
      assert Done(edges, dist.Keys, last.source);
    }
  }

  // ----- expansion

  /** `Neither` stands for any other direction string, which selects nothing. */
  datatype Direction = Outgoing | Incoming | Both | Neither

  predicate Follows(dir: Direction, e: Edge, u: Name, v: Name) {
    (dir in {Outgoing, Both} && e.source == u && e.target == v) ||
      (dir in {Incoming, Both} && e.target == u && e.source == v)
  }

  predicate Touches(dir: Direction, e: Edge, s: set<Name>) {
    (dir in {Outgoing, Both} && e.source in s) || (dir in {Incoming, Both} && e.target in s)
  }

  /** The other ends of the edges that leave `s` in the given direction. */
  function Neighbours(edges: seq<Edge>, dir: Direction, s: set<Name>): set<Name> {
    if edges == [] then {}
    else Neighbours(edges[..|edges| - 1], dir, s) + OtherEnds(edges[|edges| - 1], dir, s)
  }

  function OtherEnds(e: Edge, dir: Direction, s: set<Name>): set<Name> {
    (if dir in {Outgoing, Both} && e.source in s then {e.target} else {}) +
    (if dir in {Incoming, Both} && e.target in s then {e.source} else {})
  }

  ghost predicate Joins(dir: Direction, e: Edge, s: set<Name>, v: Name) {
    exists u :: u in s && Follows(dir, e, u, v)
  }

  lemma {:induction false} NeighboursMeaning(edges: seq<Edge>, dir: Direction, s: set<Name>, v: Name)
    ensures v in Neighbours(edges, dir, s) <==> exists e :: e in edges && Joins(dir, e, s, v)
  {
    if edges != [] {
      var init, last := edges[..|edges| - 1], edges[|edges| - 1];
      NeighboursMeaning(init, dir, s, v);
      assert edges == init + [last];
      assert v in OtherEnds(last, dir, s) <==> Joins(dir, last, s, v) by {
        assert Follows(dir, last, last.source, v) || Follows(dir, last, last.target, v) ||
          v !in OtherEnds(last, dir, s);
      }
    }
  }

  /** Nodes within `k` steps. */
  function Ball(edges: seq<Edge>, dir: Direction, n: Name, k: nat): set<Name> {
    if k == 0 then {n} else Grown(edges, dir, Ball(edges, dir, n, k - 1))
  }

  function Grown(edges: seq<Edge>, dir: Direction, s: set<Name>): set<Name> {
    s + Neighbours(edges, dir, s)
  }

  /** `steps` are the nodes left one after the other on a walk from `a` to `b`. */
  ghost predicate IsWalk(edges: seq<Edge>, dir: Direction, a: Name, b: Name, steps: seq<Name>)
    decreases |steps|
  {
    if steps == [] then a == b
    else
      var last := steps[|steps| - 1];
      (exists e :: e in edges && Follows(dir, e, last, b)) && IsWalk(edges, dir, a, last, steps[..|steps| - 1])
  }

  /** The ball is exactly the set of nodes that some walk of at most `k` steps reaches. */
  lemma {:induction false} BallMeaning(edges: seq<Edge>, dir: Direction, a: Name, k: nat, b: Name)
    ensures b in Ball(edges, dir, a, k) <==> exists w :: |w| <= k && IsWalk(edges, dir, a, b, w)
    decreases k
  {
    if k == 0 {
      assert IsWalk(edges, dir, a, a, []);
    } else {
      if b in Ball(edges, dir, a, k) {
        BallHasWalk(edges, dir, a, k, b);
      }
      if w :| |w| <= k && IsWalk(edges, dir, a, b, w) {
        WalkInBall(edges, dir, a, k, b, w);
      }
    }
  }

  lemma {:induction false} BallHasWalk(edges: seq<Edge>, dir: Direction, a: Name, k: nat, b: Name)
    requires b in Ball(edges, dir, a, k)
    ensures exists w :: |w| <= k && IsWalk(edges, dir, a, b, w)
    decreases k
  {
    if k == 0 {
      assert IsWalk(edges, dir, a, b, []);
    } else if b in Ball(edges, dir, a, k - 1) {
      BallHasWalk(edges, dir, a, k - 1, b);
    } else {
      NeighboursMeaning(edges, dir, Ball(edges, dir, a, k - 1), b);
      var e :| e in edges && Joins(dir, e, Ball(edges, dir, a, k - 1), b);
      var u :| u in Ball(edges, dir, a, k - 1) && Follows(dir, e, u, b);
      BallHasWalk(edges, dir, a, k - 1, u);
      var w :| |w| <= k - 1 && IsWalk(edges, dir, a, u, w);
      var longer := w + [u];
      assert longer[..|longer| - 1] == w && longer[|longer| - 1] == u;
      assert IsWalk(edges, dir, a, b, longer);
    }
  }

  lemma {:induction false} WalkInBall(edges: seq<Edge>, dir: Direction, a: Name, k: nat, b: Name, w: seq<Name>)
    requires IsWalk(edges, dir, a, b, w) && |w| <= k
    ensures b in Ball(edges, dir, a, k)
    decreases |w|
  {
    if w == [] {
      BallGrows(edges, dir, a, 0, k);
    } else {
      var last := w[|w| - 1];
      WalkInBall(edges, dir, a, |w| - 1, last, w[..|w| - 1]);
      var e :| e in edges && Follows(dir, e, last, b);
      assert Joins(dir, e, Ball(edges, dir, a, |w| - 1), b);
      NeighboursMeaning(edges, dir, Ball(edges, dir, a, |w| - 1), b);
      BallGrows(edges, dir, a, |w|, k);
    }
  }

  lemma {:induction false} BallGrows(edges: seq<Edge>, dir: Direction, a: Name, i: nat, k: nat)
    requires i <= k
    ensures Ball(edges, dir, a, i) <= Ball(edges, dir, a, k)
    decreases k
  {
    if i < k {
      BallGrows(edges, dir, a, i, k - 1);
    }
  }

  /** A ball that adds nothing never grows again. */
  lemma {:induction false} BallStable(edges: seq<Edge>, dir: Direction, a: Name, i: nat, k: nat)
    requires i <= k && Grown(edges, dir, Ball(edges, dir, a, i)) == Ball(edges, dir, a, i)
    ensures Ball(edges, dir, a, k) == Ball(edges, dir, a, i)
    decreases k
  {
    if i < k {
      BallStable(edges, dir, a, i, k - 1);
    }
  }

  lemma RimIsEmpty(ball: set<Name>, inner: set<Name>)
    requires ball - inner == {}
    ensures ball <= inner
  {
    forall v | v in ball
      ensures v in inner
    {
      assert v !in ball - inner;
    }
  }

  /** Nodes strictly nearer than `k`. */
  function Inner(edges: seq<Edge>, dir: Direction, a: Name, k: nat): set<Name> {
    if k == 0 then {} else Ball(edges, dir, a, k - 1)
  }

  /** Nodes at distance `k` exactly. */
  function Rim(edges: seq<Edge>, dir: Direction, a: Name, k: nat): set<Name> {
    Ball(edges, dir, a, k) - Inner(edges, dir, a, k)
  }

  /** The edges that leave `s`, in stored order; one that does so at both its ends comes twice. */
  function Picks(edges: seq<Edge>, dir: Direction, s: set<Name>): seq<Edge> {
    if edges == [] then []
    else Picks(edges[..|edges| - 1], dir, s) + PicksOf(edges[|edges| - 1], dir, s)
  }

  function PicksOf(e: Edge, dir: Direction, s: set<Name>): seq<Edge> {
    (if dir in {Outgoing, Both} && e.source in s then [e] else []) +
    (if dir in {Incoming, Both} && e.target in s then [e] else [])
  }

  /** Level by level, the edges that leave the rims nearer than `k`. */
  function Listing(edges: seq<Edge>, dir: Direction, a: Name, k: nat): seq<Edge> {
    if k == 0 then [] else Listing(edges, dir, a, k - 1) + Picks(edges, dir, Rim(edges, dir, a, k - 1))
  }

  lemma {:induction false} PicksMeaning(edges: seq<Edge>, dir: Direction, s: set<Name>, e: Edge)
    ensures e in Picks(edges, dir, s) <==> e in edges && Touches(dir, e, s)
  {
    if edges != [] {
      var init, last := edges[..|edges| - 1], edges[|edges| - 1];
      PicksMeaning(init, dir, s, e);
      assert edges == init + [last];
    }
  }

  /** The listing holds exactly the edges that touch a node nearer than `k`. */
  lemma {:induction false} ListingMeaning(edges: seq<Edge>, dir: Direction, a: Name, k: nat, e: Edge)
    ensures e in Listing(edges, dir, a, k) <==> e in edges && Touches(dir, e, Inner(edges, dir, a, k))
  {
    if k > 0 {
      var inner, rim := Inner(edges, dir, a, k - 1), Rim(edges, dir, a, k - 1);
      ListingMeaning(edges, dir, a, k - 1, e);
      InnerOneFurther(edges, dir, a, k - 1);
      ListingGrows(edges, dir, Listing(edges, dir, a, k - 1), inner, rim, Inner(edges, dir, a, k), e);
    }
  }

  lemma ListingGrows(edges: seq<Edge>, dir: Direction, listing: seq<Edge>, inner: set<Name>, rim: set<Name>,
                     next: set<Name>, e: Edge)
    requires e in listing <==> e in edges && Touches(dir, e, inner)
    requires next == inner + rim
    ensures e in listing + Picks(edges, dir, rim) <==> e in edges && Touches(dir, e, next)
  {
    PicksMeaning(edges, dir, rim, e);
    TouchEither(edges, dir, listing, Picks(edges, dir, rim), inner, rim, e);
  }

  lemma TouchEither(edges: seq<Edge>, dir: Direction, a: seq<Edge>, b: seq<Edge>, s: set<Name>, t: set<Name>, e: Edge)
    requires e in a <==> e in edges && Touches(dir, e, s)
    requires e in b <==> e in edges && Touches(dir, e, t)
    ensures e in a + b <==> e in edges && Touches(dir, e, s + t)
  {
  }

  lemma {:induction false} InnerOneFurther(edges: seq<Edge>, dir: Direction, a: Name, k: nat)
    ensures Inner(edges, dir, a, k + 1) == Inner(edges, dir, a, k) + Rim(edges, dir, a, k)
  {
    InnerNeighbours(edges, dir, a, k);
    InnerAndRim(Ball(edges, dir, a, k), Inner(edges, dir, a, k));
  }

  lemma InnerAndRim(ball: set<Name>, inner: set<Name>)
    requires inner <= ball
    ensures ball == inner + (ball - inner)
  {
  }

  /** After `i` levels: the ball is visited, its rim is the frontier, and the edges from nearer rims are listed. */
  ghost predicate LevelsDone(edges: seq<Edge>, dir: Direction, a: Name, i: nat, visited: set<Name>,
                             frontier: set<Name>, selected: seq<Edge>) {
    visited == Ball(edges, dir, a, i) && frontier == Rim(edges, dir, a, i) && selected == Listing(edges, dir, a, i)
  }

  lemma {:induction false} NeighboursAdd(edges: seq<Edge>, dir: Direction, s: set<Name>, t: set<Name>)
    ensures Neighbours(edges, dir, s + t) == Neighbours(edges, dir, s) + Neighbours(edges, dir, t)
  {
    if edges != [] {
      NeighboursAdd(edges[..|edges| - 1], dir, s, t);
    }
  }

  /** The inside of a ball has no neighbour outside the ball. */
  lemma {:induction false} InnerNeighbours(edges: seq<Edge>, dir: Direction, a: Name, i: nat)
    ensures Inner(edges, dir, a, i) <= Ball(edges, dir, a, i)
    ensures Neighbours(edges, dir, Inner(edges, dir, a, i)) <= Ball(edges, dir, a, i)
  {
    NoNeighbours(edges, dir);
  }

  lemma {:induction false} NoNeighbours(edges: seq<Edge>, dir: Direction)
    ensures Neighbours(edges, dir, {}) == {}
  {
    if edges != [] {
      NoNeighbours(edges[..|edges| - 1], dir);
    }
  }

  /** One more edge. */
  lemma LevelSnoc(edges: seq<Edge>, dir: Direction, s: set<Name>, k: nat)
    requires k < |edges|
    ensures Neighbours(edges[..k + 1], dir, s) == Neighbours(edges[..k], dir, s) + OtherEnds(edges[k], dir, s)
    ensures Picks(edges[..k + 1], dir, s) == Picks(edges[..k], dir, s) + PicksOf(edges[k], dir, s)
  {
    assert edges[..k + 1][..k] == edges[..k];
  }

  /** Expanding the rim alone gives the next ball. */
  lemma {:induction false} LevelStep(edges: seq<Edge>, dir: Direction, a: Name, i: nat, visited: set<Name>,
                                     frontier: set<Name>, selected: seq<Edge>)
    requires LevelsDone(edges, dir, a, i, visited, frontier, selected)
    ensures var next := Neighbours(edges, dir, frontier) - visited;
            LevelsDone(edges, dir, a, i + 1, visited + next, next, selected + Picks(edges, dir, frontier))
  {
    var inner := Inner(edges, dir, a, i);
    InnerNeighbours(edges, dir, a, i);
    NeighboursAdd(edges, dir, inner, frontier);
    assert inner + frontier == visited;
    assert Inner(edges, dir, a, i + 1) == visited;
    assert visited + (Neighbours(edges, dir, frontier) - visited) == visited + Neighbours(edges, dir, visited);
  }

  /** An empty rim means that further levels change nothing. */
  lemma {:induction false} LevelsStable(edges: seq<Edge>, dir: Direction, a: Name, i: nat, limit: nat,
                                        visited: set<Name>, selected: seq<Edge>)
    requires 0 < i <= limit && LevelsDone(edges, dir, a, i, visited, {}, selected)
    ensures LevelsDone(edges, dir, a, limit, visited, {}, selected)
  {
    EmptyRimStable(edges, dir, a, i, limit);
    ListingStable(edges, dir, a, i, limit);
  }

  lemma {:induction false} EmptyRimStable(edges: seq<Edge>, dir: Direction, a: Name, i: nat, limit: nat)
    requires 0 < i <= limit && Rim(edges, dir, a, i) == {}
    ensures Ball(edges, dir, a, limit) == Ball(edges, dir, a, i) && Rim(edges, dir, a, limit) == {}
  {
    InnerNeighbours(edges, dir, a, i);
    RimIsEmpty(Ball(edges, dir, a, i), Inner(edges, dir, a, i));
    assert Grown(edges, dir, Ball(edges, dir, a, i - 1)) == Ball(edges, dir, a, i) == Ball(edges, dir, a, i - 1);
    BallStable(edges, dir, a, i - 1, limit);
    BallStable(edges, dir, a, i - 1, limit - 1);
  }

  lemma {:induction false} ListingStable(edges: seq<Edge>, dir: Direction, a: Name, i: nat, limit: nat)
    requires 0 < i <= limit && Rim(edges, dir, a, i) == {}
    ensures Listing(edges, dir, a, limit) == Listing(edges, dir, a, i)
    decreases limit
  {
    if i < limit {
      ListingStable(edges, dir, a, i, limit - 1);
      EmptyRimStable(edges, dir, a, i, limit - 1);
      NoPicks(edges, dir);
    }
  }

  lemma {:induction false} NoPicks(edges: seq<Edge>, dir: Direction)
    ensures Picks(edges, dir, {}) == []
  {
    if edges != [] {
      NoPicks(edges[..|edges| - 1], dir);
    }
  }

  function Clamp(depth: int): (r: nat)
    ensures r <= 8 && (0 <= depth <= 8 ==> r == depth)
    ensures depth < r ==> r == 0
    ensures depth > r ==> r == 8
  {
    var d := if depth < 8 then depth else 8;
    if d > 0 then d else 0
  }

  // ----- search

  datatype Entry = Entry(node: Name, path: seq<Edge>)

  /** Entries hold shortest chains, nearest first and at most one edge apart. */
  ghost predicate QueueOk(edges: seq<Edge>, a: Name, dist: map<Name, nat>, queue: seq<Entry>) {
    (forall i :: 0 <= i < |queue| ==> EntryOk(edges, a, dist, queue[i])) &&
    (forall i, j :: 0 <= i < j < |queue| ==> |queue[i].path| <= |queue[j].path|) &&
    forall j :: 0 <= j < |queue| ==> |queue[j].path| <= |queue[0].path| + 1
  }

  ghost predicate EntryOk(edges: seq<Edge>, a: Name, dist: map<Name, nat>, e: Entry) {
    e.node in dist && dist[e.node] == |e.path| && IsChain(edges, a, e.node, e.path)
  }

  function Queued(queue: seq<Entry>): set<Name> {
    set i | 0 <= i < |queue| :: queue[i].node
  }

  lemma QueuedConcat(a: seq<Entry>, b: seq<Entry>)
    ensures Queued(a + b) == Queued(a) + Queued(b)
  {
    var c := a + b;
    forall v | v in Queued(a) + Queued(b)
      ensures v in Queued(c)
    {
      if v in Queued(a) {
        var i :| 0 <= i < |a| && a[i].node == v;
        assert c[i].node == v;
      } else {
        var i :| 0 <= i < |b| && b[i].node == v;
        assert c[|a| + i].node == v;
      }
    }
  }

  /** What the search knows: shortest distances of the seen nodes, the queue, and that every other seen node has been
      expanded. */
  ghost predicate SearchInv(nodes: set<Name>, edges: seq<Edge>, a: Name, dist: map<Name, nat>, queue: seq<Entry>,
                            seen: set<Name>) {
    seen == dist.Keys <= nodes && Distances(edges, a, dist) && QueueOk(edges, a, dist, queue) &&
      Queued(queue) <= seen &&
    Expanded(edges, Queued(queue), seen)
  }

  ghost predicate Expanded(edges: seq<Edge>, queued: set<Name>, seen: set<Name>) {
    forall v :: v in seen && v !in queued ==> Done(edges, seen, v)
  }

  /** `added` queues exactly the head's targets that were not seen, each by one edge. */
  ghost predicate Expands(edges: seq<Edge>, head: Entry, seen: set<Name>, added: seq<Entry>) {
    (forall i :: 0 <= i < |added| ==> added[i].node !in seen && ByOneEdge(edges, head, added[i])) &&
    Done(edges, seen + Queued(added), head.node)
  }

  ghost predicate ByOneEdge(edges: seq<Edge>, head: Entry, e: Entry) {
    |e.path| == |head.path| + 1 && e.path[..|head.path|] == head.path &&
    e.path[|head.path|] in edges && e.path[|head.path|].source == head.node && e.path[|head.path|].target == e.node
  }

  class DependencyGraph {
    var nodes: set<Name>
    var edges: seq<Edge>

    ghost predicate Valid()
      reads this
    {
      Closed(nodes, edges) && forall i, j :: 0 <= i < j < |edges| ==> edges[i].id != edges[j].id
    }

    constructor ()
      ensures Valid() && nodes == {} && edges == []
    {
      nodes, edges := {}, [];
    }

    method AddNode(n: Name)
      requires Valid()
      modifies this`nodes
      ensures Valid() && nodes == old(nodes) + {n}
    {
      nodes := nodes + {n};
    }

    /** An edge with a known identifier replaces the stored one in its place. */
    method AddEdge(e: Edge) returns (ok: bool)
      requires Valid()
      modifies this`edges
      ensures Valid() && ok == (e.source in nodes && e.target in nodes)
      ensures !ok ==> edges == old(edges)
      ensures ok ==> e in edges && forall x :: x in edges && x != e ==> x in old(edges) && x.id != e.id
      ensures ok ==> forall x :: x in old(edges) && x.id != e.id ==> x in edges
    {
      if e.source !in nodes || e.target !in nodes {
        return false;
      }
      ok := true;
      for i := 0 to |edges|
        invariant edges == old(edges)
        invariant forall j :: 0 <= j < i ==> edges[j].id != e.id
      {
        if edges[i].id == e.id {
          ghost var before := edges;
          edges := edges[i := e];
          assert edges[i] == e;
          assert forall j :: 0 <= j < |edges| && j != i ==> edges[j] == before[j];
          return;
        }
      }
      edges := edges + [e];
    }

    /** One level of expansion: the edges that leave the frontier, and their other ends. */
    method Level(dir: Direction, frontier: set<Name>) returns (next: set<Name>, picked: seq<Edge>)
      ensures next == Neighbours(edges, dir, frontier)
      ensures picked == Picks(edges, dir, frontier)
    {
      next, picked := {}, [];
      for k := 0 to |edges|
        invariant next == Neighbours(edges[..k], dir, frontier)
        invariant picked == Picks(edges[..k], dir, frontier)
      {
        var e := edges[k];
        LevelSnoc(edges, dir, frontier, k);
        ghost var before := picked;
        if dir in {Outgoing, Both} && e.source in frontier {
          picked := picked + [e];
          next := next + {e.target};
        }
        if dir in {Incoming, Both} && e.target in frontier {
          picked := picked + [e];
          next := next + {e.source};
        }
        assert picked == before + PicksOf(e, dir, frontier);
      }
      assert edges[..|edges|] == edges;
    }

    /** Expansion returns exactly the nodes within the clamped depth, and lists, level by level and in stored order, the
        edges that leave nodes nearer than that. */
    method Expand(node: Name, dir: Direction, depth: int)
      returns (available: bool, visited: set<Name>, selected: seq<Edge>)
      requires Valid()
      ensures available == (node in nodes)
      ensures available ==> visited == Ball(edges, dir, node, Clamp(depth))
      ensures available ==> selected == Listing(edges, dir, node, Clamp(depth))
      ensures available ==>
                forall e :: e in selected <==> e in edges && Touches(dir, e, Inner(edges, dir, node, Clamp(depth)))
    {
      if node !in nodes {
        return false, {}, [];
      }
      available, visited, selected := Levels(node, dir, Clamp(depth));
      forall e
        ensures e in selected <==> e in edges && Touches(dir, e, Inner(edges, dir, node, Clamp(depth)))
      {
        ListingMeaning(edges, dir, node, Clamp(depth), e);
      }
    }

    method Levels(node: Name, dir: Direction, limit: nat)
      returns (available: bool, visited: set<Name>, selected: seq<Edge>)
      ensures available && visited == Ball(edges, dir, node, limit) && selected == Listing(edges, dir, node, limit)
    {
      available, visited, selected := true, {node}, [];
      var frontier := {node};
      for i := 0 to limit
        invariant LevelsDone(edges, dir, node, i, visited, frontier, selected)
      {
        var next, picked := Level(dir, frontier);
        LevelStep(edges, dir, node, i, visited, frontier, selected);
        selected := selected + picked;
        frontier := next - visited;
        visited := visited + frontier;
        if frontier == {} {
          LevelsStable(edges, dir, node, i + 1, limit, visited, selected);
          return;
        }
      }
    }

    /** One round of the search: queue the unseen targets of the head's edges. */
    method Visit(head: Entry, seen0: set<Name>) returns (added: seq<Entry>, seen: set<Name>)
      ensures Expands(edges, head, seen0, added) && seen == seen0 + Queued(added)
    {
      added, seen := [], seen0;
      for k := 0 to |edges|
        invariant forall i :: 0 <= i < |added| ==> added[i].node !in seen0 && ByOneEdge(edges, head, added[i])
        invariant seen == seen0 + Queued(added)
        invariant forall j :: 0 <= j < k && edges[j].source == head.node ==> edges[j].target in seen
      {
        var e := edges[k];
        if e.source == head.node && e.target !in seen {
          var entry := Entry(e.target, head.path + [e]);
          QueuedConcat(added, [entry]);
          assert Queued([entry]) == {e.target} by { assert [entry][0].node == e.target; }
          added := added + [entry];
          seen := seen + {e.target};
        }
      }
    }

    /** Breadth-first search finds a shortest chain, or proves that there is none. */
    method FindPath(source: Name, target: Name) returns (r: PathResult)
      requires Valid()
      ensures r.UnknownEndpoint? <==> source !in nodes || target !in nodes
      ensures r.Found? ==> IsChain(edges, source, target, r.path) && AtLeast(edges, source, target, |r.path|)
      ensures r.NoPath? ==> forall p :: !IsChain(edges, source, target, p)
    {
      if source !in nodes || target !in nodes {
        return UnknownEndpoint;
      }
      var queue := [Entry(source, [])];
      var seen := {source};
      ghost var dist: map<Name, nat> := map[source := 0];
      assert Queued(queue) == {source} by { assert queue[0].node == source; }
      while queue != []
        invariant SearchInv(nodes, edges, source, dist, queue, seen)
        invariant target in seen ==> target in Queued(queue)
        decreases |nodes - seen|, |queue|
      {
        var head, rest := queue[0], queue[1..];
        if head.node == target {
          assert EntryOk(edges, source, dist, head);
          return Found(head.path);
        }
        HeadAndRest(queue);
        ghost var seen0 := seen;
        var added;
        added, seen := Visit(head, seen);
        dist := SearchRound(nodes, edges, source, dist, head, rest, seen0, added, target);
        queue := rest + added;
      }
      Exhausted(nodes, edges, source, dist, seen, target);
      return NoPath;
    }
  }

  /** An empty queue means that unseen nodes are unreachable. */
  lemma Exhausted(nodes: set<Name>, edges: seq<Edge>, a: Name, dist: map<Name, nat>, seen: set<Name>, b: Name)
    requires SearchInv(nodes, edges, a, dist, [], seen) && b !in seen
    ensures forall p :: !IsChain(edges, a, b, p)
  {
    forall p
      ensures !IsChain(edges, a, b, p)
    {
      if IsChain(edges, a, b, p) {
        ShortChainsEndSeen(edges, a, dist, |p|, b, p);
        assert false;
      }
    }
  }

  /** Distances after expanding `head`: the newly seen nodes are one edge further. */
  function Extended(dist: map<Name, nat>, head: Entry, added: seq<Entry>): map<Name, nat> {
    map v | v in dist.Keys + Queued(added) :: if v in dist then dist[v] else |head.path| + 1
  }

  lemma AddedEntryOk(nodes: set<Name>, edges: seq<Edge>, a: Name, dist: map<Name, nat>, head: Entry, added: seq<Entry>,
                     i: nat)
    requires Closed(nodes, edges) && EntryOk(edges, a, dist, head) && Expands(edges, head, dist.Keys, added) &&
             i < |added|
    ensures EntryOk(edges, a, Extended(dist, head, added), added[i]) && added[i].node in nodes
  {
    assert ByOneEdge(edges, head, added[i]) && added[i].node in Queued(added);
    var path := added[i].path;
    assert path[..|path| - 1] == head.path && path[|path| - 1] in edges;
  }

  lemma ExtendedDistances(edges: seq<Edge>, a: Name, dist: map<Name, nat>, head: Entry, added: seq<Entry>)
    requires Distances(edges, a, dist) && NearerDone(edges, dist, |head.path|)
    ensures Distances(edges, a, Extended(dist, head, added))
  {
    var after := Extended(dist, head, added);
    forall v | v in after
      ensures AtLeast(edges, a, v, after[v])
    {
      if v in dist {
        assert AtLeast(edges, a, v, dist[v]);
      } else {
        FreshTargetIsFar(edges, a, dist, |head.path|, v);
      }
    }
  }

  lemma HeadAndRest(queue: seq<Entry>)
    requires queue != []
    ensures queue == [queue[0]] + queue[1..]
  {
  }

  lemma QueuedHead(head: Entry, rest: seq<Entry>)
    ensures Queued([head] + rest) == {head.node} + Queued(rest)
  {
    QueuedConcat([head], rest);
    assert [head][0].node == head.node;
    assert Queued([head]) == {head.node};
  }

  lemma QueueAfterVisit(nodes: set<Name>, edges: seq<Edge>, a: Name, dist0: map<Name, nat>, head: Entry,
                        rest: seq<Entry>, added: seq<Entry>)
    requires Closed(nodes, edges) && QueueOk(edges, a, dist0, [head] + rest) && Expands(edges, head, dist0.Keys, added)
    ensures QueueOk(edges, a, Extended(dist0, head, added), rest + added) && Queued(added) <= nodes
  {
    var full, dist, queue := [head] + rest, Extended(dist0, head, added), rest + added;
    assert full[0] == head && full[1..] == rest;
    assert EntryOk(edges, a, dist0, full[0]);
    forall i | 0 <= i < |added|
      ensures EntryOk(edges, a, dist, added[i]) && added[i].node in nodes && |added[i].path| == |head.path| + 1
    {
      AddedEntryOk(nodes, edges, a, dist0, head, added, i);
      assert ByOneEdge(edges, head, added[i]);
    }
    forall i | |rest| <= i < |queue|
      ensures EntryOk(edges, a, dist, queue[i]) && |queue[i].path| == |full[0].path| + 1
    {
      assert queue[i] == added[i - |rest|];
    }
    QueueGrows(edges, a, dist0, dist, full, queue, |rest|);
  }

  /** One round of the search: the invariant is kept, a seen target stays queued, and the search gets closer to its
      end. */
  lemma SearchRound(nodes: set<Name>, edges: seq<Edge>, a: Name, dist0: map<Name, nat>, head: Entry, rest: seq<Entry>,
                    seen0: set<Name>, added: seq<Entry>, target: Name) returns (dist: map<Name, nat>)
    requires Closed(nodes, edges) && SearchInv(nodes, edges, a, dist0, [head] + rest, seen0) &&
             Expands(edges, head, seen0, added)
    requires head.node != target && (target in seen0 ==> target in Queued([head] + rest))
    ensures SearchInv(nodes, edges, a, dist, rest + added, seen0 + Queued(added))
    ensures target in seen0 + Queued(added) ==> target in Queued(rest + added)
    ensures added == [] || |nodes - (seen0 + Queued(added))| < |nodes - seen0|
  {
    dist := VisitKeeps(nodes, edges, a, dist0, head, rest, seen0, added);
    VisitProgress(nodes, edges, head, rest, seen0, added);
  }

  /** Expanding the head keeps the search invariant. */
  lemma VisitKeeps(nodes: set<Name>, edges: seq<Edge>, a: Name, dist0: map<Name, nat>, head: Entry, rest: seq<Entry>,
                   seen0: set<Name>, added: seq<Entry>) returns (dist: map<Name, nat>)
    requires Closed(nodes, edges) && SearchInv(nodes, edges, a, dist0, [head] + rest, seen0) &&
             Expands(edges, head, seen0, added)
    ensures SearchInv(nodes, edges, a, dist, rest + added, seen0 + Queued(added))
  {
    dist := Extended(dist0, head, added);
    var full := [head] + rest;
    assert full[0] == head;
    QueueAfterVisit(nodes, edges, a, dist0, head, rest, added);
    ExpandedAfterVisit(edges, a, dist0, head, rest, seen0, added);
    HeadIsNearest(edges, a, dist0, full, seen0);
    ExtendedDistances(edges, a, dist0, head, added);
  }

  lemma ExpandedAfterVisit(edges: seq<Edge>, a: Name, dist0: map<Name, nat>, head: Entry, rest: seq<Entry>,
                           seen0: set<Name>, added: seq<Entry>)
    requires Queued([head] + rest) <= seen0 && Expanded(edges, Queued([head] + rest), seen0) &&
             Expands(edges, head, seen0, added)
    ensures Expanded(edges, Queued(rest + added), seen0 + Queued(added)) &&
            Queued(rest + added) <= seen0 + Queued(added)
  {
    QueuedHead(head, rest);
    QueuedConcat(rest, added);
    OthersStayDone(edges, [head] + rest, head, seen0, Queued(rest), added);
  }

  /** Each round shortens the queue or sees new nodes. */
  lemma VisitProgress(nodes: set<Name>, edges: seq<Edge>, head: Entry, rest: seq<Entry>, seen0: set<Name>,
                      added: seq<Entry>)
    requires Expands(edges, head, seen0, added) && seen0 + Queued(added) <= nodes
    ensures Queued(rest + added) == Queued(rest) + Queued(added) && Queued([head] + rest) == {head.node} + Queued(rest)
    ensures added == [] || |nodes - (seen0 + Queued(added))| < |nodes - seen0|
  {
    QueuedHead(head, rest);
    QueuedConcat(rest, added);
    if added != [] {
      GrowsIfAdded(edges, head, seen0, added);
      Shrinks(nodes, seen0, seen0 + Queued(added));
    }
  }

  lemma GrowsIfAdded(edges: seq<Edge>, head: Entry, seen: set<Name>, added: seq<Entry>)
    requires added != [] && Expands(edges, head, seen, added)
    ensures seen < seen + Queued(added)
  {
    assert added[0].node in Queued(added) && added[0].node !in seen;
  }

  lemma OthersStayDone(edges: seq<Edge>, full: seq<Entry>, head: Entry, seen: set<Name>, rest: set<Name>,
                       added: seq<Entry>)
    requires Expanded(edges, Queued(full), seen)
    requires Queued(full) == {head.node} + rest && Expands(edges, head, seen, added)
    ensures Expanded(edges, rest + Queued(added), seen + Queued(added))
  {
    forall v | v in seen + Queued(added) && v !in rest + Queued(added)
      ensures Done(edges, seen + Queued(added), v)
    {
      if v != head.node {
        assert Done(edges, seen, v);
      }
    }
  }

  lemma Shrinks(nodes: set<Name>, before: set<Name>, after: set<Name>)
    requires before < after <= nodes
    ensures |nodes - after| < |nodes - before|
  {
    var v :| v in after && v !in before;
    assert nodes - after <= (nodes - before) - {v};
    SubsetSize(nodes - after, (nodes - before) - {v});
  }

  lemma SubsetSize(a: set<Name>, b: set<Name>)
    requires a <= b
    ensures |a| <= |b|
  {
    assert b == a + (b - a);
  }

  /** Everything nearer than the head of the queue has already been expanded. */
  lemma HeadIsNearest(edges: seq<Edge>, a: Name, dist: map<Name, nat>, queue: seq<Entry>, seen: set<Name>)
    requires queue != [] && QueueOk(edges, a, dist, queue) && seen == dist.Keys
    requires Expanded(edges, Queued(queue), seen)
    ensures NearerDone(edges, dist, |queue[0].path|)
  {
    assert forall i :: 0 <= i < |queue| ==> EntryOk(edges, a, dist, queue[i]) && |queue[0].path| <= |queue[i].path|;
  }

  lemma FreshTargetIsFar(edges: seq<Edge>, a: Name, dist: map<Name, nat>, d: nat, v: Name)
    requires Distances(edges, a, dist) && v !in dist && NearerDone(edges, dist, d)
    ensures AtLeast(edges, a, v, d + 1)
  {
    forall p | IsChain(edges, a, v, p)
      ensures |p| >= d + 1
    {
      if |p| <= d {
        ShortChainsEndSeen(edges, a, dist, d, v, p);
      }
    }
  }

  lemma QueueGrows(edges: seq<Edge>, a: Name, dist0: map<Name, nat>, dist: map<Name, nat>, full: seq<Entry>,
                   queue: seq<Entry>, n: nat)
    requires full != [] && QueueOk(edges, a, dist0, full) && n == |full| - 1 && n <= |queue| && queue[..n] == full[1..]
    requires forall v :: v in dist0 ==> v in dist && dist[v] == dist0[v]
    requires forall i :: n <= i < |queue| ==> EntryOk(edges, a, dist, queue[i]) && |queue[i].path| == |full[0].path| + 1
    ensures QueueOk(edges, a, dist, queue)
  {
    forall i | 0 <= i < n
      ensures queue[i] == full[i + 1] && EntryOk(edges, a, dist, queue[i])
      ensures |full[0].path| <= |queue[i].path| <= |full[0].path| + 1
    {
      assert queue[i] == queue[..n][i] == full[1..][i];
      assert EntryOk(edges, a, dist0, full[i + 1]);
    }
  }
}
