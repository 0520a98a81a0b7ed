/** What neighbourhood and path queries over a relation table mean. */
module GraphQueries {
  import opened Order

  datatype Relation = Relation(id: string, source: string, target: string, kind: string)
  datatype Direction = Forward | Backward | Both | Neither
  type Relations = map<string, Relation>

  /** An empty filter admits every relation type. */
  predicate Matches(filter: set<string>, r: Relation) {
    filter == {} || r.kind in filter
  }

  // ---------------------------------------------------------------- neighbourhoods

  /** Relation `r` is followed from node `a` in direction `d`. */
  predicate Touches(d: Direction, r: Relation, a: string) {
    ((d.Forward? || d.Both?) && r.source == a) || ((d.Backward? || d.Both?) && r.target == a)
  }

  function Other(r: Relation, a: string): string {
    if r.source == a then r.target else r.source
  }

  ghost function EdgesAt(rs: Relations, d: Direction, filter: set<string>, nodes: set<string>): set<string> {
    set r | r in rs && Matches(filter, rs[r]) && exists a :: a in nodes && Touches(d, rs[r], a)
  }

  ghost function Around(rs: Relations, d: Direction, filter: set<string>, nodes: set<string>): set<string> {
    set r, a | r in rs && a in nodes && Matches(filter, rs[r]) && Touches(d, rs[r], a) :: Other(rs[r], a)
  }

  /** The nodes within `k` hops. */
  ghost function Within(rs: Relations, d: Direction, filter: set<string>, start: string, k: nat): set<string> {
    if k == 0 then {start}
    else
      var near := Within(rs, d, filter, start, k - 1);
      near + Around(rs, d, filter, near)
  }

  /** The relations that touch a node fewer than `k` hops away. */
  ghost function EdgesWithin(rs: Relations, d: Direction, filter: set<string>, start: string, k: nat): set<string> {
    if k == 0 then {} else EdgesAt(rs, d, filter, Within(rs, d, filter, start, k - 1))
  }

  /** A walk `nodes` along the relations `edges`, each followed in the chosen direction. */
  ghost predicate Walk(rs: Relations, d: Direction, filter: set<string>, nodes: seq<string>, edges: seq<string>) {
    && |nodes| == |edges| + 1
    && forall i :: 0 <= i < |edges| ==>
         Hop(rs, d, filter, edges[i], nodes[i], nodes[i + 1])
  }

  /** Relation `r` leads from `a` to `b`: from source to target, the other way, or either way. */
  predicate Hop(rs: Relations, d: Direction, filter: set<string>, r: string, a: string, b: string) {
    && r in rs && (|filter| > 0 ==> rs[r].kind in filter)
    && match d
       case Forward => rs[r].source == a && rs[r].target == b
       case Backward => rs[r].target == a && rs[r].source == b
       case Both => {rs[r].source, rs[r].target} == {a, b}
       case Neither => false
  }

  lemma HopIs(rs: Relations, d: Direction, filter: set<string>, r: string, a: string, b: string)
    ensures Hop(rs, d, filter, r, a, b) <==>
      r in rs && Matches(filter, rs[r]) && Touches(d, rs[r], a) && b == Other(rs[r], a)
  {
    if r in rs && d.Both? {
      var ends := {rs[r].source, rs[r].target};
      if ends == {a, b} { assert a in ends && b in ends && rs[r].source in {a, b} && rs[r].target in {a, b}; }
    }
  }

  /** The relations near a node: those that can be followed from a node fewer than `k` hops away. */
  lemma EdgesWithinAre(rs: Relations, d: Direction, filter: set<string>, start: string, k: nat, r: string)
    ensures r in EdgesWithin(rs, d, filter, start, k) <==>
      k > 0 && exists a, b :: a in Within(rs, d, filter, start, k - 1) && Hop(rs, d, filter, r, a, b)
  {
    hide Hop;
    if k > 0 {
      var near := Within(rs, d, filter, start, k - 1);
      if r in EdgesWithin(rs, d, filter, start, k) {
        var a :| a in near && Touches(d, rs[r], a);
        HopIs(rs, d, filter, r, a, Other(rs[r], a));
      }
      if a, b :| a in near && Hop(rs, d, filter, r, a, b) { HopIs(rs, d, filter, r, a, b); }
    }
  }

  /** A node is within `k` hops exactly when some walk of at most `k` relations leads to it. */
  lemma {:induction false} WithinIsWalks(rs: Relations, d: Direction, filter: set<string>, start: string, k: nat,
                                         x: string)
    ensures x in Within(rs, d, filter, start, k) <==>
      exists nodes, edges :: Walk(rs, d, filter, nodes, edges) && |edges| <= k && nodes[0] == start
        && nodes[|edges|] == x
  {
    if x in Within(rs, d, filter, start, k) {
      var nodes, edges := WalkTo(rs, d, filter, start, k, x);
    }
    if nodes, edges :| Walk(rs, d, filter, nodes, edges) && |edges| <= k && nodes[0] == start && nodes[|edges|] == x {
      WalkIn(rs, d, filter, start, k, nodes, edges);
    }
  }

  lemma AroundFrom(rs: Relations, d: Direction, filter: set<string>, nodes: set<string>, x: string) returns (r: string,
      a: string)
    requires x in Around(rs, d, filter, nodes)
    ensures r in rs && a in nodes && Matches(filter, rs[r]) && Touches(d, rs[r], a) && Other(rs[r], a) == x
  {
    r, a :| r in rs && a in nodes && Matches(filter, rs[r]) && Touches(d, rs[r], a) && Other(rs[r], a) == x;
  }

  lemma WalkOn(rs: Relations, d: Direction, filter: set<string>, nodes: seq<string>, edges: seq<string>, r: string)
    requires Walk(rs, d, filter, nodes, edges)
    requires r in rs && Matches(filter, rs[r]) && Touches(d, rs[r], nodes[|edges|])
    ensures Walk(rs, d, filter, nodes + [Other(rs[r], nodes[|edges|])], edges + [r])
  {
    HopIs(rs, d, filter, r, nodes[|edges|], Other(rs[r], nodes[|edges|]));
    hide Hop, Matches, Touches, Other;
  }

  lemma {:induction false} WalkTo(rs: Relations, d: Direction, filter: set<string>, start: string, k: nat, x: string)
    returns (nodes: seq<string>, edges: seq<string>)
    requires x in Within(rs, d, filter, start, k)
    ensures Walk(rs, d, filter, nodes, edges) && |edges| <= k && nodes[0] == start && nodes[|edges|] == x
  {
    hide Around, Matches, Touches, Other, Hop;
    if k == 0 {
      nodes, edges := [start], [];
    } else {
      var near := Within(rs, d, filter, start, k - 1);
      if x in near {
        nodes, edges := WalkTo(rs, d, filter, start, k - 1, x);
      } else {
        var r, a := AroundFrom(rs, d, filter, near, x);
        nodes, edges := WalkTo(rs, d, filter, start, k - 1, a);
        WalkOn(rs, d, filter, nodes, edges, r);
        nodes, edges := nodes + [x], edges + [r];
      }
    }
  }

  lemma {:induction false} WalkIn(rs: Relations, d: Direction, filter: set<string>, start: string, k: nat,
                                  nodes: seq<string>, edges: seq<string>)
    requires Walk(rs, d, filter, nodes, edges) && |edges| <= k && nodes[0] == start
    ensures nodes[|edges|] in Within(rs, d, filter, start, k)
    decreases |edges|
  {
    if edges == [] {
      StartWithin(rs, d, filter, start, k);
    } else {
      var last := |edges| - 1;
      assert Walk(rs, d, filter, nodes[..last + 1], edges[..last]);
      WalkIn(rs, d, filter, start, k - 1, nodes[..last + 1], edges[..last]);
      var r, a := edges[last], nodes[last];
      HopIs(rs, d, filter, r, a, nodes[last + 1]);
      assert r in rs && Matches(filter, rs[r]) && Touches(d, rs[r], a);
      assert Other(rs[r], a) in Around(rs, d, filter, Within(rs, d, filter, start, k - 1));
    }
  }

  lemma {:induction false} StartWithin(rs: Relations, d: Direction, filter: set<string>, start: string, k: nat)
    ensures start in Within(rs, d, filter, start, k)
  {
    if k > 0 { StartWithin(rs, d, filter, start, k - 1); }
  }

  // ---------------------------------------------------------------- paths

  datatype Query = Query(relations: Relations, filter: set<string>, source: string, target: string, depth: int)

  function EndOf(q: Query, path: seq<string>): string {
    if path == [] || path[|path| - 1] !in q.relations then q.source else q.relations[path[|path| - 1]].target
  }

  /** The nodes a relation sequence visits, from the source on. */
  function NodesOf(q: Query, path: seq<string>): seq<string> {
    if path == [] then [q.source] else NodesOf(q, path[..|path| - 1]) + [EndOf(q, path)]
  }

  /** Consecutive matching relations from the source that never visit a node twice. */
  ghost predicate Simple(q: Query, path: seq<string>) {
    path == [] ||
    (var front, r := path[..|path| - 1], path[|path| - 1];
     && Simple(q, front)
     && r in q.relations && Matches(q.filter, q.relations[r])
     && q.relations[r].source == EndOf(q, front)
     && q.relations[r].target !in NodesOf(q, front))
  }

  /** A simple path from source to target of at most `depth` relations. */
  ghost predicate Answer(q: Query, path: seq<string>) {
    path != [] && Simple(q, path) && EndOf(q, path) == q.target && |path| <= q.depth
  }

  /** A simple path visits pairwise different nodes, and each relation connects two consecutive ones. */
  lemma {:induction false} SimpleMeansSimple(q: Query, path: seq<string>)
    requires Simple(q, path)
    ensures var nodes := NodesOf(q, path);
      && |nodes| == |path| + 1 && nodes[0] == q.source && nodes[|path|] == EndOf(q, path) && Distinct(nodes)
      && forall i :: 0 <= i < |path| ==>
           path[i] in q.relations && q.relations[path[i]].source == nodes[i]
             && q.relations[path[i]].target == nodes[i + 1]
  {
    if path != [] {
      var front := path[..|path| - 1];
      SimpleMeansSimple(q, front);
      DistinctAppend(NodesOf(q, front), EndOf(q, path));
    }
  }

  /** A route of the query: different nodes, each joined to the next by a relation of an admitted type. */
  ghost predicate Route(q: Query, nodes: seq<string>, path: seq<string>) {
    && 1 <= |path| <= q.depth && |nodes| == |path| + 1 && Distinct(nodes)
    && nodes[0] == q.source && nodes[|path|] == q.target
    && forall i :: 0 <= i < |path| ==> Hop(q.relations, Forward, q.filter, path[i], nodes[i], nodes[i + 1])
  }

  lemma {:induction false} HopsAreSimple(q: Query, nodes: seq<string>, path: seq<string>)
    requires |nodes| == |path| + 1 && Distinct(nodes) && nodes[0] == q.source
    requires forall i :: 0 <= i < |path| ==> Hop(q.relations, Forward, q.filter, path[i], nodes[i], nodes[i + 1])
    ensures Simple(q, path) && NodesOf(q, path) == nodes
    decreases |path|
  {
    if path != [] {
      var n := |path| - 1;
      HopsAreSimple(q, nodes[..n + 1], path[..n]);
      SimpleMeansSimple(q, path[..n]);
      HopIs(q.relations, Forward, q.filter, path[n], nodes[n], nodes[n + 1]);
      assert NodesOf(q, path[..n])[n] == nodes[n];
    }
  }

  lemma {:induction false} SimpleHops(q: Query, path: seq<string>, i: nat)
    requires Simple(q, path) && i < |path|
    ensures |NodesOf(q, path)| == |path| + 1
    ensures Hop(q.relations, Forward, q.filter, path[i], NodesOf(q, path)[i], NodesOf(q, path)[i + 1])
    decreases |path|
  {
    SimpleMeansSimple(q, path);
    var n := |path| - 1;
    if i < n {
      SimpleHops(q, path[..n], i);
      NodesPrefix(q, path, n);
      var nodes := NodesOf(q, path);
      assert nodes[..n + 1][i] == nodes[i] && nodes[..n + 1][i + 1] == nodes[i + 1];
    } else {
      HopIs(q.relations, Forward, q.filter, path[n], NodesOf(q, path)[n], NodesOf(q, path)[n + 1]);
    }
  }

  /** What the search looks for are exactly the routes from source to target. */
  lemma AnswersAreRoutes(q: Query, path: seq<string>)
    ensures Answer(q, path) <==> exists nodes :: Route(q, nodes, path)
    ensures Answer(q, path) ==> Route(q, NodesOf(q, path), path)
  {
    hide Hop;
    if Answer(q, path) {
      SimpleMeansSimple(q, path);
      forall i | 0 <= i < |path|
        ensures Hop(q.relations, Forward, q.filter, path[i], NodesOf(q, path)[i], NodesOf(q, path)[i + 1])
      {
        SimpleHops(q, path, i);
      }
      assert Route(q, NodesOf(q, path), path);
    }
    if nodes :| Route(q, nodes, path) {
      HopsAreSimple(q, nodes, path);
      SimpleMeansSimple(q, path);
    }
  }

  lemma {:induction false} PrefixSimple(q: Query, path: seq<string>, k: nat)
    requires Simple(q, path) && k <= |path|
    ensures Simple(q, path[..k])
  {
    if k < |path| {
      var front := path[..|path| - 1];
      assert path[..k] == front[..k];
      PrefixSimple(q, front, k);
    } else {
      assert path[..k] == path;
    }
  }

  /** Before its last relation an answer has not reached the target. */
  lemma AnswerAvoidsTarget(q: Query, path: seq<string>, k: nat)
    requires Answer(q, path) && k < |path|
    ensures EndOf(q, path[..k]) != q.target
  {
    SimpleMeansSimple(q, path);
    PrefixSimple(q, path, k);
    SimpleMeansSimple(q, path[..k]);
    NodesPrefix(q, path, k);
    assert NodesOf(q, path)[k] == EndOf(q, path[..k]);
    assert NodesOf(q, path)[|path|] == q.target;
  }

  lemma {:induction false} NodesPrefix(q: Query, path: seq<string>, k: nat)
    requires k <= |path|
    ensures |NodesOf(q, path)| == |path| + 1 && NodesOf(q, path)[..k + 1] == NodesOf(q, path[..k])
  {
    if k < |path| {
      assert path[..|path| - 1][..k] == path[..k];
      NodesPrefix(q, path[..|path| - 1], k);
    } else {
      assert path[..k] == path;
      if path != [] { NodesPrefix(q, path[..|path| - 1], 0); }
    }
  }
}
