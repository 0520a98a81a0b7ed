/** The in-memory graph store: indexed relations, neighbourhood search and path enumeration. */
module GraphStore {
  import opened Order
  import opened GraphQueries

  datatype Entity = Entity(id: string, kind: string, namespace: string)
  datatype Slice = Slice(nodes: set<string>, edges: seq<Relation>)
  datatype GraphPath = GraphPath(nodes: seq<string>, relations: seq<string>)
  datatype Item = Item(node: string, nodes: seq<string>, relations: seq<string>)

  function Ids(index: map<string, set<string>>, node: string): set<string> {
    if node in index then index[node] else {}
  }

  /** Every index entry names a stored relation with that end point, and every relation is in both indexes. */
  ghost predicate Indexed(rs: Relations, outgoing: map<string, set<string>>, incoming: map<string, set<string>>) {
    && (forall r :: r in rs ==> rs[r].id == r)
    && (forall n, r :: r in Ids(outgoing, n) <==> r in rs && rs[r].source == n)
    && (forall n, r :: r in Ids(incoming, n) <==> r in rs && rs[r].target == n)
  }

  /** `edges` lists each of the relations `ids` once. */
  ghost predicate Lists(rs: Relations, ids: set<string>, edges: seq<Relation>) {
    && ids <= rs.Keys && Distinct(edges)
    && forall e :: e in edges <==> e.id in ids && e.id in rs && rs[e.id] == e
  }

  lemma ListsMore(rs: Relations, ids: set<string>, edges: seq<Relation>, r: string)
    requires Lists(rs, ids, edges) && r in rs && r !in ids && rs[r].id == r
    ensures Lists(rs, ids + {r}, edges + [rs[r]])
  {
    DistinctAppend(edges, rs[r]);
  }

  lemma AroundUnion(rs: Relations, d: Direction, filter: set<string>, a: set<string>, b: set<string>)
    ensures Around(rs, d, filter, a + b) == Around(rs, d, filter, a) + Around(rs, d, filter, b)
    ensures EdgesAt(rs, d, filter, a + b) == EdgesAt(rs, d, filter, a) + EdgesAt(rs, d, filter, b)
  {}

  lemma IndexedAt(rs: Relations, outgoing: map<string, set<string>>, incoming: map<string, set<string>>, n: string)
    requires Indexed(rs, outgoing, incoming)
    ensures forall r :: r in Ids(outgoing, n) <==> r in rs && rs[r].source == n
    ensures forall r :: r in Ids(incoming, n) <==> r in rs && rs[r].target == n
    ensures forall r :: r in rs ==> rs[r].id == r
  {}

  lemma IndexedUnder(rs: Relations, outgoing: map<string, set<string>>, incoming: map<string, set<string>>, r: string)
    requires Indexed(rs, outgoing, incoming)
    ensures forall n :: r in Ids(outgoing, n) <==> r in rs && rs[r].source == n
    ensures forall n :: r in Ids(incoming, n) <==> r in rs && rs[r].target == n
  {}

  /** Moving a relation keeps the indexes right once its old entries are gone. */
  lemma UpsertIndexed(rs: Relations, outgoing: map<string, set<string>>, incoming: map<string, set<string>>,
                      out: map<string, set<string>>, inc: map<string, set<string>>, relation: Relation)
    requires Indexed(rs, outgoing, incoming)
    requires forall n :: Ids(out, n) == Ids(outgoing, n) - {relation.id}
    requires forall n :: Ids(inc, n) == Ids(incoming, n) - {relation.id}
    ensures Indexed(rs[relation.id := relation],
                    out[relation.source := Ids(out, relation.source) + {relation.id}],
                    inc[relation.target := Ids(inc, relation.target) + {relation.id}])
  {
    hide Ids;
    forall n, r
      ensures r in Ids(outgoing, n) <==> r in rs && End(true, rs[r]) == n
      ensures r in Ids(incoming, n) <==> r in rs && End(false, rs[r]) == n {}
    InsertIndexed(rs, outgoing, out, relation, true);
    InsertIndexed(rs, incoming, inc, relation, false);
  }

  function End(source: bool, r: Relation): string { if source then r.source else r.target }

  lemma InsertIndexed(rs: Relations, index: map<string, set<string>>, rest: map<string, set<string>>,
                      relation: Relation, source: bool)
    requires forall n, r :: r in Ids(index, n) <==> r in rs && End(source, rs[r]) == n
    requires forall n :: Ids(rest, n) == Ids(index, n) - {relation.id}
    ensures var rs', key := rs[relation.id := relation], End(source, relation);
      var index' := rest[key := Ids(rest, key) + {relation.id}];
      forall n, r :: r in Ids(index', n) <==> r in rs' && End(source, rs'[r]) == n
  {
    hide End;
    var rs', key := rs[relation.id := relation], End(source, relation);
    var index' := rest[key := Ids(rest, key) + {relation.id}];
    forall n, r ensures r in Ids(index', n) <==> r in rs' && End(source, rs'[r]) == n {
      assert Ids(index', n) == Ids(rest, n) + (if n == key then {relation.id} else {});
      assert r in Ids(index, n) <==> r in rs && End(source, rs[r]) == n;
    }
  }

  /** Forgetting an entry under one key forgets it everywhere, as it stands under no other. */
  lemma ForgetId(index: map<string, set<string>>, key: string, id: string)
    requires forall n :: id in Ids(index, n) ==> n == key
    ensures forall n :: Ids(index[key := Ids(index, key) - {id}], n) == Ids(index, n) - {id}
  {}

  ghost function Kept(rs: Relations, filter: set<string>, ids: set<string>): set<string> {
    set r | r in ids && r in rs && Matches(filter, rs[r])
  }

  ghost function Ends(rs: Relations, filter: set<string>, ids: set<string>, node: string): set<string> {
    set r | r in ids && r in rs && Matches(filter, rs[r]) :: Other(rs[r], node)
  }

  lemma NothingKept(rs: Relations, filter: set<string>, node: string)
    ensures Kept(rs, filter, {}) == {} && Ends(rs, filter, {}, node) == {}
  {}

  lemma KeptStep(rs: Relations, filter: set<string>, ids: set<string>, r: string, node: string)
    requires r in rs
    ensures Kept(rs, filter, ids + {r}) == Kept(rs, filter, ids) + (if Matches(filter, rs[r]) then {r} else {})
    ensures Ends(rs, filter, ids + {r}, node)
         == Ends(rs, filter, ids, node) + (if Matches(filter, rs[r]) then {Other(rs[r], node)} else {})
  {}

  lemma KeptAll(rs: Relations, d: Direction, filter: set<string>, ids: set<string>, node: string)
    requires forall r :: r in ids <==> r in rs && Touches(d, rs[r], node)
    ensures Kept(rs, filter, ids) == EdgesAt(rs, d, filter, {node})
    ensures Ends(rs, filter, ids, node) == Around(rs, d, filter, {node})
  {}

  class InMemoryGraphStore {
    var entities: map<string, Entity>
    var relations: Relations
    var outgoing: map<string, set<string>>
    var incoming: map<string, set<string>>

    constructor ()
      ensures Valid() && entities == map[] && relations == map[]
    {
      entities, relations, outgoing, incoming := map[], map[], map[], map[];
    }

    ghost predicate Valid()
      reads this
    {
      Indexed(relations, outgoing, incoming)
    }

    method UpsertEntity(entity: Entity)
      requires Valid()
      modifies this`entities
      ensures Valid() && entities == old(entities)[entity.id := entity]
    {
      entities := entities[entity.id := entity];
    }

    /** Re-inserting a relation moves it: its old end points forget it. */
    method UpsertRelation(relation: Relation)
      requires Valid()
      modifies this`relations, this`outgoing, this`incoming
      ensures Valid() && relations == old(relations)[relation.id := relation]
    {
      hide Indexed;
      var id := relation.id;
      if id in relations {
        var existing := relations[id];
        IndexedUnder(relations, outgoing, incoming, id);
        ForgetId(outgoing, existing.source, id);
        ForgetId(incoming, existing.target, id);
        outgoing := outgoing[existing.source := Ids(outgoing, existing.source) - {id}];
        incoming := incoming[existing.target := Ids(incoming, existing.target) - {id}];
      } else {
        IndexedUnder(relations, outgoing, incoming, id);
      }
      UpsertIndexed(relations, old(outgoing), old(incoming), outgoing, incoming, relation);
      relations := relations[id := relation];
      outgoing := outgoing[relation.source := Ids(outgoing, relation.source) + {id}];
      incoming := incoming[relation.target := Ids(incoming, relation.target) + {id}];
    }

    // -------------------------------------------------------------- neighbourhoods

    /** Follows every matching relation of one node, in whatever order the id set yields them. */
    method ExpandNode(node: string, d: Direction, filter: set<string>,
                      visited0: set<string>, ids0: set<string>, edges0: seq<Relation>, next0: seq<string>)
      returns (visited: set<string>, ids: set<string>, edges: seq<Relation>, next: seq<string>)
      requires Valid() && Lists(relations, ids0, edges0)
      ensures visited == visited0 + Around(relations, d, filter, {node})
      ensures ids == ids0 + EdgesAt(relations, d, filter, {node}) && Lists(relations, ids, edges)
      ensures forall x :: x in next <==> x in next0 || (x in visited && x !in visited0)
    {
      hide Lists, Kept, Ends, Around, EdgesAt, Indexed;
      visited, ids, edges, next := visited0, ids0, edges0, next0;
      var todo: set<string> := {};
      if d.Forward? || d.Both? { todo := todo + Ids(outgoing, node); }
      if d.Backward? || d.Both? { todo := todo + Ids(incoming, node); }
      ghost var all, done := todo, {};
      IndexedAt(relations, outgoing, incoming, node);
      NothingKept(relations, filter, node);
      while todo != {}
        invariant todo + done == all
        invariant visited == visited0 + Ends(relations, filter, done, node)
        invariant ids == ids0 + Kept(relations, filter, done)
        invariant Lists(relations, ids, edges)
        invariant forall x :: x in next <==> x in next0 || (x in visited && x !in visited0)
        decreases todo
      {
        var r :| r in todo;
        todo := todo - {r};
        KeptStep(relations, filter, done, r, node);
        done := done + {r};
        var relation := relations[r];
        if Matches(filter, relation) {
          var neighbor := if relation.source == node then relation.target else relation.source;
          if r !in ids {
            ListsMore(relations, ids, edges, r);
            ids, edges := ids + {r}, edges + [relation];
          }
          if neighbor !in visited {
            visited, next := visited + {neighbor}, next + [neighbor];
          }
        }
      }
      KeptAll(relations, d, filter, all, node);
    }

    /** One round of the search: expands a whole frontier. */
    method ExpandLevel(frontier: seq<string>, d: Direction, filter: set<string>, visited0: set<string>,
                       ids0: set<string>, edges0: seq<Relation>)
      returns (visited: set<string>, ids: set<string>, edges: seq<Relation>, next: seq<string>)
      requires Valid() && Lists(relations, ids0, edges0)
      ensures visited == visited0 + Around(relations, d, filter, Members(frontier))
      ensures ids == ids0 + EdgesAt(relations, d, filter, Members(frontier)) && Lists(relations, ids, edges)
      ensures forall x :: x in next <==> x in visited && x !in visited0
    {
      hide Around, EdgesAt, Lists;
      visited, ids, edges, next := visited0, ids0, edges0, [];
      NothingAround(relations, d, filter);
      assert Members(frontier[..0]) == {};
      for p := 0 to |frontier|
        invariant visited == visited0 + Around(relations, d, filter, Members(frontier[..p]))
        invariant ids == ids0 + EdgesAt(relations, d, filter, Members(frontier[..p]))
        invariant Lists(relations, ids, edges)
        invariant forall x :: x in next <==> x in visited && x !in visited0
      {
        ghost var before := Members(frontier[..p]);
        assert Members(frontier[..p + 1]) == before + {frontier[p]};
        AroundUnion(relations, d, filter, before, {frontier[p]});
        visited, ids, edges, next := ExpandNode(frontier[p], d, filter, visited, ids, edges, next);
      }
      assert frontier[..|frontier|] == frontier;
    }

    /**
     * Returns None when the entity is unknown. Otherwise the nodes are exactly the known entities
     * within `depth` hops, and the edges are exactly the matching relations that touch a node fewer
     * than `depth` hops away, each once.
     */
    method Neighbors(entity: string, d: Direction, types: seq<string>, depth: int) returns (r: Option<Slice>)
      requires Valid()
      ensures r.None? <==> entity !in entities
      ensures r.Some? ==>
        var k, filter := if depth < 0 then 0 else depth, Members(types);
        && r.value.nodes == Within(relations, d, filter, entity, k) * entities.Keys
        && Lists(relations, EdgesWithin(relations, d, filter, entity, k), r.value.edges)
    {
      hide Around, EdgesAt;
      if entity !in entities { return None; }
      var visited, ids, edges, frontier := {entity}, {}, [], [entity];
      var filter := Members(types);
      ghost var done := {};
      NothingAround(relations, d, filter);
      var i := 0;
      while i < depth
        invariant 0 <= i && (i <= depth || i == 0)
        invariant visited == Within(relations, d, filter, entity, i)
        invariant ids == EdgesWithin(relations, d, filter, entity, i)
        invariant Lists(relations, ids, edges)
        invariant visited == done + Members(frontier)
        invariant Around(relations, d, filter, done) <= visited && ids == EdgesAt(relations, d, filter, done)
        decreases depth - i
      {
        AroundUnion(relations, d, filter, done, Members(frontier));
        done := visited;
        visited, ids, edges, frontier := ExpandLevel(frontier, d, filter, visited, ids, edges);
        i := i + 1;
      }
      return Some(Slice(visited * entities.Keys, edges));
    }

    // -------------------------------------------------------------- paths

    /** Extends one path by every relation out of its end; stops as soon as the limit is reached. */
    method ExtendItem(item: Item, queue0: seq<Item>, results0: seq<GraphPath>, target: string, filter: set<string>,
                      limit: nat, ghost q: Query)
      returns (queue: seq<Item>, results: seq<GraphPath>, full: bool)
      requires Valid() && q.relations == relations && q.target == target && q.filter == filter
      requires Extending(q, item, queue0, results0, Ids(outgoing, item.node)) && |results0| < limit
      requires Ids(outgoing, item.node) <= relations.Keys && Room(q, item) >= 1
      ensures full ==> Found(q, results) && |results| == limit
      ensures !full ==> Searching(q, queue, results) && |results| < limit
      ensures !full ==> Weight(q, queue) < Weight(q, queue0) + Cost(Room(q, item), |q.relations|)
    {
      hide Searching, Extending, Weight, Found, Cost, Indexed, Matches, Ids;
      queue, results := queue0, results0;
      var todo := Ids(outgoing, item.node);
      ghost var all, cost := todo, Cost(Room(q, item) - 1, |relations|);
      assert all - todo == {};
      while todo != {}
        invariant todo <= all && |results| < limit
        invariant Extending(q, item, queue, results, todo)
        invariant Weight(q, queue) <= Weight(q, queue0) + |all - todo| * cost
        decreases todo
      {
        var id :| id in todo;
        OneMore(all, todo, id, cost);
        ghost var before := todo;
        todo := todo - {id};
        var relation := relations[id];
        if !Matches(filter, relation) || relation.target in item.nodes {
          SkipOne(q, item, queue, results, before, id);
        } else {
          var nodes, path := item.nodes + [relation.target], item.relations + [id];
          if relation.target == target {
            AddResult(q, item, queue, results, before, id);
            results := results + [GraphPath(nodes, path)];
            if |results| >= limit {
              StopEarly(q, item, queue, results, todo);
              return queue, results, true;
            }
          } else {
            AddItem(q, item, queue, results, before, id);
            WeightAppend(q, queue, Item(relation.target, nodes, path));
            queue := queue + [Item(relation.target, nodes, path)];
          }
        }
      }
      DoneExtending(q, item, queue, results);
      assert all - {} == all;
      SubsetSize(all, relations.Keys);
      CostBound(|all|, Room(q, item), |relations|);
      full := false;
    }

    /**
     * Returns None when an end point is unknown. Otherwise the results are different simple paths
     * from source to target of at most `depth` relations, in order of length; a path that is left
     * out is no shorter than any returned one, and if fewer than `maxResults` are returned none is
     * left out. (The limit is checked after adding, so at least one path is returned if there is one.)
     */
    method FindPaths(source: string, target: string, types: seq<string>, depth: int,
                     maxResults: int) returns (r: Option<seq<GraphPath>>)
      requires Valid()
      ensures r.None? <==> source !in entities || target !in entities
      ensures r.Some? ==>
        var q := Query(relations, Members(types), source, target, depth);
        && Found(q, r.value) && |r.value| <= (if maxResults < 1 then 1 else maxResults)
        && (|r.value| < (if maxResults < 1 then 1 else maxResults) ==> Complete(q, r.value))
    {
      hide Searching, Extending, Weight, Found, Partial, Complete, Cost, Ids, Indexed;
      if source !in entities { return None; }
      if target !in entities { return None; }
      var filter := Members(types);
      ghost var q := Query(relations, filter, source, target, depth);
      var limit := if maxResults < 1 then 1 else maxResults;
      var results: seq<GraphPath> := [];
      var queue: seq<Item> := [Item(source, [source], [])];
      StartSearch(q);
      while queue != []
        invariant Searching(q, queue, results) && |results| < limit
        decreases Weight(q, queue)
      {
        var item := queue[0];
        FrontItem(q, queue, results);
        if |item.nodes| - 1 >= depth {
          TooLong(q, queue, results);
          queue := queue[1..];
        } else {
          IndexedAt(relations, outgoing, incoming, item.node);
          FrontNode(q, queue, results);
          BeginExtending(q, queue, results, Ids(outgoing, item.node));
          var full;
          queue, results, full := ExtendItem(item, queue[1..], results, target, filter, limit, q);
          if full { return Some(results); }
        }
      }
      StopAtEnd(q, results);
      return Some(results);
    }
  }

  lemma NothingAround(rs: Relations, d: Direction, filter: set<string>)
    ensures Around(rs, d, filter, {}) == {} && EdgesAt(rs, d, filter, {}) == {}
  {}

  // ---------------------------------------------------------------- the path search

  function Paths(results: seq<GraphPath>): (r: seq<seq<string>>)
    ensures |r| == |results| && forall i :: 0 <= i < |r| ==> r[i] == results[i].relations
  {
    seq(|results|, i requires 0 <= i < |results| => results[i].relations)
  }

  /** The results are pairwise different answers in order of length, shortest first. */
  ghost predicate Found(q: Query, results: seq<GraphPath>) {
    && (forall i :: 0 <= i < |results| ==>
        Answer(q, results[i].relations) && results[i].nodes == NodesOf(q, results[i].relations))
    && (forall i, j :: 0 <= i < j < |results| ==>
          results[i].relations != results[j].relations && |results[i].relations| <= |results[j].relations|)
    && (forall path, i :: Answer(q, path) && path !in Paths(results) && 0 <= i < |results| ==>
        |results[i].relations| <= |path|)
  }

  ghost predicate Complete(q: Query, results: seq<GraphPath>) {
    forall path :: Answer(q, path) ==> path in Paths(results)
  }

  function Pending(queue: seq<Item>): (r: seq<seq<string>>)
    ensures |r| == |queue| && forall i :: 0 <= i < |r| ==> r[i] == queue[i].relations
  {
    seq(|queue|, i requires 0 <= i < |queue| => queue[i].relations)
  }

  /** No path is a prefix of another: each simple path is explored from one place only. */
  ghost predicate Antichain(xs: seq<seq<string>>) {
    forall i, j :: 0 <= i < |xs| && 0 <= j < |xs| && i != j ==> !(xs[i] <= xs[j])
  }

  ghost predicate Partial(q: Query, item: Item) {
    && Simple(q, item.relations) && item.nodes == NodesOf(q, item.relations) && item.node == EndOf(q, item.relations)
    && (item.relations == [] || item.node != q.target)
  }

  ghost predicate Sound(q: Query, results: seq<GraphPath>) {
    forall i :: 0 <= i < |results| ==>
      Answer(q, results[i].relations) && results[i].nodes == NodesOf(q, results[i].relations)
  }

  predicate InOrder(xs: seq<seq<string>>) {
    forall i, j :: 0 <= i < j < |xs| ==> |xs[i]| <= |xs[j]|
  }

  ghost predicate Queued(q: Query, queue: seq<Item>, path: seq<string>) {
    exists i :: 0 <= i < |queue| && queue[i].relations <= path
  }

  /** Breadth first: paths in the queue have length `n` or `n + 1`, results at most `n + 1`. */
  ghost predicate Levels(queue: seq<Item>, results: seq<GraphPath>, n: nat) {
    && InOrder(Pending(queue)) && InOrder(Paths(results))
    && (forall i :: 0 <= i < |queue| ==> n <= |queue[i].relations| <= n + 1)
    && (forall i :: 0 <= i < |results| ==> |results[i].relations| <= n + 1)
  }

  ghost predicate Searching(q: Query, queue: seq<Item>, results: seq<GraphPath>) {
    && (forall i :: 0 <= i < |queue| ==> Partial(q, queue[i]))
    && Sound(q, results)
    && Antichain(Paths(results) + Pending(queue))
    && (if queue == [] then InOrder(Paths(results)) else Levels(queue, results, |queue[0].relations|))
    && forall path :: Answer(q, path) ==> path in Paths(results) || Queued(q, queue, path)
  }

  /** While `item` is being extended: `todo` are the relations out of its end not yet looked at. */
  ghost predicate Extending(q: Query, item: Item, queue: seq<Item>, results: seq<GraphPath>, todo: set<string>) {
    && Partial(q, item) && |item.relations| < q.depth
    && (forall r :: r in todo ==> r in q.relations && q.relations[r].source == item.node)
    && (forall i :: 0 <= i < |queue| ==> Partial(q, queue[i]))
    && Sound(q, results)
    && Antichain(Paths(results) + Pending(queue))
    && (forall y :: y in Paths(results) + Pending(queue) ==> Apart(item.relations, y, todo))
    && Levels(queue, results, |item.relations|)
    && forall path :: Answer(q, path) ==>
         path in Paths(results) || Queued(q, queue, path) || Awaits(item.relations, path, todo)
  }

  /** `y` is unrelated to `x`, or extends it by a relation already looked at. */
  predicate Apart(x: seq<string>, y: seq<string>, todo: set<string>) {
    !(y <= x) && (x <= y ==> y[|x|] !in todo)
  }

  predicate Awaits(x: seq<string>, path: seq<string>, todo: set<string>) {
    x <= path && |path| > |x| && path[|x|] in todo
  }

  lemma StartSearch(q: Query)
    ensures Searching(q, [Item(q.source, [q.source], [])], [])
  {
    var queue := [Item(q.source, [q.source], [])];
    assert Partial(q, queue[0]);
    forall path | Answer(q, path) ensures Queued(q, queue, path) {
      assert queue[0].relations <= path;
    }
  }

  lemma FrontItem(q: Query, queue: seq<Item>, results: seq<GraphPath>)
    requires Searching(q, queue, results) && queue != []
    ensures Partial(q, queue[0]) && |queue[0].nodes| == |queue[0].relations| + 1
  {
    assert Partial(q, queue[0]);
    SimpleMeansSimple(q, queue[0].relations);
  }

  lemma FrontNode(q: Query, queue: seq<Item>, results: seq<GraphPath>)
    requires Searching(q, queue, results) && queue != []
    ensures queue[0].nodes == NodesOf(q, queue[0].relations) && queue[0].node == EndOf(q, queue[0].relations)
  {
    assert Partial(q, queue[0]);
  }

  lemma AnswerStep(q: Query, path: seq<string>, n: nat)
    requires Answer(q, path) && n < |path|
    ensures var r := path[n];
      && r in q.relations && Matches(q.filter, q.relations[r])
      && q.relations[r].source == EndOf(q, path[..n]) && q.relations[r].target !in NodesOf(q, path[..n])
  {
    PrefixSimple(q, path, n + 1);
    assert path[..n + 1][..n] == path[..n];
  }

  /** An answer strictly extends every partial path that is a prefix of it. */
  lemma AnswerGoesOn(q: Query, item: Item, path: seq<string>)
    requires Partial(q, item) && Answer(q, path) && item.relations <= path
    ensures |item.relations| < |path|
  {
    assert |item.relations| == |path| ==> item.relations == path;
    if item.relations == path { assert false; }
  }

  lemma RemoveFront(queue: seq<Item>, results: seq<GraphPath>)
    requires queue != []
    ensures Paths(results) + Pending(queue) == Paths(results) + [queue[0].relations] + Pending(queue[1..])
  {}

  lemma AntichainWithout(xs: seq<seq<string>>, x: seq<string>, ys: seq<seq<string>>)
    requires Antichain(xs + [x] + ys)
    ensures Antichain(xs + ys)
    ensures forall y :: y in xs + ys ==> !(y <= x) && !(x <= y)
  {
    var all, some := xs + [x] + ys, xs + ys;
    forall i | 0 <= i < |some| ensures !(some[i] <= x) && !(x <= some[i]) {
      var i' := if i < |xs| then i else i + 1;
      assert all[i'] == some[i] && all[|xs|] == x;
    }
    forall i, j | 0 <= i < |some| && 0 <= j < |some| && i != j ensures !(some[i] <= some[j]) {
      var i', j' := if i < |xs| then i else i + 1, if j < |xs| then j else j + 1;
      assert all[i'] == some[i] && all[j'] == some[j];
    }
  }

  lemma AntichainWith(xs: seq<seq<string>>, x: seq<string>, ys: seq<seq<string>>)
    requires Antichain(xs + ys)
    requires forall y :: y in xs + ys ==> !(y <= x) && !(x <= y)
    ensures Antichain(xs + [x] + ys)
  {
    var all, some := xs + [x] + ys, xs + ys;
    forall i, j | 0 <= i < |all| && 0 <= j < |all| && i != j ensures !(all[i] <= all[j]) {
      var i', j' := if i < |xs| then i else i - 1, if j < |xs| then j else j - 1;
      if i == |xs| {
        assert all[i] == x && all[j] == some[j'] && some[j'] in some;
      } else if j == |xs| {
        assert all[j] == x && all[i] == some[i'] && some[i'] in some;
      } else {
        assert all[i] == some[i'] && all[j] == some[j'];
      }
    }
  }

  lemma QueuedSplit(q: Query, queue: seq<Item>, path: seq<string>)
    requires queue != []
    ensures Queued(q, queue, path) <==> queue[0].relations <= path || Queued(q, queue[1..], path)
  {
    if i :| 0 <= i < |queue| && queue[i].relations <= path {
      if i > 0 { assert queue[1..][i - 1] == queue[i]; }
    }
    if i :| 0 <= i < |queue[1..]| && queue[1..][i].relations <= path { assert queue[i + 1].relations <= path; }
  }

  lemma LevelsRest(queue: seq<Item>, results: seq<GraphPath>, n: nat)
    requires queue != [] && Levels(queue, results, n)
    ensures Levels(queue[1..], results, n)
    ensures |queue| > 1 ==> Levels(queue[1..], results, |queue[1].relations|)
  {
    var rest := queue[1..];
    forall i, j | 0 <= i < j < |rest| ensures |Pending(rest)[i]| <= |Pending(rest)[j]| {
      assert |Pending(queue)[i + 1]| <= |Pending(queue)[j + 1]|;
    }
    forall i | 0 <= i < |rest| ensures |queue[1].relations| <= |rest[i].relations| {
      if i > 0 { assert |Pending(queue)[1]| <= |Pending(queue)[i + 1]|; }
    }
  }

  lemma TooLong(q: Query, queue: seq<Item>, results: seq<GraphPath>)
    requires Searching(q, queue, results) && queue != [] && |queue[0].relations| >= q.depth
    ensures Searching(q, queue[1..], results) && Weight(q, queue[1..]) < Weight(q, queue)
  {
    hide Answer, Partial, Antichain, Levels;
    var rest := queue[1..];
    RemoveFront(queue, results);
    AntichainWithout(Paths(results), queue[0].relations, Pending(rest));
    LevelsRest(queue, results, |queue[0].relations|);
    LevelsInOrder(queue, results, |queue[0].relations|);
    assert Partial(q, queue[0]);
    forall path | Answer(q, path) ensures path in Paths(results) || Queued(q, rest, path) {
      QueuedSplit(q, queue, path);
      if queue[0].relations <= path {
        AnswerGoesOn(q, queue[0], path);
        AnswerFits(q, path);
      }
    }
    CostPositive(Room(q, queue[0]), |q.relations|);
  }

  lemma AnswerFits(q: Query, path: seq<string>)
    requires Answer(q, path)
    ensures |path| <= q.depth
  {}

  lemma LevelsInOrder(queue: seq<Item>, results: seq<GraphPath>, n: nat)
    requires Levels(queue, results, n)
    ensures InOrder(Paths(results))
  {}

  lemma BeginExtending(q: Query, queue: seq<Item>, results: seq<GraphPath>, all: set<string>)
    requires Searching(q, queue, results) && queue != [] && |queue[0].relations| < q.depth
    requires forall r :: r in all <==> r in q.relations && q.relations[r].source == queue[0].node
    ensures Extending(q, queue[0], queue[1..], results, all) && all <= q.relations.Keys
    ensures Weight(q, queue) == Cost(Room(q, queue[0]), |q.relations|) + Weight(q, queue[1..])
  {
    hide Answer, Antichain, Levels;
    var item, rest := queue[0], queue[1..];
    RemoveFront(queue, results);
    AntichainWithout(Paths(results), item.relations, Pending(rest));
    LevelsRest(queue, results, |item.relations|);
    assert Partial(q, item);
    forall path | Answer(q, path)
      ensures path in Paths(results) || Queued(q, rest, path) || Awaits(item.relations, path, all)
    {
      QueuedSplit(q, queue, path);
      if item.relations <= path {
        AnswerGoesOn(q, item, path);
        AnswerStep(q, path, |item.relations|);
        assert path[..|item.relations|] == item.relations;
      }
    }
  }

  lemma SkipOne(q: Query, item: Item, queue: seq<Item>, results: seq<GraphPath>, todo: set<string>, id: string)
    requires Extending(q, item, queue, results, todo) && id in todo
    requires !Matches(q.filter, q.relations[id]) || q.relations[id].target in item.nodes
    ensures Extending(q, item, queue, results, todo - {id})
  {
    hide Answer, Antichain, Levels, Simple;
    forall path | Answer(q, path)
      ensures path in Paths(results) || Queued(q, queue, path) || Awaits(item.relations, path, todo - {id})
    {
      if Awaits(item.relations, path, todo) {
        assert path[..|item.relations|] == item.relations;
        AnswerStep(q, path, |item.relations|);
      }
    }
  }

  /** The path one relation further is new among those found and queued. */
  lemma ExtensionIsNew(q: Query, item: Item, queue: seq<Item>, results: seq<GraphPath>, todo: set<string>, id: string)
    requires Extending(q, item, queue, results, todo) && id in todo
    ensures forall y :: y in Paths(results) + Pending(queue) ==>
              !(y <= item.relations + [id]) && !(item.relations + [id] <= y)
  {
    hide Answer, Antichain, Levels, Partial;
    var x := item.relations;
    forall y | y in Paths(results) + Pending(queue) ensures !(y <= x + [id]) && !(x + [id] <= y) {
      PrefixCases(x, y, id);
      assert Apart(x, y, todo);
    }
  }

  lemma PrefixCases(x: seq<string>, y: seq<string>, id: string)
    ensures y <= x + [id] ==> y <= x || (x <= y && y[|x|] == id)
    ensures x + [id] <= y ==> x <= y && y[|x|] == id
  {
    if y <= x + [id] {
      if |y| <= |x| { assert y <= x; } else { assert y == x + [id]; }
    }
  }

  lemma ExtensionIsSimple(q: Query, item: Item, id: string)
    requires Partial(q, item) && id in q.relations && q.relations[id].source == item.node
    requires Matches(q.filter, q.relations[id]) && q.relations[id].target !in item.nodes
    ensures Simple(q, item.relations + [id]) && EndOf(q, item.relations + [id]) == q.relations[id].target
    ensures NodesOf(q, item.relations + [id]) == item.nodes + [q.relations[id].target]
  {
    assert (item.relations + [id])[..|item.relations|] == item.relations;
  }

  lemma ExtensionApart(x: seq<string>, id: string, todo: set<string>)
    ensures Apart(x, x + [id], todo - {id})
  {
    assert !(x + [id] <= x);
  }

  /** An answer that awaited `id` either is the path one relation further or goes on from it. */
  lemma AwaitedExtension(x: seq<string>, path: seq<string>, todo: set<string>, id: string)
    requires Awaits(x, path, todo)
    ensures x + [id] <= path || Awaits(x, path, todo - {id})
  {
    if path[|x|] == id { assert path[..|x| + 1] == x + [id]; }
  }

  lemma AddResult(q: Query, item: Item, queue: seq<Item>, results: seq<GraphPath>, todo: set<string>, id: string)
    requires Extending(q, item, queue, results, todo) && id in todo
    requires Matches(q.filter, q.relations[id]) && q.relations[id].target !in item.nodes
    requires q.relations[id].target == q.target
    ensures var more := results + [GraphPath(item.nodes + [q.target], item.relations + [id])];
      Extending(q, item, queue, more, todo - {id})
  {
    hide Simple, EndOf, NodesOf, Antichain;
    var x := item.relations + [id];
    var more := results + [GraphPath(item.nodes + [q.target], x)];
    ExtensionIsSimple(q, item, id);
    ExtensionIsNew(q, item, queue, results, todo, id);
    ExtensionApart(item.relations, id, todo);
    AntichainWith(Paths(results), x, Pending(queue));
    assert Paths(more) == Paths(results) + [x];
    assert Levels(queue, more, |item.relations|);
    forall y | y in Paths(more) + Pending(queue) ensures Apart(item.relations, y, todo - {id}) {
      assert y == x || y in Paths(results) + Pending(queue);
    }
    forall path | Answer(q, path)
      ensures path in Paths(more) || Queued(q, queue, path) || Awaits(item.relations, path, todo - {id})
    {
      assert x in Paths(more);
      assert path in Paths(results) ==> path in Paths(more);
      if Awaits(item.relations, path, todo) {
        AwaitedExtension(item.relations, path, todo, id);
        if x <= path && |x| == |path| { assert path == x; }
        if x <= path && |x| < |path| {
          assert path[..|x|] == x;
          AnswerAvoidsTarget(q, path, |x|);
        }
      }
    }
  }

  lemma AddItem(q: Query, item: Item, queue: seq<Item>, results: seq<GraphPath>, todo: set<string>, id: string)
    requires Extending(q, item, queue, results, todo) && id in todo
    requires Matches(q.filter, q.relations[id]) && q.relations[id].target !in item.nodes
    requires q.relations[id].target != q.target
    ensures var t := q.relations[id].target;
      Extending(q, item, queue + [Item(t, item.nodes + [t], item.relations + [id])], results, todo - {id})
  {
    hide Simple, EndOf, NodesOf, Antichain, Answer;
    var t, x := q.relations[id].target, item.relations + [id];
    var more := queue + [Item(t, item.nodes + [t], x)];
    ExtensionIsSimple(q, item, id);
    ExtensionIsNew(q, item, queue, results, todo, id);
    ExtensionApart(item.relations, id, todo);
    assert Pending(more) == Pending(queue) + [x];
    assert Paths(results) + Pending(queue) + [] == Paths(results) + Pending(queue);
    AntichainWith(Paths(results) + Pending(queue), x, []);
    assert Paths(results) + Pending(queue) + [x] + [] == Paths(results) + Pending(more);
    assert Levels(more, results, |item.relations|);
    forall y | y in Paths(results) + Pending(more) ensures Apart(item.relations, y, todo - {id}) {
      assert y == x || y in Paths(results) + Pending(queue);
    }
    forall path | Answer(q, path)
      ensures path in Paths(results) || Queued(q, more, path) || Awaits(item.relations, path, todo - {id})
    {
      if Queued(q, queue, path) {
        var i :| 0 <= i < |queue| && queue[i].relations <= path;
        assert more[i].relations <= path;
      }
      assert more[|queue|].relations == x;
      if Awaits(item.relations, path, todo) { AwaitedExtension(item.relations, path, todo, id); }
    }
  }

  lemma DoneExtending(q: Query, item: Item, queue: seq<Item>, results: seq<GraphPath>)
    requires Extending(q, item, queue, results, {})
    ensures Searching(q, queue, results)
  {
    hide Answer, Antichain, Partial;
    if queue != [] {
      forall i | 0 <= i < |queue| ensures |queue[0].relations| <= |queue[i].relations| {
        if i > 0 { assert |Pending(queue)[0]| <= |Pending(queue)[i]|; }
      }
    }
  }

  lemma ResultsDiffer(results: seq<GraphPath>, queue: seq<Item>)
    requires Antichain(Paths(results) + Pending(queue))
    ensures forall i, j :: 0 <= i < j < |results| ==> results[i].relations != results[j].relations
  {
    var live := Paths(results) + Pending(queue);
    forall i, j | 0 <= i < j < |results| ensures results[i].relations != results[j].relations {
      assert live[i] == results[i].relations && live[j] == results[j].relations;
    }
  }

  lemma StopEarly(q: Query, item: Item, queue: seq<Item>, results: seq<GraphPath>, todo: set<string>)
    requires Extending(q, item, queue, results, todo)
    ensures Found(q, results)
  {
    hide Answer, Antichain;
    ResultsDiffer(results, queue);
    forall i, j | 0 <= i < j < |results| ensures |results[i].relations| <= |results[j].relations| {
      assert |Paths(results)[i]| <= |Paths(results)[j]|;
    }
    forall path, i | Answer(q, path) && path !in Paths(results) && 0 <= i < |results|
      ensures |results[i].relations| <= |path|
    {
      if Queued(q, queue, path) {
        var j :| 0 <= j < |queue| && queue[j].relations <= path;
        AnswerGoesOn(q, queue[j], path);
      }
    }
  }

  lemma StopAtEnd(q: Query, results: seq<GraphPath>)
    requires Searching(q, [], results)
    ensures Found(q, results) && Complete(q, results)
  {
    hide Answer, Antichain;
    ResultsDiffer(results, []);
    forall i, j | 0 <= i < j < |results| ensures |results[i].relations| <= |results[j].relations| {
      assert |Paths(results)[i]| <= |Paths(results)[j]|;
    }
    forall path | Answer(q, path) ensures path in Paths(results) {
      assert !Queued(q, [], path);
    }
  }

  // ---------------------------------------------------------------- termination of the path search

  /** How many queue items one item with `room` relations to go may give rise to, itself included. */
  function Cost(room: int, branching: nat): nat {
    if room <= 0 then 1 else 1 + branching * Cost(room - 1, branching)
  }

  function Room(q: Query, item: Item): int {
    q.depth - |item.relations|
  }

  function Weight(q: Query, queue: seq<Item>): nat {
    if queue == [] then 0 else Cost(Room(q, queue[0]), |q.relations|) + Weight(q, queue[1..])
  }

  lemma CostPositive(room: int, branching: nat)
    ensures Cost(room, branching) >= 1
  {}

  lemma {:induction false} WeightAppend(q: Query, queue: seq<Item>, item: Item)
    ensures Weight(q, queue + [item]) == Weight(q, queue) + Cost(Room(q, item), |q.relations|)
  {
    if queue != [] {
      assert (queue + [item])[1..] == queue[1..] + [item];
      WeightAppend(q, queue[1..], item);
    } else {
      assert queue + [item] == [item];
    }
  }

  lemma OneMore(all: set<string>, todo: set<string>, id: string, cost: nat)
    requires id in todo && todo <= all
    ensures |all - (todo - {id})| * cost == |all - todo| * cost + cost
  {
    assert all - (todo - {id}) == (all - todo) + {id};
  }

  lemma CostBound(n: nat, room: int, branching: nat)
    requires room >= 1
    ensures n <= branching ==> n * Cost(room - 1, branching) < Cost(room, branching)
  {
    if n <= branching { ScaleUp(n, branching, Cost(room - 1, branching)); }
  }

  lemma ScaleUp(m: nat, n: nat, k: nat)
    requires m <= n
    ensures m * k <= n * k
  {}

  // ---------------------------------------------------------------- a limit below one

  const EDGE: Relation := Relation("r", "a", "b", "USES")

  lemma OneAnswer(q: Query, path: seq<string>)
    requires q == Query(map["r" := EDGE], {}, "a", "b", 1)
    ensures Answer(q, path) <==> path == ["r"]
    ensures NodesOf(q, ["r"]) == ["a", "b"]
  {
    assert ["r"][..0] == [];
    assert Simple(q, []) && EndOf(q, []) == "a" && NodesOf(q, []) == ["a"];
    assert EndOf(q, ["r"]) == "b";
    assert Simple(q, ["r"]);
    if Answer(q, path) {
      assert path == [path[0]];
      assert path[..0] == [];
    }
  }

  /** Asked for no path at all, the search still returns one. */
  method FindNoPaths() returns (r: Option<seq<GraphPath>>)
    ensures r == Some([GraphPath(["a", "b"], ["r"])])
  {
    var store := new InMemoryGraphStore();
    store.UpsertEntity(Entity("a", "SERVICE", "n"));
    store.UpsertEntity(Entity("b", "SERVICE", "n"));
    store.UpsertRelation(EDGE);
    assert store.relations == map["r" := EDGE];
    r := store.FindPaths("a", "b", [], 1, 0);
    ghost var q := Query(map["r" := EDGE], {}, "a", "b", 1);
    assert Members<string>([]) == {};
    forall path ensures Answer(q, path) <==> path == ["r"] { OneAnswer(q, path); }
    OneAnswer(q, ["r"]);
    var paths := r.value;
    assert Answer(q, ["r"]) && (Complete(q, paths) ==> ["r"] in Paths(paths));
    assert paths == [paths[0]];
    assert Answer(q, paths[0].relations);
  }
}
