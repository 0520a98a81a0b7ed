/** The three-colour depth-first search that looks for cycles among service dependencies. */
module DependencyCycle {

  /** Service name to the names it depends on; a dependency on an unknown name is ignored. */
  type Graph = map<string, seq<string>>

  datatype Color = White | Gray | Black

  predicate Edge(g: Graph, a: string, b: string) {
    a in g && b in g && b in g[a]
  }

  /** A walk along dependencies, of at least one node. */
  ghost predicate Walk(g: Graph, p: seq<string>) {
    && p != [] && p[0] in g
    && forall i :: 0 < i < |p| ==> Edge(g, p[i - 1], p[i])
  }

  ghost predicate Cycle(g: Graph, p: seq<string>) {
    Walk(g, p) && |p| >= 2 && p[0] == p[|p| - 1]
  }

  ghost predicate HasCycle(g: Graph) {
    exists p :: Cycle(g, p)
  }

  /** Known services, each depending on the next, of which the last is the first again. */
  ghost predicate ReturnsToStart(g: Graph, p: seq<string>) {
    && |p| > 1 && p[|p| - 1] == p[0] && (forall x :: x in p ==> x in g)
    && forall i :: 0 <= i < |p| - 1 ==> p[i] in g && p[i + 1] in g[p[i]]
  }

  lemma CyclesReturn(g: Graph)
    ensures HasCycle(g) <==> exists p :: ReturnsToStart(g, p)
  {
    if p :| Cycle(g, p) {
      forall x | x in p ensures x in g {
        var i :| 0 <= i < |p| && p[i] == x;
        if i > 0 { assert Edge(g, p[i - 1], p[i]); }
      }
      forall i | 0 <= i < |p| - 1 ensures p[i] in g && p[i + 1] in g[p[i]] { assert Edge(g, p[i + 1 - 1], p[i + 1]); }
      assert ReturnsToStart(g, p);
    }
    if p :| ReturnsToStart(g, p) {
      forall i | 0 < i < |p| ensures Edge(g, p[i - 1], p[i]) { assert p[i - 1 + 1] in g[p[i - 1]] && p[i] in p; }
      assert p[0] in p;
      assert Cycle(g, p);
    }
  }

  /** `black` is closed under dependencies and no cycle passes through it. */
  ghost predicate Finished(g: Graph, black: set<string>) {
    && black <= g.Keys
    && (forall a, b :: a in black && Edge(g, a, b) ==> b in black)
    && (forall p :: Cycle(g, p) ==> p[0] !in black)
  }

  lemma {:induction false} WalkStaysFinished(g: Graph, black: set<string>, p: seq<string>, i: nat)
    requires Finished(g, black) && Walk(g, p) && p[0] in black && i < |p|
    ensures p[i] in black
  {
    if i > 0 {
      WalkStaysFinished(g, black, p, i - 1);
      assert Edge(g, p[i - 1], p[i]);
    }
  }

  /** A node all of whose dependencies are finished, itself not among them, can be finished too. */
  lemma FinishOne(g: Graph, black: set<string>, n: string)
    requires Finished(g, black) && n in g && n !in black
    requires forall b :: Edge(g, n, b) ==> b in black
    ensures Finished(g, black + {n})
  {
    forall p | Cycle(g, p) ensures p[0] !in black + {n} {
      if p[0] == n {
        assert Edge(g, p[0], p[1]);
        var q := p[1..];
        forall i | 0 < i < |q| ensures Edge(g, q[i - 1], q[i]) {
          assert Edge(g, p[i], p[i + 1]);
        }
        assert Walk(g, q);
        assert q[|q| - 1] == p[|p| - 1];
        WalkStaysFinished(g, black, q, |q| - 1);
      }
    }
  }

  lemma AllFinished(g: Graph)
    requires Finished(g, g.Keys)
    ensures !HasCycle(g)
  {
  }

  lemma StepWalk(g: Graph, p: seq<string>, b: string)
    requires Walk(g, p) && Edge(g, p[|p| - 1], b)
    ensures Walk(g, p + [b])
  {
    var q := p + [b];
    forall i | 0 < i < |q| ensures Edge(g, q[i - 1], q[i]) {
      if i < |p| { assert Edge(g, p[i - 1], p[i]); }
    }
  }

  lemma SingletonWalk(g: Graph, n: string)
    requires n in g
    ensures Walk(g, [n])
  {}

  lemma TailWalk(g: Graph, p: seq<string>, i: nat)
    requires Walk(g, p) && i < |p|
    ensures Walk(g, p[i..])
  {
    var q := p[i..];
    if i > 0 { assert Edge(g, p[i - 1], p[i]); }
    forall j | 0 < j < |q| ensures Edge(g, q[j - 1], q[j]) {
      assert Edge(g, p[i + j - 1], p[i + j]);
    }
  }

  ghost function Of(color: map<string, Color>, c: Color): set<string> {
    set n | n in color && color[n] == c
  }

  /** The gray nodes are exactly the current path; the black ones are finished. */
  ghost predicate Consistent(g: Graph, color: map<string, Color>, path: seq<string>) {
    && color.Keys == g.Keys
    && (path == [] || Walk(g, path))
    && (forall n :: n in path <==> n in color && color[n] == Gray)
    && Finished(g, Of(color, Black))
  }

  lemma Enter(g: Graph, color: map<string, Color>, path: seq<string>, node: string)
    requires Consistent(g, color, path) && node in g && color[node] == White
    requires path == [] || Edge(g, path[|path| - 1], node)
    ensures Consistent(g, color[node := Gray], path + [node])
    ensures Of(color[node := Gray], White) == Of(color, White) - {node}
  {
    hide Walk, Finished;
    if path != [] { StepWalk(g, path, node); } else { SingletonWalk(g, node); assert path + [node] == [node]; }
    assert Of(color[node := Gray], Black) == Of(color, Black);
  }

  lemma Leave(g: Graph, color: map<string, Color>, path: seq<string>, node: string)
    requires Consistent(g, color, path + [node]) && node !in path && (path == [] || Walk(g, path))
    requires forall b :: b in g && Edge(g, node, b) ==> color[b] == Black
    ensures Consistent(g, color[node := Black], path)
    ensures Of(color[node := Black], White) == Of(color, White)
  {
    hide Walk, Finished;
    assert node in path + [node];
    assert color[node] == Gray;
    FinishOne(g, Of(color, Black), node);
    assert Of(color[node := Black], Black) == Of(color, Black) + {node};
    forall n ensures n in path <==> n in color && color[node := Black][n] == Gray {
      assert n in path + [node] <==> n in path || n == node;
    }
  }

  lemma GrayClosesCycle(g: Graph, color: map<string, Color>, here: seq<string>, next: string)
    requires Consistent(g, color, here) && here != [] && next in color && color[next] == Gray
    requires Edge(g, here[|here| - 1], next)
    ensures HasCycle(g)
  {
    var i :| 0 <= i < |here| && here[i] == next;
    TailWalk(g, here, i);
    StepWalk(g, here[i..], next);
    assert Cycle(g, here[i..] + [next]);
  }

  class CycleDetector {
    const graph: Graph
    var color: map<string, Color>

    constructor (graph: Graph)
      ensures this.graph == graph && color == map n | n in graph :: White
    {
      this.graph := graph;
      color := map n | n in graph :: White;
    }

    /**
     * Explores everything reachable from a white node at the end of the path. If it reports no
     * cycle, the node is finished and the path below it is as before.
     */
    method Visit(node: string, ghost path: seq<string>) returns (found: bool)
      requires Consistent(graph, color, path) && node in graph && color[node] == White
      requires path == [] || Edge(graph, path[|path| - 1], node)
      modifies this
      ensures found ==> HasCycle(graph)
      ensures !found ==> Consistent(graph, color, path) && color[node] == Black
      ensures !found ==> Of(color, White) <= Of(old(color), White) - {node}
      ensures !found ==> forall n :: n in color && n in old(color) && old(color)[n] == Black ==> color[n] == Black
      decreases Of(color, White)
    {
      hide Walk, Finished, HasCycle;
      Enter(graph, color, path, node);
      assert node in Of(color, White);
      color := color[node := Gray];
      ghost var here := path + [node];
      var dependencies := graph[node];
      for i := 0 to |dependencies|
        invariant Consistent(graph, color, here)
        invariant Of(color, White) <= Of(old(color), White) - {node}
        invariant forall n :: n in color && n in old(color) && old(color)[n] == Black ==> color[n] == Black
        invariant forall b :: b in dependencies[..i] && b in graph ==> color[b] == Black
      {
        var next := dependencies[i];
        if next in graph {
          assert Edge(graph, node, next);
          if color[next] == Gray {
            GrayClosesCycle(graph, color, here, next);
            return true;
          }
          if color[next] == White {
            var inner := Visit(next, here);
            if inner { return true; }
          }
        }
      }
      assert dependencies[..|dependencies|] == dependencies;
      Leave(graph, color, path, node);
      color := color[node := Black];
      return false;
    }
  }

  /** True exactly when some chain of dependencies among known services returns to its start. */
  method HasDependencyCycle(graph: Graph) returns (found: bool)
    ensures found <==> exists p :: ReturnsToStart(graph, p)
  {
    CyclesReturn(graph);
    var detector := new CycleDetector(graph);
    var todo := graph.Keys;
    while todo != {}
      invariant todo <= graph.Keys && detector.graph == graph && fresh(detector)
      invariant Consistent(graph, detector.color, [])
      invariant forall n :: n in graph && n !in todo ==> detector.color[n] == Black
      decreases todo
    {
      var node :| node in todo;
      todo := todo - {node};
      if detector.color[node] == White {
        var inner := detector.Visit(node, []);
        if inner { return true; }
      }
      assert node !in [];
    }
    assert Of(detector.color, Black) == graph.Keys;
    AllFinished(graph);
    return false;
  }
}
