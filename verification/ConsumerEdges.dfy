/**
 * scripts/check_comment_cleanup_scope.py, the edge half of `validate_payloads_and_edges`:
 * building the producer-to-consumer graph and the depth-first search that refuses cycles.
 */
module ConsumerEdges {
  import opened RepoPaths

  datatype Edge = Edge(producer: string, consumer: string)

  type Graph = map<string, set<string>>

  function Children(g: Graph, x: string): set<string> {
    if x in g then g[x] else {}
  }

  // ---- specification: directed cycles of an edge list ----

  /** Consecutive members are joined by edges. */
  ghost predicate IsPath(edges: seq<Edge>, p: seq<string>) {
    forall i :: 0 <= i < |p| - 1 ==> Edge(p[i], p[i + 1]) in edges
  }

  /** A path of at least one edge back to its start; a self-loop is one. */
  ghost predicate IsCycle(edges: seq<Edge>, p: seq<string>) {
    |p| >= 2 && IsPath(edges, p) && p[0] == p[|p| - 1]
  }

  ghost predicate HasCycle(edges: seq<Edge>) {
    exists p :: IsCycle(edges, p)
  }

  ghost predicate Represents(g: Graph, edges: seq<Edge>) {
    forall a, b :: b in Children(g, a) <==> Edge(a, b) in edges
  }

  ghost function Endpoints(edges: seq<Edge>): set<string> {
    (set e | e in edges :: e.producer) + (set e | e in edges :: e.consumer)
  }

  // ---- finishing order: the reason a completed search found no cycle ----

  /** Every child of a finished node finished before it. */
  ghost predicate FinishOrder(edges: seq<Edge>, order: seq<string>) {
    forall i, e :: 0 <= i < |order| && e in edges && e.producer == order[i] ==> e.consumer in order[..i]
  }

  /** Following a path from a finished node leads to nodes that finished earlier. */
  lemma {:induction false} PathGoesBack(edges: seq<Edge>, order: seq<string>, p: seq<string>, i: nat) returns (j: nat)
    requires FinishOrder(edges, order) && i < |order|
    requires |p| >= 2 && IsPath(edges, p) && p[0] == order[i]
    ensures j < i && order[j] == p[|p| - 1]
    decreases |p|
  {
    assert Edge(p[0], p[1]) in edges && Edge(p[0], p[1]).consumer in order[..i];
    var k :| 0 <= k < i && order[k] == p[1];
    if |p| == 2 {
      j := k;
    } else {
      var q := p[1..];
      assert forall m :: 0 <= m < |q| ==> q[m] == p[m + 1];
      j := PathGoesBack(edges, order, q, k);
    }
  }

  lemma {:induction false} NoCycleFrom(edges: seq<Edge>, order: seq<string>, p: seq<string>, i: nat)
    requires FinishOrder(edges, order) && i < |order| && p != [] && p[0] == order[i]
    ensures !IsCycle(edges, p)
  {
    if IsCycle(edges, p) {
      var j := PathGoesBack(edges, order, p, i);
      NoCycleFrom(edges, order, p, j);
    }
  }

  /** When every producer has finished there is no cycle. */
  lemma FinishedMeansAcyclic(edges: seq<Edge>, order: seq<string>)
    requires FinishOrder(edges, order)
    requires forall e :: e in edges ==> e.producer in order
    ensures !HasCycle(edges)
  {
    forall p
      ensures !IsCycle(edges, p)
    {
      if IsCycle(edges, p) {
        assert Edge(p[0], p[1]) in edges;
        var i :| 0 <= i < |order| && order[i] == p[0];
        NoCycleFrom(edges, order, p, i);
      }
    }
  }

  /** An edge from the end of a path back into it closes a cycle. */
  lemma PathCloses(edges: seq<Edge>, stack: seq<string>, endpoint: string)
    requires IsPath(edges, stack) && endpoint in stack
    requires Edge(stack[|stack| - 1], endpoint) in edges
    ensures HasCycle(edges)
  {
    var i :| 0 <= i < |stack| && stack[i] == endpoint;
    var p := stack[i..] + [endpoint];
    forall k | 0 <= k < |p| - 1
      ensures Edge(p[k], p[k + 1]) in edges
    {
      assert p[k] == stack[i + k];
      assert k + 1 < |p| - 1 ==> p[k + 1] == stack[i + k + 1];
    }
    assert IsCycle(edges, p);
  }

  /**
   * The search between two calls: `stack` is the path of open nodes, `order` the finished
   * ones; `active` and `complete` are their sets.
   */
  ghost predicate SearchState(edges: seq<Edge>, active: set<string>, complete: set<string>, stack: seq<string>,
                              order: seq<string>) {
    && IsPath(edges, stack) && (forall x :: x in active <==> x in stack)
    && active <= Endpoints(edges)
    && FinishOrder(edges, order) && (forall x :: x in complete <==> x in order)
    && active !! complete
  }

  /** Opening an unseen node extends the path. */
  lemma OpenNode(edges: seq<Edge>, active: set<string>, complete: set<string>, stack: seq<string>,
                 order: seq<string>, x: string)
    requires SearchState(edges, active, complete, stack, order)
    requires x in Endpoints(edges) && x !in active && x !in complete
    requires stack != [] ==> Edge(stack[|stack| - 1], x) in edges
    ensures SearchState(edges, active + {x}, complete, stack + [x], order)
    ensures |Endpoints(edges) - (active + {x})| < |Endpoints(edges) - active|
  {
    assert Endpoints(edges) - active == (Endpoints(edges) - (active + {x})) + {x};
  }

  lemma AddRemove(s: set<string>, x: string)
    requires x !in s
    ensures (s + {x}) - {x} == s
  {
  }

  /** A node whose children have all finished can finish. */
  lemma CloseNode(edges: seq<Edge>, active: set<string>, complete: set<string>, stack: seq<string>,
                  order: seq<string>, x: string)
    requires SearchState(edges, active, complete, stack + [x], order) && x !in stack
    requires forall e :: e in edges && e.producer == x ==> e.consumer in complete
    ensures SearchState(edges, active - {x}, complete + {x}, stack, order + [x])
  {
    forall y
      ensures y in active - {x} <==> y in stack
    {
      assert y in stack + [x] <==> y in stack || y == x;
    }
    forall i, e | 0 <= i < |order + [x]| && e in edges && e.producer == (order + [x])[i]
      ensures e.consumer in (order + [x])[..i]
    {
      assert (order + [x])[..i] == order[..i];
    }
    forall i | 0 <= i < |stack| - 1
      ensures Edge(stack[i], stack[i + 1]) in edges
    {
      assert (stack + [x])[i] == stack[i] && (stack + [x])[i + 1] == stack[i + 1];
    }
  }

  /** The nested `visit` with the sets it closes over. */
  class CycleSearch {
    ghost const edges: seq<Edge>
    const graph: Graph
    var active: set<string>
    var complete: set<string>
    ghost var stack: seq<string>
    ghost var order: seq<string>

    ghost predicate Valid()
      reads this
    {
      Represents(graph, edges) && SearchState(edges, active, complete, stack, order)
    }

    constructor (ghost edges: seq<Edge>, graph: Graph)
      requires Represents(graph, edges)
      ensures Valid() && this.edges == edges && this.graph == graph
      ensures active == {} && complete == {} && stack == []
    {
      this.edges, this.graph := edges, graph;
      active, complete, stack, order := {}, {}, [], [];
    }

    /** `visit`; false stands for the cyclic-edge error. */
    method Visit(endpoint: string) returns (ok: bool)
      requires Valid() && endpoint in Endpoints(edges)
      requires stack != [] ==> Edge(stack[|stack| - 1], endpoint) in edges
      modifies this
      ensures ok ==> Valid() && active == old(active) && stack == old(stack)
      ensures ok ==> old(complete) <= complete && endpoint in complete
      ensures !ok ==> HasCycle(edges)
      decreases |Endpoints(edges) - active|, 0
    {
      if endpoint in active {
        PathCloses(edges, stack, endpoint);
        return false;
      }
      if endpoint in complete {
        return true;
      }
      ghost var path, above := stack, active;
      Open(endpoint);
      ok := VisitChildren(endpoint);
      if ok {
        AddRemove(above, endpoint);
        Finish(endpoint, path);
      }
    }

    /** The start of `visit` on an unseen node: the node is opened. */
    method Open(endpoint: string)
      requires Valid() && endpoint in Endpoints(edges) && endpoint !in active && endpoint !in complete
      requires stack != [] ==> Edge(stack[|stack| - 1], endpoint) in edges
      modifies this
      ensures Valid() && stack == old(stack) + [endpoint] && endpoint !in old(stack)
      ensures active == old(active) + {endpoint} && complete == old(complete)
      ensures |Endpoints(edges) - active| < |Endpoints(edges) - old(active)|
    {
      OpenNode(edges, active, complete, stack, order, endpoint);
      active, stack := active + {endpoint}, stack + [endpoint];
    }

    /** The end of `visit`: the node is closed. */
    method Finish(endpoint: string, ghost rest: seq<string>)
      requires Valid() && stack == rest + [endpoint] && endpoint !in rest
      requires forall e :: e in edges && e.producer == endpoint ==> e.consumer in complete
      modifies this
      ensures Valid() && stack == rest
      ensures active == old(active) - {endpoint} && complete == old(complete) + {endpoint}
    {
      CloseNode(edges, active, complete, rest, order, endpoint);
      active := active - {endpoint};
      complete := complete + {endpoint};
      stack, order := rest, order + [endpoint];
    }

    /** The loop of `visit` over the children of an open node. */
    method VisitChildren(endpoint: string) returns (ok: bool)
      requires Valid() && stack != [] && stack[|stack| - 1] == endpoint
      modifies this
      ensures ok ==> Valid() && active == old(active) && stack == old(stack) && old(complete) <= complete
      ensures ok ==> forall e :: e in edges && e.producer == endpoint ==> e.consumer in complete
      ensures !ok ==> HasCycle(edges)
      decreases |Endpoints(edges) - active|, 1
    {
      var rest := Children(graph, endpoint);
      while rest != {}
        invariant Valid() && active == old(active) && stack == old(stack) && old(complete) <= complete
        invariant rest <= Children(graph, endpoint)
        invariant forall c :: c in Children(graph, endpoint) ==> c in rest || c in complete
      {
        var child :| child in rest;
        rest := rest - {child};
        assert Edge(endpoint, child) in edges && Edge(endpoint, child).consumer in Endpoints(edges);
        ok := Visit(child);
        if !ok {
          return;
        }
      }
      ok := true;
      forall e | e in edges && e.producer == endpoint
        ensures e.consumer in complete
      {
        assert e == Edge(endpoint, e.consumer);
      }
    }
  }

  datatype Verdict = Accepted | UnknownEndpoint | DuplicateEdge | CyclicEdge

  /** Both endpoints of every edge are known, and no edge is listed twice. */
  ghost predicate Listed(edges: seq<Edge>, known: set<string>) {
    && (forall e :: e in edges ==> e.producer in known && e.consumer in known)
    && (forall i, j :: 0 <= i < j < |edges| ==> edges[i] != edges[j])
  }

  /** One more edge is in the list and in the graph. */
  lemma EdgeNext(edges: seq<Edge>, i: nat, graph: Graph, known: set<string>)
    requires i < |edges| && Listed(edges[..i], known) && Represents(graph, edges[..i])
    requires var e := edges[i]; e.producer in known && e.consumer in known && e !in edges[..i]
    ensures Listed(edges[..i + 1], known)
    ensures var e := edges[i];
            Represents(graph[e.producer := Children(graph, e.producer) + {e.consumer}], edges[..i + 1])
  {
    TakeNext(edges, i);
  }

  lemma RepeatedEdge(edges: seq<Edge>, i: nat)
    requires i < |edges| && edges[i] in edges[..i]
    ensures exists k :: 0 <= k < i && edges[k] == edges[i]
  {
    var k :| 0 <= k < i && edges[..i][k] == edges[i];
  }

  /** The edge checks: a cycle is reported exactly when the listed edges have one. */
  method ValidateEdges(edges: seq<Edge>, known: set<string>) returns (v: Verdict)
    ensures v == CyclicEdge <==> Listed(edges, known) && HasCycle(edges)
    ensures v == Accepted <==> Listed(edges, known) && !HasCycle(edges)
    ensures v == UnknownEndpoint ==> exists e :: e in edges && (e.producer !in known || e.consumer !in known)
    ensures v == DuplicateEdge ==> exists i, j :: 0 <= i < j < |edges| && edges[i] == edges[j]
  {
    var keys: set<Edge> := {};
    var graph: Graph := map[];
    for i := 0 to |edges|
      invariant Listed(edges[..i], known)
      invariant forall e :: e in keys <==> e in edges[..i]
      invariant Represents(graph, edges[..i])
      invariant forall x :: x in graph ==> exists e :: e in edges[..i] && e.producer == x
    {
      var e := edges[i];
      TakeNext(edges, i);
      assert e in edges;
      if e.producer !in known || e.consumer !in known {
        return UnknownEndpoint;
      }
      if e in keys {
        RepeatedEdge(edges, i);
        return DuplicateEdge;
      }
      EdgeNext(edges, i, graph, known);
      keys := keys + {e};
      graph := graph[e.producer := Children(graph, e.producer) + {e.consumer}];
    }
    TakeAll(edges);
    var cyclic := FindCycle(edges, graph);
    return if cyclic then CyclicEdge else Accepted;
  }

  /** The outer loop: visit every producer. */
  method FindCycle(ghost edges: seq<Edge>, graph: Graph) returns (cyclic: bool)
    requires Represents(graph, edges)
    requires forall x :: x in graph ==> exists e :: e in edges && e.producer == x
    ensures cyclic <==> HasCycle(edges)
  {
    var search := new CycleSearch(edges, graph);
    var rest := graph.Keys;
    while rest != {}
      invariant search.Valid() && fresh(search) && search.edges == edges && search.graph == graph
      invariant search.stack == [] && search.active == {}
      invariant rest <= graph.Keys && graph.Keys - rest <= search.complete
    {
      var endpoint :| endpoint in rest;
      rest := rest - {endpoint};
      ghost var e :| e in edges && e.producer == endpoint;
      var ok := search.Visit(endpoint);
      if !ok {
        return true;
      }
    }
    forall e | e in edges
      ensures e.producer in search.order
    {
      assert e.consumer in Children(graph, e.producer);
    }
    FinishedMeansAcyclic(edges, search.order);
    return false;
  }
}
