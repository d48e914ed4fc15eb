/**
 * The arena-style labelled graph behind every automaton of the toolkit
 * (`StateTransferGraph` in src/lexer/re.rs): vertices and edges live in two
 * vectors and refer to each other by index.
 *
 * The edge-index lists kept in each vertex are redundant with the edge vector:
 * `add_transfer` is the only operation that writes them, and it always appends
 * the index of the edge it has just pushed. `Valid` states this, so every list
 * is `Outs`/`Ins` of the edge vector and a graph is determined by its edges,
 * its vertex payloads and its start and end markers.
 */
module Automaton {
  import opened Wrappers
  import opened Graph

  /** The indices of the edges leaving `v`, in the order they were added. */
  function Outs<T>(es: seq<Edge<T>>, v: nat): seq<nat>
    decreases |es|
  {
    if |es| == 0 then []
    else Outs(es[..|es| - 1], v) + (if es[|es| - 1].inVertex == v then [|es| - 1] else [])
  }

  /** The indices of the edges entering `v`, in the order they were added. */
  function Ins<T>(es: seq<Edge<T>>, v: nat): seq<nat>
    decreases |es|
  {
    if |es| == 0 then []
    else Ins(es[..|es| - 1], v) + (if es[|es| - 1].outVertex == v then [|es| - 1] else [])
  }

  lemma OutsInsAppend<T>(es: seq<Edge<T>>, e: Edge<T>, v: nat)
    ensures Outs(es + [e], v) == Outs(es, v) + (if e.inVertex == v then [|es|] else [])
    ensures Ins(es + [e], v) == Ins(es, v) + (if e.outVertex == v then [|es|] else [])
  {
    assert (es + [e])[..|es|] == es;
  }

  /** `Outs` lists exactly the edges whose source is `v`, each once, ascending. */
  lemma {:induction false} OutsSpec<T>(es: seq<Edge<T>>, v: nat)
    ensures forall k :: 0 <= k < |Outs(es, v)| ==> Outs(es, v)[k] < |es| && es[Outs(es, v)[k]].inVertex == v
    ensures forall e :: 0 <= e < |es| && es[e].inVertex == v ==> e in Outs(es, v)
    ensures forall j, k :: 0 <= j < k < |Outs(es, v)| ==> Outs(es, v)[j] < Outs(es, v)[k]
    decreases |es|
  {
    if |es| > 0 {
      var init := es[..|es| - 1];
      OutsSpec(init, v);
      OutsInsAppend(init, es[|es| - 1], v);
      assert init + [es[|es| - 1]] == es;
    }
  }

  /** `Ins` lists exactly the edges whose target is `v`. */
  lemma {:induction false} InsSpec<T>(es: seq<Edge<T>>, v: nat)
    ensures forall k :: 0 <= k < |Ins(es, v)| ==> Ins(es, v)[k] < |es| && es[Ins(es, v)[k]].outVertex == v
    ensures forall e :: 0 <= e < |es| && es[e].outVertex == v ==> e in Ins(es, v)
    decreases |es|
  {
    if |es| > 0 {
      var init := es[..|es| - 1];
      InsSpec(init, v);
      OutsInsAppend(init, es[|es| - 1], v);
      assert init + [es[|es| - 1]] == es;
    }
  }

  /**
   * The target of the first edge in `out` labelled `token`. The index test
   * never fails on an `Outs` list (`OutsSpec`); it keeps the function total.
   */
  function FirstTarget<T(==)>(es: seq<Edge<T>>, out: seq<nat>, token: T): Option<nat>
  {
    if |out| == 0 then None
    else if out[0] < |es| && es[out[0]].cost == token then Some(es[out[0]].outVertex)
    else FirstTarget(es, out[1..], token)
  }

  /** `FirstTarget` finds the earliest matching edge, or reports that there is none. */
  lemma {:induction false} FirstTargetSpec<T>(es: seq<Edge<T>>, out: seq<nat>, token: T)
    requires forall k :: 0 <= k < |out| ==> out[k] < |es|
    ensures FirstTarget(es, out, token).None? <==> forall k :: 0 <= k < |out| ==> es[out[k]].cost != token
    ensures FirstTarget(es, out, token).Some? ==>
              exists k :: 0 <= k < |out| && es[out[k]].cost == token
                && FirstTarget(es, out, token).value == es[out[k]].outVertex
                && forall j :: 0 <= j < k ==> es[out[j]].cost != token
  {
    if |out| > 0 && es[out[0]].cost != token {
      FirstTargetSpec(es, out[1..], token);
      if FirstTarget(es, out, token).Some? {
        var k :| 0 <= k < |out| - 1 && es[out[1..][k]].cost == token
          && FirstTarget(es, out, token).value == es[out[1..][k]].outVertex
          && forall j :: 0 <= j < k ==> es[out[1..][j]].cost != token;
        assert forall j :: 0 <= j < k + 1 ==> es[out[j]].cost != token by {
          forall j | 0 <= j < k + 1 ensures es[out[j]].cost != token {
            if j > 0 { assert out[j] == out[1..][j - 1]; }
          }
        }
      }
      assert (forall k :: 0 <= k < |out| ==> es[out[k]].cost != token)
        <==> (forall k :: 0 <= k < |out[1..]| ==> es[out[1..][k]].cost != token) by {
        if forall k :: 0 <= k < |out[1..]| ==> es[out[1..][k]].cost != token {
          forall k | 0 <= k < |out| ensures es[out[k]].cost != token {
            if k > 0 { assert out[k] == out[1..][k - 1]; }
          }
        }
      }
    }
  }

  /** The state reached from `state` on `token`: the first out-edge with that label wins. */
  function Step<T(==)>(es: seq<Edge<T>>, state: nat, token: T): Option<nat>
  {
    FirstTarget(es, Outs(es, state), token)
  }

  /** A step follows an edge out of the state with that label, and fails only when there is none. */
  lemma StepSpec<T>(es: seq<Edge<T>>, state: nat, token: T)
    ensures Step(es, state, token).None? <==> forall k :: 0 <= k < |es| && es[k].inVertex == state ==> es[k].cost != token
    ensures Step(es, state, token).Some? ==>
      exists k :: 0 <= k < |es| && es[k].inVertex == state && es[k].cost == token && es[k].outVertex == Step(es, state, token).value
  {
    OutsSpec(es, state);
    FirstTargetSpec(es, Outs(es, state), token);
  }

  /** Appending an edge leaves earlier matches alone; listing it last only fills a missing match. */
  lemma {:induction false} FirstTargetAppend<T>(es: seq<Edge<T>>, e: Edge<T>, out: seq<nat>, token: T)
    requires forall k :: 0 <= k < |out| ==> out[k] < |es|
    ensures FirstTarget(es + [e], out, token) == FirstTarget(es, out, token)
    ensures FirstTarget(es + [e], out + [|es|], token) ==
      if FirstTarget(es, out, token).None? && e.cost == token then Some(e.outVertex) else FirstTarget(es, out, token)
    decreases |out|
  {
    if |out| > 0 {
      FirstTargetAppend(es, e, out[1..], token);
      assert (out + [|es|])[1..] == out[1..] + [|es|];
    }
  }

  /**
   * Adding an edge changes only the step from its source on its label, and
   * only when that step had no target yet.
   */
  lemma StepAppend<T>(es: seq<Edge<T>>, e: Edge<T>, v: nat, token: T)
    ensures Step(es + [e], v, token) ==
      if e.inVertex == v && Step(es, v, token).None? && e.cost == token then Some(e.outVertex) else Step(es, v, token)
  {
    OutsInsAppend(es, e, v);
    OutsSpec(es, v);
    OutsSpec(es + [e], v);
    FirstTargetAppend(es, e, Outs(es, v), token);
    if e.inVertex == v {
      assert Outs(es + [e], v) == Outs(es, v) + [|es|];
    } else {
      assert Outs(es + [e], v) == Outs(es, v);
    }
  }

  /** Every edge endpoint names an existing vertex. */
  predicate EdgesInRange<T>(es: seq<Edge<T>>, n: nat)
  {
    forall i :: 0 <= i < |es| ==> es[i].inVertex < n && es[i].outVertex < n
  }

  /** A vertex above every edge endpoint has no edges. */
  lemma {:induction false} NoEdgesAt<T>(es: seq<Edge<T>>, v: nat)
    requires EdgesInRange(es, v)
    ensures Outs(es, v) == [] && Ins(es, v) == []
    decreases |es|
  {
    if |es| > 0 {
      NoEdgesAt(es[..|es| - 1], v);
    }
  }

  predicate NoDup(s: seq<nat>)
  {
    forall i, j :: 0 <= i < j < |s| ==> s[i] != s[j]
  }

  /** The `ends` list after `mark_as_end(state)`. */
  function MarkEnd(ends: seq<nat>, state: nat): seq<nat>
  {
    if state in ends then ends else ends + [state]
  }

  /** Marking an end state keeps `ends` free of duplicates, adds exactly that state, and is idempotent. */
  lemma MarkEndSpec(ends: seq<nat>, state: nat)
    ensures NoDup(ends) ==> NoDup(MarkEnd(ends, state))
    ensures forall s :: s in MarkEnd(ends, state) <==> s in ends || s == state
    ensures MarkEnd(MarkEnd(ends, state), state) == MarkEnd(ends, state)
  {
  }

  /** Where `extend` sends vertex `i` of the spliced graph. */
  function Image(i: nat, rhsStart: nat, cross: nat, base: nat): nat
  {
    if i == rhsStart then cross else if i < rhsStart then base + i else base + i - 1
  }

  /** The spliced graph's edges, renamed by `Image`. */
  function MapEdges<T>(es: seq<Edge<T>>, rhsStart: nat, cross: nat, base: nat): (r: seq<Edge<T>>)
    ensures |r| == |es|
  {
    seq(|es|, k requires 0 <= k < |es| =>
      Edge(Image(es[k].inVertex, rhsStart, cross, base), Image(es[k].outVertex, rhsStart, cross, base), es[k].cost))
  }

  /** How many fresh vertices `extend` allocates: all but the merged start. */
  function FreshCount(n: nat, rhsStart: nat): nat
  {
    if rhsStart < n then n - 1 else n
  }

  /** `extend` gives the spliced vertices distinct images, fresh ones above `base`. */
  lemma ImageSpec(n: nat, rhsStart: nat, cross: nat, base: nat)
    ensures forall i :: 0 <= i < n && i != rhsStart ==>
              base <= Image(i, rhsStart, cross, base) < base + FreshCount(n, rhsStart)
    ensures forall i, j :: 0 <= i < n && 0 <= j < n && i != j && i != rhsStart && j != rhsStart ==>
              Image(i, rhsStart, cross, base) != Image(j, rhsStart, cross, base)
  {
  }

  /** The payloads of the vertices, in order. */
  function Payloads<D>(vs: seq<Vertex<D>>): (ds: seq<D>)
    ensures |ds| == |vs| && forall v :: 0 <= v < |vs| ==> ds[v] == vs[v].data
  {
    seq(|vs|, v requires 0 <= v < |vs| => vs[v].data)
  }

  class StateTransferGraph<D, T(==)> {
    var vertices: seq<Vertex<D>>
    var edges: seq<Edge<T>>
    var start: nat
    var end: nat
    var ends: seq<nat>
    /** The payload `D::default()` given to vertices created without data. */
    const dflt: D

    ghost predicate Valid()
      reads this
    {
      EdgesInRange(edges, |vertices|)
      && (forall v :: 0 <= v < |vertices| ==>
            vertices[v].outEdges == Outs(edges, v) && vertices[v].inEdges == Ins(edges, v))
      && NoDup(ends)
    }

    /** `StateTransferGraph::new`: no vertices, no edges, start and end 0, no end states. */
    constructor (dflt: D)
      ensures Valid()
      ensures vertices == [] && edges == [] && start == 0 && end == 0 && ends == []
      ensures this.dflt == dflt
    {
      vertices := [];
      edges := [];
      start := 0;
      end := 0;
      ends := [];
      this.dflt := dflt;
    }

    /** `add_state_with_data`: appends one vertex with no edges and returns its index. */
    method AddStateWithData(data: D) returns (s: nat)
      requires Valid()
      modifies this
      ensures Valid()
      ensures s == old(|vertices|)
      ensures vertices == old(vertices) + [NewVertex(data)]
      ensures Payloads(vertices) == old(Payloads(vertices)) + [data]
      ensures edges == old(edges) && start == old(start) && end == old(end) && ends == old(ends)
    {
      NoEdgesAt(edges, |vertices|);
      assert Payloads(vertices + [NewVertex(data)]) == Payloads(vertices) + [data];
      vertices := vertices + [NewVertex(data)];
      s := |vertices| - 1;
    }

    /** `add_state`: `add_state_with_data(D::default())`. */
    method AddState() returns (s: nat)
      requires Valid()
      modifies this
      ensures Valid()
      ensures s == old(|vertices|)
      ensures vertices == old(vertices) + [NewVertex(dflt)]
      ensures edges == old(edges) && start == old(start) && end == old(end) && ends == old(ends)
    {
      s := AddStateWithData(dflt);
    }

    /**
     * `add_transfer`: appends one edge, records its index in the source's
     * out-list and the target's in-list, and returns that index.
     */
    method AddTransfer(in_: nat, out_: nat, cost: T) returns (e: nat)
      requires Valid() && in_ < |vertices| && out_ < |vertices|
      modifies this
      ensures Valid()
      ensures e == old(|edges|)
      ensures edges == old(edges) + [NewEdge(in_, out_, cost)]
      ensures |vertices| == old(|vertices|)
      ensures Payloads(vertices) == old(Payloads(vertices))
      ensures forall v :: 0 <= v < |vertices| ==> vertices[v].data == old(vertices[v].data)
      ensures forall v :: 0 <= v < |vertices| ==>
                vertices[v].outEdges == old(vertices[v].outEdges) + (if v == in_ then [e] else [])
                && vertices[v].inEdges == old(vertices[v].inEdges) + (if v == out_ then [e] else [])
      ensures start == old(start) && end == old(end) && ends == old(ends)
    {
      var edge := NewEdge(in_, out_, cost);
      forall v | 0 <= v < |vertices| {
        OutsInsAppend(edges, edge, v);
      }
      edges := edges + [edge];
      e := |edges| - 1;
      vertices := vertices[in_ := vertices[in_].(outEdges := vertices[in_].outEdges + [e])];
      vertices := vertices[out_ := vertices[out_].(inEdges := vertices[out_].inEdges + [e])];
    }

    /** `add_state_after`: a fresh state reached from `prev` by one edge labelled `cost`. */
    method AddStateAfter(prev: nat, cost: T) returns (s: nat)
      requires Valid() && prev < |vertices|
      modifies this
      ensures Valid()
      ensures s == old(|vertices|) && |vertices| == s + 1
      ensures vertices[s].data == dflt
      ensures forall v :: 0 <= v < s ==> vertices[v].data == old(vertices[v].data)
      ensures edges == old(edges) + [Edge(prev, s, cost)]
      ensures start == old(start) && end == old(end) && ends == old(ends)
    {
      s := AddState();
      var _ := AddTransfer(prev, s, cost);
    }

    /** `mark_as_start`. */
    method MarkAsStart(state: nat)
      modifies this
      ensures start == state
      ensures vertices == old(vertices) && edges == old(edges) && end == old(end) && ends == old(ends)
    {
      start := state;
    }

    /** `mark_as_end`: sets `end`, and adds the state to `ends` unless it is already there. */
    method MarkAsEnd(state: nat)
      requires Valid()
      modifies this
      ensures Valid()
      ensures end == state && ends == MarkEnd(old(ends), state)
      ensures vertices == old(vertices) && edges == old(edges) && start == old(start)
    {
      MarkEndSpec(ends, state);
      end := state;
      if state !in ends {
        ends := ends + [state];
      }
    }

    /**
     * `extend`: splices `rhs` into this graph. `rhs.start` is merged into
     * `crossState`, every other vertex of `rhs` gets a fresh state, every edge
     * of `rhs` is copied under that renaming, and the image of `rhs.end` is
     * returned. Indexing the renaming by `rhs.end` needs it to be a vertex,
     * and `crossState` must exist when a copied edge touches it.
     */
    method Extend(crossState: nat, rhs: StateTransferGraph<D, T>) returns (r: nat)
      requires rhs != this && Valid() && rhs.Valid()
      requires rhs.end < |rhs.vertices|
      requires crossState < |vertices|
               || forall i :: 0 <= i < |rhs.edges| ==>
                    rhs.edges[i].inVertex != rhs.start && rhs.edges[i].outVertex != rhs.start
      modifies this
      ensures Valid()
      ensures |vertices| == old(|vertices|) + FreshCount(|rhs.vertices|, rhs.start)
      ensures forall v :: 0 <= v < |vertices| ==>
                vertices[v].data == if v < old(|vertices|) then old(vertices[v].data) else dflt
      ensures edges == old(edges) + MapEdges(rhs.edges, rhs.start, crossState, old(|vertices|))
      ensures r == Image(rhs.end, rhs.start, crossState, old(|vertices|))
      ensures start == old(start) && end == old(end) && ends == old(ends)
    {
      var base := |vertices|;
      var renaming := AddImages(crossState, rhs.start, |rhs.vertices|);
      ImageSpec(|rhs.vertices|, rhs.start, crossState, base);
      CopyEdges(rhs.edges, renaming, rhs.start, crossState, base);
      r := renaming[rhs.end];
    }

    /** The first loop of `extend`: a fresh vertex for every spliced vertex but the merged start. */
    method AddImages(crossState: nat, rhsStart: nat, n: nat) returns (renaming: seq<nat>)
      requires Valid()
      modifies this
      ensures Valid()
      ensures |renaming| == n
      ensures forall k :: 0 <= k < n ==> renaming[k] == Image(k, rhsStart, crossState, old(|vertices|))
      ensures |vertices| == old(|vertices|) + FreshCount(n, rhsStart)
      ensures forall v :: 0 <= v < |vertices| ==>
                vertices[v].data == if v < old(|vertices|) then old(vertices[v].data) else dflt
      ensures edges == old(edges) && start == old(start) && end == old(end) && ends == old(ends)
    {
      var base := |vertices|;
      renaming := [];
      for i := 0 to n
        invariant Valid()
        invariant |renaming| == i
        invariant forall k :: 0 <= k < i ==> renaming[k] == Image(k, rhsStart, crossState, base)
        invariant |vertices| == base + (if rhsStart < i then i - 1 else i)
        invariant forall v :: 0 <= v < |vertices| ==>
                    vertices[v].data == if v < base then old(vertices[v].data) else dflt
        invariant edges == old(edges) && start == old(start) && end == old(end) && ends == old(ends)
      {
        if i == rhsStart {
          renaming := renaming + [crossState];
        } else {
          var s := AddState();
          renaming := renaming + [s];
        }
      }
    }

    /** The second loop of `extend`: every spliced edge, renamed, in order. */
    method CopyEdges(es: seq<Edge<T>>, renaming: seq<nat>, rhsStart: nat, crossState: nat, base: nat)
      requires Valid() && EdgesInRange(es, |renaming|)
      requires forall k :: 0 <= k < |renaming| ==> renaming[k] == Image(k, rhsStart, crossState, base)
      requires forall k :: 0 <= k < |renaming| && k != rhsStart ==> renaming[k] < |vertices|
      requires crossState < |vertices| || forall i :: 0 <= i < |es| ==> es[i].inVertex != rhsStart && es[i].outVertex != rhsStart
      modifies this
      ensures Valid()
      ensures |vertices| == old(|vertices|)
      ensures forall v :: 0 <= v < |vertices| ==> vertices[v].data == old(vertices[v].data)
      ensures edges == old(edges) + MapEdges(es, rhsStart, crossState, base)
      ensures start == old(start) && end == old(end) && ends == old(ends)
    {
      for k := 0 to |es|
        invariant Valid()
        invariant |vertices| == old(|vertices|)
        invariant forall v :: 0 <= v < |vertices| ==> vertices[v].data == old(vertices[v].data)
        invariant edges == old(edges) + MapEdges(es[..k], rhsStart, crossState, base)
        invariant start == old(start) && end == old(end) && ends == old(ends)
      {
        var e := es[k];
        var _ := AddTransfer(renaming[e.inVertex], renaming[e.outVertex], e.cost);
        assert es[..k + 1] == es[..k] + [e];
      }
      assert es[..|es|] == es;
    }

    /** `get_transition`: the target of the first out-edge of `state` labelled `token`. */
    method GetTransition(state: nat, token: T) returns (r: Option<nat>)
      requires Valid() && state < |vertices|
      ensures r == Step(edges, state, token)
    {
      var out := vertices[state].outEdges;
      OutsSpec(edges, state);
      for i := 0 to |out|
        invariant FirstTarget(edges, out[i..], token) == FirstTarget(edges, out, token)
      {
        if edges[out[i]].cost == token {
          return Some(edges[out[i]].outVertex);
        }
        assert out[i..][1..] == out[i + 1..];
      }
      return None;
    }
  }
}
