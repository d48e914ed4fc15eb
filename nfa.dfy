/**
 * Thompson's construction and the NFA matcher (src/lexer/nfa.rs).
 *
 * `Thompson` is the automaton `construct_nfa` builds, as a value: its state
 * count, its edge list and its end state (the start is always state 0).
 * `ConstructNfa` builds it imperatively through the graph's own operations
 * and is proved to produce exactly that value.
 */
module Nfa {
  import opened Wrappers
  import opened Utils
  import opened Graph
  import opened Automaton
  import opened Re

  /** The label of an ε-move: `EPSILON_SINGLETOKEN`, which is also `char::default()`. */
  const EPS: char := '\0'

  /** The expression holds no `Alias` or `Match` node; `construct_nfa` panics on those. */
  predicate NfaReady(re: RegularExpression)
  {
    match re
    case Alias(_) => false
    case Match(_) => false
    case Union(ops) => forall i :: 0 <= i < |ops| ==> NfaReady(ops[i])
    case Concatenation(ops) => forall i :: 0 <= i < |ops| ==> NfaReady(ops[i])
    case Iteration(o) => NfaReady(o)
    case _ => true
  }

  function Arity(re: RegularExpression): nat
  {
    match re
    case Union(ops) => |ops|
    case Concatenation(ops) => |ops|
    case _ => 0
  }

  /** An automaton with start state 0. */
  datatype Nfa = Nfa(size: nat, edges: seq<Edge<char>>, end: nat)

  predicate WellFormed(a: Nfa)
  {
    1 <= a.size && a.end < a.size && EdgesInRange(a.edges, a.size)
  }

  /**
   * `extend(cross, sub)` on a graph with `size` states and `edges`: the new
   * state count, the new edge list, and the image of `sub`'s end.
   */
  function Splice(size: nat, edges: seq<Edge<char>>, cross: nat, sub: Nfa): (a: Nfa)
    requires WellFormed(sub) && EdgesInRange(edges, size) && cross < size
    ensures a.size == size + sub.size - 1 && WellFormed(a)
    ensures |a.edges| == |edges| + |sub.edges| && a.edges[..|edges|] == edges
  {
    ImageSpec(sub.size, 0, cross, size);
    var a := Nfa(size + sub.size - 1, edges + MapEdges(sub.edges, 0, cross, size), Image(sub.end, 0, cross, size));
    assert a.edges[..|edges|] == edges;
    a
  }

  /** The states and edges of a union under construction, and the end images of the operands copied so far. */
  datatype Fan = Fan(size: nat, edges: seq<Edge<char>>, ends: seq<nat>)

  predicate FanWellFormed(f: Fan)
  {
    1 <= f.size && EdgesInRange(f.edges, f.size) && forall i :: 0 <= i < |f.ends| ==> f.ends[i] < f.size
  }

  /** The automaton `construct_nfa` builds for `re`. */
  function Thompson(re: RegularExpression): (a: Nfa)
    requires NfaReady(re)
    ensures WellFormed(a)
    decreases re, Arity(re) + 1
  {
    match re
    case Epsilon => Nfa(1, [], 0)
    case Atomic(c) => Nfa(2, [Edge(0, 1, c)], 1)
    case Concatenation(ops) => ConcatFrom(re, 0, Nfa(1, [], 0))
    case Union(ops) =>
      var f := UnionFrom(re, 0, Fan(1, [], []));
      Nfa(f.size + 1, f.edges + Rejoin(f.ends, f.size), f.size)
    case Iteration(o) =>
      var inner := Splice(2, [Edge(0, 1, EPS)], 1, Thompson(o));
      var n := inner.size;
      Nfa(n + 1, inner.edges + [Edge(inner.end, n, EPS)] + [Edge(inner.end, 1, EPS)] + [Edge(0, n, EPS)], n)
  }

  /** The ε-edges from each operand's end to the shared end of a union. */
  function Rejoin(ends: seq<nat>, end: nat): (r: seq<Edge<char>>)
    ensures |r| == |ends|
    ensures forall i :: 0 <= i < |ends| ==> r[i] == Edge(ends[i], end, EPS)
  {
    seq(|ends|, i requires 0 <= i < |ends| => Edge(ends[i], end, EPS))
  }

  /** Splices operands k, k+1, … of a concatenation onto `acc`, each start merged into the current end. */
  function ConcatFrom(re: RegularExpression, k: nat, acc: Nfa): (a: Nfa)
    requires re.Concatenation? && NfaReady(re) && k <= |re.operands| && WellFormed(acc)
    ensures WellFormed(a) && a.size >= acc.size && |a.edges| >= |acc.edges| && a.edges[..|acc.edges|] == acc.edges
    decreases re, |re.operands| - k
  {
    if k == |re.operands| then acc
    else
      var next := Splice(acc.size, acc.edges, acc.end, Thompson(re.operands[k]));
      var a := ConcatFrom(re, k + 1, next);
      assert a.edges[..|acc.edges|] == a.edges[..|next.edges|][..|acc.edges|];
      a
  }

  /** Copies operands k, k+1, … of a union, each behind a fresh state entered from state 0 by ε. */
  function UnionFrom(re: RegularExpression, k: nat, acc: Fan): (f: Fan)
    requires re.Union? && NfaReady(re) && k <= |re.operands| && FanWellFormed(acc)
    ensures FanWellFormed(f) && f.size >= acc.size && |f.ends| == |acc.ends| + |re.operands| - k
    ensures f.ends[..|acc.ends|] == acc.ends
    decreases re, |re.operands| - k
  {
    if k == |re.operands| then acc
    else
      var next := FanStep(acc, Thompson(re.operands[k]));
      var f := UnionFrom(re, k + 1, next);
      assert f.ends[..|acc.ends|] == f.ends[..|acc.ends| + 1][..|acc.ends|];
      f
  }

  /** No edge enters `v`. */
  predicate NoEntry(es: seq<Edge<char>>, v: nat)
  {
    forall i :: 0 <= i < |es| ==> es[i].outVertex != v
  }

  /** No edge leaves `v`. */
  predicate NoExit(es: seq<Edge<char>>, v: nat)
  {
    forall i :: 0 <= i < |es| ==> es[i].inVertex != v
  }

  lemma SpliceShape(size: nat, edges: seq<Edge<char>>, cross: nat, sub: Nfa)
    requires WellFormed(sub) && EdgesInRange(edges, size) && cross < size
    requires NoEntry(edges, 0) && NoEntry(sub.edges, 0) && NoExit(sub.edges, sub.end)
    ensures NoEntry(Splice(size, edges, cross, sub).edges, 0)
    ensures NoExit(edges, cross) ==> NoExit(Splice(size, edges, cross, sub).edges, Splice(size, edges, cross, sub).end)
  {
    var a := Splice(size, edges, cross, sub);
    var mapped := MapEdges(sub.edges, 0, cross, size);
    assert a.edges == edges + mapped;
    if NoExit(edges, cross) {
      forall i | 0 <= i < |a.edges| ensures a.edges[i].inVertex != a.end {
        if i >= |edges| {
          var j := i - |edges|;
          assert a.edges[i] == mapped[j];
          assert sub.edges[j].inVertex != sub.end;
        }
      }
    }
  }

  /**
   * Every automaton of Thompson's construction has a start state no edge
   * enters and an end state no edge leaves, which is what lets `extend`
   * merge an operand's start into the previous end.
   */
  lemma {:induction false} ThompsonShape(re: RegularExpression)
    requires NfaReady(re)
    ensures NoEntry(Thompson(re).edges, 0) && NoExit(Thompson(re).edges, Thompson(re).end)
    decreases re, Arity(re) + 1
  {
    match re
    case Epsilon =>
    case Atomic(c) =>
    case Concatenation(ops) =>
      ConcatFromShape(re, 0, Nfa(1, [], 0));
    case Union(ops) =>
      var f := UnionFrom(re, 0, Fan(1, [], []));
      UnionFromShape(re, 0, Fan(1, [], []));
      var a := Thompson(re);
      assert a.edges == f.edges + Rejoin(f.ends, f.size);
      forall i | 0 <= i < |a.edges| ensures a.edges[i].outVertex != 0 && a.edges[i].inVertex != a.end {
        if i >= |f.edges| {
          assert a.edges[i] == Edge(f.ends[i - |f.edges|], f.size, EPS);
        }
      }
    case Iteration(o) =>
      ThompsonShape(o);
      SpliceShape(2, [Edge(0, 1, EPS)], 1, Thompson(o));
  }

  lemma {:induction false} ConcatFromShape(re: RegularExpression, k: nat, acc: Nfa)
    requires re.Concatenation? && NfaReady(re) && k <= |re.operands| && WellFormed(acc)
    requires NoEntry(acc.edges, 0) && NoExit(acc.edges, acc.end)
    ensures NoEntry(ConcatFrom(re, k, acc).edges, 0) && NoExit(ConcatFrom(re, k, acc).edges, ConcatFrom(re, k, acc).end)
    decreases re, |re.operands| - k
  {
    if k < |re.operands| {
      ThompsonShape(re.operands[k]);
      SpliceShape(acc.size, acc.edges, acc.end, Thompson(re.operands[k]));
      ConcatFromShape(re, k + 1, Splice(acc.size, acc.edges, acc.end, Thompson(re.operands[k])));
    }
  }

  lemma {:induction false} UnionFromShape(re: RegularExpression, k: nat, acc: Fan)
    requires re.Union? && NfaReady(re) && k <= |re.operands| && FanWellFormed(acc)
    requires NoEntry(acc.edges, 0)
    ensures NoEntry(UnionFrom(re, k, acc).edges, 0)
    decreases re, |re.operands| - k
  {
    if k < |re.operands| {
      var sub := Thompson(re.operands[k]);
      ThompsonShape(re.operands[k]);
      var next := FanStep(acc, sub);
      FanStepShape(acc, sub);
      assert UnionFrom(re, k, acc) == UnionFrom(re, k + 1, next);
      UnionFromShape(re, k + 1, next);
    }
  }

  /** The fan after one more operand of a union is copied in. */
  function FanStep(acc: Fan, sub: Nfa): (f: Fan)
    requires FanWellFormed(acc) && WellFormed(sub)
    ensures FanWellFormed(f) && f.size > acc.size
  {
    FanBase(acc);
    var s := Splice(acc.size + 1, acc.edges + [Edge(0, acc.size, EPS)], acc.size, sub);
    FanGrow(acc, s);
    Fan(s.size, s.edges, acc.ends + [s.end])
  }

  lemma FanStepShape(acc: Fan, sub: Nfa)
    requires FanWellFormed(acc) && WellFormed(sub)
    requires NoEntry(acc.edges, 0) && NoEntry(sub.edges, 0) && NoExit(sub.edges, sub.end)
    ensures NoEntry(FanStep(acc, sub).edges, 0)
  {
    FanBase(acc);
    SpliceShape(acc.size + 1, acc.edges + [Edge(0, acc.size, EPS)], acc.size, sub);
  }

  lemma FanGrow(acc: Fan, s: Nfa)
    requires FanWellFormed(acc) && WellFormed(s) && s.size > acc.size
    ensures FanWellFormed(Fan(s.size, s.edges, acc.ends + [s.end]))
  {
    var ends := acc.ends + [s.end];
    forall i | 0 <= i < |ends| ensures ends[i] < s.size {
      if i < |acc.ends| {
        assert ends[i] == acc.ends[i];
      }
    }
  }

  /** The edge from the union's start to the next operand's start enters a fresh state. */
  lemma FanBase(acc: Fan)
    requires FanWellFormed(acc)
    ensures EdgesInRange(acc.edges + [Edge(0, acc.size, EPS)], acc.size + 1)
    ensures NoEntry(acc.edges, 0) ==> NoEntry(acc.edges + [Edge(0, acc.size, EPS)], 0)
  {
    var base := acc.edges + [Edge(0, acc.size, EPS)];
    forall i | 0 <= i < |base| ensures base[i].inVertex < acc.size + 1 && base[i].outVertex < acc.size + 1 {
      if i < |acc.edges| {
        assert base[i] == acc.edges[i];
      }
    }
    if NoEntry(acc.edges, 0) {
      forall i | 0 <= i < |base| ensures base[i].outVertex != 0 {
        if i < |acc.edges| {
          assert base[i] == acc.edges[i];
        }
      }
    }
  }

  /**
   * `construct_nfa`: Thompson's construction, recursing into the operands
   * and splicing each result in with `extend`.
   */
  method ConstructNfa(re: RegularExpression) returns (g: StateTransferGraph<(), char>)
    requires NfaReady(re)
    ensures fresh(g) && g.Valid()
    ensures |g.vertices| == Thompson(re).size && g.edges == Thompson(re).edges
    ensures g.start == 0 && g.end == Thompson(re).end && g.ends == [g.end]
    ensures re.Epsilon? ==> |g.vertices| == 1 && g.edges == [] && g.end == 0
    ensures re.Atomic? ==> |g.vertices| == 2 && g.edges == [Edge(0, 1, re.id)] && g.end == 1
    decreases re, 2
  {
    match re {
      case Epsilon =>
        g := new StateTransferGraph<(), char>(());
        var s := g.AddState();
        g.MarkAsStart(s);
        g.MarkAsEnd(s);
      case Atomic(c) =>
        g := new StateTransferGraph<(), char>(());
        var s := g.AddState();
        g.MarkAsStart(s);
        s := g.AddStateAfter(s, c);
        g.MarkAsEnd(s);
      case Concatenation(ops) =>
        g := ConstructConcatenation(re);
      case Union(ops) =>
        g := ConstructUnion(re);
      case Iteration(o) =>
        g := ConstructIteration(re);
    }
  }

  /** `extend` applied to a freshly built operand: the graph grows exactly by `Splice`. */
  method SpliceIn(g: StateTransferGraph<(), char>, cross: nat, re: RegularExpression) returns (e: nat)
    requires NfaReady(re) && g.Valid() && WellFormed(Nfa(|g.vertices|, g.edges, cross))
    modifies g
    ensures g.Valid() && g.start == old(g.start) && g.ends == old(g.ends)
    ensures Nfa(|g.vertices|, g.edges, e) == Splice(old(|g.vertices|), old(g.edges), cross, Thompson(re))
    decreases re, 3
  {
    ghost var s := Splice(|g.vertices|, g.edges, cross, Thompson(re));
    var sub := ConstructNfa(re);
    e := g.Extend(cross, sub);
  }

  /** The concatenation arm: each operand's start is merged into the previous end. */
  method ConstructConcatenation(re: RegularExpression) returns (g: StateTransferGraph<(), char>)
    requires re.Concatenation? && NfaReady(re)
    ensures fresh(g) && g.Valid()
    ensures |g.vertices| == Thompson(re).size && g.edges == Thompson(re).edges
    ensures g.start == 0 && g.end == Thompson(re).end && g.ends == [g.end]
    decreases re, 1
  {
    var ops := re.operands;
    g := new StateTransferGraph<(), char>(());
    var state: nat := g.AddState();
    g.MarkAsStart(state);
    for k := 0 to |ops|
      invariant g.Valid() && g.start == 0 && g.ends == [] && state < |g.vertices|
      invariant WellFormed(Nfa(|g.vertices|, g.edges, state))
      invariant ConcatFrom(re, 0, Nfa(1, [], 0)) == ConcatFrom(re, k, Nfa(|g.vertices|, g.edges, state))
    {
      ghost var before := Nfa(|g.vertices|, g.edges, state);
      ghost var s := Splice(before.size, before.edges, state, Thompson(ops[k]));
      assert ConcatFrom(re, k, before) == ConcatFrom(re, k + 1, s);
      state := SpliceIn(g, state, ops[k]);
    }
    g.MarkAsEnd(state);
  }

  /** The union arm: a fresh start fans out by ε to each operand's copy, and every copy's end rejoins one fresh end. */
  method ConstructUnion(re: RegularExpression) returns (g: StateTransferGraph<(), char>)
    requires re.Union? && NfaReady(re)
    ensures fresh(g) && g.Valid()
    ensures |g.vertices| == Thompson(re).size && g.edges == Thompson(re).edges
    ensures g.start == 0 && g.end == Thompson(re).end && g.ends == [g.end]
    decreases re, 1
  {
    var ops := re.operands;
    g := new StateTransferGraph<(), char>(());
    var start := g.AddState();
    g.MarkAsStart(start);
    var states: seq<nat> := [];
    for k := 0 to |ops|
      invariant g.Valid() && g.start == 0 && g.ends == []
      invariant FanWellFormed(Fan(|g.vertices|, g.edges, states))
      invariant UnionFrom(re, 0, Fan(1, [], [])) == UnionFrom(re, k, Fan(|g.vertices|, g.edges, states))
    {
      var e := CopyOperand(g, re, k, states);
      states := states + [e];
    }
    assert UnionFrom(re, 0, Fan(1, [], [])) == Fan(|g.vertices|, g.edges, states);
    assert g.ends == [];
    var end := g.AddState();
    assert Thompson(re) == Nfa(end + 1, g.edges + Rejoin(states, end), end);
    RejoinEnds(g, states, end);
    g.MarkAsEnd(end);
    assert g.ends == [end];
  }

  /** The union arm's second loop: an ε-edge from each operand's end to the shared end, in order. */
  method RejoinEnds(g: StateTransferGraph<(), char>, states: seq<nat>, end: nat)
    requires g.Valid() && end < |g.vertices|
    requires forall i :: 0 <= i < |states| ==> states[i] < |g.vertices|
    modifies g
    ensures g.Valid() && g.start == old(g.start) && g.ends == old(g.ends) && |g.vertices| == old(|g.vertices|)
    ensures g.edges == old(g.edges) + Rejoin(states, end)
  {
    ghost var base := g.edges;
    for k := 0 to |states|
      invariant g.Valid() && g.start == old(g.start) && g.ends == old(g.ends) && |g.vertices| == old(|g.vertices|)
      invariant g.edges == base + Rejoin(states[..k], end)
    {
      var _ := g.AddTransfer(states[k], end, EPS);
      assert Rejoin(states[..k + 1], end) == Rejoin(states[..k], end) + [Edge(states[k], end, EPS)];
    }
    assert states[..|states|] == states;
  }

  /** One pass of the union arm's first loop: a fresh ε-successor of state 0, with operand k spliced in behind it. */
  method CopyOperand(g: StateTransferGraph<(), char>, re: RegularExpression, k: nat, states: seq<nat>) returns (e: nat)
    requires re.Union? && NfaReady(re) && k < |re.operands|
    requires g.Valid() && g.start == 0 && g.ends == [] && FanWellFormed(Fan(|g.vertices|, g.edges, states))
    modifies g
    ensures g.Valid() && g.start == 0 && g.ends == []
    ensures FanWellFormed(Fan(|g.vertices|, g.edges, states + [e]))
    ensures UnionFrom(re, k, Fan(old(|g.vertices|), old(g.edges), states))
         == UnionFrom(re, k + 1, Fan(|g.vertices|, g.edges, states + [e]))
    decreases re, 0
  {
    ghost var before := Fan(|g.vertices|, g.edges, states);
    var mid := g.AddStateAfter(0, EPS);
    assert g.edges == before.edges + [Edge(0, mid, EPS)] && |g.vertices| == mid + 1;
    e := SpliceIn(g, mid, re.operands[k]);
  }

  /** The iteration arm: ε into the operand, ε out to a fresh end, a back edge and a bypass edge. */
  method ConstructIteration(re: RegularExpression) returns (g: StateTransferGraph<(), char>)
    requires re.Iteration? && NfaReady(re)
    ensures fresh(g) && g.Valid()
    ensures |g.vertices| == Thompson(re).size && g.edges == Thompson(re).edges
    ensures g.start == 0 && g.end == Thompson(re).end && g.ends == [g.end]
    decreases re, 1
  {
    ghost var inner := Splice(2, [Edge(0, 1, EPS)], 1, Thompson(re.operand));
    ghost var n := inner.size;
    ghost var e2 := inner.edges + [Edge(inner.end, n, EPS)] + [Edge(inner.end, 1, EPS)];
    assert Thompson(re) == Nfa(n + 1, e2 + [Edge(0, n, EPS)], n);
    g := new StateTransferGraph<(), char>(());
    var start := g.AddState();
    g.MarkAsStart(start);
    var startInner := g.AddStateAfter(start, EPS);
    var endInner := SpliceIn(g, startInner, re.operand);
    assert |g.vertices| == n && g.edges == inner.edges && endInner == inner.end;
    var end := g.AddStateAfter(endInner, EPS);
    assert g.edges == inner.edges + [Edge(inner.end, n, EPS)] && end == n;
    var _ := g.AddTransfer(endInner, startInner, EPS);
    assert g.edges == e2;
    var _ := g.AddTransfer(start, end, EPS);
    assert g.ends == [];
    g.MarkAsEnd(end);
  }

  // ---------------------------------------------------------------------
  // match_nfa

  datatype MatchResult = Ok | Unfinished | Err

  /** No ε-edge leaves `t`. */
  ghost predicate EpsClosed(es: seq<Edge<char>>, t: set<nat>)
  {
    forall i :: 0 <= i < |es| && es[i].cost == EPS && es[i].inVertex in t ==> es[i].outVertex in t
  }

  function Targets(es: seq<Edge<char>>): set<nat>
  {
    set i | 0 <= i < |es| :: es[i].outVertex
  }

  /** The ε-closure of `s`: the states in every ε-closed superset of `s`. */
  ghost function EpsClosure(es: seq<Edge<char>>, s: set<nat>): set<nat>
  {
    set q | q in s + Targets(es) && forall t :: s <= t && EpsClosed(es, t) ==> q in t
  }

  /** The ε-closure contains `s`, is ε-closed, and lies inside every ε-closed superset of `s`. */
  lemma EpsClosureSpec(es: seq<Edge<char>>, s: set<nat>)
    ensures s <= EpsClosure(es, s)
    ensures EpsClosed(es, EpsClosure(es, s))
    ensures forall t :: s <= t && EpsClosed(es, t) ==> EpsClosure(es, s) <= t
  {
    var c := EpsClosure(es, s);
    forall i | 0 <= i < |es| && es[i].cost == EPS && es[i].inVertex in c
      ensures es[i].outVertex in c
    {
      assert es[i].outVertex in Targets(es);
    }
  }

  /** The states one edge labelled `c` away from `s`. */
  function MoveSet(es: seq<Edge<char>>, s: set<nat>, c: char): set<nat>
  {
    set i | 0 <= i < |es| && es[i].inVertex in s && es[i].cost == c :: es[i].outVertex
  }

  /**
   * `match_nfa` as written: the ε-closure of the start, then one move per
   * token with no closure after it; `None` once a move set is empty.
   */
  ghost function NfaRun(es: seq<Edge<char>>, s: set<nat>, w: seq<char>): Option<set<nat>>
    decreases |w|
  {
    if |w| == 0 then Some(s)
    else
      var next := MoveSet(es, s, w[0]);
      if next == {} then None else NfaRun(es, next, w[1..])
  }

  ghost function MatchNfaSpec(es: seq<Edge<char>>, start: nat, ends: seq<nat>, w: seq<char>): MatchResult
  {
    match NfaRun(es, EpsClosure(es, {start}), w)
    case None => MatchResult.Err
    case Some(s) => if exists q :: q in s && q in ends then MatchResult.Ok else Unfinished
  }

  /** `epsilon_closure` in `match_nfa`: sweeps the set until a full pass adds nothing. */
  method EpsilonClosure(g: StateTransferGraph<(), char>, s: VertexSet) returns (r: VertexSet)
    requires g.Valid() && |s| == |g.vertices|
    ensures |r| == |s| && Bits(r) == EpsClosure(g.edges, Bits(s))
  {
    ghost var bound := EpsClosure(g.edges, Bits(s));
    EpsClosureSpec(g.edges, Bits(s));
    r := s;
    var flag := true;
    while flag
      invariant |r| == |s| && Bits(s) <= Bits(r) <= bound
      invariant !flag ==> EpsClosed(g.edges, Bits(r))
      decreases |s| - Count(r), flag
    {
      r, flag := ClosurePass(g, r, bound);
    }
  }

  /** One `while flag` round of `epsilon_closure`: every member's ε-successors are added. */
  method ClosurePass(g: StateTransferGraph<(), char>, r0: VertexSet, ghost bound: set<nat>)
    returns (r: VertexSet, flag: bool)
    requires g.Valid() && |r0| == |g.vertices| && Bits(r0) <= bound && EpsClosed(g.edges, bound)
    ensures |r| == |r0| && Bits(r0) <= Bits(r) <= bound
    ensures flag ==> Count(r) > Count(r0)
    ensures !flag ==> r == r0 && EpsClosed(g.edges, Bits(r))
  {
    var es := g.edges;
    flag := false;
    r := r0;
    for i := 0 to |r0|
      invariant |r| == |r0| && Bits(r0) <= Bits(r) <= bound
      invariant flag ==> Count(r) > Count(r0)
      invariant !flag ==> r == r0
      invariant !flag ==> forall e :: 0 <= e < |es| && es[e].cost == EPS && es[e].inVertex < i && r[es[e].inVertex]
                            ==> r[es[e].outVertex]
    {
      if !r[i] {
        continue;
      }
      var r', added := ClosureFrom(g, r, i, bound);
      if added {
        flag := true;
      }
      r := r';
    }
  }

  /** The inner loop of a round: the ε-successors of member `i`. */
  method ClosureFrom(g: StateTransferGraph<(), char>, r0: VertexSet, i: nat, ghost bound: set<nat>)
    returns (r: VertexSet, added: bool)
    requires g.Valid() && |r0| == |g.vertices| && i < |r0| && r0[i]
    requires Bits(r0) <= bound && EpsClosed(g.edges, bound)
    ensures |r| == |r0| && Bits(r0) <= Bits(r) <= bound
    ensures added ==> Count(r) > Count(r0)
    ensures !added ==> r == r0
    ensures !added ==> forall e :: 0 <= e < |g.edges| && g.edges[e].cost == EPS && g.edges[e].inVertex == i
                          ==> r[g.edges[e].outVertex]
  {
    var es := g.edges;
    var out := g.vertices[i].outEdges;
    OutsSpec(es, i);
    r := r0;
    added := false;
    for k := 0 to |out|
      invariant |r| == |r0| && Bits(r0) <= Bits(r) <= bound
      invariant added ==> Count(r) > Count(r0)
      invariant !added ==> r == r0
      invariant !added ==> forall j :: 0 <= j < k && es[out[j]].cost == EPS ==> r[es[out[j]].outVertex]
    {
      var e := out[k];
      if es[e].cost == EPS {
        var v := es[e].outVertex;
        if !r[v] {
          assert i in Bits(r);
          CountSet(r, v);
          r := r[v := true];
          added := true;
        }
      }
    }
    if !added {
      forall e | 0 <= e < |es| && es[e].cost == EPS && es[e].inVertex == i
        ensures r[es[e].outVertex]
      {
        var j :| 0 <= j < |out| && out[j] == e;
      }
    }
  }

  /** `move_step` in `match_nfa`: the targets of every edge labelled `c` leaving the set. */
  method MoveStep(g: StateTransferGraph<(), char>, s: VertexSet, c: char) returns (r: VertexSet)
    requires g.Valid() && |s| == |g.vertices|
    ensures |r| == |s| && Bits(r) == MoveSet(g.edges, Bits(s), c)
  {
    var es := g.edges;
    r := NewSet(|s|);
    for i := 0 to |s|
      invariant |r| == |s|
      invariant forall v :: 0 <= v < |r| && r[v] ==> v in MoveSet(es, Bits(s), c)
      invariant forall e :: 0 <= e < |es| && es[e].inVertex < i && s[es[e].inVertex] && es[e].cost == c
                  ==> r[es[e].outVertex]
    {
      if !s[i] {
        continue;
      }
      var out := g.vertices[i].outEdges;
      OutsSpec(es, i);
      for k := 0 to |out|
        invariant |r| == |s|
        invariant forall v :: 0 <= v < |r| && r[v] ==> v in MoveSet(es, Bits(s), c)
        invariant forall e :: 0 <= e < |es| && es[e].inVertex < i && s[es[e].inVertex] && es[e].cost == c
                    ==> r[es[e].outVertex]
        invariant forall j :: 0 <= j < k && es[out[j]].cost == c ==> r[es[out[j]].outVertex]
      {
        var e := out[k];
        if es[e].cost == c {
          r := r[es[e].outVertex := true];
        }
      }
      forall e | 0 <= e < |es| && es[e].inVertex == i && es[e].cost == c
        ensures r[es[e].outVertex]
      {
        var j :| 0 <= j < |out| && out[j] == e;
      }
    }
  }

  /**
   * `match_nfa`: `Err` as soon as a move leaves no state, otherwise `Ok`
   * iff the final set meets `ends`, else `Unfinished`.
   */
  method MatchNfa(g: StateTransferGraph<(), char>, tokens: seq<char>) returns (r: MatchResult)
    requires g.Valid() && g.start < |g.vertices|
    ensures r == MatchNfaSpec(g.edges, g.start, g.ends, tokens)
  {
    var es := g.edges;
    var state := NewSet(|g.vertices|);
    state := state[g.start := true];
    assert Bits(state) == {g.start};
    state := EpsilonClosure(g, state);
    for k := 0 to |tokens|
      invariant |state| == |g.vertices|
      invariant NfaRun(es, EpsClosure(es, {g.start}), tokens) == NfaRun(es, Bits(state), tokens[k..])
    {
      assert tokens[k..][0] == tokens[k] && tokens[k..][1..] == tokens[k + 1..];
      state := MoveStep(g, state, tokens[k]);
      if true !in state {
        assert Bits(state) == {};
        return MatchResult.Err;
      }
      ghost var v :| 0 <= v < |state| && state[v];
      assert v in Bits(state);
    }
    assert tokens[|tokens|..] == [];
    if exists i :: 0 <= i < |state| && state[i] && i in g.ends {
      return MatchResult.Ok;
    }
    return Unfinished;
  }

  /**
   * The run `match_nfa` evidently intends: the ε-closure is taken after
   * every move as well as at the start, so ε-edges out of a state reached
   * by a token are followed.
   */
  ghost function ClosedRun(es: seq<Edge<char>>, s: set<nat>, w: seq<char>): Option<set<nat>>
    decreases |w|
  {
    if |w| == 0 then Some(s)
    else
      var next := EpsClosure(es, MoveSet(es, s, w[0]));
      if next == {} then None else ClosedRun(es, next, w[1..])
  }

  ghost function MatchClosedSpec(es: seq<Edge<char>>, start: nat, ends: seq<nat>, w: seq<char>): MatchResult
  {
    match ClosedRun(es, EpsClosure(es, {start}), w)
    case None => MatchResult.Err
    case Some(s) => if exists q :: q in s && q in ends then MatchResult.Ok else Unfinished
  }

  /** `match_nfa` with the ε-closure taken after each move, as `nfa_to_dfa` does. */
  method MatchNfaClosed(g: StateTransferGraph<(), char>, tokens: seq<char>) returns (r: MatchResult)
    requires g.Valid() && g.start < |g.vertices|
    ensures r == MatchClosedSpec(g.edges, g.start, g.ends, tokens)
  {
    var es := g.edges;
    var state := NewSet(|g.vertices|);
    state := state[g.start := true];
    assert Bits(state) == {g.start};
    state := EpsilonClosure(g, state);
    for k := 0 to |tokens|
      invariant |state| == |g.vertices|
      invariant ClosedRun(es, EpsClosure(es, {g.start}), tokens) == ClosedRun(es, Bits(state), tokens[k..])
    {
      assert tokens[k..][0] == tokens[k] && tokens[k..][1..] == tokens[k + 1..];
      state := MoveStep(g, state, tokens[k]);
      state := EpsilonClosure(g, state);
      if true !in state {
        assert Bits(state) == {};
        return MatchResult.Err;
      }
      ghost var v :| 0 <= v < |state| && state[v];
      assert v in Bits(state);
    }
    assert tokens[|tokens|..] == [];
    if exists i :: 0 <= i < |state| && state[i] && i in g.ends {
      return MatchResult.Ok;
    }
    return Unfinished;
  }

  /** The automaton Thompson's construction builds for `a*`. */
  lemma StarShape()
    ensures Thompson(Iteration(Atomic('a'))) ==
      Nfa(4, [Edge(0, 1, EPS), Edge(1, 2, 'a'), Edge(2, 3, EPS), Edge(2, 1, EPS), Edge(0, 3, EPS)], 3)
  {
    var inner := Splice(2, [Edge(0, 1, EPS)], 1, Thompson(Atomic('a')));
    assert inner == Nfa(3, [Edge(0, 1, EPS), Edge(1, 2, 'a')], 2);
  }

  /** The edges of `a*`'s automaton. */
  function StarEdges(): seq<Edge<char>>
  {
    [Edge(0, 1, EPS), Edge(1, 2, 'a'), Edge(2, 3, EPS), Edge(2, 1, EPS), Edge(0, 3, EPS)]
  }

  /** From the start's closure, 'a' moves to state 2 alone. */
  lemma StarMove()
    ensures MoveSet(StarEdges(), EpsClosure(StarEdges(), {0}), 'a') == {2}
  {
    var es := StarEdges();
    var c0 := EpsClosure(es, {0});
    EpsClosureSpec(es, {0});
    assert es[0].cost == EPS && es[0].inVertex == 0;
    assert 1 in c0;
    assert es[1].inVertex in c0 && es[1].cost == 'a';
    var m := MoveSet(es, c0, 'a');
    assert 2 in m;
    forall x | x in m ensures x == 2 {
      var i :| 0 <= i < |es| && es[i].inVertex in c0 && es[i].cost == 'a' && es[i].outVertex == x;
      assert i == 1;
    }
  }

  /** The closure of state 2 reaches the end state 3. */
  lemma StarClosure()
    ensures 3 in EpsClosure(StarEdges(), {2})
  {
    var es := StarEdges();
    EpsClosureSpec(es, {2});
    assert es[2].cost == EPS && es[2].inVertex == 2 && es[2].outVertex == 3;
  }

  /**
   * `match_nfa` rejects "a" for `a*` as written: after the move on 'a' it
   * holds only state 2, whose ε-edge to the end state 3 is never taken.
   * The run with closures ends in a set holding 3.
   */
  lemma StarCounterexample()
    ensures MatchNfaSpec(Thompson(Iteration(Atomic('a'))).edges, 0, [3], "a") == Unfinished
    ensures MatchClosedSpec(Thompson(Iteration(Atomic('a'))).edges, 0, [3], "a") == MatchResult.Ok
  {
    StarShape();
    var es := StarEdges();
    assert Thompson(Iteration(Atomic('a'))).edges == es;
    StarMove();
    StarClosure();
    assert "a"[0] == 'a' && "a"[1..] == [];
    var c0 := EpsClosure(es, {0});
    assert NfaRun(es, c0, "a") == NfaRun(es, {2}, []);
    var c1 := EpsClosure(es, {2});
    assert c1 != {};
    assert ClosedRun(es, c0, "a") == ClosedRun(es, c1, []);
  }
}
