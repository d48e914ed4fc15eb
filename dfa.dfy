/**
 * The automaton constructions of src/lexer/dfa.rs: `construct_dfa` (the
 * direct construction from followpos), `nfa_to_dfa` (the subset
 * construction), `minimize_dfa` and the matcher `match_dfa`.
 *
 * Both constructions run the same worklist: a set of positions or NFA
 * states is numbered the first time it is reached, pushed on `stack`, and
 * given one transition per character of `charmap` with a non-empty target
 * set when it is popped. They differ only in how the target set is
 * computed, which the specification below takes as the function `step`.
 */
module Dfa {
  import opened Wrappers
  import opened Utils
  import opened Graph
  import opened Automaton
  import Re
  import Nfa
  import opened Followpos

  // ---------------------------------------------------------------------------
  // The finite universe of flag vectors
  // ---------------------------------------------------------------------------

  /** Every flag vector of length n. */
  ghost function AllFlags(n: nat): set<VertexSet>
  {
    if n == 0 then {[]} else set s, b | s in AllFlags(n - 1) && b in {false, true} :: s + [b]
  }

  lemma {:induction false} AllFlagsSpec(n: nat, s: VertexSet)
    requires |s| == n
    ensures s in AllFlags(n)
    decreases n
  {
    if n > 0 {
      AllFlagsSpec(n - 1, s[..n - 1]);
      assert s[n - 1] in {false, true};
      assert s == s[..n - 1] + [s[n - 1]];
    }
  }

  lemma {:induction false} SubsetCard<X>(a: set<X>, b: set<X>)
    requires a <= b
    ensures |a| <= |b|
  {
    if a != {} {
      var x :| x in a;
      SubsetCard(a - {x}, b - {x});
    }
  }

  lemma {:induction false} DistinctCard<X>(s: seq<X>)
    requires Distinct(s)
    ensures |set x | x in s| == |s|
  {
    if |s| > 0 {
      var init := s[..|s| - 1];
      DistinctCard(init);
      assert (set x | x in s) == (set x | x in init) + {s[|s| - 1]};
    }
  }

  /** No element of `s` occurs twice. */
  predicate Distinct<X(==)>(s: seq<X>)
  {
    forall i, j :: 0 <= i < j < |s| ==> s[i] != s[j]
  }

  /** Distinct flag vectors of length n are at most as many as all of them. */
  lemma UniverseBound(sets: seq<VertexSet>, n: nat)
    requires Distinct(sets) && forall q :: 0 <= q < |sets| ==> |sets[q]| == n
    ensures |sets| <= |AllFlags(n)|
  {
    DistinctCard(sets);
    forall x | x in sets ensures x in AllFlags(n) {
      AllFlagsSpec(n, x);
    }
    var elems := set x | x in sets;
    SubsetCard(elems, AllFlags(n));
  }

  /** The flags of the members of `s` below n. */
  function Flags(s: set<nat>, n: nat): (r: VertexSet)
    ensures |r| == n && forall i :: 0 <= i < n ==> (r[i] <==> i in s)
  {
    seq(n, i => i in s)
  }

  /** A flag vector of length n is the flag vector of its own members. */
  lemma FlagsOfBits(r: VertexSet, s: set<nat>)
    requires Bits(r) == s
    ensures r == Flags(s, |r|)
  {
  }

  // ---------------------------------------------------------------------------
  // The worklist
  // ---------------------------------------------------------------------------

  /** `states` numbers every set, and `sets` lists them by number. */
  ghost predicate Numbered(states: map<VertexSet, nat>, sets: seq<VertexSet>, n: nat)
  {
    && (forall q :: 0 <= q < |sets| ==> sets[q] in states && states[sets[q]] == q && |sets[q]| == n)
    && (forall S :: S in states ==> states[S] < |sets| && sets[states[S]] == S)
  }

  /**
   * State q's transition on c once the characters `toks` have been
   * processed for it: to the number of the target set A when c was
   * processed and A is non-empty, and nowhere otherwise.
   */
  ghost predicate Linked(es: seq<Edge<char>>, q: nat, c: char, A: VertexSet, states: map<VertexSet, nat>, toks: seq<char>)
  {
    if c in toks && true in A then A in states && Step(es, q, c) == Some(states[A])
    else Step(es, q, c) == None
  }

  /** No state has two out-edges with the same label. */
  predicate Deterministic(es: seq<Edge<char>>)
  {
    forall i, j :: 0 <= i < j < |es| && es[i].inVertex == es[j].inVertex ==> es[i].cost != es[j].cost
  }

  /**
   * The worklist invariant on the automaton's edges and accepting list.
   * Sets on the stack have no edges yet; every other set has its
   * transitions for all of `charmap`, except the set `cur` being expanded,
   * which has them for the prefix `toks`.
   */
  ghost predicate Pending(es: seq<Edge<char>>, ends: seq<nat>, states: map<VertexSet, nat>, sets: seq<VertexSet>,
                          stack: seq<VertexSet>, n: nat, mark: nat, charmap: seq<char>,
                          step: (VertexSet, char) -> set<nat>, cur: nat, toks: seq<char>)
  {
    && mark < n && cur < |sets| && EdgesInRange(es, |sets|)
    && Numbered(states, sets, n)
    && (forall q :: 0 <= q < |sets| ==> (q in ends <==> sets[q][mark]))
    && (forall q :: q in ends ==> q < |sets|)
    && (forall i :: 0 <= i < |stack| ==> stack[i] in states)
    && Distinct(stack)
    && (forall q :: 0 <= q < |sets| && sets[q] in stack ==> Outs(es, q) == [])
    && (forall q, c :: 0 <= q < |sets| && sets[q] !in stack ==>
          Linked(es, q, c, Flags(step(sets[q], c), n), states, if q == cur then toks else charmap))
    && (forall e :: 0 <= e < |es| ==> es[e].cost in charmap)
    && (forall e :: 0 <= e < |es| && es[e].inVertex == cur ==> es[e].cost in toks)
    && (Distinct(charmap) ==> Deterministic(es))
  }

  /** The worklist invariant on the automaton under construction: state q is set `sets[q]`. */
  ghost predicate Worklist(g: StateTransferGraph<(), char>, states: map<VertexSet, nat>, sets: seq<VertexSet>,
                           stack: seq<VertexSet>, n: nat, mark: nat, charmap: seq<char>,
                           step: (VertexSet, char) -> set<nat>, cur: nat, toks: seq<char>)
    reads g
  {
    g.Valid() && |g.vertices| == |sets| && g.start == 0
    && Pending(g.edges, g.ends, states, sets, stack, n, mark, charmap, step, cur, toks)
  }

  /** Popping set S starts its expansion with no character processed. */
  lemma BeginExpand(es: seq<Edge<char>>, ends: seq<nat>, states: map<VertexSet, nat>, sets: seq<VertexSet>,
                    stack: seq<VertexSet>, S: VertexSet, n: nat, mark: nat, charmap: seq<char>,
                    step: (VertexSet, char) -> set<nat>, cur: nat)
    requires Pending(es, ends, states, sets, stack + [S], n, mark, charmap, step, cur, charmap)
    ensures S in states && states[S] < |sets| && sets[states[S]] == S && S !in stack
    ensures Pending(es, ends, states, sets, stack, n, mark, charmap, step, states[S], [])
  {
    var stack0 := stack + [S];
    assert stack0[|stack|] == S;
    var q := states[S];
    forall i | 0 <= i < |stack| ensures stack[i] != S {
      assert stack[i] == stack0[i];
    }
    forall i | 0 <= i < |stack| ensures stack[i] in states {
      assert stack[i] == stack0[i];
    }
    forall i, j | 0 <= i < j < |stack| ensures stack[i] != stack[j] {
      assert stack[i] == stack0[i] && stack[j] == stack0[j];
    }
    forall p | 0 <= p < |sets| && sets[p] in stack ensures Outs(es, p) == [] {
      var i :| 0 <= i < |stack| && stack[i] == sets[p];
      assert stack0[i] == sets[p];
    }
    assert sets[q] in stack0;
    OutsSpec(es, q);
    forall c ensures Step(es, q, c) == None {
      FirstTargetSpec(es, Outs(es, q), c);
    }
  }

  /** When every character has been processed, the expanded set is like any other. */
  lemma EndExpand(g: StateTransferGraph<(), char>, states: map<VertexSet, nat>, sets: seq<VertexSet>,
                  stack: seq<VertexSet>, n: nat, mark: nat, charmap: seq<char>,
                  step: (VertexSet, char) -> set<nat>, cur: nat)
    requires Worklist(g, states, sets, stack, n, mark, charmap, step, cur, charmap[..|charmap|])
    ensures Worklist(g, states, sets, stack, n, mark, charmap, step, 0, charmap)
  {
    assert charmap[..|charmap|] == charmap;
  }

  /** A character whose target set is empty gets no transition. */
  lemma SkipToken(es: seq<Edge<char>>, ends: seq<nat>, states: map<VertexSet, nat>, sets: seq<VertexSet>,
                  stack: seq<VertexSet>, n: nat, mark: nat, charmap: seq<char>,
                  step: (VertexSet, char) -> set<nat>, cur: nat, k: nat)
    requires k < |charmap| && Pending(es, ends, states, sets, stack, n, mark, charmap, step, cur, charmap[..k])
    requires true !in Flags(step(sets[cur], charmap[k]), n)
    ensures Pending(es, ends, states, sets, stack, n, mark, charmap, step, cur, charmap[..k + 1])
  {
    assert charmap[..k + 1] == charmap[..k] + [charmap[k]];
  }

  /**
   * The shared tail of both token loops: the non-empty target set `ahead`
   * gets a new number (and is pushed, and marked accepting when it holds
   * `mark`) unless it has one, and `state` gets an edge to it.
   */
  method Link(g: StateTransferGraph<(), char>, states0: map<VertexSet, nat>, stack0: seq<VertexSet>,
              ghost sets0: seq<VertexSet>, state: nat, ahead: VertexSet, token: char, mark: nat,
              ghost n: nat, ghost charmap: seq<char>, ghost step: (VertexSet, char) -> set<nat>, ghost k: nat)
    returns (states: map<VertexSet, nat>, stack: seq<VertexSet>, ghost sets: seq<VertexSet>)
    requires k < |charmap| && token == charmap[k]
    requires Worklist(g, states0, sets0, stack0, n, mark, charmap, step, state, charmap[..k])
    requires sets0[state] !in stack0
    requires ahead == Flags(step(sets0[state], token), n) && true in ahead
    modifies g
    ensures Worklist(g, states, sets, stack, n, mark, charmap, step, state, charmap[..k + 1])
    ensures |sets| >= |sets0| && sets[..|sets0|] == sets0 && sets[state] !in stack
    ensures |stack| == |stack0| + (|sets| - |sets0|)
  {
    ghost var es0, ends0 := g.edges, g.ends;
    var rhs: nat;
    if ahead in states0 {
      rhs := states0[ahead];
      states, stack, sets := states0, stack0, sets0;
    } else {
      rhs := g.AddState();
      states := states0[ahead := rhs];
      sets := sets0 + [ahead];
      stack := stack0 + [ahead];
      if ahead[mark] {
        g.MarkAsEnd(rhs);
      }
    }
    LinkFacts(states0, sets0, stack0, states, sets, stack, n, ahead, rhs);
    var _ := g.AddTransfer(state, rhs, token);
    LinkPending(es0, ends0, g.ends, states0, sets0, stack0, states, sets, stack, n, mark, charmap, step, state, k, ahead, rhs);
  }

  /** One pass of either token loop: `Link` when the target set is non-empty, nothing otherwise. */
  method LinkOrSkip(g: StateTransferGraph<(), char>, states0: map<VertexSet, nat>, stack0: seq<VertexSet>,
                    ghost sets0: seq<VertexSet>, state: nat, ahead: VertexSet, token: char, mark: nat,
                    ghost n: nat, ghost charmap: seq<char>, ghost step: (VertexSet, char) -> set<nat>, ghost k: nat)
    returns (states: map<VertexSet, nat>, stack: seq<VertexSet>, ghost sets: seq<VertexSet>)
    requires k < |charmap| && token == charmap[k]
    requires Worklist(g, states0, sets0, stack0, n, mark, charmap, step, state, charmap[..k])
    requires sets0[state] !in stack0
    requires ahead == Flags(step(sets0[state], token), n)
    modifies g
    ensures Worklist(g, states, sets, stack, n, mark, charmap, step, state, charmap[..k + 1])
    ensures |sets| >= |sets0| && sets[..|sets0|] == sets0 && sets[state] == sets0[state] && sets[state] !in stack
    ensures |stack| == |stack0| + (|sets| - |sets0|)
  {
    if true in ahead {
      states, stack, sets := Link(g, states0, stack0, sets0, state, ahead, token, mark, n, charmap, step, k);
      assert sets[state] == sets[..|sets0|][state];
    } else {
      states, stack, sets := states0, stack0, sets0;
      SkipToken(g.edges, g.ends, states, sets, stack, n, mark, charmap, step, state, k);
    }
  }

  /** The bookkeeping of `Link`: the numbering and the stack after the lookup. */
  lemma LinkFacts(states0: map<VertexSet, nat>, sets0: seq<VertexSet>, stack0: seq<VertexSet>,
                  states: map<VertexSet, nat>, sets: seq<VertexSet>, stack: seq<VertexSet>,
                  n: nat, ahead: VertexSet, rhs: nat)
    requires Numbered(states0, sets0, n) && |ahead| == n
    requires (ahead in states0 && rhs == states0[ahead] && states == states0 && sets == sets0 && stack == stack0)
          || (ahead !in states0 && rhs == |sets0| && states == states0[ahead := rhs] && sets == sets0 + [ahead]
              && stack == stack0 + [ahead])
    requires forall i :: 0 <= i < |stack0| ==> stack0[i] in states0
    requires Distinct(stack0)
    ensures Numbered(states, sets, n) && rhs < |sets| && ahead in states && states[ahead] == rhs
    ensures forall i :: 0 <= i < |stack| ==> stack[i] in states
    ensures Distinct(stack)
    ensures forall S :: S in states0 ==> S in states && states[S] == states0[S]
    ensures forall q :: 0 <= q < |sets0| ==> sets[q] == sets0[q] && (sets[q] in stack <==> sets0[q] in stack0)
    ensures forall q :: |sets0| <= q < |sets| ==> q == rhs && sets[q] in stack
  {
    if ahead !in states0 {
      assert stack[|stack0|] == ahead;
      forall q | 0 <= q < |sets0| ensures sets[q] == sets0[q] && (sets[q] in stack <==> sets0[q] in stack0) {
        assert sets[q] == sets0[q] != ahead;
      }
    }
  }

  /** `Link` keeps the worklist invariant, with `charmap[k]` now processed for `state`. */
  lemma LinkPending(es0: seq<Edge<char>>, ends0: seq<nat>, ends: seq<nat>, states0: map<VertexSet, nat>,
                    sets0: seq<VertexSet>, stack0: seq<VertexSet>, states: map<VertexSet, nat>,
                    sets: seq<VertexSet>, stack: seq<VertexSet>, n: nat, mark: nat, charmap: seq<char>,
                    step: (VertexSet, char) -> set<nat>, state: nat, k: nat, ahead: VertexSet, rhs: nat)
    requires k < |charmap| && Pending(es0, ends0, states0, sets0, stack0, n, mark, charmap, step, state, charmap[..k])
    requires sets0[state] !in stack0
    requires ahead == Flags(step(sets0[state], charmap[k]), n) && true in ahead
    requires (ahead in states0 && rhs == states0[ahead] && states == states0 && sets == sets0 && stack == stack0
              && ends == ends0)
          || (ahead !in states0 && rhs == |sets0| && states == states0[ahead := rhs] && sets == sets0 + [ahead]
              && stack == stack0 + [ahead] && ends == if ahead[mark] then MarkEnd(ends0, rhs) else ends0)
    requires Numbered(states, sets, n) && rhs < |sets| && ahead in states && states[ahead] == rhs
    requires forall i :: 0 <= i < |stack| ==> stack[i] in states
    requires Distinct(stack)
    requires forall S :: S in states0 ==> S in states && states[S] == states0[S]
    requires forall q :: 0 <= q < |sets0| ==> sets[q] == sets0[q] && (sets[q] in stack <==> sets0[q] in stack0)
    requires forall q :: |sets0| <= q < |sets| ==> q == rhs && sets[q] in stack
    ensures Pending(es0 + [Edge(state, rhs, charmap[k])], ends, states, sets, stack, n, mark, charmap, step, state, charmap[..k + 1])
  {
    var e := Edge(state, rhs, charmap[k]);
    var es := es0 + [e];
    if ahead !in states0 {
      NoEdgesAt(es0, rhs);
      MarkEndSpec(ends0, rhs);
    }
    LinkEnds(ends0, ends, sets0, sets, mark, ahead, rhs);
    LinkRenumber(es0, states0, sets0, stack0, states, sets, stack, n, charmap, step, state, k);
    LinkStep(es0, e, states, sets, stack, n, charmap, step, state, k, ahead);
    LinkStack(es0, e, sets, stack, state);
    LinkCosts(es0, e, charmap, state, k);
  }

  /** The accepting list after `Link`: state q is accepting exactly when its set holds `mark`. */
  lemma LinkEnds(ends0: seq<nat>, ends: seq<nat>, sets0: seq<VertexSet>, sets: seq<VertexSet>, mark: nat,
                 ahead: VertexSet, rhs: nat)
    requires forall q :: 0 <= q < |sets0| ==> mark < |sets0[q]| && (q in ends0 <==> sets0[q][mark])
    requires forall q :: q in ends0 ==> q < |sets0|
    requires (sets == sets0 && ends == ends0)
          || (rhs == |sets0| && sets == sets0 + [ahead] && mark < |ahead|
              && forall s :: s in ends <==> s in ends0 || (ahead[mark] && s == rhs))
    ensures forall q :: 0 <= q < |sets| ==> (q in ends <==> sets[q][mark])
    ensures forall q :: q in ends ==> q < |sets|
  {
    if sets != sets0 {
      forall q | 0 <= q < |sets| ensures q in ends <==> sets[q][mark] {
        if q < |sets0| {
          assert sets[q] == sets0[q];
        } else {
          assert sets[q] == ahead;
        }
      }
    }
  }

  /** Numbering a new set keeps the transitions already recorded. */
  lemma LinkRenumber(es0: seq<Edge<char>>, states0: map<VertexSet, nat>, sets0: seq<VertexSet>, stack0: seq<VertexSet>,
                     states: map<VertexSet, nat>, sets: seq<VertexSet>, stack: seq<VertexSet>, n: nat,
                     charmap: seq<char>, step: (VertexSet, char) -> set<nat>, state: nat, k: nat)
    requires k < |charmap| && |sets0| <= |sets|
    requires forall q, c :: 0 <= q < |sets0| && sets0[q] !in stack0 ==>
               Linked(es0, q, c, Flags(step(sets0[q], c), n), states0, if q == state then charmap[..k] else charmap)
    requires forall S :: S in states0 ==> S in states && states[S] == states0[S]
    requires forall q :: 0 <= q < |sets0| ==> sets[q] == sets0[q] && (sets[q] in stack <==> sets0[q] in stack0)
    requires forall q :: |sets0| <= q < |sets| ==> sets[q] in stack
    ensures forall q, c :: 0 <= q < |sets| && sets[q] !in stack ==>
              Linked(es0, q, c, Flags(step(sets[q], c), n), states, if q == state then charmap[..k] else charmap)
  {
    forall q, c | 0 <= q < |sets| && sets[q] !in stack
      ensures Linked(es0, q, c, Flags(step(sets[q], c), n), states, if q == state then charmap[..k] else charmap)
    {
      assert q < |sets0| && sets[q] == sets0[q];
      assert Linked(es0, q, c, Flags(step(sets0[q], c), n), states0, if q == state then charmap[..k] else charmap);
    }
  }

  /** The new edge fixes `state`'s step on `charmap[k]` and no other step. */
  lemma LinkStep(es0: seq<Edge<char>>, e: Edge<char>, states: map<VertexSet, nat>, sets: seq<VertexSet>,
                 stack: seq<VertexSet>, n: nat, charmap: seq<char>, step: (VertexSet, char) -> set<nat>,
                 state: nat, k: nat, ahead: VertexSet)
    requires k < |charmap| && ahead in states && e == Edge(state, states[ahead], charmap[k])
    requires state < |sets| && sets[state] !in stack
    requires ahead == Flags(step(sets[state], charmap[k]), n) && true in ahead
    requires forall q, c :: 0 <= q < |sets| && sets[q] !in stack ==>
               Linked(es0, q, c, Flags(step(sets[q], c), n), states, if q == state then charmap[..k] else charmap)
    ensures forall q, c :: 0 <= q < |sets| && sets[q] !in stack ==>
              Linked(es0 + [e], q, c, Flags(step(sets[q], c), n), states, if q == state then charmap[..k + 1] else charmap)
  {
    var c0 := charmap[k];
    assert charmap[..k + 1] == charmap[..k] + [c0];
    forall q, c | 0 <= q < |sets| && sets[q] !in stack
      ensures Linked(es0 + [e], q, c, Flags(step(sets[q], c), n), states, if q == state then charmap[..k + 1] else charmap)
    {
      StepAppend(es0, e, q, c);
      assert Linked(es0, q, c, Flags(step(sets[q], c), n), states, if q == state then charmap[..k] else charmap);
    }
  }

  /** Sets still on the stack get no edge. */
  lemma LinkStack(es0: seq<Edge<char>>, e: Edge<char>, sets: seq<VertexSet>, stack: seq<VertexSet>, state: nat)
    requires e.inVertex == state && state < |sets| && sets[state] !in stack
    requires forall q :: 0 <= q < |sets| && sets[q] in stack ==> Outs(es0, q) == []
    ensures forall q :: 0 <= q < |sets| && sets[q] in stack ==> Outs(es0 + [e], q) == []
  {
    forall q | 0 <= q < |sets| && sets[q] in stack ensures Outs(es0 + [e], q) == [] {
      OutsInsAppend(es0, e, q);
    }
  }

  /** The new edge's label is the next character of `charmap`, so labels stay distinct per state. */
  lemma LinkCosts(es0: seq<Edge<char>>, e: Edge<char>, charmap: seq<char>, state: nat, k: nat)
    requires k < |charmap| && e.inVertex == state && e.cost == charmap[k]
    requires forall i :: 0 <= i < |es0| ==> es0[i].cost in charmap
    requires forall i :: 0 <= i < |es0| && es0[i].inVertex == state ==> es0[i].cost in charmap[..k]
    requires Distinct(charmap) ==> Deterministic(es0)
    ensures forall i :: 0 <= i < |es0 + [e]| ==> (es0 + [e])[i].cost in charmap
    ensures forall i :: 0 <= i < |es0 + [e]| && (es0 + [e])[i].inVertex == state ==> (es0 + [e])[i].cost in charmap[..k + 1]
    ensures Distinct(charmap) ==> Deterministic(es0 + [e])
  {
    var es := es0 + [e];
    assert charmap[..k + 1] == charmap[..k] + [charmap[k]];
    if Distinct(charmap) {
      forall i, j | 0 <= i < j < |es| && es[i].inVertex == es[j].inVertex ensures es[i].cost != es[j].cost {
        if j == |es0| {
          assert es[i] == es0[i] && es[i].cost in charmap[..k];
          var t :| 0 <= t < k && charmap[t] == es[i].cost;
        }
      }
    }
  }

  /** Numbered sets are distinct. */
  lemma NumberedDistinct(states: map<VertexSet, nat>, sets: seq<VertexSet>, n: nat)
    requires Numbered(states, sets, n)
    ensures Distinct(sets) && forall q :: 0 <= q < |sets| ==> |sets[q]| == n
  {
    forall i, j | 0 <= i < j < |sets| ensures sets[i] != sets[j] {
      assert states[sets[i]] == i && states[sets[j]] == j;
    }
  }

  /** The worklist before the first pop: state 0 is the start set, on the stack. */
  lemma StartPending(first: VertexSet, ends: seq<nat>, n: nat, mark: nat, charmap: seq<char>,
                     step: (VertexSet, char) -> set<nat>)
    requires |first| == n && mark < n
    requires forall s :: s in ends <==> first[mark] && s == 0
    ensures Pending([], ends, map[first := 0], [first], [first], n, mark, charmap, step, 0, charmap)
  {
  }

  /** Numbered sets are distinct sets of n flags, so there are no more of them than such sets. */
  lemma PendingBound(es: seq<Edge<char>>, ends: seq<nat>, states: map<VertexSet, nat>, sets: seq<VertexSet>,
                     stack: seq<VertexSet>, n: nat, mark: nat, charmap: seq<char>,
                     step: (VertexSet, char) -> set<nat>, cur: nat, toks: seq<char>)
    requires Pending(es, ends, states, sets, stack, n, mark, charmap, step, cur, toks)
    ensures |sets| <= |AllFlags(n)|
  {
    NumberedDistinct(states, sets, n);
    UniverseBound(sets, n);
  }

  /** The worklist after its last pop is the finished automaton. */
  lemma Finished(es: seq<Edge<char>>, ends: seq<nat>, states: map<VertexSet, nat>, sets: seq<VertexSet>,
                 n: nat, mark: nat, charmap: seq<char>, step: (VertexSet, char) -> set<nat>)
    requires Pending(es, ends, states, sets, [], n, mark, charmap, step, 0, charmap)
    ensures Distinct(sets)
    ensures forall q, c :: 0 <= q < |sets| ==> Settled(es, sets, q, c, n, charmap, step)
  {
    NumberedDistinct(states, sets, n);
    forall q, c | 0 <= q < |sets| ensures Settled(es, sets, q, c, n, charmap, step) {
      assert Linked(es, q, c, Flags(step(sets[q], c), n), states, charmap);
      if c in charmap && true in Flags(step(sets[q], c), n) {
        var r := states[Flags(step(sets[q], c), n)];
        assert sets[r] == Flags(step(sets[q], c), n);
      }
    }
  }

  /**
   * State q's transition on c in the finished automaton: to the state
   * whose set is the target set of q's set, when c is in `charmap` and
   * that target is non-empty, and nowhere otherwise.
   */
  ghost predicate Settled(es: seq<Edge<char>>, sets: seq<VertexSet>, q: nat, c: char, n: nat, charmap: seq<char>,
                          step: (VertexSet, char) -> set<nat>)
    requires q < |sets|
  {
    if c in charmap && true in Flags(step(sets[q], c), n)
    then exists r :: 0 <= r < |sets| && sets[r] == Flags(step(sets[q], c), n) && Step(es, q, c) == Some(r)
    else Step(es, q, c) == None
  }

  /**
   * What both constructions deliver: state q of `g` is the set `sets[q]`
   * of n flags, the start is state 0, the sets are distinct, a state
   * accepts exactly when its set holds `mark`, and every transition is
   * `Settled`.
   */
  ghost predicate SubsetDfa(g: StateTransferGraph<(), char>, sets: seq<VertexSet>, n: nat, mark: nat,
                            charmap: seq<char>, step: (VertexSet, char) -> set<nat>)
    reads g
  {
    && g.Valid() && |g.vertices| == |sets| && 0 < |sets| && g.start == 0 && Distinct(sets) && mark < n
    && (forall q :: 0 <= q < |sets| ==> |sets[q]| == n && (q in g.ends <==> sets[q][mark]))
    && (forall q, c :: 0 <= q < |sets| ==> Settled(g.edges, sets, q, c, n, charmap, step))
    && (Distinct(charmap) ==> Deterministic(g.edges))
  }

  /** An empty stack leaves the automaton a `SubsetDfa`. */
  lemma Done(g: StateTransferGraph<(), char>, states: map<VertexSet, nat>, sets: seq<VertexSet>,
             n: nat, mark: nat, charmap: seq<char>, step: (VertexSet, char) -> set<nat>)
    requires Worklist(g, states, sets, [], n, mark, charmap, step, 0, charmap)
    ensures SubsetDfa(g, sets, n, mark, charmap, step)
  {
    Finished(g.edges, g.ends, states, sets, n, mark, charmap, step);
  }

  /**
   * The start of both constructions: a fresh automaton whose state 0 is
   * the start set `first`, accepting when `first` holds `mark`, and the
   * stack holding `first` alone.
   */
  method StartWorklist(first: VertexSet, mark: nat, ghost n: nat, ghost charmap: seq<char>,
                       ghost step: (VertexSet, char) -> set<nat>)
    returns (g: StateTransferGraph<(), char>, states: map<VertexSet, nat>, stack: seq<VertexSet>, ghost sets: seq<VertexSet>)
    requires |first| == n && mark < n
    ensures fresh(g)
    ensures Worklist(g, states, sets, stack, n, mark, charmap, step, 0, charmap)
    ensures sets == [first] && stack == [first]
  {
    g := new StateTransferGraph<(), char>(());
    var start := g.AddState();
    g.MarkAsStart(start);
    if first[mark] {
      g.MarkAsEnd(start);
    }
    states := map[first := start];
    stack := [first];
    sets := [first];
    StartPending(first, g.ends, n, mark, charmap, step);
  }

  // ---------------------------------------------------------------------------
  // construct_dfa
  // ---------------------------------------------------------------------------

  /** The positions that follow a position of S labelled c, joined position by position. */
  ghost function FollowSet(fp: seq<VertexSet>, pm: seq<char>, S: VertexSet, c: char): set<nat>
    decreases |S|
  {
    if |S| == 0 then {}
    else
      var i := |S| - 1;
      FollowSet(fp, pm, S[..i], c) + if i < |pm| && i < |fp| && S[i] && pm[i] == c then Bits(fp[i]) else {}
  }

  /** `FollowSet` is the union of the followpos rows of S's positions labelled c. */
  lemma {:induction false} FollowSetSpec(fp: seq<VertexSet>, pm: seq<char>, S: VertexSet, c: char, y: nat)
    ensures y in FollowSet(fp, pm, S, c)
        <==> exists i :: 0 <= i < |S| && i < |pm| && i < |fp| && S[i] && pm[i] == c && y in Bits(fp[i])
    decreases |S|
  {
    if |S| > 0 {
      var i := |S| - 1;
      var prefix := S[..i];
      FollowSetSpec(fp, pm, prefix, c, y);
      assert forall j :: 0 <= j < i ==> prefix[j] == S[j];
    }
  }

  ghost function FollowStep(p: Positions): (VertexSet, char) -> set<nat>
  {
    (S, c) => FollowSet(p.followpos, p.posmap, S, c)
  }

  lemma FollowSetStep(fp: seq<VertexSet>, pm: seq<char>, S: VertexSet, i: nat, c: char)
    requires i < |S| && i < |pm| && i < |fp|
    ensures FollowSet(fp, pm, S[..i + 1], c)
         == FollowSet(fp, pm, S[..i], c) + if S[i] && pm[i] == c then Bits(fp[i]) else {}
  {
    assert S[..i + 1][..i] == S[..i];
  }

  /** The `ahead` loop of `construct_dfa`: the followpos rows of S's positions labelled `token`, joined. */
  method Advance(fp: seq<VertexSet>, pm: seq<char>, S: VertexSet, token: char) returns (ahead: VertexSet)
    requires Square(fp) && |pm| == |fp| && |S| == |fp|
    ensures ahead == Flags(FollowSet(fp, pm, S, token), |fp|)
  {
    ahead := NewSet(|fp|);
    for i := 0 to |S|
      invariant |ahead| == |fp| && Bits(ahead) == FollowSet(fp, pm, S[..i], token)
    {
      FollowSetStep(fp, pm, S, i, token);
      if S[i] && pm[i] == token {
        CupBits(ahead, fp[i]);
        ahead := CupSet(ahead, fp[i]);
      }
    }
    assert S[..|S|] == S;
    FlagsOfBits(ahead, FollowSet(fp, pm, S, token));
  }

  /** The regular expression `construct_dfa` works on: `re` followed by the end marker `$`. */
  function Marked(re: Re.RegularExpression): (r: Re.RegularExpression)
    ensures DfaReady(re) ==> DfaReady(r)
  {
    Re.Concatenation([re, Re.Atomic('$')])
  }

  /** The positions and summary `downward` leaves for `Marked(re)`. */
  function Annotated(re: Re.RegularExpression): (r: (Positions, Summary))
    requires DfaReady(re)
    ensures Shaped(r.0) && 0 < |r.0.followpos| && |r.1.first| == |r.0.followpos|
    ensures r.0.posmap == Leaves(re) + ['$']
  {
    DownShape(Marked(re), Positions([], []));
    assert LeavesUpTo(Marked(re), 2) == LeavesUpTo(Marked(re), 1) + ['$'];
    Down(Marked(re), Positions([], []))
  }

  /**
   * `construct_dfa`: the direct construction. State 0 is the first-set of
   * `re$`, the accepting states are the sets holding the position of `$`,
   * and each transition on c joins the followpos of the positions labelled c.
   */
  method ConstructDfa(re: Re.RegularExpression, charmap: seq<char>) returns (g: StateTransferGraph<(), char>, ghost sets: seq<VertexSet>)
    requires DfaReady(re)
    ensures fresh(g)
    ensures SubsetDfa(g, sets, |Annotated(re).0.followpos|, |Annotated(re).0.followpos| - 1, charmap, FollowStep(Annotated(re).0))
    ensures sets[0] == Annotated(re).1.first
  {
    var fp, pm, sum := Downward(Marked(re), [], []);
    ghost var ann := Annotated(re);
    assert ann == (Positions(fp, pm), sum);
    g, sets := ExploreFollow(fp, pm, sum.first, charmap);
  }

  /** The start state and the worklist loop of `construct_dfa`, from the followpos table. */
  method ExploreFollow(fp: seq<VertexSet>, pm: seq<char>, first: VertexSet, charmap: seq<char>)
    returns (g: StateTransferGraph<(), char>, ghost sets: seq<VertexSet>)
    requires Square(fp) && |pm| == |fp| && |first| == |fp| && 0 < |fp|
    ensures fresh(g)
    ensures SubsetDfa(g, sets, |fp|, |fp| - 1, charmap, FollowStep(Positions(fp, pm)))
    ensures sets[0] == first
  {
    var n := |fp|;
    ghost var step := FollowStep(Positions(fp, pm));
    var states, stack;
    g, states, stack, sets := StartWorklist(first, n - 1, n, charmap, step);
    UniverseBound(sets, n);
    while |stack| > 0
      invariant fresh(g)
      invariant Worklist(g, states, sets, stack, n, n - 1, charmap, step, 0, charmap)
      invariant 0 < |sets| && sets[0] == first && |sets| <= |AllFlags(n)|
      decreases |AllFlags(n)| - |sets|, |stack|
    {
      ghost var sets0 := sets;
      states, stack, sets := FollowPop(g, fp, pm, states, stack, sets, charmap, step, n - 1);
      assert sets[0] == sets[..|sets0|][0];
    }
    Done(g, states, sets, n, n - 1, charmap, step);
  }

  /** One round of `construct_dfa`'s worklist loop: the set on top of the stack is popped and expanded. */
  method FollowPop(g: StateTransferGraph<(), char>, fp: seq<VertexSet>, pm: seq<char>, states0: map<VertexSet, nat>,
                   stack0: seq<VertexSet>, ghost sets0: seq<VertexSet>, charmap: seq<char>,
                   ghost step: (VertexSet, char) -> set<nat>, mark: nat)
    returns (states: map<VertexSet, nat>, stack: seq<VertexSet>, ghost sets: seq<VertexSet>)
    requires Square(fp) && |pm| == |fp| && 0 < |fp| && |stack0| > 0 && step == FollowStep(Positions(fp, pm)) && mark + 1 == |fp|
    requires Worklist(g, states0, sets0, stack0, |fp|, mark, charmap, step, 0, charmap)
    modifies g
    ensures Worklist(g, states, sets, stack, |fp|, mark, charmap, step, 0, charmap)
    ensures |sets| >= |sets0| && sets[..|sets0|] == sets0 && |sets| <= |AllFlags(|fp|)|
    ensures |sets| > |sets0| || |stack| < |stack0|
  {
    var s := stack0[|stack0| - 1];
    stack := stack0[..|stack0| - 1];
    assert stack0 == stack + [s];
    BeginExpand(g.edges, g.ends, states0, sets0, stack, s, |fp|, mark, charmap, step, 0);
    states, stack, sets := ExpandFollow(g, fp, pm, states0, stack, sets0, s, charmap, mark);
    PendingBound(g.edges, g.ends, states, sets, stack, |fp|, mark, charmap, step, 0, charmap);
  }

  /** One pop of `construct_dfa`'s worklist: set S gets its transition on each character of `charmap`. */
  method ExpandFollow(g: StateTransferGraph<(), char>, fp: seq<VertexSet>, pm: seq<char>, states0: map<VertexSet, nat>,
                      stack0: seq<VertexSet>, ghost sets0: seq<VertexSet>, S: VertexSet, charmap: seq<char>,
                      mark: nat)
    returns (states: map<VertexSet, nat>, stack: seq<VertexSet>, ghost sets: seq<VertexSet>)
    requires Square(fp) && |pm| == |fp| && mark + 1 == |fp|
    requires S in states0 && S !in stack0
    requires Worklist(g, states0, sets0, stack0, |fp|, mark, charmap, FollowStep(Positions(fp, pm)), states0[S], [])
    modifies g
    ensures Worklist(g, states, sets, stack, |fp|, mark, charmap, FollowStep(Positions(fp, pm)), 0, charmap)
    ensures |sets| >= |sets0| && sets[..|sets0|] == sets0
    ensures |stack| == |stack0| + (|sets| - |sets0|)
  {
    var n := |fp|;
    ghost var step := FollowStep(Positions(fp, pm));
    var state := states0[S];
    states, stack, sets := states0, stack0, sets0;
    assert charmap[..0] == [];
    for k := 0 to |charmap|
      invariant Worklist(g, states, sets, stack, n, mark, charmap, step, state, charmap[..k])
      invariant |sets| >= |sets0| && sets[..|sets0|] == sets0 && sets[state] == S && S !in stack
      invariant |stack| == |stack0| + (|sets| - |sets0|)
    {
      ghost var setsK := sets;
      states, stack, sets := FollowToken(g, fp, pm, states, stack, sets, S, state, charmap, k, mark);
      assert sets[..|sets0|] == sets[..|setsK|][..|sets0|];
    }
    EndExpand(g, states, sets, stack, n, mark, charmap, step, state);
  }

  /** One character of `ExpandFollow`: the followpos successor of S on `charmap[k]`, linked in. */
  method FollowToken(g: StateTransferGraph<(), char>, fp: seq<VertexSet>, pm: seq<char>, states0: map<VertexSet, nat>,
                     stack0: seq<VertexSet>, ghost sets0: seq<VertexSet>, S: VertexSet, state: nat,
                     charmap: seq<char>, k: nat, mark: nat)
    returns (states: map<VertexSet, nat>, stack: seq<VertexSet>, ghost sets: seq<VertexSet>)
    requires Square(fp) && |pm| == |fp| && mark + 1 == |fp| && k < |charmap|
    requires Worklist(g, states0, sets0, stack0, |fp|, mark, charmap, FollowStep(Positions(fp, pm)), state, charmap[..k])
    requires state < |sets0| && sets0[state] == S && S !in stack0
    modifies g
    ensures Worklist(g, states, sets, stack, |fp|, mark, charmap, FollowStep(Positions(fp, pm)), state, charmap[..k + 1])
    ensures |sets| >= |sets0| && sets[..|sets0|] == sets0 && sets[state] == S && S !in stack
    ensures |stack| == |stack0| + (|sets| - |sets0|)
  {
    ghost var step := FollowStep(Positions(fp, pm));
    assert |S| == |fp|;
    var ahead := Advance(fp, pm, S, charmap[k]);
    assert ahead == Flags(step(S, charmap[k]), |fp|);
    states, stack, sets := LinkOrSkip(g, states0, stack0, sets0, state, ahead, charmap[k], mark, |fp|, charmap, step, k);
  }

  // ---------------------------------------------------------------------------
  // nfa_to_dfa
  // ---------------------------------------------------------------------------

  /** The subset construction's target: the ε-closure of the states one c-edge away from S. */
  ghost function ClosureStep(es: seq<Edge<char>>): (VertexSet, char) -> set<nat>
  {
    (S, c) => Nfa.EpsClosure(es, Nfa.MoveSet(es, Bits(S), c))
  }

  /**
   * `nfa_to_dfa`: the subset construction. State 0 is the ε-closure of the
   * NFA's start, the accepting states are the sets holding the NFA's
   * `end`, and each transition on c goes to the ε-closure of the c-move.
   */
  method NfaToDfa(nfa: StateTransferGraph<(), char>, charmap: seq<char>)
    returns (g: StateTransferGraph<(), char>, ghost sets: seq<VertexSet>)
    requires nfa.Valid() && nfa.start < |nfa.vertices| && nfa.end < |nfa.vertices|
    ensures fresh(g)
    ensures SubsetDfa(g, sets, |nfa.vertices|, nfa.end, charmap, ClosureStep(nfa.edges))
    ensures Bits(sets[0]) == Nfa.EpsClosure(nfa.edges, {nfa.start})
  {
    var n := |nfa.vertices|;
    ghost var step := ClosureStep(nfa.edges);
    var start := NewSet(n);
    start := start[nfa.start := true];
    assert Bits(start) == {nfa.start};
    start := Nfa.EpsilonClosure(nfa, start);
    var states, stack;
    g, states, stack, sets := StartWorklist(start, nfa.end, n, charmap, step);
    UniverseBound(sets, n);
    while |stack| > 0
      invariant fresh(g)
      invariant Worklist(g, states, sets, stack, n, nfa.end, charmap, step, 0, charmap)
      invariant 0 < |sets| && sets[0] == start && |sets| <= |AllFlags(n)|
      decreases |AllFlags(n)| - |sets|, |stack|
    {
      ghost var sets0 := sets;
      states, stack, sets := ClosurePop(g, nfa, states, stack, sets, charmap);
      assert sets[0] == sets[..|sets0|][0];
    }
    Done(g, states, sets, n, nfa.end, charmap, step);
  }

  /** One round of `nfa_to_dfa`'s worklist loop: the set on top of the stack is popped and expanded. */
  method ClosurePop(g: StateTransferGraph<(), char>, nfa: StateTransferGraph<(), char>, states0: map<VertexSet, nat>,
                    stack0: seq<VertexSet>, ghost sets0: seq<VertexSet>, charmap: seq<char>)
    returns (states: map<VertexSet, nat>, stack: seq<VertexSet>, ghost sets: seq<VertexSet>)
    requires g != nfa && nfa.Valid() && nfa.end < |nfa.vertices| && |stack0| > 0
    requires Worklist(g, states0, sets0, stack0, |nfa.vertices|, nfa.end, charmap, ClosureStep(nfa.edges), 0, charmap)
    modifies g
    ensures Worklist(g, states, sets, stack, |nfa.vertices|, nfa.end, charmap, ClosureStep(nfa.edges), 0, charmap)
    ensures |sets| >= |sets0| && sets[..|sets0|] == sets0 && |sets| <= |AllFlags(|nfa.vertices|)|
    ensures |sets| > |sets0| || |stack| < |stack0|
  {
    var s := stack0[|stack0| - 1];
    stack := stack0[..|stack0| - 1];
    assert stack0 == stack + [s];
    BeginExpand(g.edges, g.ends, states0, sets0, stack, s, |nfa.vertices|, nfa.end, charmap, ClosureStep(nfa.edges), 0);
    states, stack, sets := ExpandClosure(g, nfa, states0, stack, sets0, s, charmap);
    PendingBound(g.edges, g.ends, states, sets, stack, |nfa.vertices|, nfa.end, charmap, ClosureStep(nfa.edges), 0, charmap);
  }

  /** One pop of `nfa_to_dfa`'s worklist: set S gets its transition on each character of `charmap`. */
  method ExpandClosure(g: StateTransferGraph<(), char>, nfa: StateTransferGraph<(), char>, states0: map<VertexSet, nat>,
                       stack0: seq<VertexSet>, ghost sets0: seq<VertexSet>, S: VertexSet, charmap: seq<char>)
    returns (states: map<VertexSet, nat>, stack: seq<VertexSet>, ghost sets: seq<VertexSet>)
    requires g != nfa && nfa.Valid() && nfa.end < |nfa.vertices|
    requires S in states0 && S !in stack0
    requires Worklist(g, states0, sets0, stack0, |nfa.vertices|, nfa.end, charmap, ClosureStep(nfa.edges), states0[S], [])
    modifies g
    ensures Worklist(g, states, sets, stack, |nfa.vertices|, nfa.end, charmap, ClosureStep(nfa.edges), 0, charmap)
    ensures |sets| >= |sets0| && sets[..|sets0|] == sets0
    ensures |stack| == |stack0| + (|sets| - |sets0|)
  {
    var n := |nfa.vertices|;
    ghost var step := ClosureStep(nfa.edges);
    var state := states0[S];
    states, stack, sets := states0, stack0, sets0;
    assert charmap[..0] == [];
    for k := 0 to |charmap|
      invariant nfa.Valid() && |nfa.vertices| == n && step == ClosureStep(nfa.edges)
      invariant Worklist(g, states, sets, stack, n, nfa.end, charmap, step, state, charmap[..k])
      invariant |sets| >= |sets0| && sets[..|sets0|] == sets0 && sets[state] == S && S !in stack
      invariant |stack| == |stack0| + (|sets| - |sets0|)
    {
      var ahead := Nfa.MoveStep(nfa, S, charmap[k]);
      ahead := Nfa.EpsilonClosure(nfa, ahead);
      FlagsOfBits(ahead, step(S, charmap[k]));
      ghost var setsK := sets;
      states, stack, sets := LinkOrSkip(g, states, stack, sets, state, ahead, charmap[k], nfa.end, n, charmap, step, k);
      assert sets[..|sets0|] == sets[..|setsK|][..|sets0|];
    }
    EndExpand(g, states, sets, stack, n, nfa.end, charmap, step, state);
  }

  // ---------------------------------------------------------------------------
  // match_dfa
  // ---------------------------------------------------------------------------

  datatype MatchResult = Ok | Unfinished | Err

  /** The state reached from q by following `Step` on each token of w, or `None` where no edge fits. */
  function DfaRun<T(==)>(es: seq<Edge<T>>, q: nat, w: seq<T>): Option<nat>
    decreases |w|
  {
    if |w| == 0 then Some(q)
    else
      match Step(es, q, w[0])
      case None => None
      case Some(r) => DfaRun(es, r, w[1..])
  }

  function MatchDfaSpec<T(==)>(es: seq<Edge<T>>, start: nat, ends: seq<nat>, w: seq<T>): MatchResult
  {
    match DfaRun(es, start, w)
    case None => MatchResult.Err
    case Some(q) => if q in ends then MatchResult.Ok else Unfinished
  }

  /** Running on u + v is running on u, then on v from where u stopped. */
  lemma {:induction false} DfaRunAppend<T>(es: seq<Edge<T>>, q: nat, u: seq<T>, v: seq<T>)
    ensures DfaRun(es, q, u + v) == match DfaRun(es, q, u) case None => None case Some(p) => DfaRun(es, p, v)
    decreases |u|
  {
    if |u| > 0 {
      assert (u + v)[0] == u[0] && (u + v)[1..] == u[1..] + v;
      match Step(es, q, u[0])
      case None =>
      case Some(r) => DfaRunAppend(es, r, u[1..], v);
    } else {
      assert u + v == v;
    }
  }

  /** A step from an automaton whose edges are in range stays in range. */
  lemma StepInRange<T>(es: seq<Edge<T>>, n: nat, q: nat, c: T)
    requires EdgesInRange(es, n)
    ensures Step(es, q, c).Some? ==> Step(es, q, c).value < n
  {
    OutsSpec(es, q);
    FirstTargetSpec(es, Outs(es, q), c);
  }

  /**
   * `match_dfa`: from the start, each token follows the first out-edge
   * labelled with it; `Err` when there is none, otherwise `Ok` iff the
   * last state is accepting.
   */
  method MatchDfa<D, T(==)>(g: StateTransferGraph<D, T>, tokens: seq<T>) returns (r: MatchResult)
    requires g.Valid() && (|tokens| > 0 ==> g.start < |g.vertices|)
    ensures r == MatchDfaSpec(g.edges, g.start, g.ends, tokens)
  {
    var state: nat := g.start;
    for i := 0 to |tokens|
      invariant |tokens| > 0 ==> state < |g.vertices|
      invariant DfaRun(g.edges, g.start, tokens) == DfaRun(g.edges, state, tokens[i..])
    {
      ghost var from := state;
      ghost var step := Step(g.edges, from, tokens[i]);
      assert DfaRun(g.edges, from, tokens[i..])
          == match step case None => None case Some(q) => DfaRun(g.edges, q, tokens[i + 1..]) by {
        assert tokens[i..][0] == tokens[i] && tokens[i..][1..] == tokens[i + 1..];
      }
      var out := g.vertices[state].outEdges;
      OutsSpec(g.edges, state);
      var flag := false;
      for j := 0 to |out|
        invariant !flag && state == from
        invariant FirstTarget(g.edges, out[j..], tokens[i]) == step
      {
        if g.edges[out[j]].cost == tokens[i] {
          state := g.edges[out[j]].outVertex;
          flag := true;
          break;
        }
        assert out[j..][1..] == out[j + 1..];
      }
      if !flag {
        return MatchResult.Err;
      }
    }
    assert tokens[|tokens|..] == [];
    if state in g.ends {
      return MatchResult.Ok;
    }
    return Unfinished;
  }

  // ---------------------------------------------------------------------------
  // What the constructions accept
  // ---------------------------------------------------------------------------

  /** The run on sets: each token moves to its non-empty target set, if the token is in `charmap`. */
  ghost function SetRun(step: (VertexSet, char) -> set<nat>, n: nat, charmap: seq<char>, S: VertexSet, w: seq<char>): Option<VertexSet>
    decreases |w|
  {
    if |w| == 0 then Some(S)
    else
      var next := Flags(step(S, w[0]), n);
      if w[0] in charmap && true in next then SetRun(step, n, charmap, next, w[1..]) else None
  }

  ghost function SetMatch(step: (VertexSet, char) -> set<nat>, n: nat, mark: nat, charmap: seq<char>, S: VertexSet, w: seq<char>): MatchResult
    requires mark < n
  {
    match SetRun(step, n, charmap, S, w)
    case None => MatchResult.Err
    case Some(T) => if mark < |T| && T[mark] then MatchResult.Ok else Unfinished
  }

  /** A run of a `SubsetDfa` from q tracks the set run from q's set. */
  lemma {:induction false} SubsetRun(g: StateTransferGraph<(), char>, sets: seq<VertexSet>, n: nat, mark: nat,
                                     charmap: seq<char>, step: (VertexSet, char) -> set<nat>, q: nat, w: seq<char>)
    requires SubsetDfa(g, sets, n, mark, charmap, step) && q < |sets|
    ensures match DfaRun(g.edges, q, w)
            case None => SetRun(step, n, charmap, sets[q], w) == None
            case Some(r) => r < |sets| && SetRun(step, n, charmap, sets[q], w) == Some(sets[r])
    decreases |w|
  {
    if |w| > 0 {
      assert Settled(g.edges, sets, q, w[0], n, charmap, step);
      if w[0] in charmap && true in Flags(step(sets[q], w[0]), n) {
        var r :| 0 <= r < |sets| && sets[r] == Flags(step(sets[q], w[0]), n) && Step(g.edges, q, w[0]) == Some(r);
        SubsetRun(g, sets, n, mark, charmap, step, r, w[1..]);
      }
    }
  }

  /**
   * What both constructions accept: `match_dfa` on the automaton agrees
   * with the set run from the start set, accepting when the last set
   * holds `mark`.
   */
  lemma SubsetMatch(g: StateTransferGraph<(), char>, sets: seq<VertexSet>, n: nat, mark: nat,
                    charmap: seq<char>, step: (VertexSet, char) -> set<nat>, w: seq<char>)
    requires SubsetDfa(g, sets, n, mark, charmap, step)
    ensures MatchDfaSpec(g.edges, g.start, g.ends, w) == SetMatch(step, n, mark, charmap, sets[0], w)
  {
    SubsetRun(g, sets, n, mark, charmap, step, 0, w);
  }

  /** The same outcome under `match_dfa`'s result type. */
  function FromNfa(r: Nfa.MatchResult): MatchResult
  {
    match r
    case Ok => MatchResult.Ok
    case Unfinished => MatchResult.Unfinished
    case Err => MatchResult.Err
  }

  /** Flags of a set of states below n keep exactly that set. */
  lemma BitsOfFlags(X: set<nat>, n: nat)
    requires forall x :: x in X ==> x < n
    ensures Bits(Flags(X, n)) == X && (true in Flags(X, n) <==> X != {})
  {
    if X != {} {
      var x :| x in X;
      assert Flags(X, n)[x];
    }
  }

  /** The subset construction's targets name states of the NFA. */
  lemma ClosureInRange(es: seq<Edge<char>>, n: nat, s: set<nat>, c: char)
    requires EdgesInRange(es, n)
    ensures forall x :: x in Nfa.EpsClosure(es, Nfa.MoveSet(es, s, c)) ==> x < n
  {
    forall x | x in Nfa.EpsClosure(es, Nfa.MoveSet(es, s, c)) ensures x < n {
      var i :| 0 <= i < |es| && es[i].outVertex == x;
    }
  }

  /** Over the characters of `charmap`, the set run of the subset construction is the NFA run with closures. */
  lemma {:induction false} ClosureRunAgree(es: seq<Edge<char>>, n: nat, charmap: seq<char>, S: VertexSet, w: seq<char>)
    requires EdgesInRange(es, n) && |S| == n
    requires forall i :: 0 <= i < |w| ==> w[i] in charmap
    ensures match SetRun(ClosureStep(es), n, charmap, S, w)
            case None => Nfa.ClosedRun(es, Bits(S), w) == None
            case Some(T) => |T| == n && Nfa.ClosedRun(es, Bits(S), w) == Some(Bits(T))
    decreases |w|
  {
    if |w| > 0 {
      var X := Nfa.EpsClosure(es, Nfa.MoveSet(es, Bits(S), w[0]));
      assert ClosureStep(es)(S, w[0]) == X;
      ClosureInRange(es, n, Bits(S), w[0]);
      BitsOfFlags(X, n);
      assert w[0] in charmap;
      if X != {} {
        ClosureRunAgree(es, n, charmap, Flags(X, n), w[1..]);
      }
    }
  }

  /**
   * `match_dfa` on what `nfa_to_dfa` builds gives what the NFA run with
   * closures gives, on every word over `charmap`, when the NFA's only
   * accepting state is its `end`.
   */
  lemma NfaToDfaAgrees(g: StateTransferGraph<(), char>, sets: seq<VertexSet>, es: seq<Edge<char>>, start: nat, end: nat,
                       n: nat, charmap: seq<char>, w: seq<char>)
    requires SubsetDfa(g, sets, n, end, charmap, ClosureStep(es)) && Bits(sets[0]) == Nfa.EpsClosure(es, {start})
    requires EdgesInRange(es, n)
    requires forall i :: 0 <= i < |w| ==> w[i] in charmap
    ensures MatchDfaSpec(g.edges, g.start, g.ends, w) == FromNfa(Nfa.MatchClosedSpec(es, start, [end], w))
  {
    SubsetMatch(g, sets, n, end, charmap, ClosureStep(es), w);
    ClosureRunAgree(es, n, charmap, sets[0], w);
  }
}
