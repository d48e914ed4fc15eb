/**
 * `parse_with_graph` of src/parser/glrparser.rs: the generalised LR driver.
 *
 * It keeps a list of branches, each a stack of states and symbols together
 * with the productions it has reduced by. Each round shifts the current
 * token on every branch that can, dropping the others. It then moves the
 * input on and works through the growing list of branches. A branch can
 * reduce by any completed item of its top state whose lookaheads admit the
 * next token. Each such reduction adds a new branch, unless a branch with
 * the same stack is already listed. Reducing by the `$` production down to
 * the start state accepts. The tree is then built from the derivations of
 * the LAST branch in the list, which the source assumes is the accepting
 * one. A round that leaves no branch is an error at the current index.
 *
 * The item sets are hash maps visited in an unspecified order, which is a
 * parameter (`orders`). The unbounded outer loop and the growing worklist
 * are cut off by `fuel`.
 */
module GLRParser {
  import opened Wrappers
  import opened Grammar
  import opened Graph
  import opened Automaton
  import opened LRItems
  import opened LRTable
  import opened LRParse
  import opened LRGraph
  import Derivations
  import ParseTree
  import Re

  /** One stack of the multi-stack, with the productions it has reduced by, oldest first. */
  datatype Branch = Branch(stack: seq<StackItem>, derivations: seq<Production>)

  /** Where a pass over the branches ends. */
  datatype Phase = Going(branches: seq<Branch>) | Accepting(branches: seq<Branch>) | Crashed | Exhausted

  /** The state on top of a stack, if a state is there. */
  function TopState(stack: seq<StackItem>): Option<nat>
  {
    if |stack| > 0 && stack[|stack| - 1].State? then Some(stack[|stack| - 1].state) else None
  }

  /** A prefix followed by a rest that may have failed. */
  function Glue<X>(acc: seq<X>, rest: Option<seq<X>>): Option<seq<X>>
  {
    match rest
    case None => None
    case Some(r) => Some(acc + r)
  }

  /** `xs` starts with `ys`. */
  predicate Extends(xs: seq<Branch>, ys: seq<Branch>)
  {
    |ys| <= |xs| && xs[..|ys|] == ys
  }

  // ---------------------------------------------------------------------------
  // Shifting
  // ---------------------------------------------------------------------------

  /** The branch with the token and the target state pushed. */
  function Shifted(b: Branch, tok: Token, q: nat): Branch
  {
    Branch(b.stack + [TokenItem(tok), State(q)], b.derivations)
  }

  /**
   * The shift pass: every branch that has a transition on the token, by
   * value first and then by type, shifted, in order; the others dropped.
   * A branch without a state on top, or with one outside the n states,
   * panics (`None`).
   */
  function Shifts(edges: seq<Edge<Symbol>>, n: nat, last: seq<Branch>, tok: Token): (r: Option<seq<Branch>>)
    ensures r.Some? ==> |r.value| <= |last|
    decreases |last|
  {
    if |last| == 0 then Some([])
    else match TopState(last[0].stack)
      case None => None
      case Some(cur) =>
        if cur >= n then None
        else
          var head := match ShiftTarget(edges, cur, tok) case None => [] case Some(q) => [Shifted(last[0], tok, q)];
          Glue(head, Shifts(edges, n, last[1..], tok))
  }

  // ---------------------------------------------------------------------------
  // Reducing
  // ---------------------------------------------------------------------------

  /** The stack after `pos` double pops; a pop of an empty stack does nothing. */
  function Popped(stack: seq<StackItem>, pos: nat): (r: seq<StackItem>)
    ensures |r| <= |stack| && r == stack[..|r|]
  {
    if |stack| >= 2 * pos then stack[..|stack| - 2 * pos] else []
  }

  /** Some listed branch has this stack (derivations are not compared), `iter().any(..)`. */
  predicate Holds(bs: seq<Branch>, stack: seq<StackItem>)
  {
    |bs| > 0 && (bs[0].stack == stack || Holds(bs[1..], stack))
  }

  /** `any` holds exactly when some index carries the stack. */
  lemma {:induction false} HoldsIndex(bs: seq<Branch>, stack: seq<StackItem>)
    ensures Holds(bs, stack) <==> exists k :: 0 <= k < |bs| && bs[k].stack == stack
  {
    if |bs| > 0 {
      HoldsIndex(bs[1..], stack);
      if Holds(bs[1..], stack) {
        var k :| 0 <= k < |bs[1..]| && bs[1..][k].stack == stack;
        assert bs[k + 1].stack == stack;
      }
      if exists k :: 0 <= k < |bs| && bs[k].stack == stack {
        var k :| 0 <= k < |bs| && bs[k].stack == stack;
        if k > 0 {
          assert bs[1..][k - 1].stack == stack;
        }
      }
    }
  }

  /**
   * One item of a branch's top state. An item that is not completed, or
   * whose lookaheads do not admit the token, changes nothing. Otherwise the
   * rule's symbols are popped and the rule's name pushed. Exposing the start
   * state with the `$` rule accepts, and a state without a goto on the name
   * drops the reduction. Otherwise a new branch, with the goto state pushed
   * and the rule added to its derivations, is listed unless its stack
   * already is.
   */
  function ReduceItem(edges: seq<Edge<Symbol>>, start: nat, curr: seq<Branch>, b: Branch, it: Item,
                      ahead: set<Symbol>, tok: Token): (r: Phase)
    ensures r.Going? ==> |r.branches| >= |curr| && r.branches[..|curr|] == curr
    ensures r.Going? && |r.branches| > |curr| ==>
      |r.branches| == |curr| + 1 && r.branches[|curr|].derivations == b.derivations + [it.rule]
    ensures r.Accepting? ==> r.branches == curr
  {
    if !Completed(it) || !Admits(ahead, tok) then Going(curr)
    else
      var stack := Popped(b.stack, it.pos);
      match TopState(stack)
      case None => Crashed
      case Some(c) =>
        if c == start && it.rule.name == "$" then Accepting(curr)
        else match Automaton.Step(edges, c, NT(it.rule.name))
          case None => Going(curr)
          case Some(q) =>
            var s := stack + [SymbolItem(it.rule.name), State(q)];
            if Holds(curr, s) then Going(curr)
            else (assert (curr + [Branch(s, b.derivations + [it.rule])])[..|curr|] == curr;
                  Going(curr + [Branch(s, b.derivations + [it.rule])]))
  }

  /** The items of the branch's top state, in the order the state lists them, from the j-th on. */
  function ReduceItems(edges: seq<Edge<Symbol>>, start: nat, d: Items, order: seq<Item>, curr: seq<Branch>,
                       b: Branch, tok: Token, j: nat): (r: Phase)
    requires forall k :: 0 <= k < |order| ==> order[k] in d
    ensures (r.Going? || r.Accepting?) ==> |curr| <= |r.branches|
    decreases |order| - j
  {
    if j >= |order| then Going(curr)
    else match ReduceItem(edges, start, curr, b, order[j], d[order[j]], tok)
      case Going(c) => ReduceItems(edges, start, d, order, c, b, tok, j + 1)
      case other => other
  }

  /**
   * The worklist from its i-th branch on: each branch's top state's items
   * in turn, the list growing as they reduce; at most fuel branches.
   */
  function ReduceFrom(edges: seq<Edge<Symbol>>, ds: seq<Items>, orders: seq<seq<Item>>, start: nat,
                      curr: seq<Branch>, i: nat, tok: Token, fuel: nat): (r: Phase)
    requires Enumerated(ds, orders)
    ensures (r.Going? || r.Accepting?) ==> |curr| <= |r.branches|
    decreases fuel
  {
    if i >= |curr| then Going(curr)
    else if fuel == 0 then Exhausted
    else match TopState(curr[i].stack)
      case None => Crashed
      case Some(cur) =>
        if cur >= |ds| then Crashed
        else match ReduceItems(edges, start, ds[cur], orders[cur], curr, curr[i], tok, 0)
          case Going(c) => ReduceFrom(edges, ds, orders, start, c, i + 1, tok, fuel - 1)
          case other => other
  }

  // ---------------------------------------------------------------------------
  // The driver
  // ---------------------------------------------------------------------------

  /** The input index after a shift pass: one on, unless already at the end. */
  function Advance(src: seq<Token>, next: nat): nat
  {
    if next < |src| then next + 1 else next
  }

  /** One round: shift the token at next, move the input on, reduce with the token there as lookahead. */
  function Round(edges: seq<Edge<Symbol>>, ds: seq<Items>, orders: seq<seq<Item>>, start: nat, src: seq<Token>,
                 last: seq<Branch>, next: nat, fuel: nat): (r: Phase)
    requires Enumerated(ds, orders)
    ensures (r.Going? || r.Accepting?) ==>
      Shifts(edges, |ds|, last, TokenAt(src, next)).Some? && |Shifts(edges, |ds|, last, TokenAt(src, next)).value| <= |r.branches|
  {
    match Shifts(edges, |ds|, last, TokenAt(src, next))
    case None => Crashed
    case Some(curr) => ReduceFrom(edges, ds, orders, start, curr, 0, TokenAt(src, Advance(src, next)), fuel)
  }

  /**
   * The tree of an accepting round: the last branch's derivations, newest
   * first, built rightmost, with the tokens handed to the leaves left to
   * right (the source hands them out in expansion order).
   */
  function Finish(curr: seq<Branch>, src: seq<Token>): Outcome
  {
    if |curr| == 0 then Panic
    else match Derivations.BuildInOrder(Re.Reverse(curr[|curr| - 1].derivations), src, false)
      case None => Panic
      case Some(t) => Success(t)
  }

  /** How the outer loop ends: a round accepted with these branches, or the parse stopped with this outcome. */
  datatype Stop = Accepted(branches: seq<Branch>) | Halted(outcome: Outcome)

  /**
   * The outer loop from the branches `last` at index next, for at most
   * fuel rounds. It never halts with a tree, and it reports "All cases
   * failed" past the index it was entered at, or at that index when that
   * is already the end of the input, and never beyond the input.
   */
  function Rounds(edges: seq<Edge<Symbol>>, ds: seq<Items>, orders: seq<seq<Item>>, start: nat, src: seq<Token>,
                  last: seq<Branch>, next: nat, fuel: nat): (r: Stop)
    requires Enumerated(ds, orders)
    ensures r.Halted? ==> !r.outcome.Success?
    ensures r.Halted? && r.outcome.Failure? ==> next < r.outcome.index || (next >= |src| && r.outcome.index == next)
    ensures r.Halted? && r.outcome.Failure? && next <= |src| ==> r.outcome.index <= |src|
    decreases fuel
  {
    if fuel == 0 then Halted(OutOfFuel)
    else match Round(edges, ds, orders, start, src, last, next, fuel)
      case Crashed => Halted(Panic)
      case Exhausted => Halted(OutOfFuel)
      case Accepting(curr) => Accepted(curr)
      case Going(curr) =>
        if |curr| == 0 then Halted(Failure(Advance(src, next)))
        else Rounds(edges, ds, orders, start, src, curr, Advance(src, next), fuel - 1)
  }

  /** The loop, then the tree of the accepting branches. */
  function RunGLR(edges: seq<Edge<Symbol>>, ds: seq<Items>, orders: seq<seq<Item>>, start: nat, src: seq<Token>,
                  last: seq<Branch>, next: nat, fuel: nat): (r: Outcome)
    requires Enumerated(ds, orders)
    ensures r.Failure? ==> next < r.index || (next >= |src| && r.index == next)
    ensures r.Failure? && next <= |src| ==> r.index <= |src|
  {
    match Rounds(edges, ds, orders, start, src, last, next, fuel)
    case Accepted(bs) => Finish(bs, src)
    case Halted(o) => o
  }

  /** The one branch the driver starts from: the start state, nothing reduced. */
  function Initial(start: nat): seq<Branch>
  {
    [Branch([State(start)], [])]
  }

  /** The shift pass, `for (stack, derivations) in &last_stack { .. }`. */
  method ShiftAll(graph: Automaton.StateTransferGraph<Items, Symbol>, last: seq<Branch>, tok: Token)
    returns (r: Option<seq<Branch>>)
    requires graph.Valid()
    ensures r == Shifts(graph.edges, |graph.vertices|, last, tok)
  {
    var curr: seq<Branch> := [];
    assert last[0..] == last;
    GlueNil(Shifts(graph.edges, |graph.vertices|, last, tok));
    for i := 0 to |last|
      invariant Shifts(graph.edges, |graph.vertices|, last, tok) == Glue(curr, Shifts(graph.edges, |graph.vertices|, last[i..], tok))
    {
      var stack := last[i].stack;
      if |stack| == 0 || !stack[|stack| - 1].State? || stack[|stack| - 1].state >= |graph.vertices| {
        ShiftsStuck(graph.edges, |graph.vertices|, last, i, tok);
        return None;
      }
      var cur := stack[|stack| - 1].state;
      var target := graph.GetTransition(cur, T(tok.type_, Some(tok.value)));
      if target.None? {
        target := graph.GetTransition(cur, T(tok.type_, None));
      }
      var head := if target.Some? then [Shifted(last[i], tok, target.value)] else [];
      ShiftsAt(graph.edges, |graph.vertices|, last, i, tok, cur);
      GlueAssoc(curr, head, Shifts(graph.edges, |graph.vertices|, last[i + 1..], tok));
      curr := curr + head;
    }
    assert last[|last|..] == [];
    assert curr + [] == curr;
    return Some(curr);
  }

  /** Unfolding the shift pass at the i-th branch, whose top state is `cur`. */
  lemma ShiftsAt(edges: seq<Edge<Symbol>>, n: nat, last: seq<Branch>, i: nat, tok: Token, cur: nat)
    requires i < |last| && TopState(last[i].stack) == Some(cur) && cur < n
    ensures Shifts(edges, n, last[i..], tok)
            == Glue(match ShiftTarget(edges, cur, tok) case None => [] case Some(q) => [Shifted(last[i], tok, q)],
                    Shifts(edges, n, last[i + 1..], tok))
  {
    assert last[i..][0] == last[i];
    assert last[i..][1..] == last[i + 1..];
  }

  /** A branch without a usable top state makes the whole pass panic. */
  lemma ShiftsStuck(edges: seq<Edge<Symbol>>, n: nat, last: seq<Branch>, i: nat, tok: Token)
    requires i < |last|
    requires TopState(last[i].stack).None? || TopState(last[i].stack).value >= n
    ensures Shifts(edges, n, last[i..], tok).None?
  {
    assert last[i..][0] == last[i];
  }

  lemma GlueNil<X>(rest: Option<seq<X>>)
    ensures Glue([], rest) == rest
  {
    if rest.Some? {
      assert [] + rest.value == rest.value;
    }
  }

  lemma GlueAssoc<X>(a: seq<X>, b: seq<X>, rest: Option<seq<X>>)
    ensures Glue(a, Glue(b, rest)) == Glue(a + b, rest)
  {
    if rest.Some? {
      assert a + (b + rest.value) == a + b + rest.value;
    }
  }

  /** `for (item, ahead) in &*graph.vertices[curr_state].data { .. }` for one branch. */
  method ReduceBranch(graph: Automaton.StateTransferGraph<Items, Symbol>, d: Items, order: seq<Item>,
                      curr0: seq<Branch>, b: Branch, tok: Token) returns (p: Phase)
    requires graph.Valid() && Lists(order, d)
    ensures p == ReduceItems(graph.edges, graph.start, d, order, curr0, b, tok, 0)
  {
    var curr := curr0;
    for j := 0 to |order|
      invariant ReduceItems(graph.edges, graph.start, d, order, curr0, b, tok, 0)
                == ReduceItems(graph.edges, graph.start, d, order, curr, b, tok, j)
    {
      var it := order[j];
      var ahead := d[it];
      var r := ReduceOne(graph, curr, b, it, ahead, tok);
      if !r.Going? {
        return r;
      }
      curr := r.branches;
    }
    return Going(curr);
  }

  /** The body of the item loop: one reduction, on the loop's own variables. */
  method ReduceOne(graph: Automaton.StateTransferGraph<Items, Symbol>, curr: seq<Branch>, b: Branch, it: Item,
                   ahead: set<Symbol>, tok: Token) returns (r: Phase)
    requires graph.Valid()
    ensures r == ReduceItem(graph.edges, graph.start, curr, b, it, ahead, tok)
  {
    if it.pos != |it.rule.expr.terms| || !Admits(ahead, tok) {
      return Going(curr);
    }
    var stack := b.stack;
    var k := 0;
    while k < it.pos
      invariant 0 <= k <= it.pos
      invariant stack == Popped(b.stack, k)
    {
      stack := if |stack| > 0 then stack[..|stack| - 1] else stack;
      stack := if |stack| > 0 then stack[..|stack| - 1] else stack;
      k := k + 1;
    }
    if |stack| == 0 || !stack[|stack| - 1].State? {
      return Crashed;
    }
    var c := stack[|stack| - 1].state;
    stack := stack + [SymbolItem(it.rule.name)];
    if c == graph.start && it.rule.name == "$" {
      return Accepting(curr);
    }
    if c >= |graph.vertices| {
      StepOutside(graph, c, NT(it.rule.name));
      return Going(curr);
    }
    var q := graph.GetTransition(c, NT(it.rule.name));
    if q.None? {
      return Going(curr);
    }
    stack := stack + [State(q.value)];
    assert stack == Popped(b.stack, it.pos) + [SymbolItem(it.rule.name), State(q.value)];
    HoldsIndex(curr, stack);
    if exists k' | 0 <= k' < |curr| :: curr[k'].stack == stack {
      return Going(curr);
    }
    return Going(curr + [Branch(stack, b.derivations + [it.rule])]);
  }

  /** `while state < curr_stack.len() { .. }`: the worklist. */
  method ReduceAll(graph: Automaton.StateTransferGraph<Items, Symbol>, orders: seq<seq<Item>>, curr0: seq<Branch>,
                   tok: Token, fuel: nat) returns (p: Phase)
    requires graph.Valid() && Enumerated(Datas(graph.vertices), orders)
    ensures p == ReduceFrom(graph.edges, Datas(graph.vertices), orders, graph.start, curr0, 0, tok, fuel)
  {
    var curr := curr0;
    var state := 0;
    var steps: nat := fuel;
    ghost var goal := ReduceFrom(graph.edges, Datas(graph.vertices), orders, graph.start, curr0, 0, tok, fuel);
    while state < |curr|
      invariant ReduceFrom(graph.edges, Datas(graph.vertices), orders, graph.start, curr, state, tok, steps) == goal
      decreases steps
    {
      if steps == 0 {
        return Exhausted;
      }
      var stack := curr[state].stack;
      if |stack| == 0 || !stack[|stack| - 1].State? {
        return Crashed;
      }
      var cur := stack[|stack| - 1].state;
      if cur >= |graph.vertices| {
        return Crashed;
      }
      var r := ReduceBranch(graph, graph.vertices[cur].data, orders[cur], curr, curr[state], tok);
      if !r.Going? {
        return r;
      }
      curr := r.branches;
      state := state + 1;
      steps := steps - 1;
    }
    return Going(curr);
  }

  /** One round of the outer loop, on the loop's own variables: shift, move on, reduce. */
  method RoundStep(graph: Automaton.StateTransferGraph<Items, Symbol>, orders: seq<seq<Item>>, src: seq<Token>,
                   last: seq<Branch>, next: nat, fuel: nat) returns (p: Phase, next': nat)
    requires graph.Valid() && Enumerated(Datas(graph.vertices), orders)
    ensures p == Round(graph.edges, Datas(graph.vertices), orders, graph.start, src, last, next, fuel)
    ensures next' == Advance(src, next)
  {
    next' := next;
    var curr := ShiftAll(graph, last, TokenAt(src, next));
    if next' < |src| {
      next' := next' + 1;
    }
    if curr.None? {
      return Crashed, next';
    }
    p := ReduceAll(graph, orders, curr.value, TokenAt(src, next'), fuel);
  }

  /** After acceptance: the last branch's derivations reversed, built into a tree rightmost, its leaves filled in order. */
  method Conclude(bs: seq<Branch>, src: seq<Token>) returns (r: Outcome)
    ensures r == Finish(bs, src)
  {
    if |bs| == 0 {
      return Panic;
    }
    var ds := Re.Reverse(bs[|bs| - 1].derivations);
    var t := Derivations.BuildRightmost(ds, src);
    if t.None? {
      return Panic;
    }
    var filled := Derivations.Fill(t.value, src, 0);
    if filled.None? {
      return Panic;
    }
    return Success(filled.value.0);
  }

  /**
   * The `'outer` loop of `parse_with_graph`: rounds of shifting and
   * reducing from the start state alone until a branch accepts or none is
   * left, cut off after fuel rounds (each worklist after as many branches
   * as rounds are left).
   */
  method Loop(src: seq<Token>, graph: Automaton.StateTransferGraph<Items, Symbol>, orders: seq<seq<Item>>,
              fuel: nat) returns (s: Stop)
    requires graph.Valid() && Enumerated(Datas(graph.vertices), orders)
    ensures s == Rounds(graph.edges, Datas(graph.vertices), orders, graph.start, src, Initial(graph.start), 0, fuel)
  {
    ghost var edges, ds, start := graph.edges, Datas(graph.vertices), graph.start;
    var last := Initial(graph.start);
    var next: nat := 0;
    var rounds: nat := fuel;
    while rounds > 0
      invariant Rounds(edges, ds, orders, start, src, last, next, rounds) == Rounds(edges, ds, orders, start, src, Initial(start), 0, fuel)
    {
      var p, next' := RoundStep(graph, orders, src, last, next, rounds);
      next := next';
      match p {
        case Crashed =>
          return Halted(Panic);
        case Exhausted =>
          return Halted(OutOfFuel);
        case Accepting(bs) =>
          return Accepted(bs);
        case Going(bs) =>
          if |bs| == 0 {
            return Halted(Failure(next));
          }
          last := bs;
      }
      rounds := rounds - 1;
    }
    return Halted(OutOfFuel);
  }

  /** `parse_with_graph`: the loop, then the tree of the accepting branches. */
  method ParseWithGraph(src: seq<Token>, graph: Automaton.StateTransferGraph<Items, Symbol>, orders: seq<seq<Item>>,
                        fuel: nat) returns (r: Outcome)
    requires graph.Valid() && Enumerated(Datas(graph.vertices), orders)
    ensures r == RunGLR(graph.edges, Datas(graph.vertices), orders, graph.start, src, Initial(graph.start), 0, fuel)
  {
    var s := Loop(src, graph, orders, fuel);
    match s {
      case Accepted(bs) =>
        r := Conclude(bs, src);
      case Halted(o) =>
        r := o;
    }
  }

  // ---------------------------------------------------------------------------
  // What the rounds keep
  // ---------------------------------------------------------------------------

  /** A stack of states at the even places and symbols between them, every state one of the n. */
  predicate Shaped(stack: seq<StackItem>, n: nat)
  {
    && |stack| % 2 == 1
    && forall k :: 0 <= k < |stack| ==> (stack[k].State? <==> k % 2 == 0) && (stack[k].State? ==> stack[k].state < n)
  }

  /** Every branch is shaped, and no two branches have the same stack. */
  predicate Sound(bs: seq<Branch>, n: nat)
  {
    && (forall k :: 0 <= k < |bs| ==> Shaped(bs[k].stack, n))
    && (forall i, j :: 0 <= i < j < |bs| ==> bs[i].stack != bs[j].stack)
  }

  /** A shaped stack has one of the n states on top. */
  lemma ShapedTop(stack: seq<StackItem>, n: nat)
    requires Shaped(stack, n)
    ensures TopState(stack).Some? && TopState(stack).value < n
  {
  }

  /** The state a branch shifts the token into, if it has one. */
  function Target(edges: seq<Edge<Symbol>>, b: Branch, tok: Token): Option<nat>
  {
    match TopState(b.stack)
    case None => None
    case Some(cur) => ShiftTarget(edges, cur, tok)
  }

  /** x is one of the branches of last, shifted. */
  predicate ShiftedFrom(edges: seq<Edge<Symbol>>, last: seq<Branch>, tok: Token, x: Branch)
  {
    exists j :: 0 <= j < |last| && Target(edges, last[j], tok).Some? && x == Shifted(last[j], tok, Target(edges, last[j], tok).value)
  }

  /**
   * The shift pass on sound branches never panics. Its branches are
   * exactly the old ones that have a transition on the token, each with
   * the token and the target pushed and its derivations as they were;
   * they are sound again.
   */
  lemma {:induction false} ShiftsSound(edges: seq<Edge<Symbol>>, n: nat, last: seq<Branch>, tok: Token)
    requires EdgesInRange(edges, n) && Sound(last, n)
    ensures Shifts(edges, n, last, tok).Some?
    ensures Sound(Shifts(edges, n, last, tok).value, n)
    ensures forall x :: x in Shifts(edges, n, last, tok).value <==> ShiftedFrom(edges, last, tok, x)
    decreases |last|
  {
    if |last| > 0 {
      SoundTail(last, n);
      ShiftsSound(edges, n, last[1..], tok);
      ShiftsCons(edges, n, last, tok);
    }
  }

  /** The tail of a sound list is sound. */
  lemma SoundTail(bs: seq<Branch>, n: nat)
    requires |bs| > 0 && Sound(bs, n)
    ensures Sound(bs[1..], n)
  {
    forall i, j | 0 <= i < j < |bs[1..]| ensures bs[1..][i].stack != bs[1..][j].stack {
      assert bs[1..][i] == bs[i + 1] && bs[1..][j] == bs[j + 1];
    }
  }

  /** The step of `ShiftsSound`: from the facts about the tail to those about the whole list. */
  lemma ShiftsCons(edges: seq<Edge<Symbol>>, n: nat, last: seq<Branch>, tok: Token)
    requires EdgesInRange(edges, n) && Sound(last, n) && |last| > 0
    requires Shifts(edges, n, last[1..], tok).Some?
    requires Sound(Shifts(edges, n, last[1..], tok).value, n)
    requires forall x :: x in Shifts(edges, n, last[1..], tok).value <==> ShiftedFrom(edges, last[1..], tok, x)
    ensures Shifts(edges, n, last, tok).Some?
    ensures Sound(Shifts(edges, n, last, tok).value, n)
    ensures forall x :: x in Shifts(edges, n, last, tok).value <==> ShiftedFrom(edges, last, tok, x)
  {
    var b := last[0];
    ShapedTop(b.stack, n);
    var rest := Shifts(edges, n, last[1..], tok).value;
    var target := Target(edges, b, tok);
    var head := match target case None => [] case Some(q) => [Shifted(b, tok, q)];
    assert Shifts(edges, n, last, tok) == Some(head + rest);
    forall x ensures x in head + rest <==> ShiftedFrom(edges, last, tok, x) {
      ShiftedFromCons(edges, last, tok, x);
    }
    if target.Some? {
      ShiftHead(edges, n, last, tok, rest);
    }
  }

  /** Membership in the shifted list, split into the first branch and the rest. */
  lemma ShiftedFromCons(edges: seq<Edge<Symbol>>, last: seq<Branch>, tok: Token, x: Branch)
    requires |last| > 0
    ensures ShiftedFrom(edges, last, tok, x) <==>
      (Target(edges, last[0], tok).Some? && x == Shifted(last[0], tok, Target(edges, last[0], tok).value))
      || ShiftedFrom(edges, last[1..], tok, x)
  {
    if ShiftedFrom(edges, last, tok, x) {
      var j :| 0 <= j < |last| && Target(edges, last[j], tok).Some? && x == Shifted(last[j], tok, Target(edges, last[j], tok).value);
      if j > 0 {
        assert last[1..][j - 1] == last[j];
      }
    }
    if ShiftedFrom(edges, last[1..], tok, x) {
      var j :| 0 <= j < |last[1..]| && Target(edges, last[1..][j], tok).Some? && x == Shifted(last[1..][j], tok, Target(edges, last[1..][j], tok).value);
      assert last[1..][j] == last[j + 1];
    }
  }

  /** The first branch, shifted, in front of the others shifted: still sound. */
  lemma ShiftHead(edges: seq<Edge<Symbol>>, n: nat, last: seq<Branch>, tok: Token, rest: seq<Branch>)
    requires EdgesInRange(edges, n) && |last| > 0 && Sound(last, n) && Sound(rest, n)
    requires Target(edges, last[0], tok).Some?
    requires forall x :: x in rest ==> ShiftedFrom(edges, last[1..], tok, x)
    ensures Sound([Shifted(last[0], tok, Target(edges, last[0], tok).value)] + rest, n)
  {
    var h := Shifted(last[0], tok, Target(edges, last[0], tok).value);
    var r := [h] + rest;
    ShapedTop(last[0].stack, n);
    ShiftTargetIn(edges, n, TopState(last[0].stack).value, tok);
    ShiftedShaped(last[0], tok, Target(edges, last[0], tok).value, n);
    forall k | 0 <= k < |rest| ensures h.stack != rest[k].stack {
      assert rest[k] in rest;
      var j :| 0 <= j < |last[1..]| && Target(edges, last[1..][j], tok).Some?
               && rest[k] == Shifted(last[1..][j], tok, Target(edges, last[1..][j], tok).value);
      assert last[1..][j] == last[j + 1];
      PrefixesDiffer(last[0].stack, last[j + 1].stack, h.stack, rest[k].stack);
    }
    forall i, j | 0 <= i < j < |r| ensures r[i].stack != r[j].stack {
      if i > 0 {
        assert r[i] == rest[i - 1] && r[j] == rest[j - 1];
      } else {
        assert r[j] == rest[j - 1];
      }
    }
  }

  /** A shift target is one of the n states. */
  lemma ShiftTargetIn(edges: seq<Edge<Symbol>>, n: nat, cur: nat, tok: Token)
    requires EdgesInRange(edges, n) && ShiftTarget(edges, cur, tok).Some?
    ensures ShiftTarget(edges, cur, tok).value < n
  {
    StepSpec(edges, cur, T(tok.type_, Some(tok.value)));
    StepSpec(edges, cur, T(tok.type_, None));
  }

  /** Shifting keeps a stack shaped. */
  lemma ShiftedShaped(b: Branch, tok: Token, q: nat, n: nat)
    requires Shaped(b.stack, n) && q < n
    ensures Shaped(Shifted(b, tok, q).stack, n)
  {
    var s := Shifted(b, tok, q).stack;
    forall k | 0 <= k < |s|
      ensures (s[k].State? <==> k % 2 == 0) && (s[k].State? ==> s[k].state < n)
    {
      if k < |b.stack| {
        assert s[k] == b.stack[k];
      }
    }
  }

  /** Two different stacks stay different when each gets two more entries. */
  lemma PrefixesDiffer(a: seq<StackItem>, b: seq<StackItem>, a2: seq<StackItem>, b2: seq<StackItem>)
    requires a != b && |a2| == |a| + 2 && |b2| == |b| + 2 && a2[..|a|] == a && b2[..|b|] == b
    ensures a2 != b2
  {
    if |a| == |b| {
      assert a2[..|a|] != b2[..|a|];
    }
  }

  /** A reduction keeps the branches sound (it only ever adds a shaped stack not yet listed). */
  lemma ReduceItemSound(edges: seq<Edge<Symbol>>, n: nat, start: nat, curr: seq<Branch>, b: Branch, it: Item,
                        ahead: set<Symbol>, tok: Token)
    requires EdgesInRange(edges, n) && Sound(curr, n) && Shaped(b.stack, n)
    ensures var r := ReduceItem(edges, start, curr, b, it, ahead, tok);
      (r.Going? || r.Accepting?) ==> Sound(r.branches, n)
  {
    var r := ReduceItem(edges, start, curr, b, it, ahead, tok);
    if r.Going? && |r.branches| > |curr| {
      var stack := Popped(b.stack, it.pos);
      var c := TopState(stack).value;
      var q := Automaton.Step(edges, c, NT(it.rule.name)).value;
      StepSpec(edges, c, NT(it.rule.name));
      var s := stack + [SymbolItem(it.rule.name), State(q)];
      assert r.branches == curr + [Branch(s, b.derivations + [it.rule])];
      assert !Holds(curr, s);
      HoldsIndex(curr, s);
      PoppedShaped(b.stack, it.pos, n);
      forall k | 0 <= k < |s|
        ensures (s[k].State? <==> k % 2 == 0) && (s[k].State? ==> s[k].state < n)
      {
        if k < |stack| {
          assert s[k] == stack[k];
        }
      }
      forall i, j | 0 <= i < j < |r.branches| ensures r.branches[i].stack != r.branches[j].stack {
        if j == |curr| {
          assert r.branches[i] == curr[i];
        } else {
          assert r.branches[i] == curr[i] && r.branches[j] == curr[j];
        }
      }
    }
  }

  /** Popping whole pairs off a shaped stack leaves a shaped stack, or nothing. */
  lemma PoppedShaped(stack: seq<StackItem>, pos: nat, n: nat)
    requires Shaped(stack, n)
    ensures |Popped(stack, pos)| > 0 ==> Shaped(Popped(stack, pos), n)
  {
    var p := Popped(stack, pos);
    forall k | 0 <= k < |p|
      ensures (p[k].State? <==> k % 2 == 0) && (p[k].State? ==> p[k].state < n)
    {
      assert p[k] == stack[k];
    }
  }

  lemma {:induction false} ReduceItemsSound(edges: seq<Edge<Symbol>>, n: nat, start: nat, d: Items, order: seq<Item>,
                                            curr: seq<Branch>, b: Branch, tok: Token, j: nat)
    requires forall k :: 0 <= k < |order| ==> order[k] in d
    requires EdgesInRange(edges, n) && Sound(curr, n) && Shaped(b.stack, n)
    ensures var r := ReduceItems(edges, start, d, order, curr, b, tok, j);
      (r.Going? || r.Accepting?) ==> Sound(r.branches, n) && |r.branches| >= |curr| && r.branches[..|curr|] == curr
    decreases |order| - j
  {
    if j < |order| {
      var r := ReduceItem(edges, start, curr, b, order[j], d[order[j]], tok);
      ReduceItemSound(edges, n, start, curr, b, order[j], d[order[j]], tok);
      if r.Going? {
        ReduceItemsSound(edges, n, start, d, order, r.branches, b, tok, j + 1);
        var r' := ReduceItems(edges, start, d, order, r.branches, b, tok, j + 1);
        if r'.Going? || r'.Accepting? {
          assert r'.branches[..|curr|] == r'.branches[..|r.branches|][..|curr|];
        }
      }
    }
  }

  lemma {:induction false} ReduceFromSound(edges: seq<Edge<Symbol>>, ds: seq<Items>, orders: seq<seq<Item>>, start: nat,
                                           curr: seq<Branch>, i: nat, tok: Token, fuel: nat)
    requires Enumerated(ds, orders) && EdgesInRange(edges, |ds|) && Sound(curr, |ds|)
    ensures var r := ReduceFrom(edges, ds, orders, start, curr, i, tok, fuel);
      && ((r.Going? || r.Accepting?) ==> Sound(r.branches, |ds|) && |r.branches| >= |curr|)
      && (r.Accepting? ==> |r.branches| > i)
    decreases fuel
  {
    if i < |curr| && fuel > 0 {
      var b := curr[i];
      ShapedTop(b.stack, |ds|);
      var cur := TopState(b.stack).value;
      assert Lists(orders[cur], ds[cur]);
      var r := ReduceItems(edges, start, ds[cur], orders[cur], curr, b, tok, 0);
      ReduceItemsSound(edges, |ds|, start, ds[cur], orders[cur], curr, b, tok, 0);
      ReduceItemsNoCrash(edges, |ds|, start, ds[cur], orders[cur], curr, b, tok, 0);
      if r.Going? {
        ReduceFromSound(edges, ds, orders, start, r.branches, i + 1, tok, fuel - 1);
      }
    }
  }

  /** Popping a shaped stack can only fail by popping it empty. */
  lemma ReduceItemNoCrash(edges: seq<Edge<Symbol>>, n: nat, start: nat, curr: seq<Branch>, b: Branch, it: Item,
                          ahead: set<Symbol>, tok: Token)
    requires Shaped(b.stack, n)
    ensures ReduceItem(edges, start, curr, b, it, ahead, tok) == Crashed ==> |b.stack| < 2 * it.pos + 1
  {
    if |b.stack| >= 2 * it.pos + 1 {
      PoppedShaped(b.stack, it.pos, n);
      ShapedTop(Popped(b.stack, it.pos), n);
    }
  }

  /**
   * The panic "Reduce: State not on top of stack" of a sound round means a
   * completed item with more symbols than the stack holds.
   */
  lemma {:induction false} ReduceItemsNoCrash(edges: seq<Edge<Symbol>>, n: nat, start: nat, d: Items, order: seq<Item>,
                                              curr: seq<Branch>, b: Branch, tok: Token, j: nat)
    requires forall k :: 0 <= k < |order| ==> order[k] in d
    requires Shaped(b.stack, n)
    ensures ReduceItems(edges, start, d, order, curr, b, tok, j) == Crashed ==>
      exists k :: j <= k < |order| && |b.stack| < 2 * order[k].pos + 1
    decreases |order| - j
  {
    if j < |order| {
      ReduceItemNoCrash(edges, n, start, curr, b, order[j], d[order[j]], tok);
      var r := ReduceItem(edges, start, curr, b, order[j], d[order[j]], tok);
      if r.Going? {
        ReduceItemsNoCrash(edges, n, start, d, order, r.branches, b, tok, j + 1);
      }
    }
  }

  /** The reductions of one branch never drop or reorder a listed branch. */
  lemma {:induction false} ReduceItemsExtends(edges: seq<Edge<Symbol>>, start: nat, d: Items, order: seq<Item>,
                                              curr: seq<Branch>, b: Branch, tok: Token, j: nat)
    requires forall k :: 0 <= k < |order| ==> order[k] in d
    ensures var r := ReduceItems(edges, start, d, order, curr, b, tok, j);
      (r.Going? || r.Accepting?) ==> Extends(r.branches, curr)
    decreases |order| - j
  {
    if j < |order| {
      var p := ReduceItem(edges, start, curr, b, order[j], d[order[j]], tok);
      if p.Going? {
        ReduceItemsExtends(edges, start, d, order, p.branches, b, tok, j + 1);
        var r := ReduceItems(edges, start, d, order, p.branches, b, tok, j + 1);
        if r.Going? || r.Accepting? {
          assert r.branches[..|curr|] == r.branches[..|p.branches|][..|curr|];
        }
      }
    }
  }

  /** The worklist never drops or reorders a listed branch: the list only grows at its end. */
  lemma {:induction false} ReduceFromExtends(edges: seq<Edge<Symbol>>, ds: seq<Items>, orders: seq<seq<Item>>, start: nat,
                                             curr: seq<Branch>, i: nat, tok: Token, fuel: nat)
    requires Enumerated(ds, orders)
    ensures var r := ReduceFrom(edges, ds, orders, start, curr, i, tok, fuel);
      (r.Going? || r.Accepting?) ==> Extends(r.branches, curr)
    decreases fuel
  {
    if i < |curr| && fuel > 0 && TopState(curr[i].stack).Some? && TopState(curr[i].stack).value < |ds| {
      var cur := TopState(curr[i].stack).value;
      ReduceItemsExtends(edges, start, ds[cur], orders[cur], curr, curr[i], tok, 0);
      var p := ReduceItems(edges, start, ds[cur], orders[cur], curr, curr[i], tok, 0);
      if p.Going? {
        ReduceFromExtends(edges, ds, orders, start, p.branches, i + 1, tok, fuel - 1);
        var r := ReduceFrom(edges, ds, orders, start, p.branches, i + 1, tok, fuel - 1);
        if r.Going? || r.Accepting? {
          assert r.branches[..|curr|] == r.branches[..|p.branches|][..|curr|];
        }
      }
    }
  }

  /** A round that goes on or accepts lists the shifted branches first, in order, the reductions after them. */
  lemma RoundExtends(edges: seq<Edge<Symbol>>, ds: seq<Items>, orders: seq<seq<Item>>, start: nat, src: seq<Token>,
                     last: seq<Branch>, next: nat, fuel: nat)
    requires Enumerated(ds, orders)
    ensures var r := Round(edges, ds, orders, start, src, last, next, fuel);
      (r.Going? || r.Accepting?) ==> Extends(r.branches, Shifts(edges, |ds|, last, TokenAt(src, next)).value)
  {
    var s := Shifts(edges, |ds|, last, TokenAt(src, next));
    if s.Some? {
      ReduceFromExtends(edges, ds, orders, start, s.value, 0, TokenAt(src, Advance(src, next)), fuel);
    }
  }

  /** The driver starts from a sound list. */
  lemma InitialSound(start: nat, n: nat)
    requires start < n
    ensures Sound(Initial(start), n)
  {
  }

  /**
   * A round keeps the branches sound, and an accepting round has a last
   * branch to build the tree from.
   */
  lemma RoundSound(edges: seq<Edge<Symbol>>, ds: seq<Items>, orders: seq<seq<Item>>, start: nat, src: seq<Token>,
                   last: seq<Branch>, next: nat, fuel: nat)
    requires Enumerated(ds, orders) && EdgesInRange(edges, |ds|) && Sound(last, |ds|)
    ensures var r := Round(edges, ds, orders, start, src, last, next, fuel);
      && (r.Going? ==> Sound(r.branches, |ds|))
      && (r.Accepting? ==> |r.branches| > 0)
  {
    ShiftsSound(edges, |ds|, last, TokenAt(src, next));
    var curr := Shifts(edges, |ds|, last, TokenAt(src, next)).value;
    ReduceFromSound(edges, ds, orders, start, curr, 0, TokenAt(src, Advance(src, next)), fuel);
  }

  /** A tree returned reads, leaf by leaf, the first tokens of the input. */
  predicate ReadsPrefix(r: Outcome, src: seq<Token>)
  {
    r.Success? ==> |ParseTree.Fringe(r.tree)| <= |src| && ParseTree.Fringe(r.tree) == src[..|ParseTree.Fringe(r.tree)|]
  }

  /** A tree built after acceptance reads, leaf by leaf, the first tokens of the input. */
  lemma FinishSound(curr: seq<Branch>, src: seq<Token>)
    ensures ReadsPrefix(Finish(curr, src), src)
  {
    if |curr| > 0 {
      Derivations.InOrderFringe(Re.Reverse(curr[|curr| - 1].derivations), src, false);
    }
  }

  /** A tree the driver returns reads, leaf by leaf, the first tokens of the input. */
  lemma RunSound(edges: seq<Edge<Symbol>>, ds: seq<Items>, orders: seq<seq<Item>>, start: nat,
                 src: seq<Token>, last: seq<Branch>, next: nat, fuel: nat)
    requires Enumerated(ds, orders)
    ensures ReadsPrefix(RunGLR(edges, ds, orders, start, src, last, next, fuel), src)
  {
    match Rounds(edges, ds, orders, start, src, last, next, fuel)
    case Accepted(bs) => FinishSound(bs, src);
    case Halted(_) =>
  }
}
