/**
 * `parse_with_graph` of src/parser/lrparser.rs: the LR driver that reads
 * its decisions straight off the automaton's item sets instead of a table.
 *
 * In each state it shifts when the automaton has a transition on the
 * token and no completed item whose lookaheads admit the token binds
 * tighter than the items that shift; otherwise it reduces by the first
 * completed item of least precedence whose lookaheads admit the token.
 * The item sets are hash maps visited in an unspecified order, which is a
 * parameter here.
 */
module LRGraph {
  import opened Wrappers
  import opened Grammar
  import opened Graph
  import opened Automaton
  import opened LRItems
  import opened LRTable
  import opened LRParse
  import opened ParseTree

  /** Each state's order lists exactly its items. */
  predicate Enumerated(ds: seq<Items>, orders: seq<seq<Item>>)
  {
    |orders| == |ds| && forall s :: 0 <= s < |ds| ==> Lists(orders[s], ds[s])
  }

  /** The item's term after the dot is a terminal that matches the token. */
  predicate ShiftsOn(it: Item, tok: Token)
  {
    it.pos < |it.rule.expr.terms| && it.rule.expr.terms[it.pos].Terminal? && MatchToken(it.rule.expr.terms[it.pos], tok)
  }

  /** The lookahead test of both loops: no lookaheads at all, or the token itself, or its type. */
  predicate Admits(ahead: set<Symbol>, tok: Token)
  {
    |ahead| == 0 || T(tok.type_, Some(tok.value)) in ahead || T(tok.type_, None) in ahead
  }

  /** A completed item that admits the token and asks to reduce. */
  predicate Reducible(d: Items, it: Item, tok: Token)
  {
    it in d && Completed(it) && Admits(d[it], tok)
  }

  /** The shift loses to a reduce by `rule`: lower precedence, or equal and left-associative. */
  predicate Beats(rule: Production, sp: nat)
  {
    rule.precedence < sp || (rule.precedence == sp && rule.associativity == Left)
  }

  /** The least precedence among the items of `order` that shift on the token. */
  function MinShift(order: seq<Item>, tok: Token): Option<nat>
  {
    if |order| == 0 then None
    else
      var sp := MinShift(order[..|order| - 1], tok);
      var it := order[|order| - 1];
      if ShiftsOn(it, tok) && (sp.None? || sp.value > it.rule.precedence) then Some(it.rule.precedence) else sp
  }

  /** The first item of `order` of least precedence among those that reduce. */
  function Choice(d: Items, order: seq<Item>, tok: Token): Option<Item>
  {
    if |order| == 0 then None
    else
      var r := Choice(d, order[..|order| - 1], tok);
      var it := order[|order| - 1];
      if Reducible(d, it, tok) && (r.None? || r.value.rule.precedence > it.rule.precedence) then Some(it) else r
  }

  /** Some completed item that admits the token beats the shift. */
  predicate Conflict(d: Items, tok: Token, sp: nat)
  {
    exists it :: it in d && Reducible(d, it, tok) && Beats(it.rule, sp)
  }

  /** The transition on the token itself, else on its type. */
  function ShiftTarget(edges: seq<Edge<Symbol>>, cur: nat, tok: Token): Option<nat>
  {
    match Automaton.Step(edges, cur, T(tok.type_, Some(tok.value)))
    case Some(q) => Some(q)
    case None => Automaton.Step(edges, cur, T(tok.type_, None))
  }

  /** Reduce by the chosen item, then go to the state the rule's name leads to; accept on `$` from the start. */
  function ReduceTurn(edges: seq<Edge<Symbol>>, start: nat, m: Machine, choice: Option<Item>): Move
  {
    match choice
    case None => Crash
    case Some(it) =>
      match ReduceBy(m, it.rule, it.pos)
      case ReduceCrash => Crash
      case Reduced(stack, out, node, c) =>
        if c == start && it.rule.name == "$" then Accept(node, Machine(stack, out, m.next))
        else match Automaton.Step(edges, c, NT(it.rule.name))
          case None => Crash
          case Some(q) => Continue(Machine(stack + [State(q)], out, m.next))
  }

  /**
   * One turn of the loop, with `match_token` asked only about terminals:
   * an item whose dot stands before a nonterminal cannot shift the token.
   */
  function StepGraph(edges: seq<Edge<Symbol>>, ds: seq<Items>, orders: seq<seq<Item>>, start: nat,
                     src: seq<Token>, m: Machine): (r: Move)
    requires Enumerated(ds, orders)
    ensures !r.Fail?
    ensures (r.Continue? || r.Accept?) ==> m.next <= r.m.next <= m.next + 1
  {
    var tok := TokenAt(src, m.next);
    match Top(m)
    case None => Crash
    case Some(cur) =>
      if cur >= |ds| then Crash
      else
        var reduce := ReduceTurn(edges, start, m, Choice(ds[cur], orders[cur], tok));
        match ShiftTarget(edges, cur, tok)
        case None => reduce
        case Some(q) =>
          match MinShift(orders[cur], tok)
          case None => Crash
          case Some(sp) =>
            if Conflict(ds[cur], tok, sp) then reduce
            else Continue(Machine(m.stack + [TokenItem(tok), State(q)], m.out + [Leaf(tok, m.next)], m.next + 1))
  }

  /** Some item's term after the dot is not a terminal. */
  predicate Unmatchable(d: Items)
  {
    exists it :: it in d && it.pos < |it.rule.expr.terms| && !it.rule.expr.terms[it.pos].Terminal?
  }

  /**
   * One turn as the source is written: the loop that computes the shift
   * precedence calls `match_token` on the term after the dot of every
   * item that is not completed, and `match_token` panics on a nonterminal.
   */
  function StepGraphAsWritten(edges: seq<Edge<Symbol>>, ds: seq<Items>, orders: seq<seq<Item>>, start: nat,
                              src: seq<Token>, m: Machine): (r: Move)
    requires Enumerated(ds, orders)
    ensures !r.Crash? ==> r == StepGraph(edges, ds, orders, start, src, m)
  {
    match Top(m)
    case None => Crash
    case Some(cur) =>
      if cur < |ds| && ShiftTarget(edges, cur, TokenAt(src, m.next)).Some? && Unmatchable(ds[cur]) then Crash
      else StepGraph(edges, ds, orders, start, src, m)
  }

  /** The loop run for at most fuel turns. */
  function RunGraph(edges: seq<Edge<Symbol>>, ds: seq<Items>, orders: seq<seq<Item>>, start: nat,
                    src: seq<Token>, m: Machine, fuel: nat): (r: Move)
    requires Enumerated(ds, orders)
    ensures !r.Fail?
    ensures (r.Continue? || r.Accept?) ==> m.next <= r.m.next <= m.next + fuel
    decreases fuel
  {
    if fuel == 0 then Continue(m)
    else match StepGraph(edges, ds, orders, start, src, m)
      case Continue(m') => RunGraph(edges, ds, orders, start, src, m', fuel - 1)
      case other => other
  }

  /** The loop as written, run for at most fuel turns. */
  function RunGraphAsWritten(edges: seq<Edge<Symbol>>, ds: seq<Items>, orders: seq<seq<Item>>, start: nat,
                             src: seq<Token>, m: Machine, fuel: nat): (r: Move)
    requires Enumerated(ds, orders)
    ensures !r.Crash? ==> r == RunGraph(edges, ds, orders, start, src, m, fuel)
    decreases fuel
  {
    if fuel == 0 then Continue(m)
    else match StepGraphAsWritten(edges, ds, orders, start, src, m)
      case Continue(m') => RunGraphAsWritten(edges, ds, orders, start, src, m', fuel - 1)
      case other => other
  }

  // ---------------------------------------------------------------------------
  // The two loops over a state's items
  // ---------------------------------------------------------------------------

  /**
   * The shift precedence is the least precedence of the items that shift
   * on the token, whatever the order; there is none iff no item does.
   */
  lemma {:induction false} MinShiftSpec(order: seq<Item>, tok: Token)
    ensures MinShift(order, tok).None? <==> forall i :: 0 <= i < |order| ==> !ShiftsOn(order[i], tok)
    ensures MinShift(order, tok).Some? ==>
      && (exists i :: 0 <= i < |order| && ShiftsOn(order[i], tok) && order[i].rule.precedence == MinShift(order, tok).value)
      && (forall i :: 0 <= i < |order| && ShiftsOn(order[i], tok) ==> MinShift(order, tok).value <= order[i].rule.precedence)
  {
    if |order| > 0 {
      var init := order[..|order| - 1];
      MinShiftSpec(init, tok);
      assert forall i :: 0 <= i < |init| ==> init[i] == order[i];
      var sp := MinShift(init, tok);
      if sp.Some? && MinShift(order, tok) == sp {
        var i :| 0 <= i < |init| && ShiftsOn(init[i], tok) && init[i].rule.precedence == sp.value;
        assert order[i] == init[i];
      }
    }
  }

  /**
   * The reduce loop picks an item that reduces, of least precedence, and
   * the first such in the order; it finds none iff no item reduces.
   */
  lemma {:induction false} ChoiceSpec(d: Items, order: seq<Item>, tok: Token)
    requires Lists(order, d)
    ensures Choice(d, order, tok).None? <==> forall it :: it in d ==> !Reducible(d, it, tok)
    ensures Choice(d, order, tok).Some? ==>
      var it := Choice(d, order, tok).value;
      && Reducible(d, it, tok)
      && (forall jt :: jt in d && Reducible(d, jt, tok) ==> it.rule.precedence <= jt.rule.precedence)
      && exists i :: 0 <= i < |order| && order[i] == it &&
           forall j :: 0 <= j < i && Reducible(d, order[j], tok) ==> order[j].rule.precedence > it.rule.precedence
  {
    ChoicePrefix(d, order, tok);
    if Choice(d, order, tok).Some? {
      var it := Choice(d, order, tok).value;
      forall jt | jt in d && Reducible(d, jt, tok) ensures it.rule.precedence <= jt.rule.precedence {
        var j :| 0 <= j < |order| && order[j] == jt;
      }
    } else {
      forall jt | jt in d ensures !Reducible(d, jt, tok) {
        var j :| 0 <= j < |order| && order[j] == jt;
      }
    }
  }

  /** The same, stated over the order alone, for every prefix length. */
  lemma {:induction false} ChoicePrefix(d: Items, order: seq<Item>, tok: Token)
    ensures Choice(d, order, tok).None? <==> forall i :: 0 <= i < |order| ==> !Reducible(d, order[i], tok)
    ensures Choice(d, order, tok).Some? ==>
      var it := Choice(d, order, tok).value;
      && Reducible(d, it, tok)
      && (forall j :: 0 <= j < |order| && Reducible(d, order[j], tok) ==> it.rule.precedence <= order[j].rule.precedence)
      && exists i :: 0 <= i < |order| && order[i] == it &&
           forall j :: 0 <= j < i && Reducible(d, order[j], tok) ==> order[j].rule.precedence > it.rule.precedence
  {
    if |order| > 0 {
      var init := order[..|order| - 1];
      ChoicePrefix(d, init, tok);
      assert forall i :: 0 <= i < |init| ==> init[i] == order[i];
      var r := Choice(d, init, tok);
      if r.Some? && Choice(d, order, tok) == r {
        var i :| 0 <= i < |init| && init[i] == r.value &&
          forall j :: 0 <= j < i && Reducible(d, init[j], tok) ==> init[j].rule.precedence > r.value.rule.precedence;
        assert order[i] == r.value;
      }
    }
  }

  /** `for (item, _) in data { .. }` computing the shift precedence. */
  method ShiftPrecedence(order: seq<Item>, tok: Token) returns (sp: Option<nat>)
    ensures sp == MinShift(order, tok)
  {
    sp := None;
    for i := 0 to |order|
      invariant sp == MinShift(order[..i], tok)
    {
      assert order[..i + 1][..i] == order[..i];
      var it := order[i];
      if it.pos < |it.rule.expr.terms| && it.rule.expr.terms[it.pos].Terminal? && MatchToken(it.rule.expr.terms[it.pos], tok) {
        if sp == None || sp.value > it.rule.precedence {
          sp := Some(it.rule.precedence);
        }
      }
    }
    assert order[..|order|] == order;
  }

  /** `for (item, ahead) in data { .. break }` looking for a completed item that beats the shift. */
  method FindConflict(d: Items, order: seq<Item>, tok: Token, sp: nat) returns (conflict: bool)
    requires Lists(order, d)
    ensures conflict <==> Conflict(d, tok, sp)
  {
    conflict := false;
    var i := 0;
    while i < |order|
      invariant i <= |order|
      invariant forall j :: 0 <= j < i ==> !(Reducible(d, order[j], tok) && Beats(order[j].rule, sp))
    {
      var it := order[i];
      if it.pos == |it.rule.expr.terms| {
        var ahead := d[it];
        if Admits(ahead, tok) && Beats(it.rule, sp) {
          conflict := true;
          return;
        }
      }
      i := i + 1;
    }
  }

  /** `for (item, ahead) in data { .. }` choosing the reduce item. */
  method ChooseReduce(d: Items, order: seq<Item>, tok: Token) returns (r: Option<Item>)
    requires Lists(order, d)
    ensures r == Choice(d, order, tok)
  {
    r := None;
    for i := 0 to |order|
      invariant r == Choice(d, order[..i], tok)
    {
      assert order[..i + 1][..i] == order[..i];
      var it := order[i];
      if it.pos == |it.rule.expr.terms| && Admits(d[it], tok) {
        if r == None || r.value.rule.precedence > it.rule.precedence {
          r := Some(it);
        }
      }
    }
    assert order[..|order|] == order;
  }

  // ---------------------------------------------------------------------------
  // The driver
  // ---------------------------------------------------------------------------

  /** The reduce half of a turn, on the loop's own variables. */
  method TurnReduce(graph: Automaton.StateTransferGraph<Items, Symbol>, stack: seq<StackItem>, out: seq<Node>,
                    next: nat, choice: Option<Item>) returns (mv: Move)
    requires graph.Valid()
    requires choice.Some? ==> Completed(choice.value)
    ensures mv == ReduceTurn(graph.edges, graph.start, Machine(stack, out, next), choice)
  {
    if choice.None? {
      return Crash;
    }
    var it := choice.value;
    var stack', out', node, ok := PopRule(stack, out, it.rule, next);
    if !ok {
      return Crash;
    }
    out' := out' + [node];
    if |stack'| == 0 || !stack'[|stack'| - 1].State? {
      return Crash;
    }
    var c := stack'[|stack'| - 1].state;
    stack' := stack' + [SymbolItem(it.rule.name)];
    if c == graph.start && it.rule.name == "$" {
      return Accept(node, Machine(stack', out', next));
    }
    if c >= |graph.vertices| {
      StepOutside(graph, c, NT(it.rule.name));
      return Crash;
    }
    var q := graph.GetTransition(c, NT(it.rule.name));
    if q.None? {
      return Crash;
    }
    return Continue(Machine(stack' + [State(q.value)], out', next));
  }

  /** A state outside the graph has no transitions. */
  lemma StepOutside(graph: Automaton.StateTransferGraph<Items, Symbol>, c: nat, x: Symbol)
    requires graph.Valid() && c >= |graph.vertices|
    ensures Automaton.Step(graph.edges, c, x).None?
  {
    StepSpec(graph.edges, c, x);
  }

  /** One turn of the loop of `parse_with_graph`, on the loop's own variables. */
  method TurnGraph(graph: Automaton.StateTransferGraph<Items, Symbol>, orders: seq<seq<Item>>, src: seq<Token>,
                   stack: seq<StackItem>, out: seq<Node>, next: nat) returns (mv: Move)
    requires graph.Valid() && Enumerated(Datas(graph.vertices), orders)
    ensures mv == StepGraph(graph.edges, Datas(graph.vertices), orders, graph.start, src, Machine(stack, out, next))
  {
    var tok := TokenAt(src, next);
    if |stack| == 0 || !stack[|stack| - 1].State? {
      return Crash;
    }
    var cur := stack[|stack| - 1].state;
    if cur >= |graph.vertices| {
      return Crash;
    }
    var data := graph.vertices[cur].data;
    var order := orders[cur];
    var target := graph.GetTransition(cur, T(tok.type_, Some(tok.value)));
    if target.None? {
      target := graph.GetTransition(cur, T(tok.type_, None));
    }
    if target.Some? {
      var sp := ShiftPrecedence(order, tok);
      if sp.None? {
        return Crash;
      }
      var conflict := FindConflict(data, order, tok, sp.value);
      if !conflict {
        return Continue(Machine(stack + [TokenItem(tok), State(target.value)], out + [Leaf(tok, next)], next + 1));
      }
    }
    var choice := ChooseReduce(data, order, tok);
    ChoiceSpec(data, order, tok);
    mv := TurnReduce(graph, stack, out, next, choice);
  }

  /**
   * `parse_with_graph` with `match_token` asked only about terminals, its
   * unbounded loop cut off after fuel turns.
   */
  method ParseWithGraph(src: seq<Token>, graph: Automaton.StateTransferGraph<Items, Symbol>, orders: seq<seq<Item>>,
                        fuel: nat) returns (r: Outcome)
    requires graph.Valid() && Enumerated(Datas(graph.vertices), orders)
    ensures r == Conclude(RunGraph(graph.edges, Datas(graph.vertices), orders, graph.start, src, Init(graph.start), fuel))
  {
    var stack := [State(graph.start)];
    var out: seq<Node> := [];
    var next: nat := 0;
    var steps := fuel;
    ghost var goal := RunGraph(graph.edges, Datas(graph.vertices), orders, graph.start, src, Init(graph.start), fuel);
    while steps > 0
      invariant RunGraph(graph.edges, Datas(graph.vertices), orders, graph.start, src, Machine(stack, out, next), steps) == goal
    {
      var mv := TurnGraph(graph, orders, src, stack, out, next);
      match mv {
        case Continue(m) =>
          stack, out, next := m.stack, m.out, m.next;
        case Accept(node, _) =>
          if |node.childs| == 0 {
            return Panic;
          }
          return Success(node.childs[0]);
        case Fail(i) =>
          return Failure(i);
        case Crash =>
          return Panic;
      }
      steps := steps - 1;
    }
    return OutOfFuel;
  }

  // ---------------------------------------------------------------------------
  // What the loop keeps
  // ---------------------------------------------------------------------------

  /** Every edge ends at one of the n states, and none returns to the start. */
  predicate GraphClosed(edges: seq<Edge<Symbol>>, n: nat, start: nat)
  {
    start < n && forall k :: 0 <= k < |edges| ==> edges[k].outVertex < n && edges[k].outVertex != start
  }

  /** A transition of a closed automaton stays inside it and away from the start. */
  lemma StepClosed(edges: seq<Edge<Symbol>>, n: nat, start: nat, s: nat, x: Symbol)
    requires GraphClosed(edges, n, start) && Automaton.Step(edges, s, x).Some?
    ensures Automaton.Step(edges, s, x).value < n && Automaton.Step(edges, s, x).value != start
  {
    StepSpec(edges, s, x);
  }

  /**
   * What a run that keeps the invariant ends with: a machine that still
   * keeps it, or an accepted `$` node whose leaves are the tokens read.
   */
  predicate Finished(n: nat, start: nat, src: seq<Token>, mv: Move)
  {
    && (mv.Continue? ==> Good(n, start, src, mv.m))
    && (mv.Accept? ==>
      && FringeOf(mv.node.childs) == Consumed(src, mv.m.next)
      && mv.node.value.NonTerminalNode? && mv.node.value.nt.type_ == "$")
  }

  /** The guarantees of one turn: accepting puts every subtree under the `$` node. */
  predicate GraphTurnOk(n: nat, start: nat, src: seq<Token>, m: Machine, mv: Move)
  {
    Finished(n, start, src, mv) && (mv.Accept? ==> mv.node.childs == m.out)
  }

  /** The reduce half of a turn keeps the invariant, and accepts only with every subtree under the `$` node. */
  lemma ReduceTurnGood(edges: seq<Edge<Symbol>>, n: nat, start: nat, src: seq<Token>, m: Machine, choice: Option<Item>)
    requires GraphClosed(edges, n, start) && Good(n, start, src, m)
    requires choice.Some? ==> Completed(choice.value)
    ensures GraphTurnOk(n, start, src, m, ReduceTurn(edges, start, m, choice))
  {
    if choice.Some? && |m.out| >= choice.value.pos {
      var rule := choice.value.rule;
      ReduceGood(n, start, src, m, rule);
      var r := ReduceBy(m, rule, |rule.expr.terms|);
      if r.exposed == start && rule.name == "$" {
        assert FromProduction(rule).type_ == "$";
      } else if Automaton.Step(edges, r.exposed, NT(rule.name)).Some? {
        StepClosed(edges, n, start, r.exposed, NT(rule.name));
        GotoGood(n, start, src, m, rule, Automaton.Step(edges, r.exposed, NT(rule.name)).value);
      }
    }
  }

  /** One turn keeps the invariant. */
  lemma StepGraphGood(edges: seq<Edge<Symbol>>, ds: seq<Items>, orders: seq<seq<Item>>, start: nat,
                      src: seq<Token>, m: Machine)
    requires Enumerated(ds, orders) && GraphClosed(edges, |ds|, start) && Good(|ds|, start, src, m)
    ensures GraphTurnOk(|ds|, start, src, m, StepGraph(edges, ds, orders, start, src, m))
  {
    var tok := TokenAt(src, m.next);
    var cur := m.stack[|m.stack| - 1].state;
    assert Top(m) == Some(cur);
    var choice := Choice(ds[cur], orders[cur], tok);
    ChoiceSpec(ds[cur], orders[cur], tok);
    ReduceTurnGood(edges, |ds|, start, src, m, choice);
    var x := if Automaton.Step(edges, cur, T(tok.type_, Some(tok.value))).Some? then T(tok.type_, Some(tok.value)) else T(tok.type_, None);
    if Automaton.Step(edges, cur, x).Some? {
      StepClosed(edges, |ds|, start, cur, x);
      ShiftGood(|ds|, start, src, m, Automaton.Step(edges, cur, x).value);
    }
  }

  /** The loop keeps the invariant for any number of turns. */
  lemma {:induction false} RunGraphGood(edges: seq<Edge<Symbol>>, ds: seq<Items>, orders: seq<seq<Item>>, start: nat,
                                        src: seq<Token>, m: Machine, fuel: nat)
    requires Enumerated(ds, orders) && GraphClosed(edges, |ds|, start) && Good(|ds|, start, src, m)
    ensures Finished(|ds|, start, src, RunGraph(edges, ds, orders, start, src, m, fuel))
    decreases fuel
  {
    var r := RunGraph(edges, ds, orders, start, src, m, fuel);
    if fuel == 0 {
      assert r == Continue(m);
    } else {
      var mv := StepGraph(edges, ds, orders, start, src, m);
      StepGraphGood(edges, ds, orders, start, src, m);
      if mv.Continue? {
        RunGraphGood(edges, ds, orders, start, src, mv.m, fuel - 1);
        var r' := RunGraph(edges, ds, orders, start, src, mv.m, fuel - 1);
        assert Finished(|ds|, start, src, r');
        assert r == r';
      } else {
        assert Finished(|ds|, start, src, mv);
        assert r == mv;
      }
    }
  }

  /**
   * Soundness of the driver on an automaton whose edges stay inside it
   * and never return to the start: when it accepts, the `$` node's
   * subtrees read exactly the tokens consumed.
   */
  lemma GraphSound(edges: seq<Edge<Symbol>>, ds: seq<Items>, orders: seq<seq<Item>>, start: nat, src: seq<Token>, fuel: nat)
    requires Enumerated(ds, orders) && GraphClosed(edges, |ds|, start)
    ensures RunGraph(edges, ds, orders, start, src, Init(start), fuel).Accept? ==>
      var mv := RunGraph(edges, ds, orders, start, src, Init(start), fuel);
      && FringeOf(mv.node.childs) == Consumed(src, mv.m.next)
      && mv.node.value.NonTerminalNode? && mv.node.value.nt.type_ == "$"
  {
    assert Good(|ds|, start, src, Init(start));
    RunGraphGood(edges, ds, orders, start, src, Init(start), fuel);
  }

  // ---------------------------------------------------------------------------
  // `match_token` on a nonterminal
  // ---------------------------------------------------------------------------

  /** Where no item has a nonterminal after its dot, a turn as written is the corrected turn. */
  lemma StepAgrees(edges: seq<Edge<Symbol>>, ds: seq<Items>, orders: seq<seq<Item>>, start: nat,
                   src: seq<Token>, m: Machine)
    requires Enumerated(ds, orders) && forall s :: 0 <= s < |ds| ==> !Unmatchable(ds[s])
    ensures StepGraphAsWritten(edges, ds, orders, start, src, m) == StepGraph(edges, ds, orders, start, src, m)
  {
    if Top(m).Some? && Top(m).value < |ds| {
      assert !Unmatchable(ds[Top(m).value]);
    }
  }

  /** S -> a, and the start rule $ -> S. */
  const ExampleRule := Production("S", "", Expression([Terminal("a", None)]), 0, Left)
  const ExampleStart := Production("$", "", Expression([NonTerminal("S", false)]), 0, Left)

  /** The LR(0) automaton of the grammar, lookaheads included. */
  const ExampleData: seq<Items> := [
    map[Item(ExampleStart, 0) := {T("$", None)}, Item(ExampleRule, 0) := {T("$", None)}],
    map[Item(ExampleRule, 1) := {T("$", None)}],
    map[Item(ExampleStart, 1) := {T("$", None)}]
  ]
  const ExampleOrders: seq<seq<Item>> := [[Item(ExampleStart, 0), Item(ExampleRule, 0)], [Item(ExampleRule, 1)], [Item(ExampleStart, 1)]]
  const ExampleEdges: seq<Edge<Symbol>> := [Edge(0, 1, T("a", None)), Edge(0, 2, NT("S"))]
  const ExampleToken := Lexer.Token("a", "a", 0)

  /** The transitions of the example automaton. */
  lemma ExampleSteps()
    ensures Automaton.Step(ExampleEdges, 0, T("a", Some("a"))) == None
    ensures Automaton.Step(ExampleEdges, 0, T("a", None)) == Some(1)
    ensures Automaton.Step(ExampleEdges, 0, NT("S")) == Some(2)
  {
    assert Outs(ExampleEdges, 0) == [0, 1];
  }

  /** ... and no edge leaves states 1 and 2. */
  lemma ExampleNoStep(s: nat, x: Symbol)
    requires 1 <= s
    ensures Automaton.Step(ExampleEdges, s, x) == None
  {
    StepSpec(ExampleEdges, s, x);
  }

  /** The example is an automaton the drivers accept: closed, with its items listed. */
  lemma ExampleWellFormed()
    ensures Enumerated(ExampleData, ExampleOrders) && GraphClosed(ExampleEdges, 3, 0)
  {
  }

  /** In its first turn on the input `a`, the source's loop panics. */
  lemma ExampleAsWritten()
    requires Enumerated(ExampleData, ExampleOrders)
    ensures Conclude(RunGraphAsWritten(ExampleEdges, ExampleData, ExampleOrders, 0, [ExampleToken], Init(0), 3)) == Panic
  {
    ExampleSteps();
    assert Unmatchable(ExampleData[0]) by {
      assert Item(ExampleStart, 0) in ExampleData[0];
    }
    assert ShiftTarget(ExampleEdges, 0, ExampleToken) == Some(1);
    assert Top(Init(0)) == Some(0) && TokenAt([ExampleToken], 0) == ExampleToken;
    assert StepGraphAsWritten(ExampleEdges, ExampleData, ExampleOrders, 0, [ExampleToken], Init(0)) == Crash;
  }

  /** In the start state, `a` shifts with precedence 0 and no completed item contests it. */
  lemma ExampleShiftPrecedence()
    ensures MinShift(ExampleOrders[0], ExampleToken) == Some(0)
    ensures !Conflict(ExampleData[0], ExampleToken, 0)
  {
    assert ExampleOrders[0][..1] == [Item(ExampleStart, 0)];
    assert [Item(ExampleStart, 0)][..0] == [];
    forall it | it in ExampleData[0] ensures !Completed(it) {
    }
  }

  /** The corrected loop shifts `a` first... */
  lemma ExampleShift()
    requires Enumerated(ExampleData, ExampleOrders)
    ensures StepGraph(ExampleEdges, ExampleData, ExampleOrders, 0, [ExampleToken], Init(0))
         == Continue(Machine([State(0), TokenItem(ExampleToken), State(1)], [Leaf(ExampleToken, 0)], 1))
  {
    ExampleSteps();
    assert ShiftTarget(ExampleEdges, 0, ExampleToken) == Some(1);
    ExampleShiftPrecedence();
    assert Top(Init(0)) == Some(0) && TokenAt([ExampleToken], 0) == ExampleToken;
  }

  /** A reduce by a rule of one term over a stack of one pair exposes state 0. */
  lemma ExamplePop(m: Machine, rule: Production, kid: Node)
    requires |m.stack| == 3 && m.stack[0] == State(0) && m.out == [kid] && |rule.expr.terms| == 1 && kid.index == 0
    ensures var node := Tree.Node(NonTerminalNode(FromProduction(rule)), [kid], 0);
      ReduceBy(m, rule, 1) == Reduced([State(0), SymbolItem(rule.name)], [node], node, 0)
  {
    var kids := m.out[|m.out| - 1..];
    assert kids == [kid];
    var node := Built(rule, kids, m.next);
    assert node == Tree.Node(NonTerminalNode(FromProduction(rule)), [kid], 0);
    assert m.out[..|m.out| - 1] + [node] == [node];
    var st := Popped(m.stack, 1);
    assert st == m.stack[..1] == [State(0)];
  }

  /** ... then reduces by S -> a and goes to state 2... */
  lemma ExampleReduce()
    requires Enumerated(ExampleData, ExampleOrders)
    ensures var leaf := Leaf(ExampleToken, 0);
      StepGraph(ExampleEdges, ExampleData, ExampleOrders, 0, [ExampleToken],
                Machine([State(0), TokenItem(ExampleToken), State(1)], [leaf], 1))
      == Continue(Machine([State(0), SymbolItem("S"), State(2)], [Tree.Node(NonTerminalNode(FromProduction(ExampleRule)), [leaf], 0)], 1))
  {
    ExampleSteps();
    ExampleNoStep(1, T("$", Some("$")));
    ExampleNoStep(1, T("$", None));
    var leaf := Leaf(ExampleToken, 0);
    var m1 := Machine([State(0), TokenItem(ExampleToken), State(1)], [leaf], 1);
    assert ShiftTarget(ExampleEdges, 1, FINISH_TOKEN) == None;
    assert Choice(ExampleData[1], ExampleOrders[1], FINISH_TOKEN) == Some(Item(ExampleRule, 1)) by {
      assert ExampleOrders[1][..0] == [];
    }
    var node := Tree.Node(NonTerminalNode(FromProduction(ExampleRule)), [leaf], 0);
    ExamplePop(m1, ExampleRule, leaf);
    assert ReduceTurn(ExampleEdges, 0, m1, Some(Item(ExampleRule, 1)))
        == Continue(Machine([State(0), SymbolItem("S"), State(2)], [node], 1));
    assert Top(m1) == Some(1);
  }

  /** ... and accepts by the start rule. */
  lemma ExampleAccept()
    requires Enumerated(ExampleData, ExampleOrders)
    ensures var s := Tree.Node(NonTerminalNode(FromProduction(ExampleRule)), [Leaf(ExampleToken, 0)], 0);
      var top := Tree.Node(NonTerminalNode(FromProduction(ExampleStart)), [s], 0);
      StepGraph(ExampleEdges, ExampleData, ExampleOrders, 0, [ExampleToken], Machine([State(0), SymbolItem("S"), State(2)], [s], 1))
      == Accept(top, Machine([State(0), SymbolItem("$")], [top], 1))
  {
    ExampleNoStep(2, T("$", Some("$")));
    ExampleNoStep(2, T("$", None));
    var s := Tree.Node(NonTerminalNode(FromProduction(ExampleRule)), [Leaf(ExampleToken, 0)], 0);
    var m2 := Machine([State(0), SymbolItem("S"), State(2)], [s], 1);
    assert ShiftTarget(ExampleEdges, 2, FINISH_TOKEN) == None;
    assert Choice(ExampleData[2], ExampleOrders[2], FINISH_TOKEN) == Some(Item(ExampleStart, 1)) by {
      assert ExampleOrders[2][..0] == [];
    }
    ExamplePop(m2, ExampleStart, s);
    assert Top(m2) == Some(2);
  }

  /**
   * On the input `a`, the corrected loop shifts `a`, reduces by S -> a,
   * and accepts with the tree S(a), where the source's loop panics.
   */
  lemma MatchTokenCounterexample()
    ensures Enumerated(ExampleData, ExampleOrders) && GraphClosed(ExampleEdges, 3, 0)
    ensures Conclude(RunGraphAsWritten(ExampleEdges, ExampleData, ExampleOrders, 0, [ExampleToken], Init(0), 3)) == Panic
    ensures Conclude(RunGraph(ExampleEdges, ExampleData, ExampleOrders, 0, [ExampleToken], Init(0), 3))
         == Success(Tree.Node(NonTerminalNode(FromProduction(ExampleRule)), [Leaf(ExampleToken, 0)], 0))
  {
    ExampleWellFormed();
    ExampleAsWritten();
    ExampleShift();
    ExampleReduce();
    ExampleAccept();
  }
}
