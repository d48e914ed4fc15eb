/**
 * `parse_with_table` of src/parser/lrparser.rs: the shift-reduce driver.
 *
 * The driver keeps a stack that alternates states with the symbols
 * between them (a state on top), a second stack of finished subtrees and
 * the index of the next token; past the end of the input the lookahead is
 * a `$` token. A shift pushes the token and the target state and a leaf
 * for the token; a reduce pops one (symbol, state) pair and one subtree
 * per term of its rule, puts the subtrees under a new node for the rule,
 * and then follows the goto entry of the state it exposed. Reducing the
 * `$` rule back to state 0 accepts.
 */
module LRParse {
  import opened Wrappers
  import opened Grammar
  import Lexer
  import Tree
  import opened ParseTree
  import opened LRTable

  datatype StackItem = State(state: nat) | SymbolItem(name: string) | TokenItem(token: Token)

  /** The loop state: the state stack, the subtree stack and the next token's index. */
  datatype Machine = Machine(stack: seq<StackItem>, out: seq<Node>, next: nat)

  /** One turn of the loop: go on, accept with the `$` node, return `Err(index)`, or panic. */
  datatype Move = Continue(m: Machine) | Accept(node: Node, m: Machine) | Fail(index: nat) | Crash

  /** What the parse returns, or that it panics, or that it did not stop within the step bound. */
  datatype Outcome = Success(tree: Node) | Failure(index: nat) | Panic | OutOfFuel

  /** The token read past the end of the input. */
  const FINISH_TOKEN: Token := Lexer.Token("$", "$", 0)

  /** The lookahead at index i. */
  function TokenAt(src: seq<Token>, i: nat): Token
  {
    if i < |src| then src[i] else FINISH_TOKEN
  }

  /** The tokens read by the first n shifts. */
  function Consumed(src: seq<Token>, n: nat): (r: seq<Token>)
    ensures |r| == n && forall i :: 0 <= i < n ==> r[i] == TokenAt(src, i)
  {
    seq(n, i requires 0 <= i < n => TokenAt(src, i))
  }

  /** The action for a token: the entry for its type and value, else the one for its type alone. */
  function Lookup(row: Row, tok: Token): (r: Option<Action>)
    ensures r.Some? <==> T(tok.type_, Some(tok.value)) in row || T(tok.type_, None) in row
    ensures T(tok.type_, Some(tok.value)) in row ==> r == Some(row[T(tok.type_, Some(tok.value))])
  {
    var exact := Key(FromToken(tok));
    if exact in row then Some(row[exact])
    else if T(tok.type_, None) in row then Some(row[T(tok.type_, None)])
    else None
  }

  /** The leaf a shift pushes. */
  function Leaf(tok: Token, index: nat): Node
  {
    Tree.Node(TerminalNode(tok), [], index)
  }

  /** The node a reduce builds: the rule's nonterminal over the popped subtrees, indexed like its first one. */
  function Built(rule: Production, kids: seq<Node>, next: nat): Node
  {
    Tree.Node(NonTerminalNode(FromProduction(rule)), kids, if |kids| > 0 then kids[0].index else next)
  }

  /** n pairs popped; a pop from an empty stack does nothing. */
  function Popped(stack: seq<StackItem>, n: nat): (r: seq<StackItem>)
    ensures |r| == if |stack| >= 2 * n then |stack| - 2 * n else 0
  {
    if |stack| >= 2 * n then stack[..|stack| - 2 * n] else []
  }

  /** The stacks after a reduce, the node built and the state exposed. */
  datatype Reduced = Reduced(stack: seq<StackItem>, out: seq<Node>, node: Node, exposed: nat) | ReduceCrash

  /**
   * The reduce by a rule of n terms shared by the drivers: the last n
   * subtrees go under the new node in their order (`expect` panics when
   * fewer are left), n pairs are popped, the state below must be a state,
   * and the rule's name is pushed.
   */
  function ReduceBy(m: Machine, rule: Production, n: nat): Reduced
  {
    if |m.out| < n then ReduceCrash
    else
      var node := Built(rule, m.out[|m.out| - n..], m.next);
      var stack := Popped(m.stack, n);
      if |stack| == 0 || !stack[|stack| - 1].State? then ReduceCrash
      else Reduced(stack + [SymbolItem(rule.name)], m.out[..|m.out| - n] + [node], node, stack[|stack| - 1].state)
  }

  /** The state before the loop: state 0 alone, nothing built, the first token next. */
  function Init(start: nat): (m: Machine)
    ensures m.stack == [State(start)] && m.out == [] && m.next == 0
  {
    Machine([State(start)], [], 0)
  }

  /** The top of the stack, if it is a state. */
  function Top(m: Machine): Option<nat>
  {
    if |m.stack| > 0 && m.stack[|m.stack| - 1].State? then Some(m.stack[|m.stack| - 1].state) else None
  }

  /** One turn of the loop of `parse_with_table`. */
  function StepTable(table: Table, src: seq<Token>, m: Machine): (r: Move)
    ensures (r.Continue? || r.Accept?) ==> m.next <= r.m.next <= m.next + 1
    ensures r.Fail? ==> r.index == m.next
  {
    var tok := TokenAt(src, m.next);
    match Top(m)
    case None => Crash
    case Some(cur) =>
      if cur >= |table| then Crash
      else match Lookup(table[cur], tok)
        case None => Fail(m.next)
        case Some(Shift(q)) =>
          Continue(Machine(m.stack + [TokenItem(tok), State(q)], m.out + [Leaf(tok, m.next)], m.next + 1))
        case Some(Reduce(rule)) =>
          match ReduceBy(m, rule, |rule.expr.terms|)
          case ReduceCrash => Crash
          case Reduced(stack, out, node, c) =>
            if c == 0 && rule.name == "$" then Accept(node, Machine(stack, out, m.next))
            else if c >= |table| then Crash
            else if NT(rule.name) in table[c] && table[c][NT(rule.name)].Shift? then
              Continue(Machine(stack + [State(table[c][NT(rule.name)].target)], out, m.next))
            else Fail(m.next)
  }

  /** The loop run for at most fuel turns; a `Continue` result means the bound ran out. */
  function RunTable(table: Table, src: seq<Token>, m: Machine, fuel: nat): (r: Move)
    ensures (r.Continue? || r.Accept?) ==> m.next <= r.m.next <= m.next + fuel
    ensures r.Fail? ==> m.next <= r.index <= m.next + fuel
    decreases fuel
  {
    if fuel == 0 then Continue(m)
    else match StepTable(table, src, m)
      case Continue(m') => RunTable(table, src, m', fuel - 1)
      case other => other
  }

  /** What the parse returns once the loop stops: the accepted node's first child, removed with `childs.remove(0)`. */
  function Conclude(mv: Move): Outcome
  {
    match mv
    case Continue(_) => OutOfFuel
    case Accept(node, _) => if |node.childs| == 0 then Panic else Success(node.childs[0])
    case Fail(i) => Failure(i)
    case Crash => Panic
  }

  // ---------------------------------------------------------------------------
  // The driver
  // ---------------------------------------------------------------------------

  /** The popping loop of a reduce: n times two pops from the state stack and one subtree moved to the front of the node's children. */
  method PopRule(stack0: seq<StackItem>, out0: seq<Node>, rule: Production, next: nat)
    returns (stack: seq<StackItem>, out: seq<Node>, node: Node, ok: bool)
    ensures ok <==> |out0| >= |rule.expr.terms|
    ensures ok ==> stack == Popped(stack0, |rule.expr.terms|)
    ensures ok ==> out == out0[..|out0| - |rule.expr.terms|]
    ensures ok ==> node == Built(rule, out0[|out0| - |rule.expr.terms|..], next)
  {
    var n := |rule.expr.terms|;
    stack, out := stack0, out0;
    node := Tree.Node(NonTerminalNode(FromProduction(rule)), [], next);
    for k := 0 to n
      invariant |out0| >= k
      invariant out == out0[..|out0| - k] && stack == Popped(stack0, k)
      invariant node == Built(rule, out0[|out0| - k..], next)
    {
      if |stack| > 0 { stack := stack[..|stack| - 1]; }
      if |stack| > 0 { stack := stack[..|stack| - 1]; }
      if |out| == 0 {
        return stack, out, node, false;
      }
      var c := out[|out| - 1];
      out := out[..|out| - 1];
      node := node.(index := c.index, childs := [c] + node.childs);
      assert out0[|out0| - (k + 1)..] == [c] + out0[|out0| - k..];
    }
    ok := true;
  }

  /** One turn of the loop of `parse_with_table`, on the loop's own variables. */
  method TurnTable(table: Table, src: seq<Token>, stack: seq<StackItem>, out: seq<Node>, next: nat) returns (mv: Move)
    ensures mv == StepTable(table, src, Machine(stack, out, next))
  {
    var token := if next < |src| then src[next] else FINISH_TOKEN;
    if |stack| == 0 || !stack[|stack| - 1].State? {
      return Crash;
    }
    var curr := stack[|stack| - 1].state;
    if curr >= |table| {
      return Crash;
    }
    match Lookup(table[curr], token) {
      case None =>
        return Fail(next);
      case Some(Shift(q)) =>
        return Continue(Machine(stack + [TokenItem(token), State(q)], out + [Leaf(token, next)], next + 1));
      case Some(Reduce(rule)) =>
        var stack', out', node, ok := PopRule(stack, out, rule, next);
        if !ok {
          return Crash;
        }
        out' := out' + [node];
        if |stack'| == 0 || !stack'[|stack'| - 1].State? {
          return Crash;
        }
        var c := stack'[|stack'| - 1].state;
        stack' := stack' + [SymbolItem(rule.name)];
        if c == 0 && rule.name == "$" {
          return Accept(node, Machine(stack', out', next));
        }
        if c >= |table| {
          return Crash;
        }
        if NT(rule.name) in table[c] && table[c][NT(rule.name)].Shift? {
          return Continue(Machine(stack' + [State(table[c][NT(rule.name)].target)], out', next));
        }
        return Fail(next);
    }
  }

  /**
   * `parse_with_table`, its unbounded loop cut off after fuel turns.
   * `Failure(i)` is `Err(ParseError { index: i, .. })`.
   */
  method ParseWithTable(src: seq<Token>, table: Table, fuel: nat) returns (r: Outcome)
    ensures r == Conclude(RunTable(table, src, Init(0), fuel))
  {
    var stack := [State(0)];
    var out: seq<Node> := [];
    var next: nat := 0;
    var steps := fuel;
    ghost var goal := RunTable(table, src, Init(0), fuel);
    while steps > 0
      invariant RunTable(table, src, Machine(stack, out, next), steps) == goal
    {
      var mv := TurnTable(table, src, stack, out, next);
      match mv {
        case Continue(m) =>
          stack, out, next := m.stack, m.out, m.next;
        case Accept(node, _) =>
          if |node.childs| == 0 {
            return Panic;
          }
          return Success(node.childs[0]);
        case Fail(i) =>
          return Failure(i);
        case Crash =>
          return Panic;
      }
      steps := steps - 1;
    }
    return OutOfFuel;
  }

  // ---------------------------------------------------------------------------
  // What the loop keeps
  // ---------------------------------------------------------------------------

  /** The stack alternates states and symbols, with a state at both ends, and holds one pair per subtree. */
  predicate Shaped(m: Machine)
  {
    |m.stack| == 2 * |m.out| + 1 && forall i :: 0 <= i < |m.stack| ==> (m.stack[i].State? <==> i % 2 == 0)
  }

  /** Every state on the stack is one of the n states. */
  predicate InRange(n: nat, m: Machine)
  {
    forall i :: 0 <= i < |m.stack| && m.stack[i].State? ==> m.stack[i].state < n
  }

  /** The start state is at the bottom of the stack and nowhere else. */
  predicate StartAtBottom(start: nat, m: Machine)
  {
    |m.stack| > 0 && m.stack[0] == State(start) && forall i :: 0 < i < |m.stack| && m.stack[i].State? ==> m.stack[i].state != start
  }

  /** The leaves of the subtrees, left to right, are the tokens read so far. */
  predicate Read(src: seq<Token>, m: Machine)
  {
    FringeOf(m.out) == Consumed(src, m.next)
  }

  /** Every shift and goto entry names a row of the table, and there is a row 0. */
  predicate Closed(table: Table)
  {
    |table| > 0 && forall s, x :: 0 <= s < |table| && x in table[s] && table[s][x].Shift? ==> table[s][x].target < |table|
  }

  /** No shift or goto entry leads back to state 0. */
  predicate NoReturn(table: Table)
  {
    forall s, x :: 0 <= s < |table| && x in table[s] && table[s][x].Shift? ==> table[s][x].target != 0
  }

  /** What the loop keeps, for an automaton of n states started in `start`. */
  predicate Good(n: nat, start: nat, src: seq<Token>, m: Machine)
  {
    Shaped(m) && InRange(n, m) && StartAtBottom(start, m) && Read(src, m)
  }

  /** The stack with its last k pairs popped keeps its shape. */
  lemma PoppedShape(m: Machine, k: nat)
    requires Shaped(m) && k <= |m.out|
    ensures var st := Popped(m.stack, k);
      |st| == 2 * (|m.out| - k) + 1 && st == m.stack[..|st|] && st[|st| - 1].State?
  {
  }

  /** The subtrees split at any point read the same leaves. */
  lemma FringeSplit(out: seq<Node>, k: nat, node: Node)
    requires k <= |out| && node.value.NonTerminalNode? && node.childs == out[k..]
    ensures FringeOf(out[..k] + [node]) == FringeOf(out)
  {
    FringeOfAppend(out[..k], [node]);
    FringeOfAppend(out[..k], out[k..]);
    assert out[..k] + out[k..] == out;
    assert [node][1..] == [];
    assert FringeOf([node]) == Fringe(node) + FringeOf([]);
    assert Fringe(node) == FringeOf(out[k..]);
  }

  /**
   * A shift keeps the invariant: the leaf of the token read goes on top,
   * with its state.
   */
  lemma ShiftGood(n: nat, start: nat, src: seq<Token>, m: Machine, q: nat)
    requires Good(n, start, src, m) && q < n && q != start
    ensures var tok := TokenAt(src, m.next);
      Good(n, start, src, Machine(m.stack + [TokenItem(tok), State(q)], m.out + [Leaf(tok, m.next)], m.next + 1))
  {
    var tok := TokenAt(src, m.next);
    FringeOfAppend(m.out, [Leaf(tok, m.next)]);
    assert FringeOf([Leaf(tok, m.next)]) == [tok];
    assert Consumed(src, m.next + 1) == Consumed(src, m.next) + [tok];
  }

  /**
   * A reduce keeps the shape and the leaves, and the state it exposes is
   * one of the automaton's; it is the start state only when every subtree
   * went under the new node.
   */
  lemma ReduceGood(n: nat, start: nat, src: seq<Token>, m: Machine, rule: Production)
    requires Good(n, start, src, m) && |m.out| >= |rule.expr.terms|
    ensures ReduceBy(m, rule, |rule.expr.terms|).Reduced?
    ensures var r := ReduceBy(m, rule, |rule.expr.terms|);
      && r.exposed < n
      && r.node == Built(rule, m.out[|m.out| - |rule.expr.terms|..], m.next)
      && FringeOf(r.out) == Consumed(src, m.next)
      && (r.exposed == start ==> r.node.childs == m.out && r.stack == [State(start), SymbolItem(rule.name)])
  {
    var k := |rule.expr.terms|;
    PoppedShape(m, k);
    var st := Popped(m.stack, k);
    var node := Built(rule, m.out[|m.out| - k..], m.next);
    FringeSplit(m.out, |m.out| - k, node);
    if st[|st| - 1].state == start {
      assert |st| == 1;
      assert m.out[|m.out| - k..] == m.out;
    }
  }

  /** ... and so does the goto that follows it, to any state but the start. */
  lemma GotoGood(n: nat, start: nat, src: seq<Token>, m: Machine, rule: Production, q: nat)
    requires Good(n, start, src, m) && |m.out| >= |rule.expr.terms| && q < n && q != start
    ensures ReduceBy(m, rule, |rule.expr.terms|).Reduced?
    ensures var r := ReduceBy(m, rule, |rule.expr.terms|);
      Good(n, start, src, Machine(r.stack + [State(q)], r.out, m.next))
  {
    var k := |rule.expr.terms|;
    PoppedShape(m, k);
    var st := Popped(m.stack, k);
    var node := Built(rule, m.out[|m.out| - k..], m.next);
    var out := m.out[..|m.out| - k] + [node];
    assert ReduceBy(m, rule, k) == Reduced(st + [SymbolItem(rule.name)], out, node, st[|st| - 1].state);
    FringeSplit(m.out, |m.out| - k, node);
    var ns := st + [SymbolItem(rule.name), State(q)];
    assert st + [SymbolItem(rule.name)] + [State(q)] == ns;
    var m' := Machine(ns, out, m.next);
    assert |ns| == 2 * |out| + 1;
    forall i | 0 <= i < |ns|
      ensures ns[i].State? <==> i % 2 == 0
      ensures ns[i].State? ==> ns[i].state < n && (i > 0 ==> ns[i].state != start)
    {
      if i < |st| {
        assert ns[i] == m.stack[i];
      }
    }
    assert Shaped(m') && InRange(n, m') && StartAtBottom(start, m') && Read(src, m');
  }

  /** The guarantees of one turn from a machine that keeps the invariant. */
  ghost predicate TurnOk(table: Table, src: seq<Token>, m: Machine, mv: Move)
    requires |m.stack| > 0 && m.stack[|m.stack| - 1].State? && m.stack[|m.stack| - 1].state < |table|
  {
    && (mv.Continue? ==> Good(|table|, 0, src, mv.m))
    && (mv.Crash? ==>
      exists rule :: Lookup(table[m.stack[|m.stack| - 1].state], TokenAt(src, m.next)) == Some(Reduce(rule)) && |rule.expr.terms| > |m.out|)
    && (mv.Accept? ==>
      && mv.node.childs == m.out && FringeOf(mv.node.childs) == Consumed(src, mv.m.next)
      && mv.node.value.NonTerminalNode? && mv.node.value.nt.type_ == "$")
  }

  /** A turn that shifts keeps the invariant. */
  lemma TurnShift(table: Table, src: seq<Token>, m: Machine, q: nat)
    requires Closed(table) && NoReturn(table) && Good(|table|, 0, src, m)
    requires Lookup(table[m.stack[|m.stack| - 1].state], TokenAt(src, m.next)) == Some(Shift(q))
    ensures TurnOk(table, src, m, StepTable(table, src, m))
  {
    var cur := m.stack[|m.stack| - 1].state;
    var tok := TokenAt(src, m.next);
    assert (T(tok.type_, Some(tok.value)) in table[cur] && table[cur][T(tok.type_, Some(tok.value))] == Shift(q))
        || (T(tok.type_, None) in table[cur] && table[cur][T(tok.type_, None)] == Shift(q));
    assert Top(m) == Some(cur);
    assert StepTable(table, src, m) == Continue(Machine(m.stack + [TokenItem(tok), State(q)], m.out + [Leaf(tok, m.next)], m.next + 1));
    ShiftGood(|table|, 0, src, m, q);
  }

  /** A turn that reduces keeps the invariant, and accepts only with every subtree under the `$` node. */
  lemma TurnReduce(table: Table, src: seq<Token>, m: Machine, rule: Production)
    requires Closed(table) && NoReturn(table) && Good(|table|, 0, src, m)
    requires Lookup(table[m.stack[|m.stack| - 1].state], TokenAt(src, m.next)) == Some(Reduce(rule))
    ensures TurnOk(table, src, m, StepTable(table, src, m))
  {
    var mv := StepTable(table, src, m);
    var n := |rule.expr.terms|;
    assert Top(m) == Some(m.stack[|m.stack| - 1].state);
    if |m.out| < n {
      assert mv == Crash;
    } else {
      ReduceGood(|table|, 0, src, m, rule);
      var r := ReduceBy(m, rule, n);
      if r.exposed == 0 && rule.name == "$" {
        assert mv == Accept(r.node, Machine(r.stack, r.out, m.next));
        assert FromProduction(rule).type_ == "$";
      } else if NT(rule.name) in table[r.exposed] && table[r.exposed][NT(rule.name)].Shift? {
        var q := table[r.exposed][NT(rule.name)].target;
        assert mv == Continue(Machine(r.stack + [State(q)], r.out, m.next));
        GotoGood(|table|, 0, src, m, rule, q);
      } else {
        assert mv == Fail(m.next);
      }
    }
  }

  /**
   * One turn keeps the invariant. It panics only on a reduce by a rule
   * with more terms than there are subtrees; when it accepts, every
   * subtree went under the `$` node, whose leaves are the tokens read.
   */
  lemma StepGood(table: Table, src: seq<Token>, m: Machine)
    requires Closed(table) && NoReturn(table) && Good(|table|, 0, src, m)
    ensures TurnOk(table, src, m, StepTable(table, src, m))
  {
    match Lookup(table[m.stack[|m.stack| - 1].state], TokenAt(src, m.next)) {
      case None =>
      case Some(Shift(q)) => TurnShift(table, src, m, q);
      case Some(Reduce(rule)) => TurnReduce(table, src, m, rule);
    }
  }

  /** The loop keeps the invariant for any number of turns, with the same guarantees when it stops. */
  lemma {:induction false} RunGood(table: Table, src: seq<Token>, m: Machine, fuel: nat)
    requires Closed(table) && NoReturn(table) && Good(|table|, 0, src, m)
    ensures RunTable(table, src, m, fuel).Continue? ==> Good(|table|, 0, src, RunTable(table, src, m, fuel).m)
    ensures RunTable(table, src, m, fuel).Accept? ==>
      var node := RunTable(table, src, m, fuel).node;
      && FringeOf(node.childs) == Consumed(src, RunTable(table, src, m, fuel).m.next)
      && node.value.NonTerminalNode? && node.value.nt.type_ == "$"
    decreases fuel
  {
    if fuel > 0 {
      StepGood(table, src, m);
      if StepTable(table, src, m).Continue? {
        RunGood(table, src, StepTable(table, src, m).m, fuel - 1);
      }
    }
  }

  /**
   * Soundness of `parse_with_table` on a closed table with no way back to
   * state 0: when it accepts, the `$` node's subtrees read exactly the
   * tokens consumed, so a `$` rule of one term yields a tree whose leaves
   * are those tokens.
   */
  lemma ParseSound(table: Table, src: seq<Token>, fuel: nat)
    requires Closed(table) && NoReturn(table)
    ensures RunTable(table, src, Init(0), fuel).Accept? ==>
      var mv := RunTable(table, src, Init(0), fuel);
      && FringeOf(mv.node.childs) == Consumed(src, mv.m.next)
      && mv.node.value.NonTerminalNode? && mv.node.value.nt.type_ == "$"
      && (|mv.node.childs| == 1 ==> Conclude(mv) == Success(mv.node.childs[0]) && Fringe(mv.node.childs[0]) == Consumed(src, mv.m.next))
  {
    assert Good(|table|, 0, src, Init(0));
    RunGood(table, src, Init(0), fuel);
    var mv := RunTable(table, src, Init(0), fuel);
    if mv.Accept? && |mv.node.childs| == 1 {
      assert FringeOf(mv.node.childs) == Fringe(mv.node.childs[0]) + FringeOf(mv.node.childs[1..]);
    }
  }
}
