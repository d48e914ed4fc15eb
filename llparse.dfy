/**
 * `parse` of src/parser/llparser.rs: the table-driven LL(1) parser.
 *
 * The parser keeps a stack of the terms still expected (the top is the
 * last element), a zipper into the parse tree being built (its root is an
 * `InnerNode`), the index of the next token and the errors met so far.
 * Each step pops one term: a nonterminal is expanded by the table entry
 * for the lookahead and gets a new node, a terminal is matched against the
 * next token and becomes a leaf. A node whose children are complete is
 * left for its parent.
 */
module LLParse {
  import opened Wrappers
  import opened Grammar
  import Lexer
  import Tree
  import opened ParseTree
  import opened LLParser

  /** `ParseError`: what went wrong and at which token; the message text is not modelled. */
  datatype LLError =
    | NoRule(name: string, index: nat)      // no table entry for the nonterminal and the lookahead
    | Expected(type_: string, index: nat)   // the terminal does not match the next token
    | TooLong(index: nat)                   // tokens are left once the stack is empty

  /** What `parse` returns, or that it panics, or that it did not stop within the step bound. */
  datatype Outcome = Success(tree: Node) | Errors(errors: seq<LLError>) | Panic | OutOfFuel

  /** The loop state of `parse`. */
  datatype Machine = Machine(stack: seq<Term>, tree: Tree.Zipper<NodeType>, next: nat, errs: seq<LLError>)

  datatype Move = Moved(m: Machine) | Crashed

  datatype Halt = Halted(m: Machine) | Crash | NoFuel

  /** The end-of-input terminal at the bottom of the stack. */
  const FINISH_TERM: Term := Terminal("$", None)

  /** `into_iter().rev()`. */
  function Reversed<X>(s: seq<X>): seq<X>
  {
    seq(|s|, i requires 0 <= i < |s| => s[|s| - 1 - i])
  }

  lemma ReversedCons<X>(t: X, s: seq<X>)
    ensures Reversed([t] + s) == Reversed(s) + [t]
  {
  }

  /** The state before the loop: the start symbol above the end marker, an empty `InnerNode` root. */
  function Init(start: string): (m: Machine)
    ensures m.stack == [FINISH_TERM, NonTerminal(start, false)] && m.next == 0 && m.errs == []
    ensures m.tree.parent.None? && m.tree.node.value == InnerNode && Tree.Len(m.tree.node) == 0
  {
    Machine([FINISH_TERM, NonTerminal(start, false)], Tree.Start(Tree.Node(InnerNode, [], 0)), 0, [])
  }

  // ---------------------------------------------------------------------------
  // One step
  // ---------------------------------------------------------------------------

  /** The test of the climbing loop: a nonterminal node with as many children as its rule has terms. */
  predicate Full(n: Node)
  {
    n.value.NonTerminalNode? && Tree.Len(n) == |n.value.nt.rule_.expr.terms|
  }

  /** The node at the top of the zipper, the one `finish` returns, is the `InnerNode` root. */
  predicate TopInner(z: Tree.Zipper<NodeType>)
    decreases z
  {
    match z.parent
    case None => z.node.value.InnerNode?
    case Some(up) => TopInner(up)
  }

  /**
   * The loop `while f { tree = tree.parent(); ... }`: climb while the focus
   * is full. `None` is the panic of `parent()` when no parent is left, which
   * needs a full node at the top.
   */
  function Climb(z: Tree.Zipper<NodeType>): (r: Option<Tree.Zipper<NodeType>>)
    requires Tree.Climbable(z)
    ensures r.Some? ==> Tree.Climbable(r.value) && !Full(r.value.node) && Tree.Root(r.value) == Tree.Root(z)
    ensures r.Some? ==> TopInner(r.value) == TopInner(z)
    ensures r.None? ==> !TopInner(z)
    decreases Tree.Depth(z)
  {
    if !Full(z.node) then Some(z)
    else if z.parent.None? then None
    else
      Tree.ParentClimbable(z);
      Climb(Tree.Parent(z))
  }

  /**
   * The table entry for nonterminal `name` at the lookahead: the entry for
   * the token's type and value, else the one for its type alone; at the end
   * of the input, the entry for `$`.
   */
  function Predict(table: Table, name: string, src: seq<Lexer.Token>, next: nat): (r: Option<Production>)
    requires next <= |src|
    ensures next == |src| ==> r == Lookup(table, name, FINISH)
    ensures next < |src| ==> r == (if Lookup(table, name, T(src[next].type_, Some(src[next].value))).Some?
                                   then Lookup(table, name, T(src[next].type_, Some(src[next].value)))
                                   else Lookup(table, name, T(src[next].type_, None)))
  {
    if next == |src| then Lookup(table, name, FINISH)
    else match Lookup(table, name, T(src[next].type_, Some(src[next].value)))
      case Some(p) => Some(p)
      case None => Lookup(table, name, T(src[next].type_, None))
  }

  /** Every entry `Predict` returns is an entry of the table. */
  lemma PredictEntry(table: Table, name: string, src: seq<Lexer.Token>, next: nat)
    requires next <= |src| && Predict(table, name, src, next).Some?
    ensures exists t :: Lookup(table, name, t) == Predict(table, name, src, next)
  {
    if next == |src| {
      assert Lookup(table, name, FINISH) == Predict(table, name, src, next);
    } else if Lookup(table, name, T(src[next].type_, Some(src[next].value))).Some? {
      assert Lookup(table, name, T(src[next].type_, Some(src[next].value))) == Predict(table, name, src, next);
    } else {
      assert Lookup(table, name, T(src[next].type_, None)) == Predict(table, name, src, next);
    }
  }

  /** `tree.node.push(node); tree = tree.child(len - 1)`: focus on a new last child. */
  function Descend(z: Tree.Zipper<NodeType>, c: Node): (r: Tree.Zipper<NodeType>)
    ensures r == Tree.Zipper(c, Some(z), Tree.Len(z.node))
  {
    Tree.PushFocus(z, c);
    var pushed := z.(node := Tree.PushChild(z.node, c));
    Tree.Child(pushed, Tree.Len(pushed.node) - 1)
  }

  /** `tree.node.push(leaf)`: the focus gets a new last child and stays where it is. */
  function Graft(z: Tree.Zipper<NodeType>, c: Node): (r: Tree.Zipper<NodeType>)
    ensures r.parent == z.parent && r.indexInParent == z.indexInParent
    ensures r.node.value == z.node.value && r.node.childs == z.node.childs + [c]
  {
    z.(node := Tree.PushChild(z.node, c))
  }

  /**
   * One turn of `while let Some(term) = stack.pop()`. A nonterminal missing
   * from the table, a term that is neither a nonterminal nor a terminal and
   * a climb past the root are the source's panics (`Crashed`).
   *
   * At the end of the input a terminal other than `$` is reported as
   * `Expected`; the source reads `src[next]` there and panics instead (see
   * `StepAsWritten`).
   */
  function Step(table: Table, src: seq<Lexer.Token>, m: Machine): (r: Move)
    requires |m.stack| > 0 && m.next <= |src| && Tree.Climbable(m.tree)
    ensures r.Moved? ==> r.m.next <= |src| && Tree.Climbable(r.m.tree) && |r.m.errs| >= |m.errs|
  {
    var term := m.stack[|m.stack| - 1];
    var rest := m.stack[..|m.stack| - 1];
    match term
    case NonTerminal(name, _) =>
      if name !in table then Crashed
      else (
        match Predict(table, name, src, m.next)
        case None => Moved(m.(stack := rest, errs := m.errs + [NoRule(name, m.next)]))
        case Some(p) =>
          var down := Descend(m.tree, Tree.Node(NonTerminalNode(NonTerminalData(name, p.label_, p)), [], m.next));
          var up := if |p.expr.terms| == 0 then Climb(down) else Some(down);
          if up.None? then Crashed
          else Moved(Machine(rest + Reversed(p.expr.terms), up.value, m.next, m.errs)))
    case Terminal(ty, _) =>
      if m.next == |src| && ty == "$" then Moved(m.(stack := rest))
      else if m.next == |src| || !MatchToken(term, src[m.next]) then
        Moved(m.(stack := rest, errs := m.errs + [Expected(ty, m.next)]))
      else (
        var up := Climb(Graft(m.tree, Tree.Node(TerminalNode(src[m.next]), [], m.next)));
        if up.None? then Crashed
        else Moved(Machine(rest, up.value, m.next + 1, m.errs)))
    case _ => Crashed
  }

  /** The step as the source writes it: a terminal other than `$` at the end of the input indexes past it. */
  function StepAsWritten(table: Table, src: seq<Lexer.Token>, m: Machine): (r: Move)
    requires |m.stack| > 0 && m.next <= |src| && Tree.Climbable(m.tree)
    ensures r.Moved? ==> r.m.next <= |src| && Tree.Climbable(r.m.tree)
  {
    var term := m.stack[|m.stack| - 1];
    if term.Terminal? && m.next == |src| && term.type_ != "$" then Crashed else Step(table, src, m)
  }

  /** The loop, for at most `fuel` turns. */
  function Run(table: Table, src: seq<Lexer.Token>, m: Machine, fuel: nat): (r: Halt)
    requires m.next <= |src| && Tree.Climbable(m.tree)
    ensures r.Halted? ==> |r.m.stack| == 0 && r.m.next <= |src| && Tree.Climbable(r.m.tree)
    ensures r.Halted? ==> |r.m.errs| >= |m.errs|
    decreases fuel
  {
    if |m.stack| == 0 then Halted(m)
    else if fuel == 0 then NoFuel
    else match Step(table, src, m)
      case Crashed => Crash
      case Moved(m') => Run(table, src, m', fuel - 1)
  }

  /** `Run` with the step as written. */
  function RunAsWritten(table: Table, src: seq<Lexer.Token>, m: Machine, fuel: nat): (r: Halt)
    requires m.next <= |src| && Tree.Climbable(m.tree)
    ensures r.Halted? ==> |r.m.stack| == 0 && r.m.next <= |src| && Tree.Climbable(r.m.tree)
    decreases fuel
  {
    if |m.stack| == 0 then Halted(m)
    else if fuel == 0 then NoFuel
    else match StepAsWritten(table, src, m)
      case Crashed => Crash
      case Moved(m') => RunAsWritten(table, src, m', fuel - 1)
  }

  /**
   * After the loop: the first child of the root when every token was read
   * without error (`remove(0)` panics on a root without children), the
   * errors otherwise, with "Program Too Long" added when tokens are left and
   * nothing else went wrong.
   */
  function Conclude(src: seq<Lexer.Token>, m: Machine): (r: Outcome)
    requires Tree.Climbable(m.tree)
    ensures r.Errors? ==> |r.errors| > 0 && |m.errs| <= |r.errors| && r.errors[..|m.errs|] == m.errs
    ensures r.Errors? <==> m.next != |src| || |m.errs| > 0
    ensures r.Errors? && |m.errs| == 0 ==> r.errors == [TooLong(m.next)]
  {
    if m.next == |src| && |m.errs| == 0 then
      var root := Tree.Root(m.tree);
      if Tree.Len(root) == 0 then Panic else Success(root.childs[0])
    else if m.next == |src| || |m.errs| > 0 then Errors(m.errs)
    else Errors(m.errs + [TooLong(m.next)])
  }

  /** `parse` once the table is built, with a bound on the number of turns. */
  function ParseWith(table: Table, start: string, src: seq<Lexer.Token>, fuel: nat): (r: Outcome)
    ensures r.Errors? ==> |r.errors| > 0
  {
    match Run(table, src, Init(start), fuel)
    case Crash => Panic
    case NoFuel => OutOfFuel
    case Halted(m) => Conclude(src, m)
  }

  /** `ParseWith` with the step as written. */
  function ParseAsWritten(table: Table, start: string, src: seq<Lexer.Token>, fuel: nat): (r: Outcome)
    ensures r.Errors? ==> |r.errors| > 0
  {
    match RunAsWritten(table, src, Init(start), fuel)
    case Crash => Panic
    case NoFuel => OutOfFuel
    case Halted(m) => Conclude(src, m)
  }

  // ---------------------------------------------------------------------------
  // The loops
  // ---------------------------------------------------------------------------

  /** The climbing loop of the source. */
  method ClimbFull(z0: Tree.Zipper<NodeType>) returns (r: Option<Tree.Zipper<NodeType>>)
    requires Tree.Climbable(z0)
    ensures r == Climb(z0)
  {
    var z := z0;
    var f := Full(z.node);
    while f
      invariant Tree.Climbable(z) && Climb(z) == Climb(z0) && f == Full(z.node)
      decreases Tree.Depth(z)
    {
      if z.parent.None? {
        return None;
      }
      Tree.ParentClimbable(z);
      z := Tree.Parent(z);
      f := Full(z.node);
    }
    r := Some(z);
  }

  /** The `while let` loop of `parse` and what follows it, for at most `fuel` turns. */
  method Drive(table: Table, start: string, src: seq<Lexer.Token>, fuel: nat) returns (r: Outcome)
    ensures r == ParseWith(table, start, src, fuel)
  {
    var m0 := Init(start);
    ghost var goal := Run(table, src, m0, fuel);
    var stack, tree, errs := m0.stack, m0.tree, m0.errs;
    var next: nat := m0.next;
    var steps := 0;
    while |stack| > 0
      invariant steps <= fuel && next <= |src| && Tree.Climbable(tree)
      invariant Run(table, src, Machine(stack, tree, next, errs), fuel - steps) == goal
      decreases fuel - steps
    {
      if steps == fuel {
        return OutOfFuel;
      }
      ghost var m := Machine(stack, tree, next, errs);
      var term := stack[|stack| - 1];
      stack := stack[..|stack| - 1];
      match term {
        case NonTerminal(name, _) =>
          if name !in table {
            return Panic;
          }
          var p := Predict(table, name, src, next);
          if p.None? {
            errs := errs + [NoRule(name, next)];
          } else {
            var node := Tree.Node(NonTerminalNode(NonTerminalData(name, p.value.label_, p.value)), [], next);
            tree := Descend(tree, node);
            if |p.value.expr.terms| == 0 {
              var up := ClimbFull(tree);
              if up.None? {
                return Panic;
              }
              tree := up.value;
            }
            stack := stack + Reversed(p.value.expr.terms);
          }
        case Terminal(ty, _) =>
          if next == |src| && ty == "$" {
          } else if next == |src| || !MatchToken(term, src[next]) {
            errs := errs + [Expected(ty, next)];
          } else {
            var up := ClimbFull(Graft(tree, Tree.Node(TerminalNode(src[next]), [], next)));
            if up.None? {
              return Panic;
            }
            tree := up.value;
            next := next + 1;
          }
        case _ =>
          return Panic;
      }
      assert Step(table, src, m) == Moved(Machine(stack, tree, next, errs));
      steps := steps + 1;
    }
    var root := Tree.Finish(tree);
    if next == |src| && |errs| == 0 {
      if Tree.Len(root) == 0 {
        return Panic;
      }
      r := Success(root.childs[0]);
    } else if next == |src| || |errs| > 0 {
      r := Errors(errs);
    } else {
      r := Errors(errs + [TooLong(next)]);
    }
  }

  // ---------------------------------------------------------------------------
  // No panic in the loop
  // ---------------------------------------------------------------------------

  /** A term the stack can hold: a formal term whose nonterminal has a production. */
  predicate Expectable(ps: seq<Production>, t: Term)
  {
    Formal(t) && (t.NonTerminal? ==> t.name in Names(ps))
  }

  /**
   * What `generate_table` guarantees when it returns: a row for each
   * production name, entries that are productions of their row, and
   * nonterminals that all have productions.
   */
  ghost predicate TableOk(ps: seq<Production>, start: string, table: Table)
  {
    && FormalGrammar(ps) && Defined(ps) && start in Names(ps)
    && (forall n :: n in table <==> n in Names(ps))
    && (forall n, t :: Lookup(table, n, t).Some? ==>
          Lookup(table, n, t).value in ps && Lookup(table, n, t).value.name == n)
  }

  /** The table `GenerateTable` returns meets `TableOk`. */
  lemma IsTableOk(ps: seq<Production>, start: string, table: Table)
    requires FormalGrammar(ps) && IsTable(ps, start, table) && Defined(ps) && start in Names(ps)
    ensures TableOk(ps, start, table)
  {
    var first: Sets, fo: Sets :|
         && FirstSolution(ps, first) && LeastFirst(ps, first)
         && FollowSolution(ps, start, first, fo) && LeastFollow(ps, start, first, fo)
         && forall n, t :: Lookup(table, n, t) == Chosen(ps, first, fo, n, t, |ps|);
    forall n, t | Lookup(table, n, t).Some?
      ensures Lookup(table, n, t).value in ps && Lookup(table, n, t).value.name == n
    {
      ChosenLast(ps, first, fo, n, t, |ps|);
    }
  }

  /** The loop state cannot panic: the root is on top and the stack holds expectable terms. */
  ghost predicate Safe(ps: seq<Production>, m: Machine)
  {
    TopInner(m.tree) && forall i :: 0 <= i < |m.stack| ==> Expectable(ps, m.stack[i])
  }

  /** The terms a production pushes are expectable. */
  lemma PushedExpectable(ps: seq<Production>, p: Production)
    requires FormalGrammar(ps) && Defined(ps) && p in ps
    ensures forall i :: 0 <= i < |p.expr.terms| ==> Expectable(ps, p.expr.terms[i])
    ensures forall i :: 0 <= i < |p.expr.terms| ==> Expectable(ps, Reversed(p.expr.terms)[i])
  {
    var k :| 0 <= k < |ps| && ps[k] == p;
    assert forall j :: 0 <= j < |p.expr.terms| && p.expr.terms[j].NonTerminal? ==> p.expr.terms[j].name in Names(ps);
  }

  /** Expanding a nonterminal with such a table never panics and keeps the state safe. */
  lemma ExpandSafe(ps: seq<Production>, start: string, table: Table, src: seq<Lexer.Token>, m: Machine, name: string, u: bool)
    requires TableOk(ps, start, table) && Safe(ps, m)
    requires |m.stack| > 0 && m.next <= |src| && Tree.Climbable(m.tree)
    requires m.stack[|m.stack| - 1] == NonTerminal(name, u)
    ensures Step(table, src, m).Moved? && Safe(ps, Step(table, src, m).m)
  {
    var rest := m.stack[..|m.stack| - 1];
    assert Expectable(ps, m.stack[|m.stack| - 1]);
    var pr := Predict(table, name, src, m.next);
    if pr.Some? {
      PredictEntry(table, name, src, m.next);
      var p := pr.value;
      PushedExpectable(ps, p);
      var down := Descend(m.tree, Tree.Node(NonTerminalNode(NonTerminalData(name, p.label_, p)), [], m.next));
      assert TopInner(down) && Tree.Climbable(down);
      var stack' := rest + Reversed(p.expr.terms);
      forall i | 0 <= i < |stack'|
        ensures Expectable(ps, stack'[i])
      {
        if i >= |rest| {
          assert stack'[i] == Reversed(p.expr.terms)[i - |rest|];
        }
      }
    }
  }

  /** Matching a terminal never panics and keeps the state safe. */
  lemma ShiftSafe(ps: seq<Production>, table: Table, src: seq<Lexer.Token>, m: Machine)
    requires Safe(ps, m) && |m.stack| > 0 && m.next <= |src| && Tree.Climbable(m.tree)
    requires m.stack[|m.stack| - 1].Terminal?
    ensures Step(table, src, m).Moved? && Safe(ps, Step(table, src, m).m)
  {
    var term := m.stack[|m.stack| - 1];
    if !(m.next == |src| && term.type_ == "$") && m.next < |src| && MatchToken(term, src[m.next]) {
      var g := Graft(m.tree, Tree.Node(TerminalNode(src[m.next]), [], m.next));
      assert TopInner(g) == TopInner(m.tree);
    }
  }

  /** With such a table a step never panics and keeps the state safe. */
  lemma StepSafe(ps: seq<Production>, start: string, table: Table, src: seq<Lexer.Token>, m: Machine)
    requires TableOk(ps, start, table) && Safe(ps, m)
    requires |m.stack| > 0 && m.next <= |src| && Tree.Climbable(m.tree)
    ensures Step(table, src, m).Moved? && Safe(ps, Step(table, src, m).m)
  {
    var term := m.stack[|m.stack| - 1];
    assert Expectable(ps, term);
    if term.NonTerminal? {
      ExpandSafe(ps, start, table, src, m, term.name, term.unwrap);
    } else {
      ShiftSafe(ps, table, src, m);
    }
  }

  /** A turn that moves leaves the rest of the run to the new state. */
  lemma RunMoved(table: Table, src: seq<Lexer.Token>, m: Machine, fuel: nat)
    requires |m.stack| > 0 && fuel > 0 && m.next <= |src| && Tree.Climbable(m.tree)
    requires Step(table, src, m).Moved?
    ensures Run(table, src, m, fuel) == Run(table, src, Step(table, src, m).m, fuel - 1)
  {
  }

  /** A run that halts from a nonempty stack took a step that moved without errors beyond those of the end state. */
  lemma RunHalted(table: Table, src: seq<Lexer.Token>, m: Machine, fuel: nat)
    requires m.next <= |src| && Tree.Climbable(m.tree) && |m.stack| > 0 && Run(table, src, m, fuel).Halted?
    ensures fuel > 0 && Step(table, src, m).Moved?
    ensures Run(table, src, m, fuel) == Run(table, src, Step(table, src, m).m, fuel - 1)
    ensures |Step(table, src, m).m.errs| <= |Run(table, src, m, fuel).m.errs|
  {
  }

  /** A run that did not panic and, if it halted, halted in a state that meets inv. */
  predicate SafeEnd(r: Halt, inv: Machine -> bool)
  {
    r != Crash && (r.Halted? ==> inv(r.m))
  }

  /** A property of states under which every step moves and which every step keeps: runs never panic and end in it. */
  lemma {:induction false} RunPreserves(table: Table, src: seq<Lexer.Token>, m: Machine, fuel: nat, inv: Machine -> bool)
    requires m.next <= |src| && Tree.Climbable(m.tree) && inv(m)
    requires forall x: Machine {:trigger Step(table, src, x)} ::
               (x.next <= |src| && Tree.Climbable(x.tree) && |x.stack| > 0 && inv(x)) ==>
                 Step(table, src, x).Moved? && inv(Step(table, src, x).m)
    ensures SafeEnd(Run(table, src, m, fuel), inv)
    decreases fuel
  {
    if |m.stack| > 0 && fuel > 0 {
      assert Step(table, src, m).Moved?;
      RunMoved(table, src, m, fuel);
      RunPreserves(table, src, Step(table, src, m).m, fuel - 1, inv);
    }
  }

  /** `Run` never panics with such a table. */
  lemma RunSafe(ps: seq<Production>, start: string, table: Table, src: seq<Lexer.Token>, m: Machine, fuel: nat)
    requires TableOk(ps, start, table) && Safe(ps, m) && m.next <= |src| && Tree.Climbable(m.tree)
    ensures Run(table, src, m, fuel) != Crash
    ensures Run(table, src, m, fuel).Halted? ==> Safe(ps, Run(table, src, m, fuel).m)
  {
    var inv := (x: Machine) => Safe(ps, x);
    forall x: Machine | x.next <= |src| && Tree.Climbable(x.tree) && |x.stack| > 0 && inv(x)
      ensures Step(table, src, x).Moved? && inv(Step(table, src, x).m)
    {
      StepSafe(ps, start, table, src, x);
    }
    RunPreserves(table, src, m, fuel, inv);
  }

  // ---------------------------------------------------------------------------
  // Soundness: the tree is a derivation of the input
  // ---------------------------------------------------------------------------

  /** The terms the children of n stand for: its production's body; the root's one child is the start symbol. */
  function Terms(n: Node, start: string): seq<Term>
  {
    match n.value
    case NonTerminalNode(d) => d.rule_.expr.terms
    case InnerNode => [NonTerminal(start, false)]
    case _ => []
  }

  /** The terms still to come once n has k children. */
  function Expect(n: Node, k: nat, start: string): seq<Term>
  {
    if k <= |Terms(n, start)| then Terms(n, start)[k..] else []
  }

  /** Child c is what term t asks for: a node of that nonterminal, or a token the terminal matches. */
  predicate Fits(t: Term, c: Node)
  {
    match t
    case NonTerminal(name, _) => c.value.NonTerminalNode? && c.value.nt.type_ == name
    case Terminal(_, _) => c.value.TerminalNode? && MatchToken(t, c.value.token)
    case _ => false
  }

  /**
   * n is a complete derivation in ps: every nonterminal node records a
   * production of ps, consistently, and has one child per term of its body,
   * each fitting its term; tokens are leaves.
   */
  predicate Derives(ps: seq<Production>, n: Node)
    decreases n
  {
    match n.value
    case TerminalNode(_) => n.childs == []
    case NonTerminalNode(d) =>
      && d.rule_ in ps && Consistent(d)
      && |n.childs| == |d.rule_.expr.terms|
      && forall i :: 0 <= i < |n.childs| ==> Fits(d.rule_.expr.terms[i], n.childs[i]) && Derives(ps, n.childs[i])
    case _ => false
  }

  /** A node under construction: its children so far are complete and fit the first terms. */
  ghost predicate Open(ps: seq<Production>, start: string, n: Node)
  {
    && (n.value.InnerNode? || (n.value.NonTerminalNode? && n.value.nt.rule_ in ps && Consistent(n.value.nt)))
    && Tree.Len(n) <= |Terms(n, start)|
    && forall i :: 0 <= i < |n.childs| ==> Fits(Terms(n, start)[i], n.childs[i]) && Derives(ps, n.childs[i])
  }

  /**
   * The frames above the focus: each is open, its next term is fitted by
   * the node below it, that node sits in its last slot, and the top frame
   * is the `InnerNode` root.
   */
  ghost predicate Chain(ps: seq<Production>, start: string, up: Tree.Zipper<NodeType>, c: Node)
    decreases up
  {
    && Open(ps, start, up.node)
    && Tree.Len(up.node) < |Terms(up.node, start)|
    && Fits(Terms(up.node, start)[Tree.Len(up.node)], c)
    && match up.parent
       case None => up.node.value.InnerNode?
       case Some(pp) => up.node.value.NonTerminalNode? && up.indexInParent == Tree.Len(pp.node) && Chain(ps, start, pp, up.node)
  }

  /** The whole zipper is a partial derivation with the focus on its right edge. */
  ghost predicate Shaped(ps: seq<Production>, start: string, z: Tree.Zipper<NodeType>)
  {
    && Open(ps, start, z.node)
    && match z.parent
       case None => z.node.value.InnerNode?
       case Some(up) => z.node.value.NonTerminalNode? && z.indexInParent == Tree.Len(up.node) && Chain(ps, start, up, z.node)
  }

  /** Shaped and settled: the focus is the root or still waits for children. */
  ghost predicate Settled(ps: seq<Production>, start: string, z: Tree.Zipper<NodeType>)
  {
    Shaped(ps, start, z) && (z.parent.Some? ==> !Full(z.node))
  }

  /** The terms the frames above still wait for, in stack order (the top last). */
  function PendingAbove(p: Option<Tree.Zipper<NodeType>>, start: string): seq<Term>
    decreases p
  {
    match p
    case None => []
    case Some(up) => PendingAbove(up.parent, start) + Reversed(Expect(up.node, Tree.Len(up.node) + 1, start))
  }

  /** The terms the whole zipper still waits for, in stack order. */
  function Pending(z: Tree.Zipper<NodeType>, start: string): seq<Term>
  {
    PendingAbove(z.parent, start) + Reversed(Expect(z.node, Tree.Len(z.node), start))
  }

  /** The tokens at the leaves of the frames above, left to right. */
  function FlatAbove(p: Option<Tree.Zipper<NodeType>>): seq<Lexer.Token>
    decreases p
  {
    match p
    case None => []
    case Some(up) => FlatAbove(up.parent) + Fringe(up.node)
  }

  /** The tokens at the leaves of the whole tree, left to right. */
  function Flat(z: Tree.Zipper<NodeType>): seq<Lexer.Token>
  {
    FlatAbove(Some(z))
  }

  /** The frames of a chain can be climbed, and the top one is the root. */
  lemma {:induction false} ChainClimbable(ps: seq<Production>, start: string, up: Tree.Zipper<NodeType>, c: Node)
    requires Chain(ps, start, up, c)
    ensures Tree.Climbable(up) && TopInner(up)
    decreases up
  {
    if up.parent.Some? {
      ChainClimbable(ps, start, up.parent.value, up.node);
    }
  }

  /** A shaped zipper can be climbed to the root. */
  lemma ShapedClimbable(ps: seq<Production>, start: string, z: Tree.Zipper<NodeType>)
    requires Shaped(ps, start, z)
    ensures Tree.Climbable(z) && TopInner(z)
  {
    if z.parent.Some? {
      ChainClimbable(ps, start, z.parent.value, z.node);
    }
  }

  /** A full open node is a complete derivation. */
  lemma FullDerives(ps: seq<Production>, start: string, n: Node)
    requires Open(ps, start, n) && Full(n)
    ensures Derives(ps, n)
  {
  }

  /** The leaves of a node given one more last child. */
  lemma FringePush(n: Node, c: Node)
    ensures Fringe(Tree.PushChild(n, c)) == Fringe(n) + Fringe(c)
  {
    FringeOfAppend(n.childs, [c]);
    assert [c][1..] == [];
  }

  /** A chain looks at the node below it only through its value. */
  lemma ChainValue(ps: seq<Production>, start: string, up: Tree.Zipper<NodeType>, c: Node, c': Node)
    requires Chain(ps, start, up, c) && c'.value == c.value
    ensures Chain(ps, start, up, c')
  {
  }

  /** Climbing from the last slot keeps the leaves. */
  lemma ParentLeaves(z: Tree.Zipper<NodeType>)
    requires z.parent.Some? && z.indexInParent == Tree.Len(z.parent.value.node)
    ensures Tree.CanClimb(z)
    ensures Flat(Tree.Parent(z)) == Flat(z)
  {
    var up := z.parent.value;
    Tree.ParentLast(z);
    var p := Tree.Parent(z);
    FringePush(up.node, z.node);
    assert Flat(p) == FlatAbove(up.parent) + (Fringe(up.node) + Fringe(z.node));
    assert z.parent == Some(up);
    assert FlatAbove(z.parent) == FlatAbove(up.parent) + Fringe(up.node);
    assert Flat(z) == FlatAbove(z.parent) + Fringe(z.node);
    ConcatAssoc3(FlatAbove(up.parent), Fringe(up.node), Fringe(z.node));
  }

  /** Climbing from the last slot leaves the terms the frames above wait for. */
  lemma ParentPending(start: string, z: Tree.Zipper<NodeType>)
    requires z.parent.Some? && z.indexInParent == Tree.Len(z.parent.value.node)
    ensures Tree.CanClimb(z)
    ensures Pending(Tree.Parent(z), start) == PendingAbove(z.parent, start)
  {
    var up := z.parent.value;
    Tree.ParentLast(z);
    assert Terms(Tree.Parent(z).node, start) == Terms(up.node, start);
  }

  /** Climbing from the last slot keeps the leaves and leaves the terms the frames above wait for. */
  lemma ParentFlat(start: string, z: Tree.Zipper<NodeType>)
    requires z.parent.Some? && z.indexInParent == Tree.Len(z.parent.value.node)
    ensures Tree.CanClimb(z)
    ensures Flat(Tree.Parent(z)) == Flat(z)
    ensures Pending(Tree.Parent(z), start) == PendingAbove(z.parent, start)
  {
    ParentLeaves(z);
    ParentPending(start, z);
  }

  /** Climbing out of a full node keeps the zipper shaped. */
  lemma ParentShaped(ps: seq<Production>, start: string, z: Tree.Zipper<NodeType>)
    requires Shaped(ps, start, z) && Full(z.node)
    ensures Tree.CanClimb(z) && Shaped(ps, start, Tree.Parent(z))
  {
    var up := z.parent.value;
    Tree.ParentLast(z);
    var p := Tree.Parent(z);
    FullDerives(ps, start, z.node);
    assert p.node.childs == up.node.childs + [z.node];
    assert Open(ps, start, p.node);
    if up.parent.Some? {
      ChainValue(ps, start, up.parent.value, up.node, p.node);
    }
  }

  /** Climbing past full nodes keeps the zipper shaped, waits for the same terms and has the same leaves. */
  lemma {:induction false} ClimbSettles(ps: seq<Production>, start: string, z: Tree.Zipper<NodeType>)
    requires Shaped(ps, start, z)
    ensures Tree.Climbable(z)
    ensures Climb(z).Some? && Settled(ps, start, Climb(z).value)
    ensures Pending(Climb(z).value, start) == Pending(z, start) && Flat(Climb(z).value) == Flat(z)
    decreases Tree.Depth(z)
  {
    ShapedClimbable(ps, start, z);
    if Full(z.node) {
      ParentShaped(ps, start, z);
      ParentFlat(start, z);
      assert Expect(z.node, Tree.Len(z.node), start) == [];
      ClimbSettles(ps, start, Tree.Parent(z));
    }
  }

  /** The invariant of the loop while no error has been met. */
  ghost predicate Good(ps: seq<Production>, start: string, src: seq<Lexer.Token>, m: Machine)
  {
    && m.next <= |src|
    && Settled(ps, start, m.tree)
    && (m.stack == [FINISH_TERM] + Pending(m.tree, start) || (m.stack == [] && Pending(m.tree, start) == []))
    && Flat(m.tree) == src[..m.next]
  }

  /** The end marker `$` is neither a terminal of the grammar nor the type of an input token. */
  predicate Unmarked(ps: seq<Production>, src: seq<Lexer.Token>)
  {
    && (forall i, j :: 0 <= i < |ps| && 0 <= j < |ps[i].expr.terms| ==>
          !(ps[i].expr.terms[j].Terminal? && ps[i].expr.terms[j].type_ == "$"))
    && (forall i :: 0 <= i < |src| ==> src[i].type_ != "$")
  }

  /** The focus's next term is the top of the pending terms; nothing pending means the root is complete. */
  lemma PendingTop(ps: seq<Production>, start: string, z: Tree.Zipper<NodeType>)
    requires Settled(ps, start, z)
    ensures Pending(z, start) == [] <==> z.parent.None? && Tree.Len(z.node) == 1
    ensures Pending(z, start) != [] ==>
              && Tree.Len(z.node) < |Terms(z.node, start)|
              && Pending(z, start) == PendingAbove(z.parent, start) + Reversed(Expect(z.node, Tree.Len(z.node) + 1, start))
                                      + [Terms(z.node, start)[Tree.Len(z.node)]]
  {
    var L := Tree.Len(z.node);
    var ts := Terms(z.node, start);
    if L < |ts| {
      assert Expect(z.node, L, start) == [ts[L]] + Expect(z.node, L + 1, start);
      ReversedCons(ts[L], Expect(z.node, L + 1, start));
    } else {
      assert Expect(z.node, L, start) == [];
    }
  }

  /** Under `Unmarked`, the pending terms hold no `$` terminal. */
  lemma PendingUnmarked(ps: seq<Production>, start: string, src: seq<Lexer.Token>, z: Tree.Zipper<NodeType>)
    requires Settled(ps, start, z) && Unmarked(ps, src) && Pending(z, start) != []
    ensures var t := Terms(z.node, start)[Tree.Len(z.node)]; !(t.Terminal? && t.type_ == "$")
  {
    PendingTop(ps, start, z);
    if z.node.value.NonTerminalNode? {
      var k :| 0 <= k < |ps| && ps[k] == z.node.value.nt.rule_;
      assert Terms(z.node, start) == ps[k].expr.terms;
    }
  }

  /** A new node for p that fits the focus's next term, as the new focus, keeps the zipper shaped. */
  lemma DescendShaped(ps: seq<Production>, start: string, z: Tree.Zipper<NodeType>, n: Node)
    requires Shaped(ps, start, z) && Tree.Len(z.node) < |Terms(z.node, start)|
    requires n.value.NonTerminalNode? && n.value.nt.rule_ in ps && Consistent(n.value.nt) && n.childs == []
    requires Fits(Terms(z.node, start)[Tree.Len(z.node)], n)
    ensures Shaped(ps, start, Descend(z, n))
  {
    assert Chain(ps, start, z, n);
  }

  /** The new focus waits for p's body above what its parent still waits for, and adds no leaves. */
  lemma DescendFlat(start: string, z: Tree.Zipper<NodeType>, n: Node)
    requires n.value.NonTerminalNode? && n.childs == []
    ensures Pending(Descend(z, n), start) ==
              PendingAbove(z.parent, start) + Reversed(Expect(z.node, Tree.Len(z.node) + 1, start)) + Reversed(n.value.nt.rule_.expr.terms)
    ensures Flat(Descend(z, n)) == Flat(z)
  {
    assert Expect(n, 0, start) == n.value.nt.rule_.expr.terms;
    assert Fringe(n) == [];
  }

  lemma ConcatAssoc3<X>(a: seq<X>, b: seq<X>, c: seq<X>)
    ensures a + (b + c) == (a + b) + c
  {
  }

  /** Expanding the top nonterminal by p: a new focus whose pending terms are p's body above the rest. */
  lemma ExpandGood(ps: seq<Production>, start: string, src: seq<Lexer.Token>, m: Machine, p: Production, u: bool)
    requires Good(ps, start, src, m) && |m.stack| > 0 && m.stack[|m.stack| - 1] == NonTerminal(p.name, u) && p in ps
    ensures var down := Descend(m.tree, Tree.Node(NonTerminalNode(NonTerminalData(p.name, p.label_, p)), [], m.next));
            && Shaped(ps, start, down)
            && [FINISH_TERM] + Pending(down, start) == m.stack[..|m.stack| - 1] + Reversed(p.expr.terms)
            && Flat(down) == Flat(m.tree)
            && (|p.expr.terms| > 0 ==> !Full(down.node))
  {
    ExpandShaped(ps, start, src, m, p, u);
    ExpandPending(ps, start, src, m, p, u);
  }

  /** Expanding keeps the zipper shaped and its flattening. */
  lemma ExpandShaped(ps: seq<Production>, start: string, src: seq<Lexer.Token>, m: Machine, p: Production, u: bool)
    requires Good(ps, start, src, m) && |m.stack| > 0 && m.stack[|m.stack| - 1] == NonTerminal(p.name, u) && p in ps
    ensures Shaped(ps, start, Descend(m.tree, Tree.Node(NonTerminalNode(NonTerminalData(p.name, p.label_, p)), [], m.next)))
    ensures Flat(Descend(m.tree, Tree.Node(NonTerminalNode(NonTerminalData(p.name, p.label_, p)), [], m.next))) == Flat(m.tree)
    ensures |p.expr.terms| > 0 ==> !Full(Descend(m.tree, Tree.Node(NonTerminalNode(NonTerminalData(p.name, p.label_, p)), [], m.next)).node)
  {
    var z := m.tree;
    var n := Tree.Node(NonTerminalNode(NonTerminalData(p.name, p.label_, p)), [], m.next);
    assert m.stack != [FINISH_TERM];
    PendingTop(ps, start, z);
    DescendShaped(ps, start, z, n);
    DescendFlat(start, z, n);
  }

  /** Expanding replaces the nonterminal on top of the stack by the reversed body. */
  lemma ExpandPending(ps: seq<Production>, start: string, src: seq<Lexer.Token>, m: Machine, p: Production, u: bool)
    requires Good(ps, start, src, m) && |m.stack| > 0 && m.stack[|m.stack| - 1] == NonTerminal(p.name, u) && p in ps
    ensures [FINISH_TERM] + Pending(Descend(m.tree, Tree.Node(NonTerminalNode(NonTerminalData(p.name, p.label_, p)), [], m.next)), start)
            == m.stack[..|m.stack| - 1] + Reversed(p.expr.terms)
  {
    var z := m.tree;
    var n := Tree.Node(NonTerminalNode(NonTerminalData(p.name, p.label_, p)), [], m.next);
    var L := Tree.Len(z.node);
    assert m.stack != [FINISH_TERM];
    PendingTop(ps, start, z);
    var rest := PendingAbove(z.parent, start) + Reversed(Expect(z.node, L + 1, start));
    DescendFlat(start, z, n);
    SwapTop(m.stack, FINISH_TERM, rest, Terms(z.node, start)[L], Reversed(p.expr.terms));
  }

  /** Replacing the top of a stack `[f] + a + [t]` by b. */
  lemma SwapTop<X>(s: seq<X>, f: X, a: seq<X>, t: X, b: seq<X>)
    requires s == [f] + (a + [t])
    ensures [f] + (a + b) == s[..|s| - 1] + b
  {
    assert s[..|s| - 1] == [f] + a;
  }

  lemma PopPending<X>(s: seq<X>, f: X, a: seq<X>, t: X)
    requires s == [f] + (a + [t])
    ensures s[..|s| - 1] == [f] + a && s[|s| - 1] == t
  {
  }

  lemma TakeSnoc<X>(s: seq<X>, i: nat)
    requires i < |s|
    ensures s[..i + 1] == s[..i] + [s[i]]
  {
  }

  /** A complete child that fits the focus's next term keeps the zipper shaped. */
  lemma GraftShaped(ps: seq<Production>, start: string, z: Tree.Zipper<NodeType>, c: Node)
    requires Shaped(ps, start, z) && Tree.Len(z.node) < |Terms(z.node, start)|
    requires Fits(Terms(z.node, start)[Tree.Len(z.node)], c) && Derives(ps, c)
    ensures Shaped(ps, start, Graft(z, c))
  {
    var g := Graft(z, c);
    assert Terms(g.node, start) == Terms(z.node, start);
    assert Open(ps, start, g.node);
    if z.parent.Some? {
      ChainValue(ps, start, z.parent.value, z.node, g.node);
    }
  }

  /** A new last child of the focus: one term less pending. */
  lemma GraftPending(start: string, z: Tree.Zipper<NodeType>, c: Node)
    ensures Pending(Graft(z, c), start) == PendingAbove(z.parent, start) + Reversed(Expect(z.node, Tree.Len(z.node) + 1, start))
  {
    assert Terms(Graft(z, c).node, start) == Terms(z.node, start);
  }

  /** A new last child of the focus: its leaves appended. */
  lemma GraftLeaves(z: Tree.Zipper<NodeType>, c: Node)
    ensures Flat(Graft(z, c)) == Flat(z) + Fringe(c)
  {
    var g := Graft(z, c);
    FringePush(z.node, c);
    assert Flat(g) == FlatAbove(z.parent) + (Fringe(z.node) + Fringe(c));
    assert Flat(z) == FlatAbove(z.parent) + Fringe(z.node);
    ConcatAssoc3(FlatAbove(z.parent), Fringe(z.node), Fringe(c));
  }

  /** Matching the top terminal: the token becomes the focus's last child and the last leaf. */
  lemma ShiftGood(ps: seq<Production>, start: string, src: seq<Lexer.Token>, m: Machine)
    requires Good(ps, start, src, m) && |m.stack| > 1 && m.next < |src|
    requires m.stack[|m.stack| - 1].Terminal? && MatchToken(m.stack[|m.stack| - 1], src[m.next])
    ensures var g := Graft(m.tree, Tree.Node(TerminalNode(src[m.next]), [], m.next));
            && Shaped(ps, start, g)
            && [FINISH_TERM] + Pending(g, start) == m.stack[..|m.stack| - 1]
            && Flat(g) == src[..m.next + 1]
  {
    var z := m.tree;
    var leaf := Tree.Node(TerminalNode(src[m.next]), [], m.next);
    var L := Tree.Len(z.node);
    PendingTop(ps, start, z);
    PopPending(m.stack, FINISH_TERM, PendingAbove(z.parent, start) + Reversed(Expect(z.node, L + 1, start)),
               Terms(z.node, start)[L]);
    GraftShaped(ps, start, z, leaf);
    GraftPending(start, z, leaf);
    GraftLeaves(z, leaf);
    assert Fringe(leaf) == [src[m.next]];
    TakeSnoc(src, m.next);
  }

  /** Popping the end marker at the end of the input empties the stack with nothing pending. */
  lemma FinishGood(ps: seq<Production>, start: string, src: seq<Lexer.Token>, m: Machine)
    requires Good(ps, start, src, m) && Unmarked(ps, src) && |m.stack| > 0
    requires m.stack[|m.stack| - 1].Terminal? && m.stack[|m.stack| - 1].type_ == "$"
    ensures m.stack == [FINISH_TERM] && Pending(m.tree, start) == []
  {
    if Pending(m.tree, start) != [] {
      PendingTop(ps, start, m.tree);
      var L := Tree.Len(m.tree.node);
      PopPending(m.stack, FINISH_TERM, PendingAbove(m.tree.parent, start) + Reversed(Expect(m.tree.node, L + 1, start)),
                 Terms(m.tree.node, start)[L]);
      PendingUnmarked(ps, start, src, m.tree);
      assert false;
    }
  }

  /** A step that meets no error keeps the invariant. */
  lemma StepGood(ps: seq<Production>, start: string, table: Table, src: seq<Lexer.Token>, m: Machine)
    requires TableOk(ps, start, table) && Unmarked(ps, src) && Good(ps, start, src, m)
    requires |m.stack| > 0 && Tree.Climbable(m.tree) && m.errs == []
    requires Step(table, src, m).Moved? && Step(table, src, m).m.errs == []
    ensures Good(ps, start, src, Step(table, src, m).m)
  {
    var term := m.stack[|m.stack| - 1];
    match term
    case NonTerminal(name, u) =>
      var p := Predict(table, name, src, m.next).value;
      PredictEntry(table, name, src, m.next);
      ExpandGood(ps, start, src, m, p, u);
      var down := Descend(m.tree, Tree.Node(NonTerminalNode(NonTerminalData(name, p.label_, p)), [], m.next));
      if |p.expr.terms| == 0 {
        ClimbSettles(ps, start, down);
      }
    case Terminal(ty, _) =>
      if m.next == |src| && ty == "$" {
        FinishGood(ps, start, src, m);
      } else {
        ShiftGood(ps, start, src, m);
        var g := Graft(m.tree, Tree.Node(TerminalNode(src[m.next]), [], m.next));
        ClimbSettles(ps, start, g);
      }
  }

  /** A run that ended without errors ended in a state that meets inv. */
  predicate EndsIn(r: Halt, inv: Machine -> bool)
  {
    r.Halted? && r.m.errs == [] ==> inv(r.m)
  }

  /** A property of states that every step without errors keeps holds when a run ends without errors. */
  lemma {:induction false} RunKeeps(table: Table, src: seq<Lexer.Token>, m: Machine, fuel: nat, inv: Machine -> bool)
    requires m.next <= |src| && Tree.Climbable(m.tree) && m.errs == [] && inv(m)
    requires forall x: Machine {:trigger Step(table, src, x)} ::
               (x.next <= |src| && Tree.Climbable(x.tree) && |x.stack| > 0 && x.errs == [] && inv(x) &&
                Step(table, src, x).Moved? && Step(table, src, x).m.errs == []) ==> inv(Step(table, src, x).m)
    ensures EndsIn(Run(table, src, m, fuel), inv)
    decreases fuel
  {
    if |m.stack| > 0 && fuel > 0 && Step(table, src, m).Moved? {
      var x := Step(table, src, m).m;
      RunMoved(table, src, m, fuel);
      if x.errs == [] {
        RunKeeps(table, src, x, fuel - 1, inv);
      }
    }
  }

  /** The state before the loop meets the invariant. */
  lemma InitGood(ps: seq<Production>, start: string, src: seq<Lexer.Token>)
    ensures Good(ps, start, src, Init(start))
  {
    var z := Init(start).tree;
    assert Expect(z.node, 0, start) == [NonTerminal(start, false)];
    assert Fringe(z.node) == [];
  }

  /**
   * `parse` with a table `generate_table` builds. The loop never panics;
   * when `$` is not used by the grammar or the tokens, `parse` does not
   * panic at all, and the tree it returns is a derivation from the start
   * symbol whose leaves are the input tokens, in order.
   */
  lemma ParseSound(ps: seq<Production>, start: string, table: Table, src: seq<Lexer.Token>, fuel: nat)
    requires TableOk(ps, start, table)
    ensures Run(table, src, Init(start), fuel) != Crash
    ensures Unmarked(ps, src) ==> ParseWith(table, start, src, fuel) != Panic
    ensures Unmarked(ps, src) && ParseWith(table, start, src, fuel).Success? ==>
              var n := ParseWith(table, start, src, fuel).tree;
              Derives(ps, n) && n.value.NonTerminalNode? && n.value.nt.type_ == start && Fringe(n) == src
  {
    assert Safe(ps, Init(start));
    RunSafe(ps, start, table, src, Init(start), fuel);
    if Unmarked(ps, src) {
      InitGood(ps, start, src);
      var inv := (x: Machine) => Good(ps, start, src, x);
      forall x: Machine | x.next <= |src| && Tree.Climbable(x.tree) && |x.stack| > 0 && x.errs == [] && inv(x) &&
                          Step(table, src, x).Moved? && Step(table, src, x).m.errs == []
        ensures inv(Step(table, src, x).m)
      {
        StepGood(ps, start, table, src, x);
      }
      RunKeeps(table, src, Init(start), fuel, inv);
      var r := Run(table, src, Init(start), fuel);
      if r.Halted? && r.m.next == |src| && r.m.errs == [] {
        FinishedTree(ps, start, src, r.m);
      }
    }
  }

  /** A finished run without errors: the root holds one child, a derivation of the input from the start symbol. */
  lemma FinishedTree(ps: seq<Production>, start: string, src: seq<Lexer.Token>, m: Machine)
    requires Good(ps, start, src, m) && m.stack == [] && m.next == |src|
    ensures Tree.Climbable(m.tree)
    ensures var root := Tree.Root(m.tree);
            && Tree.Len(root) == 1 && Derives(ps, root.childs[0])
            && root.childs[0].value.NonTerminalNode? && root.childs[0].value.nt.type_ == start
            && Fringe(root.childs[0]) == src
  {
    ShapedClimbable(ps, start, m.tree);
    PendingTop(ps, start, m.tree);
    var root := m.tree.node;
    assert Tree.Root(m.tree) == root;
    assert Fits(NonTerminal(start, false), root.childs[0]);
    assert root.childs == [root.childs[0]];
    assert root.childs[1..] == [];
    assert FringeOf(root.childs) == Fringe(root.childs[0]);
    assert Fringe(root) == FringeOf(root.childs);
    assert FlatAbove(m.tree.parent) == [];
    assert Flat(m.tree) == Fringe(root);
    assert src[..m.next] == src;
  }

  // ---------------------------------------------------------------------------
  // `parse`
  // ---------------------------------------------------------------------------

  /**
   * `parse`: build the table, then run the loop. It panics when the table
   * cannot be built and, when `$` is used neither by the grammar nor by the
   * tokens, only then; a tree it returns is a derivation of the tokens from
   * the start symbol.
   */
  method Parse(g: Grammar, src: seq<Lexer.Token>, fuel: nat) returns (r: Outcome)
    requires FormalGrammar(g.productions)
    ensures !(Defined(g.productions) && g.startSymbol in Names(g.productions)) ==> r == Panic
    ensures Unmarked(g.productions, src) && r == Panic ==>
              !(Defined(g.productions) && g.startSymbol in Names(g.productions))
    ensures Unmarked(g.productions, src) && r.Success? ==>
              && Derives(g.productions, r.tree)
              && r.tree.value.NonTerminalNode? && r.tree.value.nt.type_ == g.startSymbol
              && Fringe(r.tree) == src
    ensures r != Panic ==>
              exists table :: IsTable(g.productions, g.startSymbol, table) && r == ParseWith(table, g.startSymbol, src, fuel)
  {
    var table := GenerateTable(g);
    if table.None? {
      return Panic;
    }
    r := Drive(table.value, g.startSymbol, src, fuel);
    IsTableOk(g.productions, g.startSymbol, table.value);
    ParseSound(g.productions, g.startSymbol, table.value, src, fuel);
  }

  /** The rule `S = a b ;`, its table and the input `a`, on which the source reads past the tokens. */
  const ShortRule := Production("S", "", Expression([Terminal("a", None), Terminal("b", None)]), 0, Left)
  const ShortTable: Table := map["S" := map[T("a", None) := ShortRule]]
  const ShortInput := [Lexer.Token("a", "a", 1)]

  /** `S` is expanded by its only rule. */
  lemma ShortExpand() returns (m1: Machine)
    ensures m1.stack == [FINISH_TERM, Terminal("b", None), Terminal("a", None)] && m1.next == 0 && m1.errs == []
    ensures Tree.Climbable(m1.tree) && m1.tree.node.value.NonTerminalNode? && m1.tree.node.value.nt.rule_ == ShortRule
    ensures Tree.Len(m1.tree.node) == 0
    ensures Step(ShortTable, ShortInput, Init("S")) == Moved(m1)
  {
    var m0 := Init("S");
    assert Predict(ShortTable, "S", ShortInput, 0) == Some(ShortRule);
    var z1 := Descend(m0.tree, Tree.Node(NonTerminalNode(NonTerminalData("S", "", ShortRule)), [], 0));
    assert Reversed(ShortRule.expr.terms) == [Terminal("b", None), Terminal("a", None)];
    m1 := Machine([FINISH_TERM, Terminal("b", None), Terminal("a", None)], z1, 0, []);
  }

  /** `a` is matched and the new node of `S` still waits for `b`. */
  lemma ShortShift(m1: Machine) returns (m2: Machine)
    requires m1.stack == [FINISH_TERM, Terminal("b", None), Terminal("a", None)] && m1.next == 0 && m1.errs == []
    requires Tree.Climbable(m1.tree) && m1.tree.node.value.NonTerminalNode? && m1.tree.node.value.nt.rule_ == ShortRule
    requires Tree.Len(m1.tree.node) == 0
    ensures m2.stack == [FINISH_TERM, Terminal("b", None)] && m2.next == 1 && m2.errs == [] && Tree.Climbable(m2.tree)
    ensures Step(ShortTable, ShortInput, m1) == Moved(m2)
  {
    var z2 := Graft(m1.tree, Tree.Node(TerminalNode(ShortInput[0]), [], 0));
    assert !Full(z2.node);
    m2 := Machine([FINISH_TERM, Terminal("b", None)], z2, 1, []);
  }

  /** With `b` expected at the end of the input, the corrected step reports it and the end marker is popped. */
  lemma ShortEnd(m2: Machine)
    requires m2.stack == [FINISH_TERM, Terminal("b", None)] && m2.next == 1 && m2.errs == [] && Tree.Climbable(m2.tree)
    ensures StepAsWritten(ShortTable, ShortInput, m2) == Crashed
    ensures Step(ShortTable, ShortInput, m2) == Moved(m2.(stack := [FINISH_TERM], errs := [Expected("b", 1)]))
    ensures Step(ShortTable, ShortInput, m2.(stack := [FINISH_TERM], errs := [Expected("b", 1)]))
            == Moved(m2.(stack := [], errs := [Expected("b", 1)]))
  {
    var rest := m2.stack[..|m2.stack| - 1];
    assert rest == [FINISH_TERM];
    var m3 := m2.(stack := [FINISH_TERM], errs := [Expected("b", 1)]);
    assert m3.stack[..|m3.stack| - 1] == [];
  }

  /**
   * The grammar `S = a b ;` on the input `a`: once `a` is matched, `b` is
   * expected at the end of the input. As written, `parse` reads past the
   * tokens and panics; the corrected step reports that `b` was expected.
   */
  lemma EndOfInputCounterexample()
    ensures ParseAsWritten(ShortTable, "S", ShortInput, 4) == Panic
    ensures ParseWith(ShortTable, "S", ShortInput, 4) == Errors([Expected("b", 1)])
  {
    var m0 := Init("S");
    var m1 := ShortExpand();
    var m2 := ShortShift(m1);
    assert StepAsWritten(ShortTable, ShortInput, m0) == Moved(m1);
    assert RunAsWritten(ShortTable, ShortInput, m0, 4) == RunAsWritten(ShortTable, ShortInput, m1, 3);
    assert StepAsWritten(ShortTable, ShortInput, m1) == Moved(m2);
    assert RunAsWritten(ShortTable, ShortInput, m1, 3) == RunAsWritten(ShortTable, ShortInput, m2, 2);
    RunMoved(ShortTable, ShortInput, m0, 4);
    RunMoved(ShortTable, ShortInput, m1, 3);
    ShortEnd(m2);
    var m3 := m2.(stack := [FINISH_TERM], errs := [Expected("b", 1)]);
    RunMoved(ShortTable, ShortInput, m2, 2);
    RunMoved(ShortTable, ShortInput, m3, 1);
  }
}
