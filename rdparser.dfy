/**
 * The backtracking recursive-descent parser of src/parser/rdparser.rs.
 *
 * Every `parse` threads a cursor: the index `next` of the next token and
 * the furthest failure index `err` recorded so far (`MetaData::err`). A
 * failed attempt leaves the cursor where the attempt stopped, as the
 * source does; the callers decide whether to move it back.
 *
 * The source need not terminate: a left-recursive rule recurses forever
 * and a repetition whose body matches the empty input loops forever. The
 * functions take a `fuel` bound: a rule expansion and a turn of a
 * repetition each use one unit, and `Exhausted` says the bound was hit.
 *
 * `resets` chooses how an optional part that fails ends. The source
 * leaves the cursor where the failed attempt stopped (`resets == false`),
 * so tokens the attempt read are skipped although no node holds them;
 * with `resets == true` the cursor goes back to where the optional part
 * began, as it does after a repetition. `ParseAsWritten` is the first,
 * `Parse` the second.
 */
module RdParser {
  import opened Wrappers
  import opened Grammar
  import Lexer
  import Tree
  import opened ParseTree

  /** `next` and `MetaData::err`. */
  datatype Cursor = Cursor(next: nat, err: nat)

  /** `Result<Node, ParseError>` (the message text is not modelled), or the step bound was hit. */
  datatype RdResult = Matched(node: Node) | Unmatched(index: nat) | Exhausted

  /** A result and the cursor after it. */
  datatype Attempt = Attempt(r: RdResult, cur: Cursor)

  /** What a term's result node is: a leaf for a terminal, a nonterminal node, a `List` for a bracket. */
  predicate NodeFor(t: Term, n: Node)
  {
    match t
    case Terminal(_, _) => n.value.TerminalNode?
    case NonTerminal(_, _) => n.value.NonTerminalNode?
    case _ => n.value.List?
  }

  /** The cursor moves forward within the input, and the recorded failure index never drops. */
  predicate Forward(src: seq<Lexer.Token>, c: Cursor, a: Attempt)
  {
    c.next <= a.cur.next <= |src| && c.err <= a.cur.err && (c.err <= |src| ==> a.cur.err <= |src|)
  }

  /** An `Unmatched` index is within the input when the recorded one is. */
  predicate Bounded(src: seq<Lexer.Token>, c: Cursor, a: Attempt)
  {
    a.r.Unmatched? && c.err <= |src| ==> a.r.index <= |src|
  }

  /** The children a bracket's expression contributes: those of an `InnerNode`, else the node itself. */
  function Gather(n: Node): (r: seq<Node>)
    ensures FringeOf(r) == Fringe(n)
  {
    if n.value.InnerNode? then n.childs
    else
      assert [n][1..] == [];
      [n]
  }

  /** `set.extend(t.childs)` for an `InnerNode` or an unwrapped term, `set.push(t)` otherwise. */
  function Absorb(acc: seq<Node>, t: Term, n: Node): seq<Node>
  {
    if n.value.InnerNode? || IsUnwrap(t) then acc + n.childs else acc + [n]
  }

  /** The production's node: the expression's `InnerNode` renamed after the production. */
  function Relabel(p: Production, n: Node): (r: Node)
    ensures r.value == NonTerminalNode(FromProduction(p)) && r.childs == n.childs && r.index == n.index
  {
    n.(value := NonTerminalNode(NonTerminalData(p.name, p.label_, p)))
  }

  /** `Term::parse`. */
  function ParseTerm(ps: seq<Production>, src: seq<Lexer.Token>, t: Term, c: Cursor, fuel: nat, resets: bool): (a: Attempt)
    requires c.next <= |src|
    ensures Forward(src, c, a) && Bounded(src, c, a)
    ensures a.r.Matched? ==> NodeFor(t, a.r.node)
    ensures t.NonTerminal? && a.r.Matched? ==>
              a.r.node.value.nt.rule_ in ps && a.r.node.value.nt.type_ == t.name && Consistent(a.r.node.value.nt)
    ensures t.NonTerminal? && a.r.Unmatched? ==> a.r.index == a.cur.err
    ensures t.Terminal? ==>
              (a.r.Matched? <==> c.next < |src| && MatchToken(t, src[c.next]))
              && (a.r.Matched? ==> a.cur == c.(next := c.next + 1) && a.r.node == Tree.Node(TerminalNode(src[c.next]), [], c.next))
              && (!a.r.Matched? ==> a == Attempt(Unmatched(c.next), c))
    ensures t.Optional? || t.Repetition? ==> !a.r.Unmatched?
    decreases fuel, t, 1
  {
    match t
    case NonTerminal(name, _) =>
      TryRules(ps, src, t, 0, c.next, c, fuel, resets)
    case Terminal(_, _) =>
      if c.next < |src| && MatchToken(t, src[c.next]) then
        Attempt(Matched(Tree.Node(TerminalNode(src[c.next]), [], c.next)), c.(next := c.next + 1))
      else Attempt(Unmatched(c.next), c)
    case Group(e, _) =>
      var a := ParseExpr(ps, src, e, c, fuel, resets);
      if a.r.Matched? then Attempt(Matched(Tree.Node(List, Gather(a.r.node), c.next)), a.cur) else a
    case Optional(e, _) =>
      var a := ParseExpr(ps, src, e, c, fuel, resets);
      if a.r.Matched? then Attempt(Matched(Tree.Node(List, Gather(a.r.node), c.next)), a.cur)
      else if a.r.Exhausted? then a
      else Attempt(Matched(Tree.Node(List, [], c.next)), if resets then a.cur.(next := c.next) else a.cur)
    case Repetition(e, _) =>
      Repeat(ps, src, e, c.next, [], c, fuel, resets)
  }

  /**
   * The `for r in &grammar.productions` loop of a nonterminal: from the
   * i-th production on, each one named like t is tried from `curr`; the
   * first that matches is the result, a failure raises `err` to its index,
   * and when none is left the result fails at `err`.
   */
  function TryRules(ps: seq<Production>, src: seq<Lexer.Token>, t: Term, i: nat, curr: nat, c: Cursor,
                    fuel: nat, resets: bool): (a: Attempt)
    requires t.NonTerminal? && curr <= c.next <= |src|
    ensures Forward(src, c.(next := curr), a) && Bounded(src, c, a)
    ensures a.r.Matched? ==>
              && a.r.node.value.NonTerminalNode? && (exists j :: i <= j < |ps| && ps[j] == a.r.node.value.nt.rule_)
              && a.r.node.value.nt.type_ == t.name && Consistent(a.r.node.value.nt)
    ensures a.r.Unmatched? ==> a.r.index == a.cur.err
    decreases fuel, t, 0, |ps| - i
  {
    if i >= |ps| then Attempt(Unmatched(c.err), c)
    else
      var c' := c.(next := curr);
      if ps[i].name != t.name then TryRules(ps, src, t, i + 1, curr, c', fuel, resets)
      else if fuel == 0 then Attempt(Exhausted, c')
      else
        var a := ParseExpr(ps, src, ps[i].expr, c', fuel - 1, resets);
        match a.r
        case Matched(n) => Attempt(Matched(Relabel(ps[i], n)), a.cur)
        case Exhausted => a
        case Unmatched(index) =>
          TryRules(ps, src, t, i + 1, curr, a.cur.(err := if index > a.cur.err then index else a.cur.err), fuel, resets)
  }

  /** `Expression::parse`: the terms in sequence, their nodes gathered under an `InnerNode` at the start index. */
  function ParseExpr(ps: seq<Production>, src: seq<Lexer.Token>, e: Expression, c: Cursor, fuel: nat, resets: bool): (a: Attempt)
    requires c.next <= |src|
    ensures Forward(src, c, a) && Bounded(src, c, a)
    ensures a.r.Matched? ==> a.r.node.value == InnerNode && a.r.node.index == c.next
    decreases fuel, e, 2
  {
    ParseTerms(ps, src, e, 0, [], c.next, c, fuel, resets)
  }

  /** The `for term in &self.terms` loop from the k-th term on, with the nodes gathered so far. */
  function ParseTerms(ps: seq<Production>, src: seq<Lexer.Token>, e: Expression, k: nat, acc: seq<Node>, ori: nat,
                      c: Cursor, fuel: nat, resets: bool): (a: Attempt)
    requires c.next <= |src|
    ensures Forward(src, c, a) && Bounded(src, c, a)
    ensures a.r.Matched? ==> a.r.node.value == InnerNode && a.r.node.index == ori
    decreases fuel, e, 1, |e.terms| - k
  {
    if k >= |e.terms| then Attempt(Matched(Tree.Node(InnerNode, acc, ori)), c)
    else
      var a := ParseTerm(ps, src, e.terms[k], c, fuel, resets);
      if a.r.Matched? then ParseTerms(ps, src, e, k + 1, Absorb(acc, e.terms[k], a.r.node), ori, a.cur, fuel, resets)
      else a
  }

  /**
   * The `while let Ok(n)` loop of a repetition: parse the expression
   * again until it fails, then put the cursor back at the end of the last
   * turn that matched.
   */
  function Repeat(ps: seq<Production>, src: seq<Lexer.Token>, e: Expression, ori: nat, acc: seq<Node>, c: Cursor,
                  fuel: nat, resets: bool): (a: Attempt)
    requires c.next <= |src|
    ensures Forward(src, c, a) && !a.r.Unmatched?
    ensures a.r.Matched? ==> a.r.node == Tree.Node(List, a.r.node.childs, ori)
    decreases fuel, e, 3
  {
    if fuel == 0 then Attempt(Exhausted, c)
    else
      var a := ParseExpr(ps, src, e, c, fuel - 1, resets);
      match a.r
      case Matched(n) => Repeat(ps, src, e, ori, acc + Gather(n), a.cur, fuel - 1, resets)
      case Exhausted => a
      case Unmatched(_) => Attempt(Matched(Tree.Node(List, acc, ori)), a.cur.(next := c.next))
  }

  /** `Parser for Production`: the production's expression from the first token, with a fresh `err`. */
  function ParseWith(p: Production, ps: seq<Production>, src: seq<Lexer.Token>, fuel: nat, resets: bool): (r: RdResult)
    ensures r.Matched? ==> r.node.value == NonTerminalNode(FromProduction(p)) && r.node.index == 0
    ensures r.Unmatched? ==> r.index <= |src|
  {
    var a := ParseExpr(ps, src, p.expr, Cursor(0, 0), fuel, resets);
    if a.r.Matched? then Matched(Relabel(p, a.r.node)) else a.r
  }

  /** The top-level parse, the optional part as the source writes it. */
  function ParseAsWritten(p: Production, ps: seq<Production>, src: seq<Lexer.Token>, fuel: nat): (r: RdResult)
    ensures r.Matched? ==> r.node.value == NonTerminalNode(FromProduction(p)) && r.node.index == 0
    ensures r.Unmatched? ==> r.index <= |src|
  {
    ParseWith(p, ps, src, fuel, false)
  }

  /** The top-level parse, an optional part that fails giving back the tokens it read. */
  function Parse(p: Production, ps: seq<Production>, src: seq<Lexer.Token>, fuel: nat): (r: RdResult)
    ensures r.Matched? ==> r.node.value == NonTerminalNode(FromProduction(p)) && r.node.index == 0
    ensures r.Unmatched? ==> r.index <= |src|
  {
    ParseWith(p, ps, src, fuel, true)
  }

  // ---------------------------------------------------------------------------
  // The loops
  // ---------------------------------------------------------------------------

  /** `Expression::parse` with its `for` loop. */
  method ParseExpression(ps: seq<Production>, src: seq<Lexer.Token>, e: Expression, c: Cursor, fuel: nat, resets: bool)
    returns (a: Attempt)
    requires c.next <= |src|
    ensures a == ParseExpr(ps, src, e, c, fuel, resets)
  {
    var acc: seq<Node> := [];
    var cur := c;
    var k := 0;
    while k < |e.terms|
      invariant k <= |e.terms| && cur.next <= |src|
      invariant ParseTerms(ps, src, e, k, acc, c.next, cur, fuel, resets) == ParseExpr(ps, src, e, c, fuel, resets)
    {
      var t := ParseTerm(ps, src, e.terms[k], cur, fuel, resets);
      if !t.r.Matched? {
        return t;
      }
      acc := Absorb(acc, e.terms[k], t.r.node);
      cur := t.cur;
      k := k + 1;
    }
    a := Attempt(Matched(Tree.Node(InnerNode, acc, c.next)), cur);
  }

  /** A nonterminal's `for r in &grammar.productions` loop. */
  method ParseNonTerminal(ps: seq<Production>, src: seq<Lexer.Token>, t: Term, c: Cursor, fuel: nat, resets: bool)
    returns (a: Attempt)
    requires t.NonTerminal? && c.next <= |src|
    ensures a == ParseTerm(ps, src, t, c, fuel, resets)
  {
    var curr := c.next;
    var cur := c;
    var i := 0;
    while i < |ps|
      invariant i <= |ps| && curr <= cur.next <= |src|
      invariant TryRules(ps, src, t, i, curr, cur, fuel, resets) == ParseTerm(ps, src, t, c, fuel, resets)
    {
      cur := cur.(next := curr);
      if ps[i].name == t.name {
        if fuel == 0 {
          return Attempt(Exhausted, cur);
        }
        var r := ParseExpr(ps, src, ps[i].expr, cur, fuel - 1, resets);
        match r.r {
          case Matched(n) =>
            return Attempt(Matched(Relabel(ps[i], n)), r.cur);
          case Exhausted =>
            return r;
          case Unmatched(index) =>
            cur := r.cur.(err := if index > r.cur.err then index else r.cur.err);
        }
      }
      i := i + 1;
    }
    a := Attempt(Unmatched(cur.err), cur);
  }

  /** A repetition's `while let Ok(n)` loop. */
  method ParseRepetition(ps: seq<Production>, src: seq<Lexer.Token>, t: Term, c: Cursor, fuel: nat, resets: bool)
    returns (a: Attempt)
    requires t.Repetition? && c.next <= |src|
    ensures a == ParseTerm(ps, src, t, c, fuel, resets)
  {
    var acc: seq<Node> := [];
    var cur := c;
    var f: nat := fuel;
    while f > 0
      invariant f <= fuel && cur.next <= |src|
      invariant Repeat(ps, src, t.expr, c.next, acc, cur, f, resets) == ParseTerm(ps, src, t, c, fuel, resets)
      decreases f
    {
      var r := ParseExpr(ps, src, t.expr, cur, f - 1, resets);
      match r.r {
        case Matched(n) =>
          acc := acc + Gather(n);
          cur := r.cur;
          f := f - 1;
        case Exhausted =>
          return r;
        case Unmatched(_) =>
          return Attempt(Matched(Tree.Node(List, acc, c.next)), r.cur.(next := cur.next));
      }
    }
    a := Attempt(Exhausted, cur);
  }

  // ---------------------------------------------------------------------------
  // Soundness: a match covers exactly the tokens it read
  // ---------------------------------------------------------------------------

  /** A match from `from`: the leaves of its tree are the tokens between `from` and the cursor. */
  ghost predicate Reads(src: seq<Lexer.Token>, from: nat, a: Attempt)
  {
    from <= a.cur.next <= |src| && (a.r.Matched? ==> Fringe(a.r.node) == src[from..a.cur.next])
  }

  lemma Adjacent<X>(s: seq<X>, i: nat, j: nat, k: nat)
    requires i <= j <= k <= |s|
    ensures s[i..j] + s[j..k] == s[i..k]
  {
  }

  /** Gathering a term's node keeps its leaves in order. */
  lemma AbsorbFringe(acc: seq<Node>, t: Term, n: Node)
    requires NodeFor(t, n)
    ensures FringeOf(Absorb(acc, t, n)) == FringeOf(acc) + Fringe(n)
  {
    if n.value.InnerNode? || IsUnwrap(t) {
      FringeOfAppend(acc, n.childs);
    } else {
      FringeOfAppend(acc, [n]);
      assert [n][1..] == [];
    }
  }

  lemma {:induction false} TermReads(ps: seq<Production>, src: seq<Lexer.Token>, t: Term, c: Cursor, fuel: nat)
    requires c.next <= |src|
    ensures Reads(src, c.next, ParseTerm(ps, src, t, c, fuel, true))
    decreases fuel, t, 1
  {
    match t
    case NonTerminal(_, _) =>
      RulesReads(ps, src, t, 0, c.next, c, fuel);
    case Terminal(_, _) =>
      if c.next < |src| && MatchToken(t, src[c.next]) {
        assert src[c.next..c.next + 1] == [src[c.next]];
      }
    case Group(e, _) =>
      ExprReads(ps, src, e, c, fuel);
    case Optional(e, _) =>
      ExprReads(ps, src, e, c, fuel);
    case Repetition(e, _) =>
      RepeatReads(ps, src, e, c.next, [], c, fuel);
  }

  lemma {:induction false} RulesReads(ps: seq<Production>, src: seq<Lexer.Token>, t: Term, i: nat, curr: nat, c: Cursor,
                                      fuel: nat)
    requires t.NonTerminal? && curr <= c.next <= |src|
    ensures Reads(src, curr, TryRules(ps, src, t, i, curr, c, fuel, true))
    decreases fuel, t, 0, |ps| - i
  {
    if i < |ps| {
      var c' := c.(next := curr);
      if ps[i].name != t.name {
        RulesReads(ps, src, t, i + 1, curr, c', fuel);
      } else if fuel > 0 {
        var a := ParseExpr(ps, src, ps[i].expr, c', fuel - 1, true);
        ExprReads(ps, src, ps[i].expr, c', fuel - 1);
        if a.r.Unmatched? {
          var index := a.r.index;
          RulesReads(ps, src, t, i + 1, curr, a.cur.(err := if index > a.cur.err then index else a.cur.err), fuel);
        }
      }
    }
  }

  lemma {:induction false} ExprReads(ps: seq<Production>, src: seq<Lexer.Token>, e: Expression, c: Cursor, fuel: nat)
    requires c.next <= |src|
    ensures Reads(src, c.next, ParseExpr(ps, src, e, c, fuel, true))
    decreases fuel, e, 2
  {
    TermsReads(ps, src, e, 0, [], c.next, c, fuel);
  }

  lemma {:induction false} TermsReads(ps: seq<Production>, src: seq<Lexer.Token>, e: Expression, k: nat, acc: seq<Node>,
                                      ori: nat, c: Cursor, fuel: nat)
    requires ori <= c.next <= |src| && FringeOf(acc) == src[ori..c.next]
    ensures Reads(src, ori, ParseTerms(ps, src, e, k, acc, ori, c, fuel, true))
    decreases fuel, e, 1, |e.terms| - k
  {
    if k < |e.terms| {
      var a := ParseTerm(ps, src, e.terms[k], c, fuel, true);
      TermReads(ps, src, e.terms[k], c, fuel);
      if a.r.Matched? {
        AbsorbFringe(acc, e.terms[k], a.r.node);
        Adjacent(src, ori, c.next, a.cur.next);
        TermsReads(ps, src, e, k + 1, Absorb(acc, e.terms[k], a.r.node), ori, a.cur, fuel);
      }
    }
  }

  lemma {:induction false} RepeatReads(ps: seq<Production>, src: seq<Lexer.Token>, e: Expression, ori: nat, acc: seq<Node>,
                                       c: Cursor, fuel: nat)
    requires ori <= c.next <= |src| && FringeOf(acc) == src[ori..c.next]
    ensures Reads(src, ori, Repeat(ps, src, e, ori, acc, c, fuel, true))
    decreases fuel, e, 3
  {
    if fuel > 0 {
      var a := ParseExpr(ps, src, e, c, fuel - 1, true);
      ExprReads(ps, src, e, c, fuel - 1);
      if a.r.Matched? {
        FringeOfAppend(acc, Gather(a.r.node));
        Adjacent(src, ori, c.next, a.cur.next);
        RepeatReads(ps, src, e, ori, acc + Gather(a.r.node), a.cur, fuel - 1);
      }
    }
  }

  /**
   * A production that matches yields a tree whose leaves are the tokens it
   * read, which are a prefix of the input (the rest need not be read).
   */
  lemma ParseSound(p: Production, ps: seq<Production>, src: seq<Lexer.Token>, fuel: nat)
    ensures Parse(p, ps, src, fuel).Matched? ==>
              var n := Parse(p, ps, src, fuel).node;
              |Fringe(n)| <= |src| && Fringe(n) == src[..|Fringe(n)|] && n.value == NonTerminalNode(FromProduction(p))
  {
    var a := ParseExpr(ps, src, p.expr, Cursor(0, 0), fuel, true);
    ExprReads(ps, src, p.expr, Cursor(0, 0), fuel);
    if a.r.Matched? {
      assert Fringe(Relabel(p, a.r.node)) == Fringe(a.r.node);
    }
  }

  // ---------------------------------------------------------------------------
  // An optional part that fails after reading tokens
  // ---------------------------------------------------------------------------

  /** `S = [a b] c ;` and the input `a c`, which the rule does not describe. */
  const SkipRule := Production("S", "", Expression([Optional(Expression([Terminal("a", None), Terminal("b", None)]), false),
                                                   Terminal("c", None)]), 0, Left)
  const SkipInput := [Lexer.Token("a", "a", 1), Lexer.Token("c", "c", 1)]

  /**
   * As written, the optional part reads `a`, fails on `c`, and leaves the
   * cursor after `a`: the rule then matches `c`, and the tree holds `c`
   * alone. With the cursor put back, the input is rejected at its first
   * token.
   */
  lemma OptionalSkipsTokens()
    ensures ParseAsWritten(SkipRule, [SkipRule], SkipInput, 1).Matched?
    ensures Fringe(ParseAsWritten(SkipRule, [SkipRule], SkipInput, 1).node) == [SkipInput[1]]
    ensures Parse(SkipRule, [SkipRule], SkipInput, 1) == Unmatched(0)
  {
    var opt := SkipRule.expr.terms[0];
    var inner := opt.expr;
    var c0 := Cursor(0, 0);
    var a1 := ParseTerm([SkipRule], SkipInput, inner.terms[0], c0, 1, false);
    assert a1 == Attempt(Matched(Tree.Node(TerminalNode(SkipInput[0]), [], 0)), Cursor(1, 0));
    var a2 := ParseTerm([SkipRule], SkipInput, inner.terms[1], Cursor(1, 0), 1, false);
    assert a2 == Attempt(Unmatched(1), Cursor(1, 0));
    assert ParseExpr([SkipRule], SkipInput, inner, c0, 1, false) == Attempt(Unmatched(1), Cursor(1, 0));
    assert ParseExpr([SkipRule], SkipInput, inner, c0, 1, true) == Attempt(Unmatched(1), Cursor(1, 0));
    var leaf := Tree.Node(TerminalNode(SkipInput[1]), [], 1);
    var n := Tree.Node(InnerNode, [Tree.Node(List, [], 0), leaf], 0);
    assert ParseExpr([SkipRule], SkipInput, SkipRule.expr, c0, 1, false) == Attempt(Matched(n), Cursor(2, 0));
    assert Fringe(Tree.Node(List, [], 0)) == [];
    assert Fringe(leaf) == [SkipInput[1]];
    assert FringeOf(n.childs[1..]) == [SkipInput[1]] by {
      assert n.childs[1..][1..] == [];
    }
    assert Fringe(Relabel(SkipRule, n)) == FringeOf(n.childs);
    assert ParseAsWritten(SkipRule, [SkipRule], SkipInput, 1) == Matched(Relabel(SkipRule, n));
    assert ParseExpr([SkipRule], SkipInput, SkipRule.expr, c0, 1, true) == Attempt(Unmatched(0), Cursor(0, 0));
  }
}
