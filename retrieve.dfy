/**
 * Putting parse trees back into the shape of the grammar the user wrote
 * (src/parser/transform.rs): `retrieve_unwrap` splices the children of
 * nodes built for synthesized nonterminals into their parents, and
 * `retrieve_left_recursion` undoes the rewriting of `elimate_left_recursion`
 * by turning the right-leaning chains of tail nodes back into left-leaning
 * ones.
 */
module Retrieve {
  import Lexer
  import Tree
  import opened Grammar
  import opened ParseTree

  const TAIL_TAG: string := "##"

  /** The number of nodes of a tree. */
  function Size(n: Node): nat
    decreases n, 1
  {
    1 + SizeOf(n.childs)
  }

  function SizeOf(ns: seq<Node>): nat
    decreases ns, 0
  {
    if |ns| == 0 then 0 else Size(ns[0]) + SizeOf(ns[1..])
  }

  lemma {:induction false} SizeOfAppend(a: seq<Node>, b: seq<Node>)
    ensures SizeOf(a + b) == SizeOf(a) + SizeOf(b)
  {
    if |a| > 0 {
      assert (a + b)[1..] == a[1..] + b;
      SizeOfAppend(a[1..], b);
    } else {
      assert a + b == b;
    }
  }

  lemma {:induction false} SizeOfElement(ns: seq<Node>, i: nat)
    requires i < |ns|
    ensures Size(ns[i]) <= SizeOf(ns)
  {
    if i > 0 {
      SizeOfElement(ns[1..], i - 1);
    }
  }

  // ---------------------------------------------------------------------------
  // retrieve_unwrap
  // ---------------------------------------------------------------------------

  /** A term whose node is replaced by its children. */
  predicate Unwraps(t: Term)
  {
    t.NonTerminal? && t.unwrap
  }

  /**
   * The `zip` and `flat_map` of `retrieve_unwrap`: children paired with the
   * production's terms (the longer of the two cut to the shorter), the
   * children of an unwrapped nonterminal spliced in.
   */
  function Splice(cs: seq<Node>, ts: seq<Term>): (r: seq<Node>)
    ensures (forall i :: 0 <= i < |ts| ==> !Unwraps(ts[i])) ==> r == (if |cs| <= |ts| then cs else cs[..|ts|])
  {
    if |cs| == 0 || |ts| == 0 then []
    else (if Unwraps(ts[0]) then cs[0].childs else [cs[0]]) + Splice(cs[1..], ts[1..])
  }

  /** `retrieve_unwrap`: children first, then the node's own splice. */
  function RetrieveUnwrap(n: Node): (r: Node)
    ensures r.value == n.value && r.index == n.index
    decreases n, 1
  {
    var cs := RetrieveUnwrapAll(n.childs);
    if n.value.NonTerminalNode? then n.(childs := Splice(cs, n.value.nt.rule_.expr.terms))
    else n.(childs := cs)
  }

  function RetrieveUnwrapAll(ns: seq<Node>): (r: seq<Node>)
    ensures |r| == |ns|
    ensures forall i :: 0 <= i < |ns| ==> r[i].value == ns[i].value
    decreases ns, 0
  {
    if |ns| == 0 then [] else [RetrieveUnwrap(ns[0])] + RetrieveUnwrapAll(ns[1..])
  }

  /**
   * The shape the parsers build: a nonterminal node has no more children than
   * its production has terms, and the child standing for an unwrapped
   * nonterminal is not a token.
   */
  predicate Shaped(n: Node)
    decreases n
  {
    && (n.value.NonTerminalNode? ==>
          var ts := n.value.nt.rule_.expr.terms;
          && |n.childs| <= |ts|
          && forall i :: 0 <= i < |n.childs| && Unwraps(ts[i]) ==> !n.childs[i].value.TerminalNode?)
    && forall i :: 0 <= i < |n.childs| ==> Shaped(n.childs[i])
  }

  /** Splicing drops no token when no child is cut off and no token is unwrapped. */
  lemma {:induction false} SpliceFringe(cs: seq<Node>, ts: seq<Term>)
    requires |cs| <= |ts|
    requires forall i :: 0 <= i < |cs| && Unwraps(ts[i]) ==> !cs[i].value.TerminalNode?
    ensures FringeOf(Splice(cs, ts)) == FringeOf(cs)
  {
    if |cs| > 0 {
      SpliceFringe(cs[1..], ts[1..]);
      var head := if Unwraps(ts[0]) then cs[0].childs else [cs[0]];
      FringeOfAppend(head, Splice(cs[1..], ts[1..]));
      if !Unwraps(ts[0]) {
        assert FringeOf(head) == Fringe(cs[0]) by {
          assert head[1..] == [];
        }
      }
    }
  }

  /** `retrieve_unwrap` keeps the tokens of a tree in order. */
  lemma {:induction false} RetrieveUnwrapFringe(n: Node)
    requires Shaped(n)
    ensures Fringe(RetrieveUnwrap(n)) == Fringe(n)
    decreases n, 1
  {
    var cs := RetrieveUnwrapAll(n.childs);
    RetrieveUnwrapAllFringe(n.childs);
    if n.value.NonTerminalNode? {
      SpliceFringe(cs, n.value.nt.rule_.expr.terms);
    }
  }

  lemma {:induction false} RetrieveUnwrapAllFringe(ns: seq<Node>)
    requires forall i :: 0 <= i < |ns| ==> Shaped(ns[i])
    ensures FringeOf(RetrieveUnwrapAll(ns)) == FringeOf(ns)
    decreases ns, 0
  {
    if |ns| > 0 {
      RetrieveUnwrapFringe(ns[0]);
      RetrieveUnwrapAllFringe(ns[1..]);
      assert RetrieveUnwrapAll(ns)[1..] == RetrieveUnwrapAll(ns[1..]);
    }
  }

  /** No nonterminal node unwraps a child or has more children than terms. */
  predicate Plain(n: Node)
    decreases n
  {
    && (n.value.NonTerminalNode? ==>
          var ts := n.value.nt.rule_.expr.terms;
          |n.childs| <= |ts| && forall i :: 0 <= i < |ts| ==> !Unwraps(ts[i]))
    && forall i :: 0 <= i < |n.childs| ==> Plain(n.childs[i])
  }

  /** A tree without unwrapped nonterminals comes back unchanged. */
  lemma {:induction false} RetrieveUnwrapPlain(n: Node)
    requires Plain(n)
    ensures RetrieveUnwrap(n) == n
    decreases n, 1
  {
    RetrieveUnwrapAllPlain(n.childs);
  }

  lemma {:induction false} RetrieveUnwrapAllPlain(ns: seq<Node>)
    requires forall i :: 0 <= i < |ns| ==> Plain(ns[i])
    ensures RetrieveUnwrapAll(ns) == ns
    decreases ns, 0
  {
    if |ns| > 0 {
      RetrieveUnwrapPlain(ns[0]);
      RetrieveUnwrapAllPlain(ns[1..]);
      assert ns == [ns[0]] + ns[1..];
    }
  }

  // ---------------------------------------------------------------------------
  // retrieve_left_recursion
  // ---------------------------------------------------------------------------

  /** A nonterminal node whose type ends with the tail marker. */
  predicate IsTail(n: Node)
  {
    && n.value.NonTerminalNode?
    && var t := n.value.nt.type_;
       |t| >= |TAIL_TAG| && t[|t| - |TAIL_TAG|..] == TAIL_TAG
  }

  /** Every nonterminal node records the production it was built from. */
  predicate WellFormed(n: Node)
    decreases n
  {
    && (n.value.NonTerminalNode? ==> Consistent(n.value.nt))
    && forall i :: 0 <= i < |n.childs| ==> WellFormed(n.childs[i])
  }

  function Last(n: Node): Node
    requires |n.childs| > 0
  {
    n.childs[|n.childs| - 1]
  }

  /** The number of nested tail nodes with children down the last children. */
  function Chain(n: Node): nat
    decreases n
  {
    if |n.childs| > 0 && IsTail(Last(n)) && |Last(n).childs| > 0 then 1 + Chain(Last(n)) else 0
  }

  /** The last child dropped, and with it the last term of the node's production (`pop` of nothing does nothing). */
  function DropLast(n: Node): (r: Node)
    requires |n.childs| > 0
    ensures r.childs == n.childs[..|n.childs| - 1]
  {
    var m := n.(childs := n.childs[..|n.childs| - 1]);
    if n.value.NonTerminalNode? then
      var nt := n.value.nt;
      var ts := nt.rule_.expr.terms;
      var ts' := if |ts| > 0 then ts[..|ts| - 1] else ts;
      m.(value := NonTerminalNode(nt.(rule_ := nt.rule_.(expr := Expression(ts')))))
    else m
  }

  /**
   * One rotation: the node's tail child, renamed to the original
   * nonterminal, takes the node (without that child) as its first child, and
   * its production gains the original nonterminal as its first term.
   */
  function Rotate(n: Node): (r: Node)
    requires |n.childs| > 0 && IsTail(Last(n)) && Consistent(Last(n).value.nt)
  {
    var x := Last(n);
    var d := x.value.nt;
    var name := d.rule_.name[..|d.rule_.name| - |TAIL_TAG|];
    var rule := d.rule_.(name := name, expr := Expression([NonTerminal(name, false)] + d.rule_.expr.terms));
    x.(value := NonTerminalNode(NonTerminalData(d.type_[..|d.type_| - |TAIL_TAG|], d.value_, rule)),
       childs := [DropLast(n)] + x.childs)
  }

  /** A rotation keeps the nodes and shortens the chain of tails. */
  lemma RotateMeasure(n: Node)
    requires |n.childs| > 0 && IsTail(Last(n)) && |Last(n).childs| > 0 && Consistent(Last(n).value.nt)
    ensures Size(Rotate(n)) == Size(n) && Chain(Rotate(n)) < Chain(n)
  {
    var x, r := Last(n), Rotate(n);
    var init := n.childs[..|n.childs| - 1];
    assert n.childs == init + [x];
    SizeOfAppend(init, [x]);
    assert SizeOf([x]) == Size(x) by { assert [x][1..] == []; }
    var m := DropLast(n);
    assert r.childs == [m] + x.childs;
    SizeOfAppend([m], x.childs);
    assert SizeOf([m]) == Size(m) by { assert [m][1..] == []; }
    assert Last(r) == Last(x);
  }

  lemma RotateWellFormed(n: Node)
    requires WellFormed(n) && |n.childs| > 0 && IsTail(Last(n))
    ensures Consistent(Last(n).value.nt) && WellFormed(Rotate(n))
  {
    var x := Last(n);
    assert WellFormed(x);
    var r := Rotate(n);
    var m := DropLast(n);
    assert WellFormed(m) by {
      forall i | 0 <= i < |m.childs| ensures WellFormed(m.childs[i]) {
        assert m.childs[i] == n.childs[i];
      }
    }
    forall i | 0 <= i < |r.childs| ensures WellFormed(r.childs[i]) {
      if i > 0 {
        assert r.childs[i] == x.childs[i - 1];
      }
    }
  }

  lemma DropLastWellFormed(n: Node)
    requires WellFormed(n) && |n.childs| > 0
    ensures WellFormed(DropLast(n))
  {
    var m := DropLast(n);
    forall i | 0 <= i < |m.childs| ensures WellFormed(m.childs[i]) {
      assert m.childs[i] == n.childs[i];
    }
  }

  /**
   * `retrieve_left_recursion`, its explicit stacks written as recursion: a
   * childless tail child is dropped, a tail child with children is rotated
   * up and the result looked at again, and then the children are processed.
   */
  function RetrieveLeftRecursion(n: Node): (r: Node)
    requires WellFormed(n)
    ensures WellFormed(r)
    decreases Size(n), 0, Chain(n)
  {
    if |n.childs| > 0 && IsTail(Last(n)) then
      if |Last(n).childs| == 0 then
        var m := DropLast(n);
        DropLastWellFormed(n);
        SizeOfAppend(m.childs, [Last(n)]);
        assert n.childs == m.childs + [Last(n)];
        m.(childs := RetrieveLeftRecursionAll(m.childs))
      else
        RotateWellFormed(n);
        RotateMeasure(n);
        RetrieveLeftRecursion(Rotate(n))
    else
      n.(childs := RetrieveLeftRecursionAll(n.childs))
  }

  function RetrieveLeftRecursionAll(ns: seq<Node>): (r: seq<Node>)
    requires forall i :: 0 <= i < |ns| ==> WellFormed(ns[i])
    ensures |r| == |ns|
    ensures forall i :: 0 <= i < |r| ==> WellFormed(r[i])
    decreases SizeOf(ns), 1
  {
    if |ns| == 0 then []
    else
      SizeOfElement(ns, 0);
      [RetrieveLeftRecursion(ns[0])] + RetrieveLeftRecursionAll(ns[1..])
  }

  /** A rotation keeps the tokens of the tree in order. */
  lemma RotateFringe(n: Node)
    requires |n.childs| > 0 && IsTail(Last(n)) && Consistent(Last(n).value.nt)
    ensures Fringe(Rotate(n)) == Fringe(n)
  {
    var x, m := Last(n), DropLast(n);
    assert n.childs == m.childs + [x];
    FringeOfAppend(m.childs, [x]);
    assert FringeOf([x]) == Fringe(x) by { assert [x][1..] == []; }
    var r := Rotate(n);
    assert r.childs == [m] + x.childs;
    FringeOfAppend([m], x.childs);
    assert FringeOf([m]) == Fringe(m) by { assert [m][1..] == []; }
    assert m.value.TerminalNode? == n.value.TerminalNode? && (n.value.TerminalNode? ==> m.value == n.value);
    var t, a, b := if n.value.TerminalNode? then [n.value.token] else [], FringeOf(m.childs), FringeOf(x.childs);
    assert Fringe(m) == t + a;
    assert Fringe(x) == b;
    assert Fringe(r) == (t + a) + b;
    assert Fringe(n) == t + (a + b);
    ConcatAssoc(t, a, b);
  }

  lemma ConcatAssoc(t: seq<Lexer.Token>, a: seq<Lexer.Token>, b: seq<Lexer.Token>)
    ensures (t + a) + b == t + (a + b)
  {
  }

  /** `retrieve_left_recursion` keeps the tokens of a tree in order. */
  lemma {:induction false} RetrieveLeftRecursionFringe(n: Node)
    requires WellFormed(n)
    ensures Fringe(RetrieveLeftRecursion(n)) == Fringe(n)
    decreases Size(n), 0, Chain(n)
  {
    if |n.childs| > 0 && IsTail(Last(n)) {
      var x := Last(n);
      if |x.childs| == 0 {
        var m := DropLast(n);
        DropLastWellFormed(n);
        SizeOfAppend(m.childs, [x]);
        assert n.childs == m.childs + [x];
        RetrieveLeftRecursionAllFringe(m.childs);
        FringeOfAppend(m.childs, [x]);
        assert FringeOf([x]) == Fringe(x) by { assert [x][1..] == []; }
      } else {
        RotateWellFormed(n);
        RotateMeasure(n);
        RotateFringe(n);
        RetrieveLeftRecursionFringe(Rotate(n));
      }
    } else {
      RetrieveLeftRecursionAllFringe(n.childs);
    }
  }

  lemma {:induction false} RetrieveLeftRecursionAllFringe(ns: seq<Node>)
    requires forall i :: 0 <= i < |ns| ==> WellFormed(ns[i])
    ensures FringeOf(RetrieveLeftRecursionAll(ns)) == FringeOf(ns)
    decreases SizeOf(ns), 1
  {
    if |ns| > 0 {
      SizeOfElement(ns, 0);
      RetrieveLeftRecursionFringe(ns[0]);
      RetrieveLeftRecursionAllFringe(ns[1..]);
      assert RetrieveLeftRecursionAll(ns)[1..] == RetrieveLeftRecursionAll(ns[1..]);
    }
  }

  /** No nonterminal node of the tree is a tail. */
  predicate NoTails(n: Node)
    decreases n
  {
    !IsTail(n) && forall i :: 0 <= i < |n.childs| ==> NoTails(n.childs[i])
  }

  /** A tree without tail nodes comes back unchanged. */
  lemma {:induction false} RetrieveLeftRecursionNoTails(n: Node)
    requires WellFormed(n) && NoTails(n)
    ensures RetrieveLeftRecursion(n) == n
    decreases Size(n), 0, Chain(n)
  {
    if |n.childs| > 0 {
      assert NoTails(Last(n));
    }
    RetrieveLeftRecursionAllNoTails(n.childs);
  }

  lemma {:induction false} RetrieveLeftRecursionAllNoTails(ns: seq<Node>)
    requires forall i :: 0 <= i < |ns| ==> WellFormed(ns[i]) && NoTails(ns[i])
    ensures RetrieveLeftRecursionAll(ns) == ns
    decreases SizeOf(ns), 1
  {
    if |ns| > 0 {
      SizeOfElement(ns, 0);
      RetrieveLeftRecursionNoTails(ns[0]);
      RetrieveLeftRecursionAllNoTails(ns[1..]);
      assert ns == [ns[0]] + ns[1..];
    }
  }
}
