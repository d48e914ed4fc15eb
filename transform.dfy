/**
 * The grammar rewrites of src/parser/transform.rs and their tree-level
 * inverses.
 *
 * `ConvertToFormalGrammar` turns EBNF groups, optionals and repetitions into
 * fresh unwrapped nonterminals; `ElimateLeftRecursion` removes direct left
 * recursion with a `##` tail nonterminal; `LeftFactor` pulls out the first
 * term shared by several productions of a nonterminal. `RetrieveUnwrap` and
 * `RetrieveLeftRecursion` undo the first two on parse trees.
 */
module Transform {
  import opened Wrappers
  import opened Text
  import opened Grammar
  import Tree
  import opened ParseTree

  // The fixed parts of the names and labels the rewrites make up.
  const DOLLAR: string := "$"
  const HASH: string := "#"
  const GROUP_TAG: string := "$group#"
  const OPTIONAL_TAG: string := "$optional#"
  const OPTIONAL_TERM_TAG: string := "$optionalterm#"
  const REPETITION_TAG: string := "$repetition#"
  const REPETITION_TERM_TAG: string := "$repetitionterm#"
  const FACTOR_TAG: string := "$#"
  const TAIL_TAG: string := "##"
  const FIRST_LABEL: string := "#0"
  const EPSILON_LABEL: string := "epsilon"
  const MAIN_LABEL: string := "main"

  /** Every production holds only nonterminals and terminals. */
  predicate FormalProductions(ps: seq<Production>)
  {
    forall i :: 0 <= i < |ps| ==> FormalExpr(ps[i].expr)
  }

  // ---------------------------------------------------------------------------
  // Substitution
  // ---------------------------------------------------------------------------

  /**
   * `Substitution::new`: the target is the source with its pos-th term
   * replaced by the rule's terms and its label extended by the rule's name
   * and label. The source removes term pos first, so pos must be in range.
   */
  function NewSubstitution(rule: Production, source: Production, pos: nat): (s: Substitution)
    requires pos < |source.expr.terms|
    ensures s.rule == rule && s.source == source && s.pos == pos
    ensures s.target.name == source.name
    ensures s.target.precedence == source.precedence && s.target.associativity == source.associativity
    ensures s.target.label_ == source.label_ + HASH + rule.name + HASH + rule.label_
    ensures var ts, n := s.target.expr.terms, |rule.expr.terms|;
            && |ts| == |source.expr.terms| - 1 + n
            && ts[..pos] == source.expr.terms[..pos]
            && ts[pos..pos + n] == rule.expr.terms
            && ts[pos + n..] == source.expr.terms[pos + 1..]
  {
    var terms := source.expr.terms;
    var spliced := terms[..pos] + rule.expr.terms + terms[pos + 1..];
    assert spliced[pos + |rule.expr.terms|..] == terms[pos + 1..];
    var target := source.(label_ := source.label_ + HASH + rule.name + HASH + rule.label_,
                          expr := Expression(spliced));
    Substitution(rule, source, target, pos)
  }

  /**
   * `apply_to_grammar`: every production equal to the source becomes the
   * target. Production equality compares terms with `Term ==`, which needs
   * formal terms on its left.
   */
  function ApplyToGrammar(s: Substitution, g: Grammar): (r: Grammar)
    requires FormalProductions(g.productions)
    ensures r.name == g.name && r.transforms == g.transforms && r.startSymbol == g.startSymbol
    ensures |r.productions| == |g.productions|
    ensures forall i :: 0 <= i < |g.productions| ==>
              r.productions[i] == (if ProductionEq(g.productions[i], s.source) then s.target else g.productions[i])
  {
    var ps := g.productions;
    g.(productions := seq(|ps|, i requires 0 <= i < |ps| =>
                            if ProductionEq(ps[i], s.source) then s.target else ps[i]))
  }

  /** Production equality is symmetric and transitive on formal productions. */
  lemma ProductionEqSpec(a: Production, b: Production, c: Production)
    requires FormalExpr(a.expr) && FormalExpr(b.expr) && FormalExpr(c.expr)
    ensures ProductionEq(a, a)
    ensures ProductionEq(a, b) ==> ProductionEq(b, a)
    ensures ProductionEq(a, b) && ProductionEq(b, c) ==> ProductionEq(a, c)
  {
    forall i | 0 <= i < |a.expr.terms| && i < |b.expr.terms| && i < |c.expr.terms|
      ensures TermEq(a.expr.terms[i], b.expr.terms[i]) ==> TermEq(b.expr.terms[i], a.expr.terms[i])
      ensures TermEq(a.expr.terms[i], b.expr.terms[i]) && TermEq(b.expr.terms[i], c.expr.terms[i])
              ==> TermEq(a.expr.terms[i], c.expr.terms[i])
    {
      TermEqSpec(a.expr.terms[i], b.expr.terms[i], c.expr.terms[i]);
    }
  }

  /**
   * After the substitution no production equals its source, unless the
   * target itself does: every production is the target or an untouched one.
   */
  lemma ApplyReplaces(s: Substitution, g: Grammar)
    requires FormalProductions(g.productions)
    requires FormalExpr(s.source.expr) && FormalExpr(s.target.expr)
    requires !ProductionEq(s.target, s.source)
    ensures var r := ApplyToGrammar(s, g);
            && FormalProductions(r.productions)
            && (forall i :: 0 <= i < |r.productions| ==>
                  !ProductionEq(r.productions[i], s.source)
                  && (r.productions[i] == s.target || r.productions[i] == g.productions[i]))
  {
  }

  // ---------------------------------------------------------------------------
  // EBNF to formal grammar
  // ---------------------------------------------------------------------------

  /** The prefix of every name synthesized for p's terms. */
  function Base(p: Production): string
  {
    p.name + DOLLAR + p.label_
  }

  /** A production that inherits p's precedence and associativity. */
  function Derived(p: Production, name: string, label_: string, terms: seq<Term>): (q: Production)
    ensures q.name == name && q.label_ == label_ && q.expr.terms == terms
    ensures q.precedence == p.precedence && q.associativity == p.associativity
  {
    Production(name, label_, Expression(terms), p.precedence, p.associativity)
  }

  /** The term that replaces t, the i-th term of a production whose synthesized names start with base. */
  function Replaced(t: Term, base: string, i: nat): (r: Term)
    ensures Formal(r)
    ensures Formal(t) ==> r == t
    ensures !Formal(t) ==> r.NonTerminal? && r.unwrap
  {
    match t
    case Group(_, _) => NonTerminal(base + GROUP_TAG + NatToString(i), true)
    case Optional(_, _) => NonTerminal(base + OPTIONAL_TAG + NatToString(i), true)
    case Repetition(_, _) => NonTerminal(base + REPETITION_TAG + NatToString(i), true)
    case _ => t
  }

  /**
   * The productions pushed for the i-th term t of p, in push order: a group
   * becomes one production; an optional its body, an empty alternative and
   * one naming the body; a repetition its body, an empty alternative and
   * one naming the body followed by the repetition itself.
   */
  function Pushed(t: Term, base: string, i: nat, p: Production): (r: seq<Production>)
    ensures Formal(t) <==> r == []
  {
    var n := NatToString(i);
    match t
    case Group(e, _) => [Derived(p, base + GROUP_TAG + n, FIRST_LABEL, e.terms)]
    case Optional(e, _) =>
      [Derived(p, base + OPTIONAL_TERM_TAG + n, FIRST_LABEL, e.terms),
       Derived(p, base + OPTIONAL_TAG + n, EPSILON_LABEL, []),
       Derived(p, base + OPTIONAL_TAG + n, MAIN_LABEL, [NonTerminal(base + OPTIONAL_TERM_TAG + n, true)])]
    case Repetition(e, _) =>
      [Derived(p, base + REPETITION_TERM_TAG + n, FIRST_LABEL, e.terms),
       Derived(p, base + REPETITION_TAG + n, EPSILON_LABEL, []),
       Derived(p, base + REPETITION_TAG + n, MAIN_LABEL,
               [NonTerminal(base + REPETITION_TERM_TAG + n, true), NonTerminal(base + REPETITION_TAG + n, true)])]
    case _ => []
  }

  /** The first k terms of p after replacement. */
  function ReplacedAll(p: Production, k: nat): (r: seq<Term>)
    requires k <= |p.expr.terms|
    ensures |r| == k
    ensures forall i :: 0 <= i < k ==> r[i] == Replaced(p.expr.terms[i], Base(p), i)
  {
    if k == 0 then [] else ReplacedAll(p, k - 1) + [Replaced(p.expr.terms[k - 1], Base(p), k - 1)]
  }

  /** What the first k terms of p push, in order. */
  function PushedAll(p: Production, k: nat): seq<Production>
    requires k <= |p.expr.terms|
  {
    if k == 0 then [] else PushedAll(p, k - 1) + Pushed(p.expr.terms[k - 1], Base(p), k - 1, p)
  }

  /** One pop of the worklist: p with its terms replaced, and what it pushes. */
  function Formalize(p: Production): (r: (Production, seq<Production>))
    ensures FormalExpr(r.0.expr)
    ensures r.0.name == p.name && r.0.label_ == p.label_
    ensures r.0.precedence == p.precedence && r.0.associativity == p.associativity
  {
    (p.(expr := Expression(ReplacedAll(p, |p.expr.terms|))), PushedAll(p, |p.expr.terms|))
  }

  /** A formal production is kept as it is and pushes nothing. */
  lemma FormalizeFormal(p: Production)
    requires FormalExpr(p.expr)
    ensures Formalize(p) == (p, [])
  {
    var r := ReplacedAll(p, |p.expr.terms|);
    assert r == p.expr.terms;
    PushedNone(p, |p.expr.terms|);
  }

  lemma {:induction false} PushedNone(p: Production, k: nat)
    requires FormalExpr(p.expr) && k <= |p.expr.terms|
    ensures PushedAll(p, k) == []
  {
    if k > 0 {
      PushedNone(p, k - 1);
    }
  }

  /** Size of a term: each bracket weighs more than everything it pushes. */
  function TermWeight(t: Term): nat
    decreases t, 0
  {
    match t
    case Group(e, _) => 2 + TermsWeight(e, 0)
    case Optional(e, _) => 5 + TermsWeight(e, 0)
    case Repetition(e, _) => 6 + TermsWeight(e, 0)
    case _ => 1
  }

  function TermsWeight(e: Expression, k: nat): nat
    decreases e, 1, |e.terms| - k
  {
    if k >= |e.terms| then 0 else TermWeight(e.terms[k]) + TermsWeight(e, k + 1)
  }

  function ProdWeight(p: Production): nat
  {
    1 + TermsWeight(p.expr, 0)
  }

  function ProdsWeight(ps: seq<Production>): nat
  {
    if |ps| == 0 then 0 else ProdsWeight(ps[..|ps| - 1]) + ProdWeight(ps[|ps| - 1])
  }

  lemma {:induction false} ProdsWeightAppend(a: seq<Production>, b: seq<Production>)
    ensures ProdsWeight(a + b) == ProdsWeight(a) + ProdsWeight(b)
    decreases |b|
  {
    if |b| == 0 {
      assert a + b == a;
    } else {
      assert (a + b)[..|a + b| - 1] == a + b[..|b| - 1];
      ProdsWeightAppend(a, b[..|b| - 1]);
    }
  }

  /** A term pushes productions weighing one less than itself. */
  lemma PushedWeight(t: Term, base: string, i: nat, p: Production)
    ensures ProdsWeight(Pushed(t, base, i, p)) + 1 == TermWeight(t)
  {
    var ps := Pushed(t, base, i, p);
    if !Formal(t) {
      var e := t.expr;
      assert ps[0].expr == e;
      if t.Group? {
        assert ProdsWeight(ps) == ProdWeight(ps[0]) by { assert ps[..0] == []; }
      } else {
        assert ProdWeight(ps[1]) == 1;
        var one, two := ps[..1], ps[..2];
        assert one[..0] == [] && two[..1] == one && one[0] == ps[0] && two[1] == ps[1];
        assert ProdsWeight(one) == ProdWeight(ps[0]);
        assert ProdsWeight(two) == ProdWeight(ps[0]) + 1;
        var e2 := ps[2].expr;
        assert e2.terms[0].NonTerminal? && TermWeight(e2.terms[0]) == 1;
        if t.Optional? {
          assert |e2.terms| == 1 && TermsWeight(e2, 1) == 0;
          assert ProdWeight(ps[2]) == 2;
        } else {
          assert |e2.terms| == 2 && e2.terms[1].NonTerminal? && TermWeight(e2.terms[1]) == 1;
          assert TermsWeight(e2, 2) == 0;
          assert TermsWeight(e2, 1) == 1;
          assert ProdWeight(ps[2]) == 3;
        }
        assert ps[..3] == ps;
      }
    }
  }

  lemma {:induction false} PushedAllWeight(p: Production, k: nat)
    requires k <= |p.expr.terms|
    ensures ProdsWeight(PushedAll(p, k)) + k + TermsWeight(p.expr, k) == TermsWeight(p.expr, 0)
  {
    if k > 0 {
      PushedAllWeight(p, k - 1);
      var t := p.expr.terms[k - 1];
      ProdsWeightAppend(PushedAll(p, k - 1), Pushed(t, Base(p), k - 1, p));
      PushedWeight(t, Base(p), k - 1, p);
      assert PushedAll(p, k) == PushedAll(p, k - 1) + Pushed(t, Base(p), k - 1, p);
      assert TermsWeight(p.expr, k - 1) == TermWeight(t) + TermsWeight(p.expr, k);
    }
  }

  /** Popping p and pushing what it pushes makes the worklist lighter. */
  lemma PopWeight(stack: seq<Production>)
    requires |stack| > 0
    ensures ProdsWeight(stack[..|stack| - 1] + Formalize(stack[|stack| - 1]).1) < ProdsWeight(stack)
  {
    var p := stack[|stack| - 1];
    ProdsWeightAppend(stack[..|stack| - 1], Formalize(p).1);
    PushedAllWeight(p, |p.expr.terms|);
  }

  /** The productions in reverse order, so that popping the worklist yields them first to last. */
  function Reversed(ps: seq<Production>): (r: seq<Production>)
    ensures |r| == |ps| && forall i :: 0 <= i < |ps| ==> r[i] == ps[|ps| - 1 - i]
  {
    seq(|ps|, i requires 0 <= i < |ps| => ps[|ps| - 1 - i])
  }

  /**
   * The worklist of `convert_to_formal_grammar` run to the end: pop the last
   * production, append it with its brackets replaced to `out`, push what the
   * brackets stand for.
   */
  function Desugar(stack: seq<Production>, out: seq<Production>): seq<Production>
    decreases ProdsWeight(stack)
  {
    if |stack| == 0 then out
    else
      var f := Formalize(stack[|stack| - 1]);
      PopWeight(stack);
      Desugar(stack[..|stack| - 1] + f.1, out + [f.0])
  }

  /** The closure that `convert_to_formal_grammar` maps over p's terms: the new production and what it pushes. */
  method FormalizeTerms(p: Production) returns (q: Production, pushed: seq<Production>)
    ensures (q, pushed) == Formalize(p)
  {
    var base := p.name + DOLLAR + p.label_;
    assert base == Base(p);
    var terms := [];
    pushed := [];
    for i := 0 to |p.expr.terms|
      invariant terms == ReplacedAll(p, i)
      invariant pushed == PushedAll(p, i)
    {
      var t := p.expr.terms[i];
      pushed := pushed + Pushed(t, base, i, p);
      terms := terms + [Replaced(t, base, i)];
    }
    q := p.(expr := Expression(terms));
  }

  /** `convert_to_formal_grammar`: the productions are a stack whose top is the first production. */
  method ConvertToFormalGrammar(g: Grammar) returns (r: Grammar)
    ensures r == g.(productions := Desugar(Reversed(g.productions), []))
  {
    var stack := Reversed(g.productions);
    var out := [];
    ghost var goal := Desugar(stack, out);
    while |stack| > 0
      invariant Desugar(stack, out) == goal
      decreases ProdsWeight(stack)
    {
      PopWeight(stack);
      var p := stack[|stack| - 1];
      ghost var f := Formalize(p);
      assert Desugar(stack, out) == Desugar(stack[..|stack| - 1] + f.1, out + [f.0]);
      stack := stack[..|stack| - 1];
      var q, pushed := FormalizeTerms(p);
      stack := stack + pushed;
      out := out + [q];
    }
    r := g.(productions := out);
  }

  /** What the worklist has produced stays at the front. */
  lemma {:induction false} DesugarPrefix(stack: seq<Production>, out: seq<Production>)
    ensures |out| <= |Desugar(stack, out)| && Desugar(stack, out)[..|out|] == out
    decreases ProdsWeight(stack)
  {
    if |stack| > 0 {
      var f := Formalize(stack[|stack| - 1]);
      PopWeight(stack);
      DesugarPrefix(stack[..|stack| - 1] + f.1, out + [f.0]);
    }
  }

  /** The output is formal. */
  lemma {:induction false} DesugarFormal(stack: seq<Production>, out: seq<Production>)
    requires FormalProductions(out)
    ensures FormalProductions(Desugar(stack, out))
    decreases ProdsWeight(stack)
  {
    if |stack| > 0 {
      var f := Formalize(stack[|stack| - 1]);
      PopWeight(stack);
      DesugarFormal(stack[..|stack| - 1] + f.1, out + [f.0]);
    }
  }

  /** Every production on the worklist appears in the output with its brackets replaced. */
  lemma {:induction false} DesugarKeeps(stack: seq<Production>, out: seq<Production>, j: nat)
    requires j < |stack|
    ensures Formalize(stack[j]).0 in Desugar(stack, out)
    decreases ProdsWeight(stack)
  {
    var f := Formalize(stack[|stack| - 1]);
    var next := stack[..|stack| - 1] + f.1;
    PopWeight(stack);
    if j == |stack| - 1 {
      DesugarPrefix(next, out + [f.0]);
      assert (out + [f.0])[|out|] == f.0;
    } else {
      assert next[j] == stack[j];
      DesugarKeeps(next, out + [f.0], j);
    }
  }

  /** What a production on the worklist pushes also appears in the output, brackets replaced. */
  lemma {:induction false} DesugarPushes(stack: seq<Production>, out: seq<Production>, j: nat, q: Production)
    requires j < |stack| && q in Formalize(stack[j]).1
    ensures Formalize(q).0 in Desugar(stack, out)
    decreases ProdsWeight(stack)
  {
    var f := Formalize(stack[|stack| - 1]);
    var next := stack[..|stack| - 1] + f.1;
    PopWeight(stack);
    if j == |stack| - 1 {
      var m :| 0 <= m < |f.1| && f.1[m] == q;
      assert next[|stack| - 1 + m] == q;
      DesugarKeeps(next, out + [f.0], |stack| - 1 + m);
    } else {
      assert next[j] == stack[j];
      DesugarPushes(next, out + [f.0], j, q);
    }
  }

  /** The precedence and associativity of a production. */
  function Attr(p: Production): (nat, Associativity)
  {
    (p.precedence, p.associativity)
  }

  function Attrs(ps: seq<Production>): set<(nat, Associativity)>
  {
    set i | 0 <= i < |ps| :: Attr(ps[i])
  }

  lemma {:induction false} PushedAllAttrs(p: Production, k: nat)
    requires k <= |p.expr.terms|
    ensures Attrs(PushedAll(p, k)) <= {Attr(p)}
  {
    if k > 0 {
      PushedAllAttrs(p, k - 1);
      var a, b := PushedAll(p, k - 1), Pushed(p.expr.terms[k - 1], Base(p), k - 1, p);
      forall i | 0 <= i < |a + b|
        ensures Attr((a + b)[i]) in Attrs(a) + {Attr(p)}
      {
        if i < |a| {
          assert (a + b)[i] == a[i];
        } else {
          assert (a + b)[i] == b[i - |a|];
        }
      }
    }
  }

  /** Every output production takes its precedence and associativity from an input production. */
  lemma {:induction false} DesugarAttrs(stack: seq<Production>, out: seq<Production>)
    ensures Attrs(Desugar(stack, out)) <= Attrs(stack) + Attrs(out)
    decreases ProdsWeight(stack)
  {
    if |stack| > 0 {
      var p := stack[|stack| - 1];
      var f := Formalize(p);
      var init := stack[..|stack| - 1];
      var next := init + f.1;
      PopWeight(stack);
      DesugarAttrs(next, out + [f.0]);
      PushedAllAttrs(p, |p.expr.terms|);
      assert Attr(p) == Attr(stack[|stack| - 1]);
      forall i | 0 <= i < |next|
        ensures Attr(next[i]) in Attrs(stack)
      {
        if i < |init| {
          assert next[i] == stack[i];
        } else {
          assert next[i] == f.1[i - |init|];
          assert Attr(f.1[i - |init|]) in Attrs(f.1);
        }
      }
      forall i | 0 <= i < |out + [f.0]|
        ensures Attr((out + [f.0])[i]) in Attrs(stack) + Attrs(out)
      {
        if i < |out| {
          assert (out + [f.0])[i] == out[i];
        }
      }
    }
  }

  /** A grammar that is already formal comes out unchanged. */
  lemma {:induction false} DesugarFormalInput(ps: seq<Production>, k: nat)
    requires FormalProductions(ps) && k <= |ps|
    ensures Desugar(Reversed(ps[k..]), ps[..k]) == ps
    decreases |ps| - k
  {
    var stack := Reversed(ps[k..]);
    if k == |ps| {
      assert stack == [];
      assert ps[..k] == ps;
    } else {
      assert stack[|stack| - 1] == ps[k];
      assert stack[..|stack| - 1] == Reversed(ps[k + 1..]);
      FormalizeFormal(ps[k]);
      assert ps[..k] + [ps[k]] == ps[..k + 1];
      assert stack[..|stack| - 1] + [] == Reversed(ps[k + 1..]);
      DesugarFormalInput(ps, k + 1);
    }
  }

  /** Every output production of `convert_to_formal_grammar` is formal. */
  lemma ConvertFormal(ps: seq<Production>)
    ensures FormalProductions(Desugar(Reversed(ps), []))
  {
    DesugarFormal(Reversed(ps), []);
  }

  /** Every input production is in the output with its brackets replaced. */
  lemma ConvertKeeps(ps: seq<Production>, j: nat)
    requires j < |ps|
    ensures Formalize(ps[j]).0 in Desugar(Reversed(ps), [])
  {
    assert Reversed(ps)[|ps| - 1 - j] == ps[j];
    DesugarKeeps(Reversed(ps), [], |ps| - 1 - j);
  }

  /** What a bracket of an input production stands for is in the output, its own brackets replaced. */
  lemma ConvertPushes(ps: seq<Production>, j: nat, q: Production)
    requires j < |ps| && q in Formalize(ps[j]).1
    ensures Formalize(q).0 in Desugar(Reversed(ps), [])
  {
    assert Reversed(ps)[|ps| - 1 - j] == ps[j];
    DesugarPushes(Reversed(ps), [], |ps| - 1 - j, q);
  }

  /** No precedence or associativity is invented. */
  lemma ConvertAttrs(ps: seq<Production>)
    ensures Attrs(Desugar(Reversed(ps), [])) <= Attrs(ps)
  {
    var stack := Reversed(ps);
    DesugarAttrs(stack, []);
    forall i | 0 <= i < |stack|
      ensures Attr(stack[i]) in Attrs(ps)
    {
      assert stack[i] == ps[|ps| - 1 - i];
    }
  }

  /** A grammar that is already formal is left as it is. */
  lemma ConvertFormalUnchanged(ps: seq<Production>)
    requires FormalProductions(ps)
    ensures Desugar(Reversed(ps), []) == ps
  {
    assert ps[0..] == ps && ps[..0] == [];
    DesugarFormalInput(ps, 0);
  }

  /**
   * An optional term, the i-th of a production p, leaves in the output an
   * empty alternative and a `main` alternative naming its body.
   */
  lemma OptionalAlternatives(ps: seq<Production>, j: nat, i: nat)
    requires j < |ps| && i < |ps[j].expr.terms| && ps[j].expr.terms[i].Optional?
    ensures var p, n := ps[j], Base(ps[j]) + OPTIONAL_TAG + NatToString(i);
            var out := Desugar(Reversed(ps), []);
            && Derived(p, n, EPSILON_LABEL, []) in out
            && Derived(p, n, MAIN_LABEL, [NonTerminal(Base(p) + OPTIONAL_TERM_TAG + NatToString(i), true)]) in out
  {
    var p := ps[j];
    var pushed := Pushed(p.expr.terms[i], Base(p), i, p);
    PushedAllContains(p, i, |p.expr.terms|);
    assert pushed[1] in Formalize(p).1 && pushed[2] in Formalize(p).1;
    FormalizeFormal(pushed[1]);
    FormalizeFormal(pushed[2]);
    ConvertPushes(ps, j, pushed[1]);
    ConvertPushes(ps, j, pushed[2]);
  }

  /** Whatever term i pushes is among what the production pushes. */
  lemma {:induction false} PushedAllContains(p: Production, i: nat, k: nat)
    requires i < k <= |p.expr.terms|
    ensures forall q :: q in Pushed(p.expr.terms[i], Base(p), i, p) ==> q in PushedAll(p, k)
  {
    if i < k - 1 {
      PushedAllContains(p, i, k - 1);
    }
  }

  // ---------------------------------------------------------------------------
  // Direct left recursion
  // ---------------------------------------------------------------------------

  /** p's first term is a nonterminal named nt. */
  predicate StartsWith(p: Production, nt: string)
  {
    |p.expr.terms| > 0 && p.expr.terms[0].NonTerminal? && p.expr.terms[0].name == nt
  }

  /** The tail nonterminal that takes over nt's left recursion. */
  function TailName(nt: string): (r: string)
    ensures r != nt
  {
    assert |nt + TAIL_TAG| != |nt|;
    nt + TAIL_TAG
  }

  /** The left-recursive productions of nt, moved to the tail nonterminal without their first term. */
  function Alphas(ps: seq<Production>, nt: string): (r: seq<Production>)
  {
    if |ps| == 0 then []
    else
      var p := ps[|ps| - 1];
      Alphas(ps[..|ps| - 1], nt)
      + (if p.name == nt && StartsWith(p, nt)
         then [Production(TailName(nt), p.label_, Expression(p.expr.terms[1..]), p.precedence, p.associativity)]
         else [])
  }

  /** The other productions of nt, as they are. */
  function Betas(ps: seq<Production>, nt: string): (r: seq<Production>)
  {
    if |ps| == 0 then []
    else
      var p := ps[|ps| - 1];
      Betas(ps[..|ps| - 1], nt) + (if p.name == nt && !StartsWith(p, nt) then [p] else [])
  }

  /** The smallest precedence among nt's productions, if it has any. */
  function MinPrecedence(ps: seq<Production>, nt: string): (r: Option<nat>)
    ensures r.None? <==> forall i :: 0 <= i < |ps| ==> ps[i].name != nt
    ensures r.Some? ==> exists i :: 0 <= i < |ps| && ps[i].name == nt && ps[i].precedence == r.value
    ensures r.Some? ==> forall i :: 0 <= i < |ps| && ps[i].name == nt ==> r.value <= ps[i].precedence
  {
    if |ps| == 0 then None
    else
      var m := MinPrecedence(ps[..|ps| - 1], nt);
      var p := ps[|ps| - 1];
      assert forall i :: 0 <= i < |ps| - 1 ==> ps[..|ps| - 1][i] == ps[i];
      if p.name != nt then m
      else if m == None || m.value > p.precedence then Some(p.precedence)
      else m
  }

  /** Every production with t appended to its terms. */
  function WithTail(ps: seq<Production>, t: Term): (r: seq<Production>)
    ensures |r| == |ps|
    ensures forall i :: 0 <= i < |ps| ==> r[i] == ps[i].(expr := Expression(ps[i].expr.terms + [t]))
  {
    seq(|ps|, i requires 0 <= i < |ps| => ps[i].(expr := Expression(ps[i].expr.terms + [t])))
  }

  /** The empty alternative of the tail nonterminal. */
  function TailEpsilon(nt: string, precedence: Option<nat>): Production
  {
    Production(TailName(nt), EPSILON_LABEL, Expression([]), if precedence.None? then 0 else precedence.value, Left)
  }

  /**
   * What one nonterminal contributes: its productions unchanged when none
   * is left recursive; otherwise A -> b A##, A## -> a A## and A## -> (empty)
   * for A -> b and A -> A a.
   */
  function EliminateFor(ps: seq<Production>, nt: string): (r: seq<Production>)
    ensures |r| == |GetProductions(ps, nt)| + (if |Alphas(ps, nt)| == 0 then 0 else 1)
  {
    SplitCount(ps, nt);
    var a, b := Alphas(ps, nt), Betas(ps, nt);
    if |a| == 0 then b
    else
      var tail := NonTerminal(TailName(nt), false);
      WithTail(b, tail) + WithTail(a, tail) + [TailEpsilon(nt, MinPrecedence(ps, nt))]
  }

  /** The contributions of the nonterminals in order. */
  function EliminateAll(ps: seq<Production>, nts: seq<string>): seq<Production>
  {
    EliminateUpTo(ps, nts, |nts|)
  }

  function EliminateUpTo(ps: seq<Production>, nts: seq<string>, k: nat): seq<Production>
    requires k <= |nts|
  {
    if k == 0 then [] else EliminateUpTo(ps, nts, k - 1) + EliminateFor(ps, nts[k - 1])
  }

  /** The `iter_mut` loop: t appended to every production. */
  method PushTail(xs: seq<Production>, t: Term) returns (ys: seq<Production>)
    ensures ys == WithTail(xs, t)
  {
    ys := xs;
    for i := 0 to |ys|
      invariant |ys| == |xs|
      invariant forall k :: 0 <= k < i ==> ys[k] == WithTail(xs, t)[k]
      invariant forall k :: i <= k < |ys| ==> ys[k] == xs[k]
    {
      ys := ys[i := ys[i].(expr := Expression(ys[i].expr.terms + [t]))];
    }
  }

  /** The inner loop of `elimate_left_recursion`: nt's productions split, and their least precedence. */
  method Split(ps: seq<Production>, nt: string) returns (alpha: seq<Production>, beta: seq<Production>, precedence: Option<nat>)
    ensures alpha == Alphas(ps, nt) && beta == Betas(ps, nt) && precedence == MinPrecedence(ps, nt)
  {
    alpha := [];
    beta := [];
    var newName := nt + TAIL_TAG;
    precedence := None;
    for j := 0 to |ps|
      invariant alpha == Alphas(ps[..j], nt) && beta == Betas(ps[..j], nt)
      invariant precedence == MinPrecedence(ps[..j], nt)
    {
      assert ps[..j + 1][..j] == ps[..j];
      var p := ps[j];
      if p.name != nt {
        continue;
      }
      if precedence == None || precedence.value > p.precedence {
        precedence := Some(p.precedence);
      }
      if |p.expr.terms| > 0 && p.expr.terms[0].NonTerminal? && p.expr.terms[0].name == nt {
        alpha := alpha + [Production(newName, p.label_, Expression(p.expr.terms[1..]), p.precedence, p.associativity)];
        continue;
      }
      beta := beta + [p];
    }
    assert ps[..|ps|] == ps;
  }

  /** The body of the outer loop of `elimate_left_recursion`: what nt's productions become. */
  method EliminateOne(ps: seq<Production>, nt: string) returns (part: seq<Production>)
    ensures part == EliminateFor(ps, nt)
  {
    var newName := TailName(nt);
    var alpha, beta, precedence := Split(ps, nt);
    if |alpha| == 0 {
      part := beta;
    } else {
      alpha := PushTail(alpha, NonTerminal(newName, false));
      beta := PushTail(beta, NonTerminal(newName, false));
      part := beta + alpha + [Production(newName, EPSILON_LABEL, Expression([]),
                                         if precedence == None then 0 else precedence.value, Left)];
    }
  }

  /** `elimate_left_recursion`: each nonterminal in order of first appearance. */
  method ElimateLeftRecursion(g: Grammar) returns (r: Grammar)
    ensures r == g.(productions := EliminateAll(g.productions, Dedup(Names(g.productions))))
  {
    var nts := NonTerminals(g);
    var ps := g.productions;
    var acc := [];
    for k := 0 to |nts|
      invariant acc == EliminateUpTo(ps, nts, k)
    {
      var part := EliminateOne(ps, nts[k]);
      acc := acc + part;
    }
    r := g.(productions := acc);
  }

  /** Alphas and betas split nt's productions. */
  lemma {:induction false} SplitCount(ps: seq<Production>, nt: string)
    ensures |Alphas(ps, nt)| + |Betas(ps, nt)| == |GetProductions(ps, nt)|
    ensures (forall i :: 0 <= i < |ps| && ps[i].name == nt ==> !StartsWith(ps[i], nt))
            ==> Alphas(ps, nt) == [] && Betas(ps, nt) == GetProductions(ps, nt)
  {
    if |ps| > 0 {
      SplitCount(ps[..|ps| - 1], nt);
      assert forall i :: 0 <= i < |ps| - 1 ==> ps[..|ps| - 1][i] == ps[i];
    }
  }

  /** The betas are nt's productions that are not left recursive; the alphas belong to the tail. */
  lemma {:induction false} SplitShape(ps: seq<Production>, nt: string)
    ensures forall i :: 0 <= i < |Betas(ps, nt)| ==> Betas(ps, nt)[i].name == nt && !StartsWith(Betas(ps, nt)[i], nt)
    ensures forall i :: 0 <= i < |Alphas(ps, nt)| ==> Alphas(ps, nt)[i].name == TailName(nt)
  {
    if |ps| > 0 {
      SplitShape(ps[..|ps| - 1], nt);
    }
  }

  /** A nonterminal without left recursion keeps its productions, in grammar order. */
  lemma EliminateUnchanged(ps: seq<Production>, nt: string)
    requires forall i :: 0 <= i < |ps| && ps[i].name == nt ==> !StartsWith(ps[i], nt)
    ensures EliminateFor(ps, nt) == GetProductions(ps, nt)
  {
    SplitCount(ps, nt);
  }

  /** Appending the tail to a production of nt that is not left recursive does not make it so. */
  lemma TailKeepsStart(p: Production, nt: string)
    requires !StartsWith(p, nt)
    ensures !StartsWith(p.(expr := Expression(p.expr.terms + [NonTerminal(TailName(nt), false)])), nt)
  {
    var ts := p.expr.terms + [NonTerminal(TailName(nt), false)];
    assert ts[0] == if |p.expr.terms| > 0 then p.expr.terms[0] else NonTerminal(TailName(nt), false);
  }

  /** q belongs to nt without being left recursive, or to nt's tail. */
  predicate Owned(q: Production, nt: string)
  {
    (q.name == nt && !StartsWith(q, nt)) || q.name == TailName(nt)
  }

  /**
   * After elimination nt has no left-recursive production, and everything
   * it contributes belongs to nt or to its tail.
   */
  lemma EliminateNames(ps: seq<Production>, nt: string)
    ensures var r := EliminateFor(ps, nt);
            forall i :: 0 <= i < |r| ==> Owned(r[i], nt)
  {
    SplitShape(ps, nt);
    var a, b := Alphas(ps, nt), Betas(ps, nt);
    if |a| > 0 {
      var tail := NonTerminal(TailName(nt), false);
      var wb, wa := WithTail(b, tail), WithTail(a, tail);
      var r := EliminateFor(ps, nt);
      assert r == wb + wa + [TailEpsilon(nt, MinPrecedence(ps, nt))];
      forall i | 0 <= i < |r|
        ensures Owned(r[i], nt)
      {
        if i < |wb| {
          assert r[i] == wb[i];
          TailKeepsStart(b[i], nt);
        } else if i < |wb| + |wa| {
          assert r[i] == wa[i - |wb|];
        }
      }
    }
  }

  /**
   * Over the whole grammar: every production of the result belongs to one of
   * the nonterminals handled, is not left recursive when it keeps that
   * nonterminal's name, and otherwise belongs to its tail.
   */
  lemma {:induction false} EliminateAllShape(ps: seq<Production>, nts: seq<string>, k: nat)
    requires k <= |nts|
    ensures forall i :: 0 <= i < |EliminateUpTo(ps, nts, k)| ==>
              exists a :: 0 <= a < k && Owned(EliminateUpTo(ps, nts, k)[i], nts[a])
  {
    if k > 0 {
      EliminateAllShape(ps, nts, k - 1);
      EliminateNames(ps, nts[k - 1]);
      var prev, last := EliminateUpTo(ps, nts, k - 1), EliminateFor(ps, nts[k - 1]);
      var r := EliminateUpTo(ps, nts, k);
      assert r == prev + last;
      forall i | 0 <= i < |r|
        ensures exists a :: 0 <= a < k && Owned(r[i], nts[a])
      {
        if i < |prev| {
          var a :| 0 <= a < k - 1 && Owned(prev[i], nts[a]);
          assert r[i] == prev[i];
          assert Owned(r[i], nts[a]);
        } else {
          assert r[i] == last[i - |prev|];
          assert Owned(r[i], nts[k - 1]);
        }
      }
    } else {
      assert EliminateUpTo(ps, nts, k) == [];
    }
  }

  /**
   * When nt was left recursive it gains exactly the empty tail alternative,
   * whose precedence is the least of nt's, and every other production it
   * contributes ends with the tail.
   */
  lemma EliminateTails(ps: seq<Production>, nt: string)
    requires |Alphas(ps, nt)| > 0
    ensures var r := EliminateFor(ps, nt);
            && |r| == |GetProductions(ps, nt)| + 1
            && r[|r| - 1] == TailEpsilon(nt, MinPrecedence(ps, nt))
            && (forall i :: 0 <= i < |ps| && ps[i].name == nt ==> r[|r| - 1].precedence <= ps[i].precedence)
            && (forall i :: 0 <= i < |r| - 1 ==>
                  |r[i].expr.terms| > 0 && r[i].expr.terms[|r[i].expr.terms| - 1] == NonTerminal(TailName(nt), false))
  {
    SplitCount(ps, nt);
    var a, b := Alphas(ps, nt), Betas(ps, nt);
    var tail := NonTerminal(TailName(nt), false);
    var wb, wa := WithTail(b, tail), WithTail(a, tail);
    var r := EliminateFor(ps, nt);
    assert r == wb + wa + [TailEpsilon(nt, MinPrecedence(ps, nt))];
    forall i | 0 <= i < |r| - 1
      ensures |r[i].expr.terms| > 0 && r[i].expr.terms[|r[i].expr.terms| - 1] == tail
    {
      if i < |wb| {
        assert r[i] == wb[i];
      } else {
        assert r[i] == wa[i - |wb|];
      }
    }
  }

  // ---------------------------------------------------------------------------
  // Left factoring
  // ---------------------------------------------------------------------------

  /**
   * The groups `left_factor` builds: for each nonterminal, the productions
   * sharing a first term (compared as `Term ==` does, by `Key`), with the
   * term of the first of them.
   */
  type Groups = map<string, map<Symbol, (Term, seq<Production>)>>

  /** Every nonempty production starts with a formal term, as `HashMap<Term, _>` needs. */
  predicate HeadsFormal(ps: seq<Production>)
  {
    forall i :: 0 <= i < |ps| && |ps[i].expr.terms| > 0 ==> Formal(ps[i].expr.terms[0])
  }

  /** The productions with an empty body, in order. */
  function Empties(ps: seq<Production>): (r: seq<Production>)
    ensures forall q :: q in r <==> q in ps && |q.expr.terms| == 0
  {
    if |ps| == 0 then []
    else Empties(ps[..|ps| - 1]) + (if |ps[|ps| - 1].expr.terms| == 0 then [ps[|ps| - 1]] else [])
  }

  /** One empty group for each name. */
  function InitGroups(nts: seq<string>): (m: Groups)
    ensures m.Keys == set n | n in nts
    ensures forall n :: n in m ==> m[n] == map[]
  {
    if |nts| == 0 then map[] else InitGroups(nts[..|nts| - 1])[nts[|nts| - 1] := map[]]
  }

  /** One production filed: empty ones are not grouped. */
  function File(m: Groups, p: Production): (r: Groups)
    ensures r.Keys == m.Keys
  {
    if |p.expr.terms| == 0 || p.name !in m || !Formal(p.expr.terms[0]) then m
    else
      var inner, key := m[p.name], Key(p.expr.terms[0]);
      if key in inner then m[p.name := inner[key := (inner[key].0, inner[key].1 + [p])]]
      else m[p.name := inner[key := (p.expr.terms[0], [p])]]
  }

  function FileAll(m: Groups, ps: seq<Production>): (r: Groups)
    ensures r.Keys == m.Keys
  {
    if |ps| == 0 then m else File(FileAll(m, ps[..|ps| - 1]), ps[|ps| - 1])
  }

  /** A group: a nonempty run of productions of n starting with the key s, and a formal term with that key. */
  predicate GroupOk(ps: seq<Production>, n: string, s: Symbol, grp: (Term, seq<Production>))
  {
    && Formal(grp.0) && Key(grp.0) == s
    && forall j :: 0 <= j < |grp.1| ==>
         && grp.1[j] in ps && grp.1[j].name == n && |grp.1[j].expr.terms| > 0
         && Formal(grp.1[j].expr.terms[0]) && Key(grp.1[j].expr.terms[0]) == s
  }

  /** A nonempty run of productions with nonempty bodies. */
  predicate Run(grp: (Term, seq<Production>))
  {
    |grp.1| >= 1 && forall j :: 0 <= j < |grp.1| ==> |grp.1[j].expr.terms| > 0
  }

  predicate WellGrouped(m: Groups, ps: seq<Production>)
  {
    forall n, s :: n in m && s in m[n] ==> Run(m[n][s]) && GroupOk(ps, n, s, m[n][s])
  }

  /** Every nonempty production is in the group of its name and first term. */
  predicate Complete(m: Groups, ps: seq<Production>)
    requires HeadsFormal(ps)
  {
    forall i :: 0 <= i < |ps| && |ps[i].expr.terms| > 0 ==>
      var p := ps[i];
      p.name in m && Key(p.expr.terms[0]) in m[p.name] && p in m[p.name][Key(p.expr.terms[0])].1
  }

  /** Filing one production keeps the groups well formed, keeps what they held and adds the production. */
  lemma FileStep(m: Groups, p: Production, all: seq<Production>)
    requires p.name in m && (|p.expr.terms| > 0 ==> Formal(p.expr.terms[0]))
    requires WellGrouped(m, all) && p in all
    ensures WellGrouped(File(m, p), all)
    ensures forall n, s, q :: n in m && s in m[n] && q in m[n][s].1 ==> s in File(m, p)[n] && q in File(m, p)[n][s].1
    ensures |p.expr.terms| > 0 ==>
              Key(p.expr.terms[0]) in File(m, p)[p.name] && p in File(m, p)[p.name][Key(p.expr.terms[0])].1
  {
    if |p.expr.terms| > 0 {
      var r: Groups := File(m, p);
      var inner, key := m[p.name], Key(p.expr.terms[0]);
      var grp := r[p.name][key];
      assert grp.1 == (if key in inner then inner[key].1 + [p] else [p]);
      assert Run(grp) && GroupOk(all, p.name, key, grp) by {
        if key in inner {
          assert Run(inner[key]) && GroupOk(all, p.name, key, inner[key]);
          forall j | 0 <= j < |grp.1|
            ensures grp.1[j] in all && grp.1[j].name == p.name && |grp.1[j].expr.terms| > 0
                    && Formal(grp.1[j].expr.terms[0]) && Key(grp.1[j].expr.terms[0]) == key
          {
            if j < |inner[key].1| {
              assert grp.1[j] == inner[key].1[j];
            }
          }
        }
      }
    }
  }

  lemma {:induction false} FileAllSpec(m: Groups, ps: seq<Production>, all: seq<Production>)
    requires HeadsFormal(ps) && forall i :: 0 <= i < |ps| ==> ps[i].name in m
    requires WellGrouped(m, all)
    requires forall q :: q in ps ==> q in all
    ensures WellGrouped(FileAll(m, ps), all) && Complete(FileAll(m, ps), ps)
  {
    if |ps| > 0 {
      var init, p := ps[..|ps| - 1], ps[|ps| - 1];
      assert HeadsFormal(init) && forall i :: 0 <= i < |init| ==> init[i].name in m;
      FileAllSpec(m, init, all);
      var m0 := FileAll(m, init);
      FileStep(m0, p, all);
      var m1: Groups := File(m0, p);
      assert m1 == FileAll(m, ps);
      forall i | 0 <= i < |ps| && |ps[i].expr.terms| > 0
        ensures ps[i].name in m1 && Key(ps[i].expr.terms[0]) in m1[ps[i].name]
                && ps[i] in m1[ps[i].name][Key(ps[i].expr.terms[0])].1
      {
        if i < |init| {
          assert init[i] == ps[i];
        }
      }
    }
  }

  /** The order in which a `HashMap` hands out its entries: each key once. */
  predicate Enumerates<K(==)>(keys: seq<K>, dom: set<K>)
  {
    && (forall i, j :: 0 <= i < j < |keys| ==> keys[i] != keys[j])
    && (forall k :: k in dom ==> k in keys)
    && (forall i :: 0 <= i < |keys| ==> keys[i] in dom)
  }

  /** The iteration order of the outer map and of every inner map. */
  predicate IterationOrder(m: Groups, names: seq<string>, keyOrder: map<string, seq<Symbol>>)
  {
    && Enumerates(names, m.Keys)
    && forall n :: n in m ==> n in keyOrder && Enumerates(keyOrder[n], m[n].Keys)
  }

  /** A production whose first term has been factored out, renamed. */
  function Suffix(p: Production, name: string): Production
  {
    p.(name := name, expr := Expression(if |p.expr.terms| == 0 then [] else p.expr.terms[1..]))
  }

  function Suffixes(ps: seq<Production>, name: string): (r: seq<Production>)
    ensures |r| == |ps| && forall j :: 0 <= j < |ps| ==> r[j] == Suffix(ps[j], name)
  {
    seq(|ps|, j requires 0 <= j < |ps| => Suffix(ps[j], name))
  }

  /** The production that takes the i-th shared first term of n, followed by the new nonterminal. */
  function Head(n: string, i: nat, t: Term): Production
  {
    Production(n, HASH + NatToString(i), Expression([t, NonTerminal(n + FACTOR_TAG + NatToString(i), true)]), 0, Left)
  }

  /** What the i-th group of n becomes: a lone production is kept, a larger group is factored. */
  function FactorGroup(n: string, i: nat, grp: (Term, seq<Production>)): seq<Production>
  {
    if |grp.1| == 1 then [grp.1[0]]
    else [Head(n, i, grp.0)] + Suffixes(grp.1, n + FACTOR_TAG + NatToString(i))
  }

  /** The first k groups of n, in iteration order. */
  function FactorKeys(n: string, inner: map<Symbol, (Term, seq<Production>)>, keys: seq<Symbol>, k: nat)
    : seq<Production>
    requires k <= |keys|
  {
    if k == 0 then []
    else
      var key := keys[k - 1];
      FactorKeys(n, inner, keys, k - 1) + (if key in inner then FactorGroup(n, k - 1, inner[key]) else [])
  }

  /** The groups of the first k names, in iteration order. */
  function Factored(m: Groups, names: seq<string>, keyOrder: map<string, seq<Symbol>>, k: nat): seq<Production>
    requires k <= |names|
  {
    if k == 0 then []
    else
      var n := names[k - 1];
      Factored(m, names, keyOrder, k - 1)
      + (if n in m && n in keyOrder then FactorKeys(n, m[n], keyOrder[n], |keyOrder[n]|) else [])
  }

  /** The names of a grammar's productions, each once. */
  lemma NamesOf(ps: seq<Production>)
    ensures forall i :: 0 <= i < |ps| ==> ps[i].name in Dedup(Names(ps))
    ensures (set n | n in Dedup(Names(ps))) == set i | 0 <= i < |ps| :: ps[i].name
  {
    var names := Names(ps);
    assert forall i :: 0 <= i < |ps| ==> names[i] == ps[i].name;
    forall n | n in Dedup(names)
      ensures exists i :: 0 <= i < |ps| && ps[i].name == n
    {
      var j :| 0 <= j < |names| && names[j] == n;
    }
  }

  /** The groups of a grammar's productions: one map per name, every nonempty production filed. */
  function GroupsOf(ps: seq<Production>): (m: Groups)
    requires HeadsFormal(ps)
    ensures m.Keys == set i | 0 <= i < |ps| :: ps[i].name
    ensures WellGrouped(m, ps) && Complete(m, ps)
  {
    var names := Dedup(Names(ps));
    NamesOf(ps);
    var m0 := InitGroups(names);
    assert WellGrouped(m0, ps);
    FileAllSpec(m0, ps, ps);
    FileAll(InitGroups(names), ps)
  }

  /** The first loop of `left_factor`: empty productions set aside, the others filed by name and first term. */
  method FileProductions(ps: seq<Production>, m0: Groups) returns (acc: seq<Production>, m: Groups)
    requires HeadsFormal(ps) && forall i :: 0 <= i < |ps| ==> ps[i].name in m0
    ensures acc == Empties(ps) && m == FileAll(m0, ps)
  {
    acc := [];
    m := m0;
    for j := 0 to |ps|
      invariant acc == Empties(ps[..j]) && m == FileAll(m0, ps[..j])
    {
      assert ps[..j + 1][..j] == ps[..j];
      var p := ps[j];
      if |p.expr.terms| == 0 {
        acc := acc + [p];
        continue;
      }
      var inner := m[p.name];
      var key := Key(p.expr.terms[0]);
      if key in inner {
        inner := inner[key := (inner[key].0, inner[key].1 + [p])];
        m := m[p.name := inner];
        continue;
      }
      m := m[p.name := inner[key := (p.expr.terms[0], [p])]];
    }
    assert ps[..|ps|] == ps;
  }

  /** The inner loop of `left_factor`: the groups of one nonterminal, in iteration order. */
  method FactorName(n: string, pm: map<Symbol, (Term, seq<Production>)>, keys: seq<Symbol>)
    returns (out: seq<Production>)
    requires forall i :: 0 <= i < |keys| ==> keys[i] in pm
    ensures out == FactorKeys(n, pm, keys, |keys|)
  {
    out := [];
    for i := 0 to |keys|
      invariant out == FactorKeys(n, pm, keys, i)
    {
      var grp := pm[keys[i]];
      if |grp.1| == 1 {
        out := out + [grp.1[0]];
      } else {
        out := out + [Production(n, HASH + NatToString(i),
                                 Expression([grp.0, NonTerminal(n + FACTOR_TAG + NatToString(i), true)]), 0, Left)];
        out := out + Suffixes(grp.1, n + FACTOR_TAG + NatToString(i));
      }
    }
  }

  /** The first loop of `left_factor`: an empty map for every nonterminal. */
  method NewGroups(nts: seq<string>) returns (m: Groups)
    ensures m == InitGroups(nts)
  {
    m := map[];
    for k := 0 to |nts|
      invariant m == InitGroups(nts[..k])
    {
      assert nts[..k + 1][..k] == nts[..k];
      m := m[nts[k] := map[]];
    }
    assert nts[..|nts|] == nts;
  }

  /** Every listed name has groups and a key order, and every listed key has a group. */
  predicate Listed(m: Groups, names: seq<string>, keyOrder: map<string, seq<Symbol>>)
  {
    forall a :: 0 <= a < |names| ==>
      && names[a] in m && names[a] in keyOrder
      && forall i :: 0 <= i < |keyOrder[names[a]]| ==> keyOrder[names[a]][i] in m[names[a]]
  }

  /** The last loop of `left_factor`: each nonterminal's groups, in iteration order. */
  method FactorAll(m: Groups, names: seq<string>, keyOrder: map<string, seq<Symbol>>)
    returns (out: seq<Production>)
    requires Listed(m, names, keyOrder)
    ensures out == Factored(m, names, keyOrder, |names|)
  {
    out := [];
    for a := 0 to |names|
      invariant out == Factored(m, names, keyOrder, a)
    {
      out := FactorNext(m, names, keyOrder, a, out);
    }
  }

  /** One round of the last loop: the a-th name's groups appended. */
  method FactorNext(m: Groups, names: seq<string>, keyOrder: map<string, seq<Symbol>>, a: nat, out: seq<Production>)
    returns (next: seq<Production>)
    requires Listed(m, names, keyOrder) && a < |names|
    requires out == Factored(m, names, keyOrder, a)
    ensures next == Factored(m, names, keyOrder, a + 1)
  {
    var n := names[a];
    assert n in m && n in keyOrder;
    var part := FactorName(n, m[n], keyOrder[n]);
    next := out + part;
  }

  /**
   * `left_factor`, with the iteration order of its hash maps as a
   * parameter: the empty productions first, then each nonterminal's groups.
   */
  method LeftFactor(g: Grammar, names: seq<string>, keyOrder: map<string, seq<Symbol>>) returns (r: Grammar)
    requires HeadsFormal(g.productions)
    requires IterationOrder(GroupsOf(g.productions), names, keyOrder)
    ensures r == g.(productions := Empties(g.productions)
                                   + Factored(GroupsOf(g.productions), names, keyOrder, |names|))
  {
    var ps := g.productions;
    var nts := NonTerminals(g);
    var m0 := NewGroups(nts);
    NamesOf(ps);
    var acc, m := FileProductions(ps, m0);
    var rest := FactorAll(m, names, keyOrder);
    acc := acc + rest;
    r := g.(productions := acc);
  }

  /** The group a nonempty production is filed in: its name and the key of its first term. */
  function GroupOf(ps: seq<Production>, p: Production): (Term, seq<Production>)
    requires HeadsFormal(ps) && p in ps && |p.expr.terms| > 0
  {
    var m := GroupsOf(ps);
    var i :| 0 <= i < |ps| && ps[i] == p;
    assert p.name in m && Key(p.expr.terms[0]) in m[p.name];
    m[p.name][Key(p.expr.terms[0])]
  }

  /** Two nonempty productions of the same name whose first terms share a key. */
  predicate Mates(p: Production, q: Production)
  {
    && q.name == p.name && |p.expr.terms| > 0 && |q.expr.terms| > 0
    && Formal(p.expr.terms[0]) && Formal(q.expr.terms[0]) && Key(q.expr.terms[0]) == Key(p.expr.terms[0])
  }

  /**
   * A production's group holds exactly the productions of the grammar that
   * share its name and the key of its first term, and the shared first
   * term carries that key.
   */
  lemma GroupMembers(ps: seq<Production>, p: Production, q: Production)
    requires HeadsFormal(ps) && p in ps && |p.expr.terms| > 0
    ensures Formal(GroupOf(ps, p).0) && Key(GroupOf(ps, p).0) == Key(p.expr.terms[0])
    ensures |GroupOf(ps, p).1| >= 1
    ensures q in GroupOf(ps, p).1 <==> q in ps && Mates(p, q)
  {
    var m := GroupsOf(ps);
    var grp := GroupOf(ps, p);
    assert Run(grp) && GroupOk(ps, p.name, Key(p.expr.terms[0]), grp);
    if q in grp.1 {
      var j :| 0 <= j < |grp.1| && grp.1[j] == q;
    }
    if q in ps && Mates(p, q) {
      var i :| 0 <= i < |ps| && ps[i] == q;
    }
  }

  /**
   * `left_factor` keeps the empty productions in front. A nonempty
   * production alone in its group is output as it is. A group of two or
   * more is replaced by a head production, which takes the shared first
   * term followed by a new nonterminal, and by one production of that new
   * nonterminal per member, the member without its first term.
   */
  lemma LeftFactorCovers(ps: seq<Production>, names: seq<string>, keyOrder: map<string, seq<Symbol>>, i: nat)
    returns (k: nat)
    requires HeadsFormal(ps) && IterationOrder(GroupsOf(ps), names, keyOrder)
    requires i < |ps| && |ps[i].expr.terms| > 0
    ensures var out := Empties(ps) + Factored(GroupsOf(ps), names, keyOrder, |names|);
            var grp := GroupOf(ps, ps[i]);
      && (|grp.1| == 1 ==> grp.1[0] == ps[i] && ps[i] in out)
      && (|grp.1| >= 2 ==> SplitInto(ps[i].name, k, grp, out))
  {
    var m: Groups := GroupsOf(ps);
    var p := ps[i];
    var n, key := p.name, Key(p.expr.terms[0]);
    assert n in m && key in m[n] && p in m[n][key].1;
    var grp := m[n][key];
    assert grp == GroupOf(ps, p);
    assert Run(grp);
    k := GroupPlaced(m, names, keyOrder, p, key);
    var out := Empties(ps) + Factored(m, names, keyOrder, |names|);
    if |grp.1| >= 2 {
      assert SplitInto(n, k, grp, out);
    }
  }

  /** Where a member's group ends up: kept alone, or split as the k-th group of its name. */
  lemma GroupPlaced(m: Groups, names: seq<string>, keyOrder: map<string, seq<Symbol>>, p: Production, key: Symbol)
    returns (k: nat)
    requires IterationOrder(m, names, keyOrder)
    requires p.name in m && key in m[p.name] && p in m[p.name][key].1 && Run(m[p.name][key])
    ensures var grp := m[p.name][key];
            var out := Factored(m, names, keyOrder, |names|);
      && (|grp.1| == 1 ==> grp.1[0] == p && p in out)
      && (|grp.1| >= 2 ==> SplitInto(p.name, k, grp, out))
  {
    var n := p.name;
    var grp := m[n][key];
    var a :| 0 <= a < |names| && names[a] == n;
    k :| 0 <= k < |keyOrder[n]| && keyOrder[n][k] == key;
    GroupOut(m, names, keyOrder, a, k);
    assert m[names[a]][keyOrder[names[a]][k]] == grp;
    if |grp.1| == 1 {
      var j :| 0 <= j < |grp.1| && grp.1[j] == p;
      assert j == 0;
    }
  }

  /** The group is factored as the k-th of name n: its head and every member's suffix are in out. */
  predicate SplitInto(n: string, k: nat, grp: (Term, seq<Production>), out: seq<Production>)
  {
    Head(n, k, grp.0) in out && forall q :: q in grp.1 ==> Suffix(q, n + FACTOR_TAG + NatToString(k)) in out
  }

  /** What one group becomes is all in the output. */
  lemma GroupOut(m: Groups, names: seq<string>, keyOrder: map<string, seq<Symbol>>, a: nat, k: nat)
    requires a < |names| && names[a] in m && names[a] in keyOrder && k < |keyOrder[names[a]]|
    requires keyOrder[names[a]][k] in m[names[a]] && Run(m[names[a]][keyOrder[names[a]][k]])
    ensures var n := names[a];
            var grp := m[n][keyOrder[n][k]];
            var out := Factored(m, names, keyOrder, |names|);
      && (|grp.1| == 1 ==> grp.1[0] in out)
      && (|grp.1| >= 2 ==> SplitInto(n, k, grp, out))
  {
    var n := names[a];
    var grp := m[n][keyOrder[n][k]];
    var part := FactorGroup(n, k, grp);
    if |grp.1| == 1 {
      InFactored(m, names, keyOrder, a, k, grp.1[0]);
    } else {
      var sfx := Suffixes(grp.1, n + FACTOR_TAG + NatToString(k));
      assert Head(n, k, grp.0) in part;
      InFactored(m, names, keyOrder, a, k, Head(n, k, grp.0));
      forall q | q in grp.1
        ensures Suffix(q, n + FACTOR_TAG + NatToString(k)) in Factored(m, names, keyOrder, |names|)
      {
        var j :| 0 <= j < |grp.1| && grp.1[j] == q;
        assert sfx[j] in part;
        InFactored(m, names, keyOrder, a, k, sfx[j]);
      }
    }
  }

  /**
   * Nothing else is output: every factored production is a production
   * alone in its group, or the head or a member's suffix of a group of two
   * or more.
   */
  lemma LeftFactorOnly(ps: seq<Production>, names: seq<string>, keyOrder: map<string, seq<Symbol>>, q: Production)
    requires HeadsFormal(ps) && IterationOrder(GroupsOf(ps), names, keyOrder)
    requires q in Factored(GroupsOf(ps), names, keyOrder, |names|)
    ensures exists p :: (p in ps && |p.expr.terms| > 0 &&
      ((|GroupOf(ps, p).1| == 1 && q == p) ||
       (|GroupOf(ps, p).1| >= 2 &&
          (exists k: nat :: q == Head(p.name, k, GroupOf(ps, p).0) || q == Suffix(p, p.name + FACTOR_TAG + NatToString(k))))))
  {
    var m: Groups := GroupsOf(ps);
    assert WellGrouped(m, ps);
    var n, k, key, j := FactoredSource(m, names, keyOrder, q);
    var grp := m[n][key];
    assert Run(grp) && GroupOk(ps, n, key, grp);
    var p := grp.1[j];
    assert p in ps && p.name == n && Key(p.expr.terms[0]) == key;
    assert GroupOf(ps, p) == grp;
  }

  /** A factored production is a lone member, the head, or the j-th member's suffix of the k-th group of a name. */
  lemma FactoredSource(m: Groups, names: seq<string>, keyOrder: map<string, seq<Symbol>>, q: Production)
    returns (n: string, k: nat, key: Symbol, j: nat)
    requires q in Factored(m, names, keyOrder, |names|)
    requires forall n, s :: n in m && s in m[n] ==> Run(m[n][s])
    ensures n in m && key in m[n] && j < |m[n][key].1|
    ensures var grp := m[n][key];
      || (|grp.1| == 1 && q == grp.1[0])
      || (|grp.1| >= 2 && (q == Head(n, k, grp.0) || q == Suffix(grp.1[j], n + FACTOR_TAG + NatToString(k))))
  {
    var a := FromFactored(m, names, keyOrder, |names|, q);
    n := names[a];
    k := FromFactorKeys(n, m[n], keyOrder[n], |keyOrder[n]|, q);
    key := keyOrder[n][k];
    var grp := m[n][key];
    j := 0;
    if |grp.1| >= 2 && q != Head(n, k, grp.0) {
      var sfx := Suffixes(grp.1, n + FACTOR_TAG + NatToString(k));
      j :| 0 <= j < |grp.1| && sfx[j] == q;
    }
  }

  /** Every factored production comes from the groups of one name. */
  lemma {:induction false} FromFactored(m: Groups, names: seq<string>, keyOrder: map<string, seq<Symbol>>, k: nat,
                                        q: Production) returns (a: nat)
    requires k <= |names| && q in Factored(m, names, keyOrder, k)
    ensures a < k && names[a] in m && names[a] in keyOrder
    ensures q in FactorKeys(names[a], m[names[a]], keyOrder[names[a]], |keyOrder[names[a]]|)
  {
    var n := names[k - 1];
    var rest := if n in m && n in keyOrder then FactorKeys(n, m[n], keyOrder[n], |keyOrder[n]|) else [];
    assert Factored(m, names, keyOrder, k) == Factored(m, names, keyOrder, k - 1) + rest;
    if q in rest {
      a := k - 1;
    } else {
      a := FromFactored(m, names, keyOrder, k - 1, q);
    }
  }

  /** Every production factored for a name comes from one of its groups. */
  lemma {:induction false} FromFactorKeys(n: string, inner: map<Symbol, (Term, seq<Production>)>, keys: seq<Symbol>,
                                          k: nat, q: Production) returns (i: nat)
    requires k <= |keys| && q in FactorKeys(n, inner, keys, k)
    ensures i < k && keys[i] in inner && q in FactorGroup(n, i, inner[keys[i]])
  {
    var key := keys[k - 1];
    var rest := if key in inner then FactorGroup(n, k - 1, inner[key]) else [];
    assert FactorKeys(n, inner, keys, k) == FactorKeys(n, inner, keys, k - 1) + rest;
    if q in rest {
      i := k - 1;
    } else {
      i := FromFactorKeys(n, inner, keys, k - 1, q);
    }
  }

  /** Whatever a group becomes is in the output. */
  lemma InFactored(m: Groups, names: seq<string>, keyOrder: map<string, seq<Symbol>>, a: nat, k: nat, q: Production)
    requires a < |names| && names[a] in m && names[a] in keyOrder && k < |keyOrder[names[a]]|
    requires keyOrder[names[a]][k] in m[names[a]]
    requires q in FactorGroup(names[a], k, m[names[a]][keyOrder[names[a]][k]])
    ensures q in Factored(m, names, keyOrder, |names|)
  {
    var n := names[a];
    InFactorKeys(n, m[n], keyOrder[n], |keyOrder[n]|, k, q);
    InFactoredFrom(m, names, keyOrder, |names|, a, q);
  }

  lemma {:induction false} InFactorKeys(n: string, inner: map<Symbol, (Term, seq<Production>)>, keys: seq<Symbol>,
                                        k: nat, i: nat, q: Production)
    requires k <= |keys| && i < k && keys[i] in inner
    requires q in FactorGroup(n, i, inner[keys[i]])
    ensures q in FactorKeys(n, inner, keys, k)
  {
    var key := keys[k - 1];
    var rest := if key in inner then FactorGroup(n, k - 1, inner[key]) else [];
    assert FactorKeys(n, inner, keys, k) == FactorKeys(n, inner, keys, k - 1) + rest;
    if i < k - 1 {
      InFactorKeys(n, inner, keys, k - 1, i, q);
    } else {
      assert q in rest;
    }
  }

  lemma {:induction false} InFactoredFrom(m: Groups, names: seq<string>,
                                          keyOrder: map<string, seq<Symbol>>, k: nat, a: nat, q: Production)
    requires k <= |names| && a < k && names[a] in m && names[a] in keyOrder
    requires q in FactorKeys(names[a], m[names[a]], keyOrder[names[a]], |keyOrder[names[a]]|)
    ensures q in Factored(m, names, keyOrder, k)
  {
    var n := names[k - 1];
    var rest := if n in m && n in keyOrder then FactorKeys(n, m[n], keyOrder[n], |keyOrder[n]|) else [];
    assert Factored(m, names, keyOrder, k) == Factored(m, names, keyOrder, k - 1) + rest;
    if a < k - 1 {
      InFactoredFrom(m, names, keyOrder, k - 1, a, q);
    }
  }
}
