/**
 * The LL(1) parser of src/parser/llparser.rs: FIRST and FOLLOW sets computed
 * as fixpoints, the parse table built from them, and the table-driven
 * driver that grows a parse tree through a zipper.
 *
 * Terms are compared as `Term ==` compares them, so a set of terms is a
 * sequence of `Symbol`s (`Key` of each term) without repetitions, in the
 * order the source's `Vec` holds them. The sets of `generate_table` are owned
 * values inside hash maps; the maps are `map`s from symbols to such
 * sequences, keyed by `Key` of the term or by the nonterminal's name.
 */
module LLParser {
  import opened Wrappers
  import opened Grammar
  import Lexer
  import Tree
  import opened ParseTree
  import Dfa

  /** `EPSILON_TOKEN` as a term: the terminal named by the NUL character. */
  const EPSILON: Symbol := T("\0", None)

  /** `FINISH_TOKEN` as a term. */
  const FINISH: Symbol := T("$", None)

  // ---------------------------------------------------------------------------
  // TerminalSet
  // ---------------------------------------------------------------------------

  /** `push`: x added at the end unless it is already there. */
  function Push(s: seq<Symbol>, x: Symbol): (r: seq<Symbol>)
    ensures x in r && (x in s ==> r == s) && (x !in s ==> r == s + [x])
  {
    if x in s then s else s + [x]
  }

  /** `append`: the items of rhs pushed in order. */
  function Union(s: seq<Symbol>, rhs: seq<Symbol>): (r: seq<Symbol>)
    ensures |s| <= |r| && r[..|s|] == s
  {
    if |rhs| == 0 then s else Push(Union(s, rhs[..|rhs| - 1]), rhs[|rhs| - 1])
  }

  /** `append` gains exactly the new items, keeps the set free of repetitions and adds something iff rhs had something new. */
  lemma {:induction false} UnionSpec(s: seq<Symbol>, rhs: seq<Symbol>)
    ensures forall x :: x in Union(s, rhs) <==> x in s || x in rhs
    ensures Dfa.Distinct(s) ==> Dfa.Distinct(Union(s, rhs))
    ensures Union(s, rhs) == s <==> forall x :: x in rhs ==> x in s
    ensures Union(s, rhs) == s <==> |Union(s, rhs)| == |s|
  {
    if |rhs| > 0 {
      var init := rhs[..|rhs| - 1];
      UnionSpec(s, init);
      assert rhs == init + [rhs[|rhs| - 1]];
      var u := Union(s, init);
      if Union(s, rhs) == s {
        assert |u| == |s| by { assert |s| <= |u| <= |Union(s, rhs)|; }
        assert u == s by { assert u[..|s|] == s; }
      }
    }
  }

  /** The position of x in s. */
  function IndexOf(s: seq<Symbol>, x: Symbol): (i: nat)
    requires x in s
    ensures i < |s| && s[i] == x && x !in s[..i]
  {
    if s[0] == x then 0 else 1 + IndexOf(s[1..], x)
  }

  /** `remove_epsilon`: the first epsilon taken out, the others kept in order. */
  function RemoveEpsilon(s: seq<Symbol>): seq<Symbol>
  {
    if EPSILON in s then
      var i := IndexOf(s, EPSILON);
      s[..i] + s[i + 1..]
    else s
  }

  /** Removing epsilon from a set without repetitions leaves exactly the other items. */
  lemma RemoveEpsilonSpec(s: seq<Symbol>)
    requires Dfa.Distinct(s)
    ensures Dfa.Distinct(RemoveEpsilon(s)) && forall x :: x in RemoveEpsilon(s) <==> x in s && x != EPSILON
  {
    if EPSILON in s {
      var i := IndexOf(s, EPSILON);
      var r := s[..i] + s[i + 1..];
      forall x | x in s && x != EPSILON ensures x in r {
        var k :| 0 <= k < |s| && s[k] == x;
        if k < i { assert r[k] == x; } else { assert r[k - 1] == x; }
      }
    }
  }

  /** `TerminalSet`: a vector of terms without repetitions. */
  class TerminalSet {
    var items: seq<Symbol>

    ghost predicate Valid()
      reads this
    {
      Dfa.Distinct(items)
    }

    /** `default`: no items. */
    constructor ()
      ensures items == [] && Valid()
    {
      items := [];
    }

    /** A set holding the items of an existing one (the entry a `HashMap` lends out). */
    constructor Of(s: seq<Symbol>)
      requires Dfa.Distinct(s)
      ensures items == s && Valid()
    {
      items := s;
    }

    function Len(): (n: nat)
      reads this
      ensures n == |items|
    {
      |items|
    }

    /** `append`: the items of rhs that are new, pushed in order; true iff there were any. */
    method Append(rhs: seq<Symbol>) returns (ret: bool)
      requires Valid()
      modifies this
      ensures items == Union(old(items), rhs) && Valid()
      ensures ret <==> exists x :: x in rhs && x !in old(items)
    {
      ghost var s := items;
      ret := false;
      for i := 0 to |rhs|
        invariant items == Union(s, rhs[..i])
        invariant ret <==> exists x :: x in rhs[..i] && x !in s
      {
        assert rhs[..i + 1][..i] == rhs[..i];
        UnionSpec(s, rhs[..i]);
        if !(rhs[i] in items) {
          items := items + [rhs[i]];
          ret := true;
        }
        assert rhs[..i + 1] == rhs[..i] + [rhs[i]];
      }
      assert rhs[..|rhs|] == rhs;
      UnionSpec(s, rhs);
    }

    /** `push`: x added unless present; true iff it was added. */
    method PushItem(x: Symbol) returns (ret: bool)
      requires Valid()
      modifies this
      ensures items == Push(old(items), x) && Valid()
      ensures ret <==> x !in old(items)
    {
      if !(x in items) {
        items := items + [x];
        ret := true;
      } else {
        ret := false;
      }
    }

    /** `append_epsilon`. */
    method AppendEpsilon() returns (ret: bool)
      requires Valid()
      modifies this
      ensures items == Push(old(items), EPSILON) && Valid()
      ensures ret <==> EPSILON !in old(items)
    {
      ret := PushItem(EPSILON);
    }

    /** `remove_epsilon`: true iff there was one to remove. */
    method RemoveEpsilonItem() returns (ret: bool)
      requires Valid()
      modifies this
      ensures items == RemoveEpsilon(old(items)) && Valid()
      ensures ret <==> EPSILON in old(items)
    {
      ret := false;
      var i := 0;
      while i < |items|
        invariant i <= |items| && EPSILON !in items[..i]
      {
        if items[i] == EPSILON {
          assert IndexOf(items, EPSILON) == i;
          RemoveEpsilonSpec(items);
          items := items[..i] + items[i + 1..];
          ret := true;
          return;
        }
        i := i + 1;
      }
      assert items[..i] == items;
    }

    /** `contains_epsilon`. */
    function ContainsEpsilon(): (b: bool)
      reads this
      ensures b <==> EPSILON in items
    {
      EPSILON in items
    }
  }

  // ---------------------------------------------------------------------------
  // get_first
  // ---------------------------------------------------------------------------

  /** A map from nonterminal names to the sets `first` or `follow` hold. */
  type Sets = map<string, seq<Symbol>>

  /** Every production's expression is formal: the LL parser takes formal grammars. */
  predicate FormalGrammar(ps: seq<Production>)
  {
    forall i :: 0 <= i < |ps| ==> FormalExpr(ps[i].expr)
  }

  /** Every nonterminal a production mentions is the name of a production. */
  predicate Defined(ps: seq<Production>)
    requires FormalGrammar(ps)
  {
    forall i, j :: 0 <= i < |ps| && 0 <= j < |ps[i].expr.terms| && ps[i].expr.terms[j].NonTerminal? ==>
      ps[i].expr.terms[j].name in Names(ps)
  }

  /** The map has an entry for every production name. */
  predicate Domain(m: Sets, ps: seq<Production>)
  {
    forall n :: n in Names(ps) ==> n in m
  }

  /**
   * What `first` holds for a term. A terminal's entry is inserted once as
   * the singleton of the terminal and never changes, so it is computed here;
   * a nonterminal's entry is looked up (an absent one reads as empty).
   */
  function FirstOfTerm(first: Sets, t: Term): (r: seq<Symbol>)
    requires Formal(t)
    ensures t.Terminal? ==> r == [T(t.type_, t.value)]
  {
    if t.Terminal? then [T(t.type_, t.value)] else if t.name in first then first[t.name] else []
  }

  /**
   * The loop of `get_first` over `terms[i..]` with `acc` gathered so far:
   * each term's set is appended and epsilon removed; the loop stops at the
   * first term whose set lacks epsilon, and epsilon is added only when no
   * term stopped it.
   */
  function FirstFrom(first: Sets, e: Expression, i: nat, acc: seq<Symbol>): seq<Symbol>
    requires FormalExpr(e) && i <= |e.terms|
    decreases |e.terms| - i
  {
    if i == |e.terms| then Push(acc, EPSILON)
    else
      var t := FirstOfTerm(first, e.terms[i]);
      var ts := RemoveEpsilon(Union(acc, t));
      if EPSILON in t then FirstFrom(first, e, i + 1, ts) else ts
  }

  /** Every term of `terms[i..k]` can derive the empty string. */
  ghost predicate NullableTo(first: Sets, e: Expression, i: nat, k: nat)
    requires FormalExpr(e) && k <= |e.terms|
  {
    forall j :: i <= j < k ==> EPSILON in FirstOfTerm(first, e.terms[j])
  }

  /**
   * The textbook FIRST of `terms[i..]`: epsilon iff every term is nullable;
   * another symbol iff it starts some term reached through nullable terms.
   */
  ghost predicate InFirst(first: Sets, e: Expression, i: nat, x: Symbol)
    requires FormalExpr(e)
  {
    if x == EPSILON then i <= |e.terms| && NullableTo(first, e, i, |e.terms|)
    else exists k :: i <= k < |e.terms| && NullableTo(first, e, i, k) && x in FirstOfTerm(first, e.terms[k])
  }

  /** FIRST of `terms[i..]` from the first term's set and FIRST of `terms[i + 1..]`. */
  lemma InFirstStep(first: Sets, e: Expression, i: nat, x: Symbol)
    requires FormalExpr(e) && i < |e.terms|
    ensures var t := FirstOfTerm(first, e.terms[i]);
      InFirst(first, e, i, x) <==> (x in t && x != EPSILON) || (EPSILON in t && InFirst(first, e, i + 1, x))
  {
    var t := FirstOfTerm(first, e.terms[i]);
    if x != EPSILON {
      if InFirst(first, e, i, x) && x !in t {
        var k :| i <= k < |e.terms| && NullableTo(first, e, i, k) && x in FirstOfTerm(first, e.terms[k]);
        assert k != i;
        assert NullableTo(first, e, i + 1, k);
      }
      if EPSILON in t && InFirst(first, e, i + 1, x) {
        var k :| i + 1 <= k < |e.terms| && NullableTo(first, e, i + 1, k) && x in FirstOfTerm(first, e.terms[k]);
        assert NullableTo(first, e, i, k);
      }
      if x in t {
        assert NullableTo(first, e, i, i);
      }
    }
  }

  /** `get_first` computes the textbook FIRST, without repetitions. */
  lemma {:induction false} FirstFromMembers(first: Sets, e: Expression, i: nat, acc: seq<Symbol>)
    requires FormalExpr(e) && i <= |e.terms| && Dfa.Distinct(acc) && EPSILON !in acc
    ensures Dfa.Distinct(FirstFrom(first, e, i, acc))
    ensures forall x :: x in FirstFrom(first, e, i, acc) <==> x in acc || InFirst(first, e, i, x)
    decreases |e.terms| - i
  {
    if i < |e.terms| {
      var t := FirstOfTerm(first, e.terms[i]);
      UnionSpec(acc, t);
      var ts := RemoveEpsilon(Union(acc, t));
      RemoveEpsilonSpec(Union(acc, t));
      if EPSILON in t {
        FirstFromMembers(first, e, i + 1, ts);
      }
      forall x {
        InFirstStep(first, e, i, x);
      }
    }
  }

  /** `get_first(&terms[from..])`, with its loop, its early exit and its flag. */
  method GetFirst(first: Sets, e: Expression, from: nat) returns (r: seq<Symbol>)
    requires FormalExpr(e) && from <= |e.terms|
    ensures r == FirstFrom(first, e, from, [])
    ensures Dfa.Distinct(r) && forall x :: x in r <==> InFirst(first, e, from, x)
  {
    var tset := [];
    var flag := true;
    var i := from;
    ghost var goal := FirstFrom(first, e, from, []);
    while i < |e.terms|
      invariant from <= i <= |e.terms| && flag
      invariant FirstFrom(first, e, i, tset) == goal
    {
      flag := false;
      var t := FirstOfTerm(first, e.terms[i]);
      ghost var before := tset;
      tset := RemoveEpsilon(Union(tset, t));
      if !(EPSILON in t) {
        assert goal == tset;
        break;
      }
      assert goal == FirstFrom(first, e, i + 1, tset);
      flag := true;
      i := i + 1;
    }
    if flag {
      assert FirstFrom(first, e, i, tset) == Push(tset, EPSILON);
      tset := Push(tset, EPSILON);
    }
    r := tset;
    FirstFromMembers(first, e, from, []);
  }

  // ---------------------------------------------------------------------------
  // Growth of the sets and the termination measure of the fixpoint loops
  // ---------------------------------------------------------------------------

  /** The symbols a FIRST or FOLLOW set can hold: the grammar's terminals, epsilon and the end marker. */
  ghost function Alphabet(ps: seq<Production>): set<Symbol>
  {
    (set i, j | 0 <= i < |ps| && 0 <= j < |ps[i].expr.terms| && ps[i].expr.terms[j].Terminal?
       :: T(ps[i].expr.terms[j].type_, ps[i].expr.terms[j].value)) + {EPSILON, FINISH}
  }

  /** Every set is free of repetitions and drawn from the alphabet. */
  ghost predicate Bounded(m: Sets, a: set<Symbol>)
  {
    forall n :: n in m ==> Dfa.Distinct(m[n]) && forall x :: x in m[n] ==> x in a
  }

  /** A symbol of a term's set belongs to the alphabet. */
  lemma TermInAlphabet(ps: seq<Production>, first: Sets, i: nat, j: nat, x: Symbol)
    requires FormalGrammar(ps) && i < |ps| && j < |ps[i].expr.terms| && Bounded(first, Alphabet(ps))
    requires x in FirstOfTerm(first, ps[i].expr.terms[j])
    ensures x in Alphabet(ps)
  {
    var t := ps[i].expr.terms[j];
    if t.Terminal? {
      assert x == T(ps[i].expr.terms[j].type_, ps[i].expr.terms[j].value);
    }
  }

  /** FIRST of a suffix of a production is drawn from the alphabet. */
  lemma InFirstAlphabet(ps: seq<Production>, first: Sets, i: nat, from: nat, x: Symbol)
    requires FormalGrammar(ps) && i < |ps| && Bounded(first, Alphabet(ps))
    requires InFirst(first, ps[i].expr, from, x)
    ensures x in Alphabet(ps)
  {
    if x != EPSILON {
      var k :| from <= k < |ps[i].expr.terms| && NullableTo(first, ps[i].expr, from, k)
                && x in FirstOfTerm(first, ps[i].expr.terms[k]);
      TermInAlphabet(ps, first, i, k, x);
    }
  }

  /** The summed sizes of the sets of `nts[..k]`; the fixpoint loops make it grow. */
  function Total(m: Sets, nts: seq<string>, k: nat): nat
    requires k <= |nts|
  {
    if k == 0 then 0 else Total(m, nts, k - 1) + (if nts[k - 1] in m then |m[nts[k - 1]]| else 0)
  }

  /** Growing one set never shrinks the total, and grows it when that set is counted. */
  lemma {:induction false} TotalGrows(m: Sets, nts: seq<string>, k: nat, n: string, v: seq<Symbol>)
    requires k <= |nts| && n in m && |m[n]| <= |v|
    ensures Total(m, nts, k) <= Total(m[n := v], nts, k)
    ensures |m[n]| < |v| && (exists j :: 0 <= j < k && nts[j] == n) ==> Total(m, nts, k) < Total(m[n := v], nts, k)
  {
    if k > 0 {
      TotalGrows(m, nts, k - 1, n, v);
    }
  }

  /** The total is at most k times the alphabet's size. */
  lemma {:induction false} TotalBound(m: Sets, nts: seq<string>, k: nat, a: set<Symbol>)
    requires k <= |nts| && Bounded(m, a)
    ensures Total(m, nts, k) <= k * |a|
  {
    if k > 0 {
      TotalBound(m, nts, k - 1, a);
      var n := nts[k - 1];
      if n in m {
        Dfa.DistinctCard(m[n]);
        var items := set x | x in m[n];
        Dfa.SubsetCard(items, a);
      }
    }
  }

  /** `append` at entry n. */
  function Grow(m: Sets, n: string, rhs: seq<Symbol>): (r: Sets)
    requires n in m
    ensures r.Keys == m.Keys && r[n] == Union(m[n], rhs)
  {
    m[n := Union(m[n], rhs)]
  }

  /** Growing by symbols of the alphabet keeps the sets bounded. */
  lemma GrowBounded(m: Sets, n: string, rhs: seq<Symbol>, a: set<Symbol>)
    requires Bounded(m, a) && n in m && forall x :: x in rhs ==> x in a
    ensures Bounded(Grow(m, n, rhs), a)
  {
    UnionSpec(m[n], rhs);
  }

  /** A set grown by symbols a bound already holds stays below that bound. */
  lemma GrowBelow(m: Sets, f: Sets, n: string, rhs: seq<Symbol>)
    requires Below(m, f) && n in m && n in f && forall x :: x in rhs ==> x in f[n]
    ensures Below(Grow(m, n, rhs), f)
  {
    UnionSpec(m[n], rhs);
  }

  /** m grew from m0 inside the alphabet; the total grew strictly iff something moved. */
  ghost predicate Grown(ps: seq<Production>, m0: Sets, m: Sets, moved: bool, total0: nat)
  {
    && Domain(m, ps) && Bounded(m, Alphabet(ps))
    && total0 <= Total(m, Names(ps), |ps|)
    && (moved ==> total0 < Total(m, Names(ps), |ps|))
    && (!moved ==> m == m0)
    && Below(m0, m)
  }

  /** Growth composes. */
  lemma GrownTrans(ps: seq<Production>, m0: Sets, m1: Sets, m2: Sets, b1: bool, b2: bool, total0: nat)
    requires Grown(ps, m0, m1, b1, total0) && Grown(ps, m1, m2, b2, Total(m1, Names(ps), |ps|))
    ensures Grown(ps, m0, m2, b1 || b2, total0)
  {
  }

  /** Appending symbols of the alphabet to a production name's set keeps m grown and below every bound above it. */
  lemma GrowFacts(ps: seq<Production>, m0: Sets, m: Sets, moved: bool, total0: nat, n: string, rhs: seq<Symbol>)
    requires Grown(ps, m0, m, moved, total0) && n in Names(ps)
    requires forall x :: x in rhs ==> x in Alphabet(ps)
    ensures Grown(ps, m0, Grow(m, n, rhs), moved || exists x :: x in rhs && x !in m[n], total0)
    ensures forall f :: Below(m, f) && n in f && (forall x :: x in rhs ==> x in f[n]) ==> Below(Grow(m, n, rhs), f)
  {
    UnionSpec(m[n], rhs);
    GrowBounded(m, n, rhs, Alphabet(ps));
    assert Below(m, Grow(m, n, rhs));
    forall f | Below(m, f) && n in f && (forall x :: x in rhs ==> x in f[n]) ensures Below(Grow(m, n, rhs), f) {
      GrowBelow(m, f, n, rhs);
    }
    var j :| 0 <= j < |Names(ps)| && Names(ps)[j] == n;
    TotalGrows(m, Names(ps), |ps|, n, Union(m[n], rhs));
    if forall x :: x in rhs ==> x in m[n] {
      assert Grow(m, n, rhs) == m;
    }
  }

  /** `get_mut(n).append(rhs)` on a map of sets: true iff rhs brought something new. */
  method AppendAt(m: Sets, n: string, rhs: seq<Symbol>) returns (r: Sets, grew: bool)
    requires n in m && Dfa.Distinct(m[n])
    ensures r == Grow(m, n, rhs) && Dfa.Distinct(r[n])
    ensures grew <==> exists x :: x in rhs && x !in m[n]
    ensures grew <==> |r[n]| > |m[n]|
    ensures !grew ==> r == m
  {
    UnionSpec(m[n], rhs);
    var s := new TerminalSet.Of(m[n]);
    grew := s.Append(rhs);
    r := m[n := s.items];
  }

  /** Every set of m is contained in the set of f under the same name. */
  ghost predicate Below(m: Sets, f: Sets)
  {
    forall n :: n in m ==> n in f && forall x :: x in m[n] ==> x in f[n]
  }

  /** FIRST only grows when the sets it reads grow. */
  lemma InFirstMono(m: Sets, f: Sets, e: Expression, i: nat, x: Symbol)
    requires FormalExpr(e) && Below(m, f) && InFirst(m, e, i, x)
    ensures InFirst(f, e, i, x)
  {
    forall j | 0 <= j < |e.terms|
      ensures forall y :: y in FirstOfTerm(m, e.terms[j]) ==> y in FirstOfTerm(f, e.terms[j])
    {
    }
    if x != EPSILON {
      var k :| i <= k < |e.terms| && NullableTo(m, e, i, k) && x in FirstOfTerm(m, e.terms[k]);
      assert NullableTo(f, e, i, k);
    }
  }

  /** A production name has an entry in a map with the grammar's domain. */
  lemma NameIn(ps: seq<Production>, m: Sets, i: nat)
    requires i < |ps| && Domain(m, ps)
    ensures ps[i].name in m
  {
    assert Names(ps)[i] == ps[i].name;
  }

  // ---------------------------------------------------------------------------
  // FIRST
  // ---------------------------------------------------------------------------

  /** f satisfies every production's FIRST inclusion: FIRST(A) contains FIRST of each body of A. */
  ghost predicate FirstSolution(ps: seq<Production>, f: Sets)
  {
    FormalGrammar(ps) && Domain(f, ps) && FirstClosed(ps, f, |ps|)
  }

  /** The FIRST inclusions of `ps[..k]` hold in f. */
  ghost predicate FirstClosed(ps: seq<Production>, f: Sets, k: nat)
    requires FormalGrammar(ps) && k <= |ps|
  {
    forall i, x :: 0 <= i < k && InFirst(f, ps[i].expr, 0, x) ==> ps[i].name in f && x in f[ps[i].name]
  }

  /** m lies below every solution: it is the least one once it is a solution itself. */
  ghost predicate LeastFirst(ps: seq<Production>, m: Sets)
  {
    forall f :: FirstSolution(ps, f) ==> Below(m, f)
  }

  /** What holds after k productions of a FIRST pass that started from `first`. */
  ghost predicate FirstPassInv(ps: seq<Production>, first: Sets, next: Sets, moved: bool, k: nat, total0: nat)
    requires FormalGrammar(ps) && k <= |ps|
  {
    && Grown(ps, first, next, moved, total0)
    && (!moved ==> FirstClosed(ps, first, k))
    && forall f :: FirstSolution(ps, f) && Below(first, f) ==> Below(next, f)
  }

  /** One production of a FIRST pass: appending FIRST of its body keeps the pass invariant. */
  lemma FirstStep(ps: seq<Production>, k: nat, first: Sets, before: Sets, moved: bool, total0: nat,
                  tset: seq<Symbol>)
    requires FormalGrammar(ps) && k < |ps| && FirstPassInv(ps, first, before, moved, k, total0)
    requires ps[k].name in before
    requires forall x :: x in tset <==> InFirst(before, ps[k].expr, 0, x)
    ensures FirstPassInv(ps, first, Grow(before, ps[k].name, tset),
                         moved || exists x :: x in tset && x !in before[ps[k].name], k + 1, total0)
  {
    var n := ps[k].name;
    forall x | x in tset ensures x in Alphabet(ps) {
      InFirstAlphabet(ps, before, k, 0, x);
    }
    assert Names(ps)[k] == n;
    GrowFacts(ps, first, before, moved, total0, n, tset);
    forall f | FirstSolution(ps, f) && Below(first, f)
      ensures n in f && forall x :: x in tset ==> x in f[n]
    {
      forall x | x in tset ensures x in f[n] {
        InFirstMono(before, f, ps[k].expr, 0, x);
      }
    }
    if !moved && forall x :: x in tset ==> x in before[n] {
      assert FirstClosed(ps, first, k + 1);
    }
  }

  /** One pass of the FIRST loop over all productions, `first` updated in place. */
  method FirstPass(ps: seq<Production>, first: Sets) returns (next: Sets, moved: bool)
    requires FormalGrammar(ps) && Domain(first, ps) && Bounded(first, Alphabet(ps))
    ensures Domain(next, ps) && Bounded(next, Alphabet(ps))
    ensures Total(first, Names(ps), |ps|) <= Total(next, Names(ps), |ps|)
    ensures moved ==> Total(first, Names(ps), |ps|) < Total(next, Names(ps), |ps|)
    ensures !moved ==> next == first && FirstSolution(ps, first)
    ensures forall f :: FirstSolution(ps, f) && Below(first, f) ==> Below(next, f)
  {
    next := first;
    moved := false;
    ghost var total0 := Total(first, Names(ps), |ps|);
    for k := 0 to |ps|
      invariant FirstPassInv(ps, first, next, moved, k, total0)
    {
      NameIn(ps, next, k);
      var tset := GetFirst(next, ps[k].expr, 0);
      FirstStep(ps, k, first, next, moved, total0, tset);
      var grew;
      next, grew := AppendAt(next, ps[k].name, tset);
      moved := moved || grew;
    }
  }

  /**
   * The FIRST part of `generate_table`: every nonterminal starts empty and
   * passes run until one changes nothing. The result is the least solution
   * of the FIRST inclusions; the loop ends because the sets only grow inside
   * a finite alphabet.
   */
  method FirstSets(ps: seq<Production>) returns (first: Sets)
    requires FormalGrammar(ps)
    ensures Domain(first, ps) && Bounded(first, Alphabet(ps))
    ensures FirstSolution(ps, first) && LeastFirst(ps, first)
  {
    first := map n | n in Names(ps) :: [];
    ghost var a := Alphabet(ps);
    TotalBound(first, Names(ps), |ps|, a);
    while true
      invariant Domain(first, ps) && Bounded(first, a) && LeastFirst(ps, first)
      invariant Total(first, Names(ps), |ps|) <= |ps| * |a|
      decreases |ps| * |a| - Total(first, Names(ps), |ps|)
    {
      var moved;
      first, moved := FirstPass(ps, first);
      TotalBound(first, Names(ps), |ps|, a);
      if !moved {
        break;
      }
    }
  }

  // ---------------------------------------------------------------------------
  // FOLLOW
  // ---------------------------------------------------------------------------

  /**
   * The FOLLOW inclusions an occurrence of a nonterminal B at position j of
   * p imposes: FIRST of the rest of the body, without epsilon, lies in
   * FOLLOW(B), and so does FOLLOW of p's name when the rest is nullable.
   */
  ghost predicate FollowRule(first: Sets, fo: Sets, p: Production, j: nat)
    requires FormalExpr(p.expr) && j < |p.expr.terms|
  {
    p.expr.terms[j].NonTerminal? ==>
      && p.expr.terms[j].name in fo && p.name in fo
      && (forall x :: x != EPSILON && InFirst(first, p.expr, j + 1, x) ==> x in fo[p.expr.terms[j].name])
      && (InFirst(first, p.expr, j + 1, EPSILON) ==> forall x :: x in fo[p.name] ==> x in fo[p.expr.terms[j].name])
  }

  /** The FOLLOW inclusions of the first j positions of p hold. */
  ghost predicate FollowRulesOf(first: Sets, fo: Sets, p: Production, j: nat)
    requires FormalExpr(p.expr) && j <= |p.expr.terms|
  {
    forall jj :: 0 <= jj < j ==> FollowRule(first, fo, p, jj)
  }

  /** The FOLLOW inclusions of every position of `ps[..k]` hold. */
  ghost predicate FollowClosed(ps: seq<Production>, first: Sets, fo: Sets, k: nat)
    requires FormalGrammar(ps) && k <= |ps|
  {
    forall i :: 0 <= i < k ==> FollowRulesOf(first, fo, ps[i], |ps[i].expr.terms|)
  }

  /** f satisfies every FOLLOW inclusion of the grammar. */
  ghost predicate FollowRules(ps: seq<Production>, first: Sets, f: Sets)
  {
    FormalGrammar(ps) && Domain(f, ps) && FollowClosed(ps, first, f, |ps|)
  }

  /** ... and the end marker follows the start symbol. */
  ghost predicate FollowSolution(ps: seq<Production>, start: string, first: Sets, f: Sets)
  {
    FollowRules(ps, first, f) && start in f && FINISH in f[start]
  }

  /** m lies below every FOLLOW solution. */
  ghost predicate LeastFollow(ps: seq<Production>, start: string, first: Sets, m: Sets)
  {
    forall f :: FollowSolution(ps, start, first, f) ==> Below(m, f)
  }

  /**
   * One position of the FOLLOW loop: when it holds a nonterminal, FIRST of
   * the rest without epsilon is appended to its set, then, if the rest is
   * nullable, the set of the production's own name as it is at that moment.
   */
  function FollowStep(first: Sets, p: Production, j: nat, fo: Sets): Sets
    requires FormalExpr(p.expr) && j < |p.expr.terms| && p.name in fo
    requires p.expr.terms[j].NonTerminal? ==> p.expr.terms[j].name in fo
  {
    if p.expr.terms[j].NonTerminal? then
      var t := p.expr.terms[j].name;
      var tset := FirstFrom(first, p.expr, j + 1, []);
      var m := Grow(fo, t, RemoveEpsilon(tset));
      if EPSILON in tset then Grow(m, t, m[p.name]) else m
    else fo
  }

  /** A FOLLOW step grows the sets, imposes its position's inclusions when it changes nothing, and stays below every solution. */
  lemma FollowStepFacts(ps: seq<Production>, first: Sets, k: nat, j: nat, fo: Sets)
    requires FormalGrammar(ps) && Defined(ps) && k < |ps| && j < |ps[k].expr.terms|
    requires Bounded(first, Alphabet(ps)) && Domain(fo, ps) && Bounded(fo, Alphabet(ps)) && ps[k].name in fo
    ensures Grown(ps, fo, FollowStep(first, ps[k], j, fo), FollowStep(first, ps[k], j, fo) != fo,
                  Total(fo, Names(ps), |ps|))
    ensures FollowStep(first, ps[k], j, fo) == fo ==> FollowRule(first, fo, ps[k], j)
    ensures forall f :: FollowRules(ps, first, f) && Below(fo, f) ==> Below(FollowStep(first, ps[k], j, fo), f)
  {
    var p := ps[k];
    var total0 := Total(fo, Names(ps), |ps|);
    assert Grown(ps, fo, fo, false, total0);
    if p.expr.terms[j].NonTerminal? {
      var t := p.expr.terms[j].name;
      var tset := FirstFrom(first, p.expr, j + 1, []);
      FirstFromMembers(first, p.expr, j + 1, []);
      RemoveEpsilonSpec(tset);
      var rest := RemoveEpsilon(tset);
      forall x | x in rest ensures x in Alphabet(ps) {
        InFirstAlphabet(ps, first, k, j + 1, x);
      }
      GrowFacts(ps, fo, fo, false, total0, t, rest);
      var m := Grow(fo, t, rest);
      var g1 := exists x :: x in rest && x !in fo[t];
      if EPSILON in tset {
        assert Names(ps)[k] == p.name;
        GrowFacts(ps, fo, m, g1, total0, t, m[p.name]);
      }
    }
    forall f | FollowRules(ps, first, f) && Below(fo, f) ensures Below(FollowStep(first, ps[k], j, fo), f) {
      FollowStepLeast(ps, first, k, j, fo, f);
    }
  }

  /** A FOLLOW step stays below every solution above its input. */
  lemma FollowStepLeast(ps: seq<Production>, first: Sets, k: nat, j: nat, fo: Sets, f: Sets)
    requires FormalGrammar(ps) && Defined(ps) && k < |ps| && j < |ps[k].expr.terms|
    requires Domain(fo, ps) && ps[k].name in fo
    requires FollowRules(ps, first, f) && Below(fo, f)
    ensures Below(FollowStep(first, ps[k], j, fo), f)
  {
    var p := ps[k];
    if p.expr.terms[j].NonTerminal? {
      assert FollowRulesOf(first, f, ps[k], |ps[k].expr.terms|);
      assert FollowRule(first, f, p, j);
      var t := p.expr.terms[j].name;
      var tset := FirstFrom(first, p.expr, j + 1, []);
      FirstFromMembers(first, p.expr, j + 1, []);
      RemoveEpsilonSpec(tset);
      var rest := RemoveEpsilon(tset);
      GrowBelow(fo, f, t, rest);
      var m := Grow(fo, t, rest);
      if EPSILON in tset {
        GrowBelow(m, f, t, m[p.name]);
      }
    }
  }

  /** `FollowStep` with the source's two `append` calls and their flags. */
  method FollowAt(ps: seq<Production>, first: Sets, k: nat, j: nat, fo: Sets) returns (next: Sets, grew: bool)
    requires FormalGrammar(ps) && Defined(ps) && k < |ps| && j < |ps[k].expr.terms|
    requires Domain(fo, ps) && Bounded(fo, Alphabet(ps)) && ps[k].name in fo
    ensures next == FollowStep(first, ps[k], j, fo)
    ensures grew <==> next != fo
  {
    next := fo;
    grew := false;
    var p := ps[k];
    if p.expr.terms[j].NonTerminal? {
      var t := p.expr.terms[j].name;
      var tset := GetFirst(first, p.expr, j + 1);
      var fep := EPSILON in tset;
      tset := RemoveEpsilon(tset);
      var g1;
      next, g1 := AppendAt(next, t, tset);
      var g2 := false;
      if fep {
        var fx := next[p.name];
        next, g2 := AppendAt(next, t, fx);
      }
      grew := g1 || g2;
      if grew {
        assert |next[t]| > |fo[t]|;
      }
    }
  }

  /** What holds after j positions of production k in a FOLLOW pass that found `fo` at the production's start. */
  ghost predicate FollowProdInv(ps: seq<Production>, first: Sets, k: nat, fo: Sets, next: Sets, grew: bool,
                                j: nat, total0: nat)
    requires FormalGrammar(ps) && k < |ps| && j <= |ps[k].expr.terms|
  {
    && Grown(ps, fo, next, grew, total0)
    && (!grew ==> FollowRulesOf(first, fo, ps[k], j))
    && forall f :: FollowRules(ps, first, f) && Below(fo, f) ==> Below(next, f)
  }

  /** One position keeps the invariant of the inner FOLLOW loop. */
  lemma FollowProdStep(ps: seq<Production>, first: Sets, k: nat, fo: Sets, before: Sets, grew: bool,
                       j: nat, total0: nat)
    requires FormalGrammar(ps) && Defined(ps) && k < |ps| && j < |ps[k].expr.terms| && ps[k].name in before
    requires FollowProdInv(ps, first, k, fo, before, grew, j, total0)
    requires var next := FollowStep(first, ps[k], j, before);
      && Grown(ps, before, next, next != before, Total(before, Names(ps), |ps|))
      && (next == before ==> FollowRule(first, before, ps[k], j))
      && forall f :: FollowRules(ps, first, f) && Below(before, f) ==> Below(next, f)
    ensures var next := FollowStep(first, ps[k], j, before);
      FollowProdInv(ps, first, k, fo, next, grew || next != before, j + 1, total0)
  {
    var next := FollowStep(first, ps[k], j, before);
    GrownTrans(ps, fo, before, next, grew, next != before, total0);
    if !grew && next == before {
      assert FollowRulesOf(first, fo, ps[k], j + 1);
    }
  }

  /** The inner FOLLOW loop over the positions of production k. */
  method FollowProduction(ps: seq<Production>, first: Sets, k: nat, fo: Sets) returns (next: Sets, grew: bool)
    requires FormalGrammar(ps) && Defined(ps) && k < |ps|
    requires Bounded(first, Alphabet(ps)) && Domain(fo, ps) && Bounded(fo, Alphabet(ps))
    ensures Grown(ps, fo, next, grew, Total(fo, Names(ps), |ps|))
    ensures !grew ==> FollowRulesOf(first, fo, ps[k], |ps[k].expr.terms|)
    ensures forall f :: FollowRules(ps, first, f) && Below(fo, f) ==> Below(next, f)
  {
    next := fo;
    grew := false;
    ghost var total0 := Total(fo, Names(ps), |ps|);
    for j := 0 to |ps[k].expr.terms|
      invariant FollowProdInv(ps, first, k, fo, next, grew, j, total0)
    {
      NameIn(ps, next, k);
      FollowStepFacts(ps, first, k, j, next);
      FollowProdStep(ps, first, k, fo, next, grew, j, total0);
      var g;
      next, g := FollowAt(ps, first, k, j, next);
      grew := grew || g;
    }
  }

  /** What holds after k productions of a FOLLOW pass that started from `fo`. */
  ghost predicate FollowPassInv(ps: seq<Production>, first: Sets, fo: Sets, next: Sets, moved: bool, k: nat,
                                total0: nat)
    requires FormalGrammar(ps) && k <= |ps|
  {
    && Grown(ps, fo, next, moved, total0)
    && (!moved ==> FollowClosed(ps, first, fo, k))
    && forall f :: FollowRules(ps, first, f) && Below(fo, f) ==> Below(next, f)
  }

  /** One production keeps the invariant of a FOLLOW pass. */
  lemma FollowPassStep(ps: seq<Production>, first: Sets, fo: Sets, before: Sets, next: Sets, moved: bool,
                       grew: bool, k: nat, total0: nat)
    requires FormalGrammar(ps) && k < |ps| && FollowPassInv(ps, first, fo, before, moved, k, total0)
    requires Grown(ps, before, next, grew, Total(before, Names(ps), |ps|))
    requires !grew ==> FollowRulesOf(first, before, ps[k], |ps[k].expr.terms|)
    requires forall f :: FollowRules(ps, first, f) && Below(before, f) ==> Below(next, f)
    ensures FollowPassInv(ps, first, fo, next, moved || grew, k + 1, total0)
  {
    GrownTrans(ps, fo, before, next, moved, grew, total0);
    if !moved && !grew {
      assert FollowClosed(ps, first, fo, k + 1);
    }
  }

  /** One pass of the FOLLOW loop over all productions, `follow` updated in place. */
  method FollowPass(ps: seq<Production>, first: Sets, fo: Sets) returns (next: Sets, moved: bool)
    requires FormalGrammar(ps) && Defined(ps)
    requires Bounded(first, Alphabet(ps)) && Domain(fo, ps) && Bounded(fo, Alphabet(ps))
    ensures Grown(ps, fo, next, moved, Total(fo, Names(ps), |ps|))
    ensures !moved ==> FollowRules(ps, first, fo)
    ensures forall f :: FollowRules(ps, first, f) && Below(fo, f) ==> Below(next, f)
  {
    next := fo;
    moved := false;
    ghost var total0 := Total(fo, Names(ps), |ps|);
    for k := 0 to |ps|
      invariant FollowPassInv(ps, first, fo, next, moved, k, total0)
    {
      ghost var before := next;
      var grew;
      next, grew := FollowProduction(ps, first, k, next);
      FollowPassStep(ps, first, fo, before, next, moved, grew, k, total0);
      moved := moved || grew;
    }
  }

  /** The initial FOLLOW sets lie below every solution. */
  lemma FollowInitLeast(ps: seq<Production>, start: string, first: Sets, empty: Sets, fo: Sets)
    requires start in Names(ps) && empty == map n | n in Names(ps) :: []
    requires fo == empty[start := Push(empty[start], FINISH)]
    ensures LeastFollow(ps, start, first, fo)
  {
    assert empty[start] == [];
  }

  /**
   * The FOLLOW part of `generate_table`: every nonterminal starts empty, the
   * end marker is pushed into the start symbol's set, and passes run until
   * one changes nothing. The result is the least solution of the FOLLOW
   * inclusions for the given FIRST sets.
   */
  method FollowSets(ps: seq<Production>, start: string, first: Sets) returns (fo: Sets)
    requires FormalGrammar(ps) && Defined(ps) && start in Names(ps) && Bounded(first, Alphabet(ps))
    ensures Domain(fo, ps) && Bounded(fo, Alphabet(ps))
    ensures FollowSolution(ps, start, first, fo) && LeastFollow(ps, start, first, fo)
  {
    var empty := map n | n in Names(ps) :: [];
    fo := empty[start := Push(empty[start], FINISH)];
    ghost var a := Alphabet(ps);
    TotalBound(fo, Names(ps), |ps|, a);
    FollowInitLeast(ps, start, first, empty, fo);
    while true
      invariant Domain(fo, ps) && Bounded(fo, a) && LeastFollow(ps, start, first, fo)
      invariant start in fo && FINISH in fo[start]
      invariant Total(fo, Names(ps), |ps|) <= |ps| * |a|
      decreases |ps| * |a| - Total(fo, Names(ps), |ps|)
    {
      var moved;
      fo, moved := FollowPass(ps, first, fo);
      TotalBound(fo, Names(ps), |ps|, a);
      if !moved {
        break;
      }
    }
  }

  // ---------------------------------------------------------------------------
  // The parse table
  // ---------------------------------------------------------------------------

  /** `LLTable`: for each nonterminal, the production to expand on each lookahead symbol. */
  type Table = map<string, map<Symbol, Production>>

  /** The table's entry for nonterminal n and lookahead t. */
  function Lookup(table: Table, n: string, t: Symbol): (r: Option<Production>)
    ensures r.Some? <==> n in table && t in table[n]
  {
    if n in table && t in table[n] then Some(table[n][t]) else None
  }

  /**
   * p is predicted on lookahead t: t starts p's body, or the body is
   * nullable and t follows p's name.
   */
  ghost predicate Predicts(first: Sets, fo: Sets, p: Production, t: Symbol)
    requires FormalExpr(p.expr)
  {
    || (t != EPSILON && InFirst(first, p.expr, 0, t))
    || (InFirst(first, p.expr, 0, EPSILON) && p.name in fo && t in fo[p.name])
  }

  /**
   * The entry the table should hold after the productions `ps[..k]`: the
   * last of them for n that is predicted on t, since a later insertion
   * overwrites an earlier one.
   */
  ghost function Chosen(ps: seq<Production>, first: Sets, fo: Sets, n: string, t: Symbol, k: nat): Option<Production>
    requires FormalGrammar(ps) && k <= |ps|
  {
    if k == 0 then None
    else if ps[k - 1].name == n && Predicts(first, fo, ps[k - 1], t) then Some(ps[k - 1])
    else Chosen(ps, first, fo, n, t, k - 1)
  }

  /** The entry is empty iff no production of n is predicted on t. */
  lemma {:induction false} ChosenNone(ps: seq<Production>, first: Sets, fo: Sets, n: string, t: Symbol, k: nat)
    requires FormalGrammar(ps) && k <= |ps|
    ensures Chosen(ps, first, fo, n, t, k).None? <==>
              forall i :: 0 <= i < k && ps[i].name == n ==> !Predicts(first, fo, ps[i], t)
  {
    if k > 0 {
      ChosenNone(ps, first, fo, n, t, k - 1);
    }
  }

  /** A nonempty entry is the last production of n predicted on t. */
  lemma {:induction false} ChosenLast(ps: seq<Production>, first: Sets, fo: Sets, n: string, t: Symbol, k: nat)
    requires FormalGrammar(ps) && k <= |ps| && Chosen(ps, first, fo, n, t, k).Some?
    ensures exists i :: 0 <= i < k && ps[i] == Chosen(ps, first, fo, n, t, k).value && ps[i].name == n
              && Predicts(first, fo, ps[i], t)
              && forall j :: i < j < k && ps[j].name == n ==> !Predicts(first, fo, ps[j], t)
  {
    if ps[k - 1].name == n && Predicts(first, fo, ps[k - 1], t) {
      assert ps[k - 1] == Chosen(ps, first, fo, n, t, k).value;
    } else {
      ChosenLast(ps, first, fo, n, t, k - 1);
      var i :| 0 <= i < k - 1 && ps[i] == Chosen(ps, first, fo, n, t, k - 1).value && ps[i].name == n
               && Predicts(first, fo, ps[i], t)
               && forall j :: i < j < k - 1 && ps[j].name == n ==> !Predicts(first, fo, ps[j], t);
      assert forall j :: i < j < k && ps[j].name == n ==> !Predicts(first, fo, ps[j], t);
    }
  }

  /** In an LL(1) grammar, where at most one production of a nonterminal is predicted on each lookahead, the entry is that production. */
  lemma ChosenUnique(ps: seq<Production>, first: Sets, fo: Sets, i: nat, t: Symbol)
    requires FormalGrammar(ps) && i < |ps| && Predicts(first, fo, ps[i], t)
    requires forall j :: 0 <= j < |ps| && j != i && ps[j].name == ps[i].name ==> !Predicts(first, fo, ps[j], t)
    ensures Chosen(ps, first, fo, ps[i].name, t, |ps|) == Some(ps[i])
  {
    ChosenNone(ps, first, fo, ps[i].name, t, |ps|);
    ChosenLast(ps, first, fo, ps[i].name, t, |ps|);
  }

  /** `insert` of p at lookahead t in n's row: that entry becomes p, every other one stays. */
  function Insert(table: Table, n: string, t: Symbol, p: Production): (r: Table)
    requires n in table
    ensures r.Keys == table.Keys
    ensures forall m, u :: Lookup(r, m, u) == if m == n && u == t then Some(p) else Lookup(table, m, u)
  {
    table[n := table[n][t := p]]
  }

  /** Every key of `keys` mapped to p in n's row: the inner `insert` loop. */
  method InsertAll(table: Table, n: string, keys: seq<Symbol>, p: Production) returns (r: Table)
    requires n in table
    ensures r.Keys == table.Keys
    ensures forall m, t :: Lookup(r, m, t) == if m == n && t in keys then Some(p) else Lookup(table, m, t)
  {
    r := table;
    for i := 0 to |keys|
      invariant r.Keys == table.Keys
      invariant forall m, t :: Lookup(r, m, t) == if m == n && t in keys[..i] then Some(p) else Lookup(table, m, t)
    {
      assert keys[..i + 1] == keys[..i] + [keys[i]];
      r := Insert(r, n, keys[i], p);
    }
    assert keys[..|keys|] == keys;
  }

  /** t is a key production p inserts, given the items of FIRST of its body and the FOLLOW set of its name. */
  predicate InsertedBy(items: seq<Symbol>, follow: seq<Symbol>, t: Symbol)
  {
    (t in items && t != EPSILON) || (EPSILON in items && t in follow)
  }

  /** The row of p's name gets p at every lookahead on which p is predicted. */
  method InsertProduction(table: Table, first: Sets, fo: Sets, p: Production) returns (r: Table)
    requires FormalExpr(p.expr) && p.name in table && p.name in fo
    ensures r.Keys == table.Keys
    ensures forall m, t :: Lookup(r, m, t) ==
              if m == p.name && Predicts(first, fo, p, t) then Some(p) else Lookup(table, m, t)
  {
    var items := GetFirst(first, p.expr, 0);
    r := table;
    for i := 0 to |items|
      invariant r.Keys == table.Keys
      invariant forall m, t :: Lookup(r, m, t) ==
                  if m == p.name && InsertedBy(items[..i], fo[p.name], t) then Some(p) else Lookup(table, m, t)
    {
      assert items[..i + 1] == items[..i] + [items[i]];
      if items[i] == EPSILON {
        r := InsertAll(r, p.name, fo[p.name], p);
      } else {
        r := Insert(r, p.name, items[i], p);
      }
    }
    assert items[..|items|] == items;
  }

  /**
   * The table part of `generate_table`: a row for every nonterminal, then
   * for each production in order its predicted lookaheads mapped to it.
   */
  method BuildTable(ps: seq<Production>, first: Sets, fo: Sets) returns (table: Table)
    requires FormalGrammar(ps) && Domain(fo, ps)
    ensures forall n :: n in table <==> n in Names(ps)
    ensures forall n, t :: Lookup(table, n, t) == Chosen(ps, first, fo, n, t, |ps|)
  {
    table := map n | n in Names(ps) :: map[];
    for k := 0 to |ps|
      invariant forall n :: n in table <==> n in Names(ps)
      invariant forall n, t :: Lookup(table, n, t) == Chosen(ps, first, fo, n, t, k)
    {
      NameIn(ps, fo, k);
      assert Names(ps)[k] == ps[k].name;
      table := InsertProduction(table, first, fo, ps[k]);
    }
  }

  /** `table` is the LL(1) table of the grammar: built from its least FIRST and FOLLOW sets. */
  ghost predicate IsTable(ps: seq<Production>, start: string, table: Table)
  {
    && FormalGrammar(ps)
    && (forall n :: n in table <==> n in Names(ps))
    && exists first: Sets, fo: Sets ::
         && FirstSolution(ps, first) && LeastFirst(ps, first)
         && FollowSolution(ps, start, first, fo) && LeastFollow(ps, start, first, fo)
         && forall n, t :: Lookup(table, n, t) == Chosen(ps, first, fo, n, t, |ps|)
  }

  /**
   * `generate_table`. It panics (`None`) when a production mentions a
   * nonterminal no production defines, or the start symbol has no
   * production: the FOLLOW loop looks up every nonterminal occurrence, and
   * the start symbol's entry is looked up before it.
   */
  method GenerateTable(g: Grammar) returns (r: Option<Table>)
    requires FormalGrammar(g.productions)
    ensures r.None? <==> !(Defined(g.productions) && g.startSymbol in Names(g.productions))
    ensures r.Some? ==> IsTable(g.productions, g.startSymbol, r.value)
  {
    var ps := g.productions;
    if !(Defined(ps) && g.startSymbol in Names(ps)) {
      return None;
    }
    var first := FirstSets(ps);
    var fo := FollowSets(ps, g.startSymbol, first);
    var table := BuildTable(ps, first, fo);
    r := Some(table);
  }
}
