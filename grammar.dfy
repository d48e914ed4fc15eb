/**
 * The grammar model of src/parser/grammar.rs: terms, expressions,
 * productions, the queries over a grammar, and the recursive-descent
 * reader of grammar files.
 *
 * A grammar file arrives as tokens. The reader walks them with a cursor
 * `next`: `Step` is the source's `parse_step!` (consume one token of the
 * expected type or fail at `next` without moving). A failed attempt may
 * leave the cursor past tokens it consumed before failing, exactly as the
 * source does; the functions below return the cursor with every result.
 */
module Grammar {
  import opened Wrappers
  import opened Text
  import Lexer

  type Token = Lexer.Token

  datatype Associativity = Left | Right

  datatype Term =
    | NonTerminal(name: string, unwrap: bool)
    | Terminal(type_: string, value: Option<string>)
    | Group(expr: Expression, unwrap: bool)
    | Optional(expr: Expression, unwrap: bool)
    | Repetition(expr: Expression, unwrap: bool)

  datatype Expression = Expression(terms: seq<Term>)

  datatype Production = Production(name: string, label_: string, expr: Expression, precedence: nat,
                                   associativity: Associativity)

  /**
   * `Substitution` of src/parser/transform.rs: a grammar records the ones
   * applied to it. Its operations are in the `Transform` module.
   */
  datatype Substitution = Substitution(rule: Production, source: Production, target: Production, pos: nat)

  datatype Grammar = Grammar(name: string, productions: seq<Production>, transforms: seq<Substitution>,
                             startSymbol: string)

  /** Where the reader failed; the message text is not modelled. */
  datatype ParseError = ParseError(index: nat)

  // ---------------------------------------------------------------------------
  // Term identity
  // ---------------------------------------------------------------------------

  /** A term a formal grammar can hold: a nonterminal or a terminal. */
  predicate Formal(t: Term)
  {
    t.NonTerminal? || t.Terminal?
  }

  predicate FormalExpr(e: Expression)
  {
    forall i :: 0 <= i < |e.terms| ==> Formal(e.terms[i])
  }

  /** What a formal term stands for: a nonterminal's name, or a terminal's type and value. */
  datatype Symbol = NT(name: string) | T(type_: string, value: Option<string>)

  function Key(t: Term): Symbol
    requires Formal(t)
  {
    if t.NonTerminal? then NT(t.name) else T(t.type_, t.value)
  }

  /**
   * `Term == Term`: nonterminals by name, terminals by type and value, the
   * `unwrap` flag ignored. The left side must be formal (the source panics
   * otherwise); an informal right side is unequal.
   */
  function TermEq(a: Term, b: Term): (r: bool)
    requires Formal(a)
  {
    match a
    case NonTerminal(n, _) => b.NonTerminal? && b.name == n
    case Terminal(ty, v) => b.Terminal? && b.type_ == ty && b.value == v
  }

  /** Term equality is equality of what the terms stand for, and an equivalence on formal terms. */
  lemma TermEqSpec(a: Term, b: Term, c: Term)
    requires Formal(a) && Formal(b) && Formal(c)
    ensures TermEq(a, b) <==> Key(a) == Key(b)
    ensures TermEq(a, a)
    ensures TermEq(a, b) ==> TermEq(b, a)
    ensures TermEq(a, b) && TermEq(b, c) ==> TermEq(a, c)
    ensures a.NonTerminal? ==> TermEq(a, NonTerminal(a.name, !a.unwrap))
  {
  }

  /** What `Hash for Term` feeds the hasher: the name or type, then a tag for the kind. */
  function HashInput(t: Term): (string, string)
    requires Formal(t)
  {
    if t.NonTerminal? then (t.name, "NT") else (t.type_, "T")
  }

  /** Equal terms hash equally, as `HashMap<Term, _>` needs. */
  lemma EqualHash(a: Term, b: Term)
    requires Formal(a) && Formal(b) && TermEq(a, b)
    ensures HashInput(a) == HashInput(b)
  {
  }

  /** Terminals that differ only in their value are unequal but hash alike. */
  lemma ValueNotHashed()
    ensures var a, b := Terminal("t", None), Terminal("t", Some("v"));
            !TermEq(a, b) && HashInput(a) == HashInput(b)
  {
  }

  /** `is_unwrap`: the flag of every kind of term except terminals, which are never unwrapped. */
  function IsUnwrap(t: Term): (r: bool)
    ensures r <==> !t.Terminal? && t.unwrap
  {
    match t
    case Terminal(_, _) => false
    case NonTerminal(_, u) => u
    case Group(_, u) => u
    case Optional(_, u) => u
    case Repetition(_, u) => u
  }

  /** `match_token`: same type, and no value or the same value. Only terminals can be asked. */
  function MatchToken(t: Term, tok: Token): (r: bool)
    requires t.Terminal?
    ensures r ==> t.type_ == tok.type_
    ensures TermEq(t, FromToken(tok)) ==> r
    ensures t.value.Some? ==> (r <==> TermEq(t, FromToken(tok)))
  {
    t.type_ == tok.type_ && (t.value.None? || t.value.value == tok.value)
  }

  /** `From<Token> for Term`: a terminal with the token's type and value. */
  function FromToken(tok: Token): (t: Term)
    ensures t.Terminal? && t.type_ == tok.type_ && t.value == Some(tok.value)
  {
    Terminal(tok.type_, Some(tok.value))
  }

  /** `Term::nonterminal`. */
  function NewNonTerminal(name: string): (t: Term)
    ensures Formal(t) && Key(t) == NT(name) && !IsUnwrap(t)
  {
    NonTerminal(name, false)
  }

  /** `Term::terminal`. */
  function NewTerminal(name: string): (t: Term)
    ensures Formal(t) && Key(t) == T(name, None) && !IsUnwrap(t)
  {
    Terminal(name, None)
  }

  /** `Production == Production` (derived): every field, terms compared with `TermEq`. */
  predicate ProductionEq(a: Production, b: Production)
    requires FormalExpr(a.expr)
  {
    && a.name == b.name && a.label_ == b.label_
    && |a.expr.terms| == |b.expr.terms|
    && (forall i :: 0 <= i < |a.expr.terms| ==> TermEq(a.expr.terms[i], b.expr.terms[i]))
    && a.precedence == b.precedence && a.associativity == b.associativity
  }

  // ---------------------------------------------------------------------------
  // Queries
  // ---------------------------------------------------------------------------

  /** The first occurrence of every element, in order of first occurrence. */
  function Dedup<X(==)>(xs: seq<X>): (r: seq<X>)
    ensures forall i :: 0 <= i < |xs| ==> xs[i] in r
    ensures forall i :: 0 <= i < |r| ==> r[i] in xs
    ensures forall i, j :: 0 <= i < j < |r| ==> r[i] != r[j]
  {
    if |xs| == 0 then []
    else
      var r := Dedup(xs[..|xs| - 1]);
      assert forall i :: 0 <= i < |xs| - 1 ==> xs[i] == xs[..|xs| - 1][i];
      if xs[|xs| - 1] in r then r else r + [xs[|xs| - 1]]
  }

  /** The index of the first occurrence of x. */
  function First<X(==)>(xs: seq<X>, x: X): (i: nat)
    requires x in xs
    ensures i < |xs| && xs[i] == x && x !in xs[..i]
  {
    if xs[0] == x then 0 else 1 + First(xs[1..], x)
  }

  /** `Dedup` lists elements in the order of their first occurrences. */
  lemma {:induction false} DedupOrder<X>(xs: seq<X>)
    ensures forall i, j :: 0 <= i < j < |Dedup(xs)| ==> First(xs, Dedup(xs)[i]) < First(xs, Dedup(xs)[j])
  {
    if |xs| > 0 {
      var init := xs[..|xs| - 1];
      var r0, r := Dedup(init), Dedup(xs);
      DedupOrder(init);
      forall x | x in init ensures First(xs, x) == First(init, x) {
        FirstPrefix(xs, init, x);
      }
      if xs[|xs| - 1] !in r0 {
        var last := xs[|xs| - 1];
        assert last !in init;
        assert forall k :: 0 <= k < |xs| - 1 ==> xs[k] == init[k];
        assert First(xs, last) == |xs| - 1;
      }
    }
  }

  /** The first occurrence of an element of a prefix lies in the prefix. */
  lemma {:induction false} FirstPrefix<X>(xs: seq<X>, init: seq<X>, x: X)
    requires init <= xs && x in init
    ensures First(xs, x) == First(init, x)
  {
    if xs[0] != x {
      assert init[0] == xs[0];
      assert x in init[1..];
      FirstPrefix(xs[1..], init[1..], x);
    }
  }

  function Names(ps: seq<Production>): (r: seq<string>)
    ensures |r| == |ps| && forall i :: 0 <= i < |ps| ==> r[i] == ps[i].name
  {
    seq(|ps|, i requires 0 <= i < |ps| => ps[i].name)
  }

  /** `non_terminals`: every production name once, in order of first appearance. */
  method NonTerminals(g: Grammar) returns (ret: seq<string>)
    ensures ret == Dedup(Names(g.productions))
  {
    var names := Names(g.productions);
    ret := [];
    for i := 0 to |g.productions|
      invariant ret == Dedup(names[..i])
    {
      assert names[..i + 1][..i] == names[..i];
      if !(g.productions[i].name in ret) {
        ret := ret + [g.productions[i].name];
      }
    }
    assert names[..|g.productions|] == names;
  }

  /** The terms of the productions' bodies, production by production, term by term. */
  function Flatten(ps: seq<Production>): (r: seq<Term>)
    ensures forall t :: t in r <==> exists i :: 0 <= i < |ps| && t in ps[i].expr.terms
  {
    if |ps| == 0 then []
    else
      var init := ps[..|ps| - 1];
      var r := Flatten(init);
      assert forall i :: 0 <= i < |ps| - 1 ==> init[i] == ps[i];
      r + ps[|ps| - 1].expr.terms
  }

  /** The terminal terms of one body, in order. */
  function Terminals(ts: seq<Term>): (r: seq<Term>)
    ensures forall t :: t in r <==> t in ts && t.Terminal?
  {
    if |ts| == 0 then []
    else Terminals(ts[..|ts| - 1]) + (if ts[|ts| - 1].Terminal? then [ts[|ts| - 1]] else [])
  }

  /** The terminal terms of the productions' bodies, in order: what `terminals` walks. */
  function TerminalTerms(ps: seq<Production>): (r: seq<Term>)
    ensures forall t :: t in r <==> t.Terminal? && exists i :: 0 <= i < |ps| && t in ps[i].expr.terms
  {
    Terminals(Flatten(ps))
  }

  /** One more element is one more entry, if it is new. */
  lemma DedupSnoc<X>(xs: seq<X>, x: X)
    ensures Dedup(xs + [x]) == if x in Dedup(xs) then Dedup(xs) else Dedup(xs) + [x]
  {
    assert (xs + [x])[..|xs + [x]| - 1] == xs;
  }

  /** One more term adds it to the terminals if it is one. */
  lemma TerminalsSnoc(ts: seq<Term>, t: Term)
    ensures t.Terminal? ==> Terminals(ts + [t]) == Terminals(ts) + [t]
    ensures !t.Terminal? ==> Terminals(ts + [t]) == Terminals(ts)
  {
    assert (ts + [t])[..|ts + [t]| - 1] == ts;
    assert Terminals(ts) + [] == Terminals(ts);
  }

  /**
   * `terminals`: every distinct terminal once, in order of appearance.
   * `contains` compares with `TermEq`, which on terminals is plain equality.
   */
  method TerminalsOf(g: Grammar) returns (ret: seq<Term>)
    ensures ret == Dedup(TerminalTerms(g.productions))
  {
    ret := [];
    for i := 0 to |g.productions|
      invariant ret == Dedup(Terminals(Flatten(g.productions[..i])))
    {
      var ts := g.productions[i].expr.terms;
      ghost var before := Flatten(g.productions[..i]);
      Slices(before, ts, 0);
      for j := 0 to |ts|
        invariant ret == Dedup(Terminals(before + ts[..j]))
      {
        var t := ts[j];
        ghost var seen := before + ts[..j];
        Slices(before, ts, j);
        TerminalsSnoc(seen, t);
        if t.Terminal? {
          DedupSnoc(Terminals(seen), t);
          var present := Contains(ret, t);
          if !present {
            ret := ret + [t];
          }
          assert ret == Dedup(Terminals(seen + [t]));
        } else {
          assert ret == Dedup(Terminals(seen + [t]));
        }
      }
      Slices(before, ts, |ts|);
      FlattenSnoc(g.productions, i);
    }
    assert g.productions[..|g.productions|] == g.productions;
  }

  lemma Slices<X>(a: seq<X>, ts: seq<X>, j: nat)
    requires j <= |ts|
    ensures j == 0 ==> a + ts[..j] == a
    ensures j == |ts| ==> a + ts[..j] == a + ts
    ensures j < |ts| ==> a + ts[..j + 1] == (a + ts[..j]) + [ts[j]]
  {
    assert j == |ts| ==> ts[..j] == ts;
    assert j < |ts| ==> ts[..j + 1] == ts[..j] + [ts[j]];
  }

  lemma FlattenSnoc(ps: seq<Production>, i: nat)
    requires i < |ps|
    ensures Flatten(ps[..i + 1]) == Flatten(ps[..i]) + ps[i].expr.terms
  {
    assert ps[..i + 1][..i] == ps[..i];
  }

  /** `Vec<Term>::contains` on a list of terminals: some element is `TermEq` to t. */
  method Contains(ret: seq<Term>, t: Term) returns (b: bool)
    requires forall k :: 0 <= k < |ret| ==> ret[k].Terminal?
    requires t.Terminal?
    ensures b <==> t in ret
  {
    b := false;
    for k := 0 to |ret|
      invariant b <==> t in ret[..k]
    {
      assert ret[..k + 1] == ret[..k] + [ret[k]];
      if TermEq(ret[k], t) {
        b := true;
      }
    }
    assert ret[..|ret|] == ret;
  }

  /** `symbols`: the terminals, then every nonterminal name as a term without `unwrap`. */
  function Symbols(terminals: seq<Term>, nonTerminals: seq<string>): (r: seq<Term>)
    ensures |r| == |terminals| + |nonTerminals| && r[..|terminals|] == terminals
    ensures forall k :: 0 <= k < |nonTerminals| ==> r[|terminals| + k] == NonTerminal(nonTerminals[k], false)
  {
    terminals + seq(|nonTerminals|, k requires 0 <= k < |nonTerminals| => NonTerminal(nonTerminals[k], false))
  }

  /** `get_productions`: the productions named nt, in grammar order. */
  function GetProductions(ps: seq<Production>, nt: string): (r: seq<Production>)
    ensures forall p :: p in r <==> p in ps && p.name == nt
    ensures |r| <= |ps|
  {
    if |ps| == 0 then []
    else GetProductions(ps[..|ps| - 1], nt) + (if ps[|ps| - 1].name == nt then [ps[|ps| - 1]] else [])
  }

  /** The elements of xs whose flag is set, in order (a `filter`). */
  function Keep<X>(xs: seq<X>, keep: seq<bool>): (r: seq<X>)
    requires |keep| == |xs|
    decreases |xs|
  {
    if |xs| == 0 then []
    else Keep(xs[..|xs| - 1], keep[..|xs| - 1]) + (if keep[|xs| - 1] then [xs[|xs| - 1]] else [])
  }

  /** The indices whose flag is set, in increasing order. */
  function Flagged(keep: seq<bool>): seq<nat>
  {
    if |keep| == 0 then []
    else Flagged(keep[..|keep| - 1]) + (if keep[|keep| - 1] then [|keep| - 1] else [])
  }

  /** The flagged indices are flagged, below the length, and strictly increasing. */
  lemma {:induction false} FlaggedIncreasing(keep: seq<bool>)
    ensures forall k :: 0 <= k < |Flagged(keep)| ==> Flagged(keep)[k] < |keep| && keep[Flagged(keep)[k]]
    ensures forall k, l :: 0 <= k < l < |Flagged(keep)| ==> Flagged(keep)[k] < Flagged(keep)[l]
  {
    if |keep| > 0 {
      var n := |keep| - 1;
      var pre := Flagged(keep[..n]);
      FlaggedIncreasing(keep[..n]);
      var idx := Flagged(keep);
      assert forall k :: 0 <= k < |pre| ==> idx[k] == pre[k] && keep[..n][pre[k]] == keep[pre[k]];
      assert forall k :: |pre| <= k < |idx| ==> idx[k] == n;
    }
  }

  /** Every flagged index is listed. */
  lemma {:induction false} FlaggedComplete(keep: seq<bool>)
    ensures forall i :: 0 <= i < |keep| && keep[i] ==> i in Flagged(keep)
  {
    if |keep| > 0 {
      var n := |keep| - 1;
      FlaggedComplete(keep[..n]);
      assert forall i :: 0 <= i < n ==> keep[..n][i] == keep[i];
    }
  }

  /** The k-th kept element is the element at the k-th flagged index. */
  lemma {:induction false} FlaggedKeep<X>(xs: seq<X>, keep: seq<bool>)
    requires |keep| == |xs|
    ensures |Flagged(keep)| == |Keep(xs, keep)|
    ensures forall k :: 0 <= k < |Flagged(keep)| ==> Flagged(keep)[k] < |xs| && xs[Flagged(keep)[k]] == Keep(xs, keep)[k]
  {
    FlaggedIncreasing(keep);
    if |xs| > 0 {
      var n := |xs| - 1;
      FlaggedKeep(xs[..n], keep[..n]);
      var pre, r0 := Flagged(keep[..n]), Keep(xs[..n], keep[..n]);
      var idx, r := Flagged(keep), Keep(xs, keep);
      assert forall k :: 0 <= k < |pre| ==> idx[k] == pre[k] && r[k] == r0[k] && xs[..n][pre[k]] == xs[pre[k]];
      assert forall k :: |pre| <= k < |idx| ==> idx[k] == n && r[k] == xs[n];
    }
  }

  /**
   * A `filter` picks increasing indices: the k-th kept element is the
   * element at `idx[k]`, and every flagged index is among them.
   */
  lemma KeepIndices<X>(xs: seq<X>, keep: seq<bool>) returns (idx: seq<nat>)
    requires |keep| == |xs|
    ensures |idx| == |Keep(xs, keep)|
    ensures forall k :: 0 <= k < |idx| ==> idx[k] < |xs| && keep[idx[k]] && xs[idx[k]] == Keep(xs, keep)[k]
    ensures forall k, l :: 0 <= k < l < |idx| ==> idx[k] < idx[l]
    ensures forall i :: 0 <= i < |xs| && keep[i] ==> i in idx
  {
    idx := Flagged(keep);
    FlaggedIncreasing(keep);
    FlaggedComplete(keep);
    FlaggedKeep(xs, keep);
  }

  /** Whether each production is named nt. */
  function Named(ps: seq<Production>, nt: string): (keep: seq<bool>)
    ensures |keep| == |ps| && forall i :: 0 <= i < |ps| ==> (keep[i] <==> ps[i].name == nt)
  {
    seq(|ps|, i requires 0 <= i < |ps| => ps[i].name == nt)
  }

  /** `get_productions` is exactly the `filter` by name. */
  lemma {:induction false} GetProductionsFilter(ps: seq<Production>, nt: string)
    ensures GetProductions(ps, nt) == Keep(ps, Named(ps, nt))
    decreases |ps|
  {
    if |ps| > 0 {
      var n := |ps| - 1;
      GetProductionsFilter(ps[..n], nt);
      assert Named(ps, nt)[..n] == Named(ps[..n], nt);
    }
  }

  /**
   * `get_productions` is the in-order `filter`: the k-th production returned
   * is the production at an increasing index `idx[k]`, and every index whose
   * production is named nt is among them, so repeats are kept.
   */
  lemma GetProductionsIndices(ps: seq<Production>, nt: string) returns (idx: seq<nat>)
    ensures |idx| == |GetProductions(ps, nt)|
    ensures forall k :: 0 <= k < |idx| ==> idx[k] < |ps| && ps[idx[k]] == GetProductions(ps, nt)[k]
    ensures forall k :: 0 <= k < |idx| ==> ps[idx[k]].name == nt
    ensures forall k, l :: 0 <= k < l < |idx| ==> idx[k] < idx[l]
    ensures forall i :: 0 <= i < |ps| && ps[i].name == nt ==> i in idx
  {
    GetProductionsFilter(ps, nt);
    idx := KeepIndices(ps, Named(ps, nt));
  }

  // ---------------------------------------------------------------------------
  // Reading a grammar from tokens
  // ---------------------------------------------------------------------------

  /** `parse_step!`: the token at `next` if it has type `ty` (the cursor moves past it), or an error at `next`. */
  function Step(src: seq<Token>, next: nat, ty: string): (r: (Result<string, ParseError>, nat))
    ensures r.0.Ok? <==> next < |src| && src[next].type_ == ty
    ensures r.0.Ok? ==> r.0.value == src[next].value && r.1 == next + 1
    ensures r.0.Err? ==> r.0 == Err(ParseError(next)) && r.1 == next
  {
    if next < |src| && src[next].type_ == ty then (Ok(src[next].value), next + 1) else (Err(ParseError(next)), next)
  }

  datatype Kind = GroupKind | OptionalKind | RepetitionKind

  function Opener(k: Kind): string
  {
    match k
    case GroupKind => "LeftGroup"
    case OptionalKind => "LeftOptional"
    case RepetitionKind => "LeftRepetition"
  }

  function Closer(k: Kind): string
  {
    match k
    case GroupKind => "RightGroup"
    case OptionalKind => "RightOptional"
    case RepetitionKind => "RightRepetition"
  }

  function Wrap(k: Kind, e: Expression, unwrap: bool): Term
  {
    match k
    case GroupKind => Group(e, unwrap)
    case OptionalKind => Optional(e, unwrap)
    case RepetitionKind => Repetition(e, unwrap)
  }

  /**
   * `Term::parse_inner`: an optional `<`, then a production name (closed by
   * `>` when opened), a token with an optional value (which may not be
   * unwrapped), or a bracketed expression.
   */
  function TermAt(src: seq<Token>, next: nat): (r: (Result<Term, ParseError>, nat))
    requires next <= |src|
    ensures next <= r.1 <= |src|
    ensures r.0.Ok? ==> next < r.1
    decreases |src| - next, 1
  {
    var (u, n0) := Step(src, next, "LeftUnwrap");
    var unwrap := u.Ok?;
    var (pn, n1) := Step(src, n0, "ProductionName");
    if pn.Ok? then
      if !unwrap then (Ok(NonTerminal(pn.value, false)), n1)
      else
        var (ru, n2) := Step(src, n1, "RightUnwrap");
        if ru.Err? then (Err(ru.error), n2) else (Ok(NonTerminal(pn.value, true)), n2)
    else
      var (tk, n2) := Step(src, n1, "Token");
      if tk.Ok? then
        var (tv, n3) := Step(src, n2, "TokenValue");
        if tv.Ok? then
          var (val, n4) := Step(src, n3, "Token");
          if val.Err? then (Err(val.error), n4)
          else if unwrap then (Err(ParseError(n4)), n4)
          else (Ok(Terminal(tk.value, Some(val.value))), n4)
        else if unwrap then (Err(ParseError(n3)), n3)
        else (Ok(Terminal(tk.value, None)), n3)
      else
        var (lg, n3) := Step(src, n2, Opener(GroupKind));
        if lg.Ok? then BracketAt(src, n3, unwrap, GroupKind)
        else
          var (lo, n4) := Step(src, n3, Opener(OptionalKind));
          if lo.Ok? then BracketAt(src, n4, unwrap, OptionalKind)
          else
            var (lr, n5) := Step(src, n4, Opener(RepetitionKind));
            if lr.Ok? then BracketAt(src, n5, unwrap, RepetitionKind)
            else (Err(ParseError(n5)), n5)
  }

  /**
   * The rest of a bracketed term after its opening token: an expression,
   * the closing token, and `>` when a `<` came first. The stored flag is
   * the negation of that `<`.
   */
  function BracketAt(src: seq<Token>, next: nat, unwrap: bool, k: Kind): (r: (Result<Term, ParseError>, nat))
    requires next <= |src|
    ensures next <= r.1 <= |src|
    ensures r.0.Ok? ==> next < r.1
    decreases |src| - next, 3
  {
    var (e, n1) := ExprAt(src, next);
    if e.Err? then (Err(e.error), n1)
    else
      var (c, n2) := Step(src, n1, Closer(k));
      if c.Err? then (Err(c.error), n2)
      else if !unwrap then (Ok(Wrap(k, e.value, true)), n2)
      else
        var (ru, n3) := Step(src, n2, "RightUnwrap");
        if ru.Err? then (Err(ru.error), n3) else (Ok(Wrap(k, e.value, false)), n3)
  }

  /**
   * `Expression::parse_inner`: one term, then as many more as parse; the
   * cursor is put back after the last term that parsed.
   */
  function ExprAt(src: seq<Token>, next: nat): (r: (Result<Expression, ParseError>, nat))
    requires next <= |src|
    ensures next <= r.1 <= |src|
    ensures r.0.Ok? ==> next < r.1 && |r.0.value.terms| > 0
    decreases |src| - next, 2
  {
    var (t, n1) := TermAt(src, next);
    if t.Err? then (Err(t.error), n1)
    else
      var (ts, n2) := MoreTerms(src, n1);
      (Ok(Expression([t.value] + ts)), n2)
  }

  /** The terms that follow the first one, up to the first term that does not parse. */
  function MoreTerms(src: seq<Token>, next: nat): (r: (seq<Term>, nat))
    requires next <= |src|
    ensures next <= r.1 <= |src|
    decreases |src| - next, 3
  {
    var (t, n1) := TermAt(src, next);
    if t.Err? then ([], next)
    else
      var (ts, n2) := MoreTerms(src, n1);
      ([t.value] + ts, n2)
  }

  /**
   * The precedence of a `|n >` or `|n <` token: the text between its first
   * and last characters as a `usize`, or 0 for a two-character token.
   * `None` is the panic of a shorter token's slice or of `unwrap` on text
   * that is not a number.
   */
  function PrecedenceOf(t: string): Option<nat>
  {
    if |t| == 2 then Some(0) else if |t| < 2 then None else ParseUsize(t[1..|t| - 1])
  }

  /**
   * One alternative, after the `=` or a `|`: an optional label, an optional
   * precedence, an optional label again (the later one wins), and a body,
   * empty when none parses. Unlabelled, it is `#i`. `None` is a panic.
   */
  function AltAt(src: seq<Token>, next: nat, name: string, i: nat): (r: (Option<Production>, nat))
    requires next <= |src|
    ensures next <= r.1 <= |src|
    ensures r.0.Some? ==> r.0.value.name == name && r.0.value.label_ != ""
  {
    var (l1, n1) := Step(src, next, "SpecialSequence");
    var (lp, n2) := Step(src, n1, "LeftPrecedence");
    var (rp, n3) := if lp.Ok? then (Err(ParseError(n2)), n2) else Step(src, n2, "RightPrecedence");
    var level := if lp.Ok? then PrecedenceOf(lp.value) else if rp.Ok? then PrecedenceOf(rp.value) else Some(0);
    if level.None? then (None, n3)
    else
      var (l2, n4) := Step(src, n3, "SpecialSequence");
      var lbl := if l2.Ok? then l2.value else if l1.Ok? then l1.value else "";
      var (e, n5) := ExprAt(src, n4);
      var p := Production(name, if lbl == "" then "#" + NatToString(i) else lbl,
                          if e.Ok? then e.value else Expression([]), level.value, if rp.Ok? then Right else Left);
      (Some(p), n5)
  }

  /** The `|`-separated alternatives after the first, numbered from i + 1. */
  function AltsAt(src: seq<Token>, next: nat, name: string, i: nat, acc: seq<Production>): (r: (Option<seq<Production>>, nat))
    requires next <= |src|
    ensures next <= r.1 <= |src|
    decreases |src| - next
  {
    var (a, n1) := Step(src, next, "Alternation");
    if a.Err? then (Some(acc), next)
    else
      var (p, n2) := AltAt(src, n1, name, i + 1);
      if p.None? then (None, n2) else AltsAt(src, n2, name, i + 1, acc + [p.value])
  }

  datatype GrammarResult = Parsed(g: Grammar) | Failed(e: ParseError) | Panicked

  /**
   * `Grammar::parse` from `next` on, with the productions read so far:
   * rules `name = alternatives ;` until no production name follows; then
   * the start symbol is the first production's name (a panic without one).
   */
  function RulesAt(src: seq<Token>, next: nat, acc: seq<Production>): GrammarResult
    requires next <= |src|
    decreases |src| - next
  {
    var (pn, n1) := Step(src, next, "ProductionName");
    if pn.Err? then
      if |acc| == 0 then Panicked else Parsed(Grammar("", acc, [], acc[0].name))
    else
      var (a, n2) := Step(src, n1, "Assign");
      if a.Err? then Failed(a.error)
      else
        var (p, n3) := AltAt(src, n2, pn.value, 0);
        if p.None? then Panicked
        else
          var (ps, n4) := AltsAt(src, n3, pn.value, 0, [p.value]);
          if ps.None? then Panicked
          else
            var (t, n5) := Step(src, n4, "Terminator");
            if t.Err? then Failed(t.error) else RulesAt(src, n5, acc + ps.value)
  }

  function ParseSpec(src: seq<Token>): GrammarResult
  {
    RulesAt(src, 0, [])
  }

  // ---------------------------------------------------------------------------
  // The reader as the source runs it
  // ---------------------------------------------------------------------------

  /** `parse_step!` as the reader's statements run it. */
  method Take(src: seq<Token>, next0: nat, ty: string) returns (r: Result<string, ParseError>, next: nat)
    ensures (r, next) == Step(src, next0, ty)
  {
    if next0 < |src| && src[next0].type_ == ty {
      r, next := Ok(src[next0].value), next0 + 1;
    } else {
      r, next := Err(ParseError(next0)), next0;
    }
  }

  /** `Term::parse_inner`, advancing the cursor. */
  method ParseTerm(src: seq<Token>, next0: nat) returns (r: Result<Term, ParseError>, next: nat)
    requires next0 <= |src|
    ensures (r, next) == TermAt(src, next0)
    decreases |src| - next0, 1
  {
    var u;
    u, next := Take(src, next0, "LeftUnwrap");
    var unwrap := u.Ok?;
    var pn;
    pn, next := Take(src, next, "ProductionName");
    if pn.Ok? {
      if unwrap {
        var ru;
        ru, next := Take(src, next, "RightUnwrap");
        if ru.Err? {
          return Err(ru.error), next;
        }
      }
      return Ok(NonTerminal(pn.value, unwrap)), next;
    }
    var tk;
    tk, next := Take(src, next, "Token");
    if tk.Ok? {
      var tv;
      var value := None;
      tv, next := Take(src, next, "TokenValue");
      if tv.Ok? {
        var val;
        val, next := Take(src, next, "Token");
        if val.Err? {
          return Err(val.error), next;
        }
        value := Some(val.value);
      }
      if unwrap {
        return Err(ParseError(next)), next;
      }
      return Ok(Terminal(tk.value, value)), next;
    }
    var kinds := [GroupKind, OptionalKind, RepetitionKind];
    for j := 0 to 3
      invariant next0 <= next <= |src|
      invariant TermAt(src, next0) == TermFrom(src, next, unwrap, j)
    {
      var lg;
      lg, next := Take(src, next, Opener(kinds[j]));
      if lg.Ok? {
        r, next := ParseBracket(src, next, unwrap, kinds[j]);
        return;
      }
    }
    return Err(ParseError(next)), next;
  }

  /** The bracket alternatives of `TermAt` from the j-th on, as the loop in `ParseTerm` tries them. */
  function TermFrom(src: seq<Token>, next: nat, unwrap: bool, j: nat): (Result<Term, ParseError>, nat)
    requires next <= |src| && j <= 3
    decreases 3 - j
  {
    if j == 3 then (Err(ParseError(next)), next)
    else
      var k := [GroupKind, OptionalKind, RepetitionKind][j];
      var (l, n) := Step(src, next, Opener(k));
      if l.Ok? then BracketAt(src, n, unwrap, k) else TermFrom(src, n, unwrap, j + 1)
  }

  /** The bracketed term after its opening token. */
  method ParseBracket(src: seq<Token>, next0: nat, unwrap: bool, k: Kind)
    returns (r: Result<Term, ParseError>, next: nat)
    requires next0 <= |src|
    ensures (r, next) == BracketAt(src, next0, unwrap, k)
    decreases |src| - next0, 3
  {
    var e;
    e, next := ParseExpression(src, next0);
    if e.Err? {
      return Err(e.error), next;
    }
    var c;
    c, next := Take(src, next, Closer(k));
    if c.Err? {
      return Err(c.error), next;
    }
    if unwrap {
      var ru;
      ru, next := Take(src, next, "RightUnwrap");
      if ru.Err? {
        return Err(ru.error), next;
      }
    }
    r := Ok(Wrap(k, e.value, !unwrap));
  }

  /** `Expression::parse_inner`: the loop that reads terms until one fails, then restores the cursor. */
  method ParseExpression(src: seq<Token>, next0: nat) returns (r: Result<Expression, ParseError>, next: nat)
    requires next0 <= |src|
    ensures (r, next) == ExprAt(src, next0)
    decreases |src| - next0, 2
  {
    var t;
    t, next := ParseTerm(src, next0);
    if t.Err? {
      assert ExprAt(src, next0) == (Err(t.error), next);
      return Err(t.error), next;
    }
    var terms := [t.value];
    var curr := next;
    ghost var n1 := next;
    assert terms[1..] + MoreTerms(src, n1).0 == MoreTerms(src, n1).0;
    while true
      invariant next0 < n1 <= curr <= |src| && |terms| > 0 && terms[0] == t.value
      invariant MoreTerms(src, n1) == (terms[1..] + MoreTerms(src, curr).0, MoreTerms(src, curr).1)
      decreases |src| - curr
    {
      var term, n := ParseTerm(src, curr);
      if term.Err? {
        break;
      }
      ghost var rest := MoreTerms(src, n);
      assert MoreTerms(src, curr) == ([term.value] + rest.0, rest.1);
      assert (terms + [term.value])[1..] + rest.0 == terms[1..] + ([term.value] + rest.0);
      curr := n;
      terms := terms + [term.value];
    }
    next := curr;
    assert [t.value] + terms[1..] == terms;
    assert MoreTerms(src, curr) == ([], curr);
    assert terms[1..] + [] == terms[1..];
    assert MoreTerms(src, n1) == (terms[1..], curr);
    assert ExprAt(src, next0) == (Ok(Expression([t.value] + MoreTerms(src, n1).0)), MoreTerms(src, n1).1);
    r := Ok(Expression(terms));
  }

  /** One alternative of a rule, as the source reads it. */
  method ParseAlternative(src: seq<Token>, next0: nat, name: string, i: nat) returns (p: Option<Production>, next: nat)
    requires next0 <= |src|
    ensures (p, next) == AltAt(src, next0, name, i)
  {
    var lbl := "";
    var l1;
    l1, next := Take(src, next0, "SpecialSequence");
    if l1.Ok? {
      lbl := l1.value;
    }
    var level, assoc := Some(0), Left;
    var lp;
    lp, next := Take(src, next, "LeftPrecedence");
    if lp.Ok? {
      level := PrecedenceOf(lp.value);
    } else {
      var rp;
      rp, next := Take(src, next, "RightPrecedence");
      if rp.Ok? {
        assoc := Right;
        level := PrecedenceOf(rp.value);
      }
    }
    if level.None? {
      return None, next;
    }
    var l2;
    l2, next := Take(src, next, "SpecialSequence");
    if l2.Ok? {
      lbl := l2.value;
    }
    if lbl == "" {
      lbl := "#" + NatToString(i);
    }
    var e;
    e, next := ParseExpression(src, next);
    p := Some(Production(name, lbl, if e.Ok? then e.value else Expression([]), level.value, assoc));
  }

  /** `Grammar::parse`: rules until no production name follows. */
  method ParseGrammar(src: seq<Token>) returns (r: GrammarResult)
    ensures r == ParseSpec(src)
  {
    var productions: seq<Production> := [];
    var next := 0;
    while true
      invariant next <= |src|
      invariant RulesAt(src, next, productions) == ParseSpec(src)
      decreases |src| - next
    {
      var pn, n1 := Take(src, next, "ProductionName");
      if pn.Err? {
        break;
      }
      var a, n2 := Take(src, n1, "Assign");
      if a.Err? {
        return Failed(a.error);
      }
      var p, n3 := ParseAlternative(src, n2, pn.value, 0);
      if p.None? {
        return Panicked;
      }
      var rule := [p.value];
      var i := 0;
      var cur := n3;
      while true
        invariant n3 <= cur <= |src|
        invariant AltsAt(src, n3, pn.value, 0, [p.value]) == AltsAt(src, cur, pn.value, i, rule)
        decreases |src| - cur
      {
        var alt, m1 := Take(src, cur, "Alternation");
        if alt.Err? {
          break;
        }
        var q, m2 := ParseAlternative(src, m1, pn.value, i + 1);
        if q.None? {
          return Panicked;
        }
        i, cur, rule := i + 1, m2, rule + [q.value];
      }
      var t, n5 := Take(src, cur, "Terminator");
      if t.Err? {
        return Failed(t.error);
      }
      productions, next := productions + rule, n5;
    }
    if |productions| == 0 {
      return Panicked;
    }
    r := Parsed(Grammar("", productions, [], productions[0].name));
  }

  // ---------------------------------------------------------------------------
  // What the reader promises
  // ---------------------------------------------------------------------------

  /** Every production read has a non-empty label, and the start symbol is the first production's name. */
  lemma {:induction false} RulesSpec(src: seq<Token>, next: nat, acc: seq<Production>)
    requires next <= |src| && RulesAt(src, next, acc).Parsed?
    requires forall k :: 0 <= k < |acc| ==> acc[k].label_ != ""
    ensures var g := RulesAt(src, next, acc).g;
            |g.productions| > 0 && g.startSymbol == g.productions[0].name
            && |acc| <= |g.productions| && g.productions[..|acc|] == acc
            && forall k :: 0 <= k < |g.productions| ==> g.productions[k].label_ != ""
    decreases |src| - next
  {
    var (pn, n1) := Step(src, next, "ProductionName");
    if pn.Ok? {
      var (a, n2) := Step(src, n1, "Assign");
      var (p, n3) := AltAt(src, n2, pn.value, 0);
      var (ps, n4) := AltsAt(src, n3, pn.value, 0, [p.value]);
      AltsLabels(src, n3, pn.value, 0, [p.value]);
      var (t, n5) := Step(src, n4, "Terminator");
      RulesSpec(src, n5, acc + ps.value);
      var g := RulesAt(src, next, acc).g;
      assert g.productions[..|acc|] == g.productions[..|acc + ps.value|][..|acc|];
    } else {
      assert acc[..|acc|] == acc;
    }
  }

  /** Every alternative read carries the rule's name and a non-empty label. */
  lemma {:induction false} AltsLabels(src: seq<Token>, next: nat, name: string, i: nat, acc: seq<Production>)
    requires next <= |src| && AltsAt(src, next, name, i, acc).0.Some?
    requires forall k :: 0 <= k < |acc| ==> acc[k].label_ != "" && acc[k].name == name
    ensures var ps := AltsAt(src, next, name, i, acc).0.value;
            |ps| >= |acc| && forall k :: 0 <= k < |ps| ==> ps[k].label_ != "" && ps[k].name == name
    decreases |src| - next
  {
    var (a, n1) := Step(src, next, "Alternation");
    if a.Ok? {
      var (p, n2) := AltAt(src, n1, name, i + 1);
      AltsLabels(src, n2, name, i + 1, acc + [p.value]);
    }
  }

  /** An alternative with no label token, or only empty ones, is labelled `#i`. */
  lemma UnlabelledAlt(src: seq<Token>, next: nat, name: string, i: nat)
    requires next <= |src| && AltAt(src, next, name, i).0.Some?
    requires forall k :: next <= k < |src| && src[k].type_ == "SpecialSequence" ==> src[k].value == ""
    ensures AltAt(src, next, name, i).0.value.label_ == "#" + NatToString(i)
  {
  }
}

