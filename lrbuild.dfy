/**
 * The automaton constructions of src/parser/lrparser.rs: `construct_lr_0`
 * and `construct_lalr_1`, with the `closure` and `goto` each of them
 * defines, and `parse`, which runs the table of the LALR(1) automaton.
 *
 * States are item sets. A state's `closure` adds the dot-0 items of every
 * production of a nonterminal that stands after a dot, until nothing is
 * new; `goto` moves the dot over one symbol and closes. The constructions
 * keep one state per core (the item set without lookaheads): a `goto`
 * result whose core is already a state reuses that state.
 *
 * Hash-map iteration order is never relied on: the loops that walk an
 * item set pick its items in an unspecified order, and every result
 * stated here holds whatever that order is.
 */
module LRBuild {
  import opened Wrappers
  import opened Grammar
  import opened Graph
  import opened Automaton
  import opened LRItems
  import LLParser
  import opened LRTable
  import LRParse
  import LRGraph
  import ParseTree

  // ---------------------------------------------------------------------------
  // Items of a grammar
  // ---------------------------------------------------------------------------

  /** The production `"$" -> <start>` both constructions start from; its nonterminal is marked unwrap. */
  function StartRule(start: string): (r: Production)
    ensures r.name == "$" && r.expr.terms == [NonTerminal(start, true)]
  {
    Production("$", "", Expression([NonTerminal(start, true)]), 0, Left)
  }

  /** The dot of the start production before the start symbol. */
  function StartItem(start: string): Item
  {
    Item(StartRule(start), 0)
  }

  /** The productions items can be made of: the grammar's and the start production. */
  function Rules(ps: seq<Production>, start: string): seq<Production>
  {
    ps + [StartRule(start)]
  }

  /** Every item of these productions, at every dot position. */
  ghost function ItemsOf(rules: seq<Production>): set<Item>
  {
    set i, p | 0 <= i < |rules| && 0 <= p <= |rules[i].expr.terms| :: Item(rules[i], p)
  }

  /** The dot-0 items of the grammar's productions. */
  ghost function Starts(ps: seq<Production>): set<Item>
  {
    set i | 0 <= i < |ps| :: Item(ps[i], 0)
  }

  /** The dot stands before a nonterminal named n. */
  predicate Calls(it: Item, n: string)
  {
    it.pos < |it.rule.expr.terms| && it.rule.expr.terms[it.pos].NonTerminal? && it.rule.expr.terms[it.pos].name == n
  }

  /** The dot stands before a formal term standing for x. */
  predicate Before(it: Item, x: Symbol)
  {
    it.pos < |it.rule.expr.terms| && Formal(it.rule.expr.terms[it.pos]) && Key(it.rule.expr.terms[it.pos]) == x
  }

  /** The items of K with the dot before x, with the dot moved over it. */
  function Kernel(K: set<Item>, x: Symbol): set<Item>
  {
    set it | it in K && Before(it, x) :: Item(it.rule, it.pos + 1)
  }

  /** Every item of the state carries no lookahead, as in an LR(0) automaton. */
  predicate Blank(m: Items)
  {
    forall k :: k in m ==> m[k] == {}
  }

  /** The item set holds an item of a production named n with nothing after its dot. */
  predicate Accepting(m: Items, n: string)
  {
    exists it :: it in m && it.rule.name == n && Completed(it)
  }

  lemma StartsInItems(ps: seq<Production>, start: string)
    ensures Starts(ps) <= ItemsOf(Rules(ps, start))
    ensures StartItem(start) in ItemsOf(Rules(ps, start))
  {
    var rules := Rules(ps, start);
    forall k | k in Starts(ps) ensures k in ItemsOf(rules) {
      var i :| 0 <= i < |ps| && k == Item(ps[i], 0);
      assert rules[i] == ps[i];
    }
    assert rules[|ps|] == StartRule(start);
  }

  /** Moving the dot keeps an item among the items of its productions. */
  lemma KernelInItems(rules: seq<Production>, K: set<Item>, x: Symbol)
    requires K <= ItemsOf(rules)
    ensures Kernel(K, x) <= ItemsOf(rules)
  {
    forall k | k in Kernel(K, x) ensures k in ItemsOf(rules) {
      var it :| it in K && Before(it, x) && k == Item(it.rule, it.pos + 1);
      var i, p :| 0 <= i < |rules| && 0 <= p <= |rules[i].expr.terms| && it == Item(rules[i], p);
      assert k == Item(rules[i], p + 1);
    }
  }

  // ---------------------------------------------------------------------------
  // LR(0) closure and goto
  // ---------------------------------------------------------------------------

  /** K is closed: a nonterminal after a dot brings the dot-0 items of all its productions. */
  ghost predicate ClosedKeys(ps: seq<Production>, K: set<Item>)
  {
    forall it, i :: it in K && 0 <= i < |ps| && Calls(it, ps[i].name) ==> Item(ps[i], 0) in K
  }

  /** R is the closure of K0: closed, containing K0, and inside every closed set that contains K0. */
  ghost predicate IsClosure0(ps: seq<Production>, K0: set<Item>, R: set<Item>)
  {
    K0 <= R && ClosedKeys(ps, R) && forall K :: K0 <= K && ClosedKeys(ps, K) ==> R <= K
  }

  /** A set has one closure; the empty set is its own. */
  lemma Closure0Unique(ps: seq<Production>, K0: set<Item>, R1: set<Item>, R2: set<Item>)
    requires IsClosure0(ps, K0, R1) && IsClosure0(ps, K0, R2)
    ensures R1 == R2
    ensures K0 == {} ==> R1 == {}
  {
    if K0 == {} {
      assert ClosedKeys(ps, {});
    }
  }

  /** The items of every production, at every position, form a closed set. */
  lemma ItemsClosed(ps: seq<Production>, start: string)
    ensures ClosedKeys(ps, ItemsOf(Rules(ps, start)))
  {
    StartsInItems(ps, start);
  }

  /** The dot-0 items of the productions of the nonterminals after a dot in m. */
  function SproutKeys(ps: seq<Production>, m: Items): set<Item>
  {
    set it, i | it in m && 0 <= i < |ps| && Calls(it, ps[i].name) :: Item(ps[i], 0)
  }

  /** The items one pass of the LR(0) `closure` loop collects from m, with default lookaheads. */
  function Sprouts0(ps: seq<Production>, m: Items): (r: Items)
  {
    map k | k in SproutKeys(ps, m) :: {}
  }

  /** The collected items are dot-0 items, lie in every closed superset of m, and are in m only when m is closed. */
  lemma SproutKeysSpec(ps: seq<Production>, m: Items)
    ensures SproutKeys(ps, m) <= Starts(ps)
    ensures forall K :: m.Keys <= K && ClosedKeys(ps, K) ==> SproutKeys(ps, m) <= K
    ensures SproutKeys(ps, m) <= m.Keys ==> ClosedKeys(ps, m.Keys)
  {
    forall k | k in SproutKeys(ps, m) ensures k in Starts(ps) {
      var it, i :| it in m && 0 <= i < |ps| && Calls(it, ps[i].name) && k == Item(ps[i], 0);
    }
    forall K | m.Keys <= K && ClosedKeys(ps, K) ensures SproutKeys(ps, m) <= K {
      forall k | k in SproutKeys(ps, m) ensures k in K {
        var it, i :| it in m && 0 <= i < |ps| && Calls(it, ps[i].name) && k == Item(ps[i], 0);
      }
    }
    if SproutKeys(ps, m) <= m.Keys {
      forall it, i | it in m && 0 <= i < |ps| && Calls(it, ps[i].name) ensures Item(ps[i], 0) in m {
        assert Item(ps[i], 0) in SproutKeys(ps, m);
      }
    }
  }

  /** What the LR(0) closure loop keeps: ret grows s by blank items and stays inside every closed superset. */
  ghost predicate Closure0Inv(ps: seq<Production>, s: Items, ret: Items, U: set<Item>)
  {
    && s.Keys <= ret.Keys <= U
    && (forall k :: k in ret ==> ret[k] == (if k in s then s[k] else {}))
    && forall K :: s.Keys <= K && ClosedKeys(ps, K) ==> ret.Keys <= K
  }

  /** Joining sprouts to ret adds blank items only. */
  lemma Closure0Values(ps: seq<Production>, s: Items, ret: Items)
    requires s.Keys <= ret.Keys && forall k :: k in ret ==> ret[k] == (if k in s then s[k] else {})
    ensures forall k :: k in Merge(ret, Sprouts0(ps, ret)) ==> Merge(ret, Sprouts0(ps, ret))[k] == (if k in s then s[k] else {})
  {
    var sp := Sprouts0(ps, ret);
    var r := Merge(ret, sp);
    forall k | k in r ensures r[k] == (if k in s then s[k] else {}) {
      if k in sp {
        assert sp[k] == {};
      }
    }
  }

  /** One pass of the closure loop keeps its invariant. */
  lemma Closure0Keep(ps: seq<Production>, s: Items, ret: Items, U: set<Item>)
    requires Closure0Inv(ps, s, ret, U) && Starts(ps) <= U
    ensures Closure0Inv(ps, s, Merge(ret, Sprouts0(ps, ret)), U)
  {
    var sp := Sprouts0(ps, ret);
    MergeSpec(ret, sp);
    SproutKeysSpec(ps, ret);
    assert sp.Keys == SproutKeys(ps, ret);
    Closure0Values(ps, s, ret);
  }

  /** A pass that grows ret gets closer to U; one that does not finds ret closed. */
  lemma Closure0Progress(ps: seq<Production>, ret: Items, U: set<Item>)
    requires ret.Keys <= U && Starts(ps) <= U
    ensures Grows(ret, Sprouts0(ps, ret)) ==> |U - Merge(ret, Sprouts0(ps, ret)).Keys| < |U - ret.Keys|
    ensures !Grows(ret, Sprouts0(ps, ret)) ==> ClosedKeys(ps, ret.Keys)
  {
    var sp := Sprouts0(ps, ret);
    SproutKeysSpec(ps, ret);
    assert sp.Keys == SproutKeys(ps, ret);
    if Grows(ret, sp) {
      var k :| k in sp && (k !in ret || !(sp[k] <= ret[k]));
      assert k !in ret;
      var keys := Merge(ret, sp).Keys;
      assert keys == ret.Keys + sp.Keys;
      assert U - keys < U - ret.Keys by {
        assert k in U - ret.Keys && k !in U - keys;
      }
      ProperSubsetCard(U - keys, U - ret.Keys);
    } else {
      assert sp.Keys <= ret.Keys;
    }
  }

  /**
   * The `closure` of `construct_lr_0`: passes add the dot-0 items of the
   * nonterminals after a dot until `extend_all` reports nothing new. The
   * result's items are exactly the closure of s's; s's lookaheads are kept
   * and the added items have none. The loop ends because the items stay
   * inside the finitely many items of s and the grammar.
   */
  method Closure0(ps: seq<Production>, s: Items) returns (ret: Items)
    ensures IsClosure0(ps, s.Keys, ret.Keys)
    ensures forall k :: k in ret ==> ret[k] == (if k in s then s[k] else {})
  {
    ghost var U := s.Keys + Starts(ps);
    ret := s;
    var flag := true;
    while flag
      invariant Closure0Inv(ps, s, ret, U)
      invariant !flag ==> ClosedKeys(ps, ret.Keys)
      decreases flag, |U - ret.Keys|
    {
      var set_ := Sprouts0(ps, ret);
      Closure0Keep(ps, s, ret, U);
      Closure0Progress(ps, ret, U);
      ret, flag := ExtendAll(ret, set_);
    }
  }

  /** A union of closed sets is closed. */
  lemma ClosedUnion(ps: seq<Production>, A: set<Item>, B: set<Item>)
    requires ClosedKeys(ps, A) && ClosedKeys(ps, B)
    ensures ClosedKeys(ps, A + B)
  {
  }

  /** What the LR(0) goto loop keeps once the items outside todo are visited. */
  ghost predicate Goto0Inv(ps: seq<Production>, s: Items, x: Symbol, todo: set<Item>, ret: Items)
  {
    && Kernel(s.Keys - todo, x) <= ret.Keys
    && ClosedKeys(ps, ret.Keys)
    && (forall K :: Kernel(s.Keys, x) <= K && ClosedKeys(ps, K) ==> ret.Keys <= K)
    && Blank(ret)
  }

  /** Visiting one more item keeps the goto invariant: its advanced item's closure is joined in. */
  lemma Goto0Step(ps: seq<Production>, s: Items, x: Symbol, todo: set<Item>, ret: Items, it: Item, c: Items)
    requires Goto0Inv(ps, s, x, todo, ret) && it in todo && todo <= s.Keys
    requires Before(it, x) && IsClosure0(ps, {Item(it.rule, it.pos + 1)}, c.Keys) && Blank(c)
    ensures Goto0Inv(ps, s, x, todo - {it}, Merge(ret, c))
  {
    var r := Merge(ret, c);
    MergeSpec(ret, c);
    ClosedUnion(ps, ret.Keys, c.Keys);
    assert Item(it.rule, it.pos + 1) in Kernel(s.Keys, x);
    forall k | k in Kernel(s.Keys - (todo - {it}), x) ensures k in r.Keys {
      var j :| j in s.Keys - (todo - {it}) && Before(j, x) && k == Item(j.rule, j.pos + 1);
      if j != it {
        assert k in Kernel(s.Keys - todo, x);
      }
    }
  }

  /** Skipping an item whose dot is not before x keeps the goto invariant. */
  lemma Goto0Skip(ps: seq<Production>, s: Items, x: Symbol, todo: set<Item>, ret: Items, it: Item)
    requires Goto0Inv(ps, s, x, todo, ret) && it in todo && !Before(it, x)
    ensures Goto0Inv(ps, s, x, todo - {it}, ret)
  {
    forall k | k in Kernel(s.Keys - (todo - {it}), x) ensures k in ret.Keys {
      var j :| j in s.Keys - (todo - {it}) && Before(j, x) && k == Item(j.rule, j.pos + 1);
      assert k in Kernel(s.Keys - todo, x);
    }
  }

  /**
   * The `goto` of `construct_lr_0`: the closures of the items of s with the
   * dot moved over x, joined. The result is the closure of that kernel,
   * with no lookaheads, and it is empty iff no item of s has x next.
   */
  method Goto0(ps: seq<Production>, s: Items, x: Symbol) returns (ret: Items)
    ensures IsClosure0(ps, Kernel(s.Keys, x), ret.Keys) && Blank(ret)
    ensures |ret| == 0 <==> Kernel(s.Keys, x) == {}
  {
    ret := map[];
    var todo := s.Keys;
    Goto0Init(ps, s, x);
    while todo != {}
      invariant todo <= s.Keys
      invariant Goto0Inv(ps, s, x, todo, ret)
      decreases |todo|
    {
      var it :| it in todo;
      ret := Goto0Item(ps, s, x, todo, ret, it);
      todo := todo - {it};
    }
    Goto0Final(ps, s, x, ret);
  }

  /** Before the LR(0) `goto` loop the empty set is closed and nothing is visited. */
  lemma Goto0Init(ps: seq<Production>, s: Items, x: Symbol)
    ensures Goto0Inv(ps, s, x, s.Keys, map[])
  {
    assert ClosedKeys(ps, {});
    assert s.Keys - s.Keys == {};
  }

  /** One item of the LR(0) `goto` loop: its moved item's closure is joined in if the dot is before x. */
  method Goto0Item(ps: seq<Production>, s: Items, x: Symbol, todo: set<Item>, ret: Items, it: Item) returns (ret1: Items)
    requires Goto0Inv(ps, s, x, todo, ret) && it in todo && todo <= s.Keys
    ensures Goto0Inv(ps, s, x, todo - {it}, ret1)
  {
    if it.pos < |it.rule.expr.terms| && Formal(it.rule.expr.terms[it.pos]) && Key(it.rule.expr.terms[it.pos]) == x {
      var c := Closure0(ps, map[Item(it.rule, it.pos + 1) := {}]);
      Goto0Step(ps, s, x, todo, ret, it, c);
      var grew;
      ret1, grew := ExtendAll(ret, c);
    } else {
      Goto0Skip(ps, s, x, todo, ret, it);
      ret1 := ret;
    }
  }

  /** After the LR(0) `goto` loop the result is the closure of the whole kernel. */
  lemma Goto0Final(ps: seq<Production>, s: Items, x: Symbol, ret: Items)
    requires Goto0Inv(ps, s, x, {}, ret)
    ensures IsClosure0(ps, Kernel(s.Keys, x), ret.Keys) && Blank(ret)
    ensures |ret| == 0 <==> Kernel(s.Keys, x) == {}
  {
    assert s.Keys - {} == s.Keys;
    if Kernel(s.Keys, x) == {} {
      assert ClosedKeys(ps, {});
    } else {
      var k :| k in Kernel(s.Keys, x);
    }
  }

  // ---------------------------------------------------------------------------
  // Counting states
  // ---------------------------------------------------------------------------

  function Pow2(n: nat): (r: nat)
    ensures r >= 1
  {
    if n == 0 then 1 else 2 * Pow2(n - 1)
  }

  /** Taking x out of sets that all hold it keeps them apart. */
  lemma {:induction false} RemoveCard<X>(S: set<set<X>>, x: X)
    requires forall A :: A in S ==> x in A
    ensures |set A | A in S :: A - {x}| == |S|
    decreases |S|
  {
    if S != {} {
      var A :| A in S;
      var S' := S - {A};
      RemoveCard(S', x);
      var img := set B | B in S' :: B - {x};
      assert (set B | B in S :: B - {x}) == img + {A - {x}};
      forall B | B in S' ensures B - {x} != A - {x} {
        assert A == (A - {x}) + {x} && B == (B - {x}) + {x};
      }
    }
  }

  /** There are at most 2^|U| subsets of U. */
  lemma {:induction false} SubsetsBound<X>(S: set<set<X>>, U: set<X>)
    requires forall A :: A in S ==> A <= U
    ensures |S| <= Pow2(|U|)
    decreases |U|
  {
    if U == {} {
      assert S <= {{}} by {
        forall A | A in S ensures A == {} {
        }
      }
      SubsetCard(S, {{}});
    } else {
      var x :| x in U;
      var S0 := set A | A in S && x !in A;
      var S1 := set A | A in S && x in A;
      var S1' := set A | A in S1 :: A - {x};
      RemoveCard(S1, x);
      SubsetsBound(S0, U - {x});
      SubsetsBound(S1', U - {x});
      assert S == S0 + S1 && S0 * S1 == {};
    }
  }

  /** The item sets of the states, as a set. */
  ghost function Cores(ds: seq<Items>): set<set<Item>>
  {
    set i | 0 <= i < |ds| :: ds[i].Keys
  }

  /** No two states have the same core. */
  predicate DistinctCores(ds: seq<Items>)
  {
    forall i, j :: 0 <= i < j < |ds| ==> ds[i].Keys != ds[j].Keys
  }

  /** States with distinct cores drawn from U number at most 2^|U|. */
  lemma {:induction false} StatesBound(ds: seq<Items>, U: set<Item>)
    requires DistinctCores(ds) && forall i :: 0 <= i < |ds| ==> ds[i].Keys <= U
    ensures |ds| <= Pow2(|U|)
  {
    CoresCard(ds);
    SubsetsBound(Cores(ds), U);
  }

  lemma {:induction false} CoresCard(ds: seq<Items>)
    requires DistinctCores(ds)
    ensures |Cores(ds)| == |ds|
  {
    if |ds| > 0 {
      var init := ds[..|ds| - 1];
      CoresCard(init);
      assert Cores(ds) == Cores(init) + {ds[|ds| - 1].Keys};
      forall i | 0 <= i < |init| ensures init[i].Keys != ds[|ds| - 1].Keys {
        assert init[i] == ds[i];
      }
    }
  }

  // ---------------------------------------------------------------------------
  // The graph under construction
  // ---------------------------------------------------------------------------

  /** The symbols of a grammar, as `symbols` lists them: its terminals, then its nonterminals. */
  function GrammarSymbols(ps: seq<Production>): (r: seq<Symbol>)
  {
    var ts := Dedup(TerminalTerms(ps));
    var nts := Dedup(Names(ps));
    seq(|ts|, i requires 0 <= i < |ts| => Key(ts[i])) + seq(|nts|, i requires 0 <= i < |nts| => NT(nts[i]))
  }

  /** The terms `symbols` returns stand for the grammar's symbols, in order. */
  lemma SymbolsKeys(ps: seq<Production>, ts: seq<Term>, nts: seq<string>)
    requires ts == Dedup(TerminalTerms(ps)) && nts == Dedup(Names(ps))
    ensures |Symbols(ts, nts)| == |GrammarSymbols(ps)|
    ensures forall k :: 0 <= k < |Symbols(ts, nts)| ==> Formal(Symbols(ts, nts)[k]) && Key(Symbols(ts, nts)[k]) == GrammarSymbols(ps)[k]
  {
    var terms := Symbols(ts, nts);
    var g := GrammarSymbols(ps);
    forall k | 0 <= k < |ts| ensures Formal(terms[k]) && Key(terms[k]) == g[k] {
      assert terms[k] == terms[..|ts|][k] == ts[k];
    }
    forall k | |ts| <= k < |terms| ensures Formal(terms[k]) && Key(terms[k]) == g[k] {
      assert terms[|ts| + (k - |ts|)] == NonTerminal(nts[k - |ts|], false);
    }
  }

  /** The start state is the closure of the start item; every state lies among the grammar's items. */
  ghost predicate StatesOk(ps: seq<Production>, start: string, ds: seq<Items>)
  {
    && |ds| >= 1
    && IsClosure0(ps, {StartItem(start)}, ds[0].Keys)
    && DistinctCores(ds)
    && forall v :: 0 <= v < |ds| ==> ds[v].Keys <= ItemsOf(Rules(ps, start))
  }

  /** Every edge leads from a state to the closure of its kernel on the edge's symbol, which is not empty. */
  ghost predicate EdgesAreGotos(ps: seq<Production>, ds: seq<Items>, es: seq<Edge<Symbol>>)
  {
    forall e :: 0 <= e < |es| ==>
      && es[e].inVertex < |ds| && es[e].outVertex < |ds|
      && Kernel(ds[es[e].inVertex].Keys, es[e].cost) != {}
      && IsClosure0(ps, Kernel(ds[es[e].inVertex].Keys, es[e].cost), ds[es[e].outVertex].Keys)
  }

  /** At most one transition per state and symbol. */
  predicate Deterministic(es: seq<Edge<Symbol>>)
  {
    forall i, j :: 0 <= i < j < |es| && es[i].inVertex == es[j].inVertex ==> es[i].cost != es[j].cost
  }

  /** The states before `state`, and state itself for the first k symbols, have a transition wherever goto is not empty. */
  ghost predicate CompleteUpTo(syms: seq<Symbol>, ds: seq<Items>, es: seq<Edge<Symbol>>, state: nat, k: nat)
  {
    forall q, j ::
      0 <= q < |ds| && 0 <= j < |syms| && (q < state || (q == state && j < k)) && Kernel(ds[q].Keys, syms[j]) != {}
      ==> Automaton.Step(es, q, syms[j]).Some?
  }

  /** The end states are, in increasing order, the states before `state` that accept. */
  ghost predicate EndsUpTo(n: string, ds: seq<Items>, ends: seq<nat>, state: nat)
  {
    && (forall q :: q in ends <==> 0 <= q < state && q < |ds| && Accepting(ds[q], n))
    && forall i, j :: 0 <= i < j < |ends| ==> ends[i] < ends[j]
  }

  /** A state keeps its transitions when edges are appended. */
  lemma StepKept(es: seq<Edge<Symbol>>, e: Edge<Symbol>, q: nat, x: Symbol)
    requires Automaton.Step(es, q, x).Some?
    ensures Automaton.Step(es + [e], q, x).Some?
  {
    StepSpec(es, q, x);
    StepSpec(es + [e], q, x);
    var k :| 0 <= k < |es| && es[k].inVertex == q && es[k].cost == x;
    assert (es + [e])[k] == es[k];
  }

  /** Appending an edge from a state and symbol without a transition keeps the edges deterministic. */
  lemma DeterministicAppend(es: seq<Edge<Symbol>>, e: Edge<Symbol>)
    requires Deterministic(es) && Automaton.Step(es, e.inVertex, e.cost).None?
    ensures Deterministic(es + [e])
  {
    StepSpec(es, e.inVertex, e.cost);
  }

  /** The first state whose core is g's: what `position(|x| x.data == g)` finds. */
  function Position(ds: seq<Items>, g: Items): (r: Option<nat>)
    ensures r.Some? ==> r.value < |ds| && SameCore(ds[r.value], g)
    ensures r.None? ==> forall i :: 0 <= i < |ds| ==> !SameCore(ds[i], g)
  {
    if |ds| == 0 then None
    else if SameCore(ds[0], g) then Some(0)
    else match Position(ds[1..], g)
      case Some(p) => Some(p + 1)
      case None => None
  }

  /** What `construct_lr_0` keeps while it visits symbol k of state `state`. */
  ghost predicate Lr0Inv(ps: seq<Production>, start: string, syms: seq<Symbol>, ds: seq<Items>, es: seq<Edge<Symbol>>,
                         state: nat, k: nat)
  {
    && StatesOk(ps, start, ds)
    && (forall v :: 0 <= v < |ds| ==> Blank(ds[v]))
    && EdgesAreGotos(ps, ds, es)
    && Deterministic(es)
    && CompleteUpTo(syms, ds, es, state, k)
  }

  /** A goto result lies among the grammar's items. */
  lemma GotoInItems(ps: seq<Production>, start: string, d: Items, x: Symbol, g: Items)
    requires d.Keys <= ItemsOf(Rules(ps, start)) && IsClosure0(ps, Kernel(d.Keys, x), g.Keys)
    ensures g.Keys <= ItemsOf(Rules(ps, start))
  {
    KernelInItems(Rules(ps, start), d.Keys, x);
    ItemsClosed(ps, start);
  }

  /** A new state with a new core keeps the invariant. */
  lemma Lr0AddState(ps: seq<Production>, start: string, syms: seq<Symbol>, ds: seq<Items>, es: seq<Edge<Symbol>>,
                    state: nat, k: nat, g: Items)
    requires Lr0Inv(ps, start, syms, ds, es, state, k) && state < |ds|
    requires Blank(g) && g.Keys <= ItemsOf(Rules(ps, start))
    requires forall i :: 0 <= i < |ds| ==> !SameCore(ds[i], g)
    ensures Lr0Inv(ps, start, syms, ds + [g], es, state, k)
  {
    var ds1 := ds + [g];
    assert forall i :: 0 <= i < |ds| ==> ds1[i] == ds[i];
  }

  /** A transition added where there was none, to the goto of the state, keeps the invariant and covers symbol k. */
  lemma Lr0AddEdge(ps: seq<Production>, start: string, syms: seq<Symbol>, ds: seq<Items>, es: seq<Edge<Symbol>>,
                   state: nat, k: nat, p: nat)
    requires Lr0Inv(ps, start, syms, ds, es, state, k) && state < |ds| && p < |ds| && k < |syms|
    requires Kernel(ds[state].Keys, syms[k]) != {} && IsClosure0(ps, Kernel(ds[state].Keys, syms[k]), ds[p].Keys)
    requires Automaton.Step(es, state, syms[k]).None?
    ensures Lr0Inv(ps, start, syms, ds, es + [Edge(state, p, syms[k])], state, k + 1)
  {
    var e := Edge(state, p, syms[k]);
    var es1 := es + [e];
    DeterministicAppend(es, e);
    forall q, j | 0 <= q < |ds| && 0 <= j < |syms| && (q < state || (q == state && j < k + 1)) &&
                  Kernel(ds[q].Keys, syms[j]) != {}
      ensures Automaton.Step(es1, q, syms[j]).Some?
    {
      if q == state && j == k {
        StepSpec(es1, q, syms[j]);
        assert es1[|es|] == e;
      } else {
        StepKept(es, e, q, syms[j]);
      }
    }
    assert forall i :: 0 <= i < |es| ==> es1[i] == es[i];
  }

  /** The start state alone, without transitions, satisfies the invariant before any visit. */
  lemma Lr0Init(ps: seq<Production>, start: string, syms: seq<Symbol>, s0: Items)
    requires IsClosure0(ps, {StartItem(start)}, s0.Keys) && Blank(s0)
    ensures Lr0Inv(ps, start, syms, [s0], [], 0, 0)
    ensures EndsUpTo(start, [s0], [], 0)
  {
    StartsInItems(ps, start);
    ItemsClosed(ps, start);
  }

  /** Having visited every symbol of a state is having visited none of the next. */
  lemma Lr0Next(ps: seq<Production>, start: string, syms: seq<Symbol>, ds: seq<Items>, es: seq<Edge<Symbol>>, state: nat)
    requires Lr0Inv(ps, start, syms, ds, es, state, |syms|)
    ensures Lr0Inv(ps, start, syms, ds, es, state + 1, 0)
  {
  }

  /** A symbol whose goto is empty, or that already has a transition, needs nothing. */
  lemma Lr0Covered(ps: seq<Production>, start: string, syms: seq<Symbol>, ds: seq<Items>, es: seq<Edge<Symbol>>,
                   state: nat, k: nat)
    requires Lr0Inv(ps, start, syms, ds, es, state, k) && k < |syms| && state < |ds|
    requires Kernel(ds[state].Keys, syms[k]) == {} || Automaton.Step(es, state, syms[k]).Some?
    ensures Lr0Inv(ps, start, syms, ds, es, state, k + 1)
  {
  }

  /**
   * The body of the symbol loop of `construct_lr_0`: goto of the state on
   * x; if it is not empty, the state with its core (a new one if there is
   * none) becomes the target of a transition on x, unless the state
   * already has one.
   */
  method Lr0Visit(graph: StateTransferGraph<Items, Symbol>, ps: seq<Production>, start: string,
                  ghost syms: seq<Symbol>, state: nat, k: nat, x: Symbol)
    requires graph.Valid() && state < |graph.vertices| && k < |syms| && x == syms[k]
    requires Lr0Inv(ps, start, syms, Datas(graph.vertices), graph.edges, state, k)
    modifies graph
    ensures graph.Valid()
    ensures Lr0Inv(ps, start, syms, Datas(graph.vertices), graph.edges, state, k + 1)
    ensures |graph.vertices| >= old(|graph.vertices|)
    ensures Datas(graph.vertices)[..old(|graph.vertices|)] == old(Datas(graph.vertices))
    ensures graph.start == old(graph.start) && graph.end == old(graph.end) && graph.ends == old(graph.ends)
  {
    ghost var ds := Datas(graph.vertices);
    var g := Goto0(ps, graph.vertices[state].data, x);
    if |g| == 0 {
      Lr0Covered(ps, start, syms, ds, graph.edges, state, k);
      return;
    }
    GotoInItems(ps, start, ds[state], x, g);
    var pos := Position(Datas(graph.vertices), g);
    var p: nat;
    if pos.Some? {
      p := pos.value;
      Closure0Unique(ps, Kernel(ds[state].Keys, x), g.Keys, ds[p].Keys);
    } else {
      Lr0AddState(ps, start, syms, ds, graph.edges, state, k, g);
      p := graph.AddStateWithData(g);
      assert Datas(graph.vertices) == ds + [g];
      assert (ds + [g])[..|ds|] == ds;
    }
    ghost var ds1 := Datas(graph.vertices);
    assert ds1[state] == ds[state] && ds1[p].Keys == g.Keys;
    var tr := graph.GetTransition(state, x);
    if tr.None? {
      Lr0AddEdge(ps, start, syms, ds1, graph.edges, state, k, p);
      var e := graph.AddTransfer(state, p, x);
    } else {
      Lr0Covered(ps, start, syms, ds1, graph.edges, state, k);
    }
  }

  /**
   * The end-marking loop of `construct_lr_0`: the state is marked as an
   * end state once for each item of a production named n with nothing
   * after its dot; marking is idempotent, so the state is marked iff it
   * holds such an item.
   */
  method MarkAccepting(graph: StateTransferGraph<Items, Symbol>, state: nat, n: string)
    requires graph.Valid() && state < |graph.vertices|
    modifies graph
    ensures graph.Valid()
    ensures graph.vertices == old(graph.vertices) && graph.edges == old(graph.edges) && graph.start == old(graph.start)
    ensures graph.ends == (if Accepting(graph.vertices[state].data, n) then MarkEnd(old(graph.ends), state) else old(graph.ends))
    ensures graph.end == (if Accepting(graph.vertices[state].data, n) then state else old(graph.end))
  {
    var ss := graph.vertices[state].data;
    var todo := ss.Keys;
    while todo != {}
      invariant todo <= ss.Keys && graph.Valid()
      invariant graph.vertices == old(graph.vertices) && graph.edges == old(graph.edges) && graph.start == old(graph.start)
      invariant (exists it :: it in ss && it !in todo && it.rule.name == n && Completed(it)) ==>
                  graph.ends == MarkEnd(old(graph.ends), state) && graph.end == state
      invariant !(exists it :: it in ss && it !in todo && it.rule.name == n && Completed(it)) ==>
                  graph.ends == old(graph.ends) && graph.end == old(graph.end)
      decreases |todo|
    {
      var it :| it in todo;
      if it.rule.name == n && it.pos == |it.rule.expr.terms| {
        MarkEndSpec(old(graph.ends), state);
        graph.MarkAsEnd(state);
      }
      todo := todo - {it};
    }
  }

  /** Marking state as an end state keeps the end states those before the next state that accept. */
  lemma EndsStep(n: string, ds: seq<Items>, ends: seq<nat>, state: nat)
    requires EndsUpTo(n, ds, ends, state) && state < |ds|
    ensures EndsUpTo(n, ds, if Accepting(ds[state], n) then MarkEnd(ends, state) else ends, state + 1)
  {
    if Accepting(ds[state], n) {
      assert state !in ends;
      var e := MarkEnd(ends, state);
      assert e == ends + [state];
      forall i, j | 0 <= i < j < |e| ensures e[i] < e[j] {
        if j < |ends| {
          assert e[i] == ends[i] && e[j] == ends[j];
        } else {
          assert e[i] == ends[i] && ends[i] in ends;
        }
      }
    }
  }

  /** The end states stay those that accept when states are appended. */
  lemma EndsGrow(n: string, ds: seq<Items>, ds1: seq<Items>, ends: seq<nat>, state: nat)
    requires EndsUpTo(n, ds, ends, state) && state <= |ds| <= |ds1| && ds1[..|ds|] == ds
    ensures EndsUpTo(n, ds1, ends, state)
  {
    forall q | 0 <= q < state ensures ds1[q] == ds[q] {
      assert ds1[..|ds|][q] == ds1[q];
    }
  }

  /**
   * One turn of the state loop of `construct_lr_0`: the state is marked as
   * an end state if it accepts, then every grammar symbol is visited.
   */
  method Lr0State(graph: StateTransferGraph<Items, Symbol>, ps: seq<Production>, start: string,
                  ghost syms: seq<Symbol>, terms: seq<Term>, state: nat)
    requires graph.Valid() && graph.start == 0 && state < |graph.vertices|
    requires |terms| == |syms| && forall k :: 0 <= k < |terms| ==> Formal(terms[k]) && Key(terms[k]) == syms[k]
    requires Lr0Inv(ps, start, syms, Datas(graph.vertices), graph.edges, state, 0)
    requires EndsUpTo(start, Datas(graph.vertices), graph.ends, state)
    modifies graph
    ensures graph.Valid() && graph.start == 0 && |graph.vertices| >= old(|graph.vertices|)
    ensures Lr0Inv(ps, start, syms, Datas(graph.vertices), graph.edges, state + 1, 0)
    ensures EndsUpTo(start, Datas(graph.vertices), graph.ends, state + 1)
  {
    ghost var ends0 := graph.ends;
    MarkAccepting(graph, state, start);
    EndsStep(start, Datas(graph.vertices), ends0, state);
    for k := 0 to |terms|
      invariant graph.Valid() && graph.start == 0 && old(|graph.vertices|) <= |graph.vertices|
      invariant Lr0Inv(ps, start, syms, Datas(graph.vertices), graph.edges, state, k)
      invariant EndsUpTo(start, Datas(graph.vertices), graph.ends, state + 1)
    {
      ghost var ds0 := Datas(graph.vertices);
      Lr0Visit(graph, ps, start, syms, state, k, Key(terms[k]));
      EndsGrow(start, ds0, Datas(graph.vertices), graph.ends, state + 1);
    }
    Lr0Next(ps, start, syms, Datas(graph.vertices), graph.edges, state);
  }

  /** The start of `construct_lr_0`: a graph whose only state, the start state, is the closure of `"$" -> . <start>`, and the grammar symbols. */
  method Lr0Start(g: Grammar) returns (graph: StateTransferGraph<Items, Symbol>, terms: seq<Term>)
    ensures fresh(graph) && graph.Valid() && graph.start == 0 && |graph.vertices| == 1
    ensures var syms := GrammarSymbols(g.productions);
            |terms| == |syms| && forall k :: 0 <= k < |terms| ==> Formal(terms[k]) && Key(terms[k]) == syms[k]
    ensures Lr0Inv(g.productions, g.startSymbol, GrammarSymbols(g.productions), Datas(graph.vertices), graph.edges, 0, 0)
    ensures EndsUpTo(g.startSymbol, Datas(graph.vertices), graph.ends, 0)
  {
    var ps := g.productions;
    graph := new StateTransferGraph(map[]);
    var s0 := Closure0(ps, map[StartItem(g.startSymbol) := {}]);
    Lr0Init(ps, g.startSymbol, GrammarSymbols(ps), s0);
    var start := graph.AddStateWithData(s0);
    graph.MarkAsStart(start);
    assert Datas(graph.vertices) == [s0];
    var ts := TerminalsOf(g);
    var nts := NonTerminals(g);
    terms := Symbols(ts, nts);
    SymbolsKeys(ps, ts, nts);
  }

  /**
   * `construct_lr_0`: the LR(0) automaton of a grammar, built state by
   * state. The start state 0 is the closure of `"$" -> . <start>`; no two
   * states share a core; every transition leads from a state to the goto
   * of it on the transition's symbol; there is exactly one transition for
   * each state and grammar symbol whose goto is not empty, and no other;
   * and the end states are, in order, the states holding a completed item
   * of a production of the start symbol. The loop ends because states
   * have distinct cores among the finitely many items of the grammar.
   */
  method ConstructLR0(g: Grammar) returns (graph: StateTransferGraph<Items, Symbol>)
    ensures fresh(graph) && graph.Valid() && graph.start == 0
    ensures Lr0Inv(g.productions, g.startSymbol, GrammarSymbols(g.productions), Datas(graph.vertices), graph.edges,
                   |graph.vertices|, 0)
    ensures EndsUpTo(g.startSymbol, Datas(graph.vertices), graph.ends, |graph.vertices|)
  {
    var terms;
    graph, terms := Lr0Start(g);
    ghost var U := ItemsOf(Rules(g.productions, g.startSymbol));
    var state := 0;
    while state < |graph.vertices|
      invariant fresh(graph) && graph.Valid() && graph.start == 0 && state <= |graph.vertices|
      invariant Lr0Inv(g.productions, g.startSymbol, GrammarSymbols(g.productions), Datas(graph.vertices), graph.edges, state, 0)
      invariant EndsUpTo(g.startSymbol, Datas(graph.vertices), graph.ends, state)
      decreases Pow2(|U|) - state
    {
      StatesBound(Datas(graph.vertices), U);
      Lr0State(graph, g.productions, g.startSymbol, GrammarSymbols(g.productions), terms, state);
      state := state + 1;
    }
    assert state == |graph.vertices|;
  }

  // ---------------------------------------------------------------------------
  // LALR(1) closure and goto
  // ---------------------------------------------------------------------------

  /** The term a lookahead symbol stands for. */
  function TermOf(a: Symbol): (t: Term)
    ensures Formal(t) && Key(t) == a
  {
    match a
    case NT(n) => NonTerminal(n, false)
    case T(ty, v) => Terminal(ty, v)
  }

  /** The terms after the one following the dot, then the lookahead: `[&terms[pos+1..], &[ahead]].concat()`. */
  function Rest(it: Item, a: Symbol): (e: Expression)
    requires FormalExpr(it.rule.expr) && it.pos < |it.rule.expr.terms|
    ensures FormalExpr(e)
  {
    var e := Expression(it.rule.expr.terms[it.pos + 1..] + [TermOf(a)]);
    assert forall j :: 0 <= j < |e.terms| - 1 ==> e.terms[j] == it.rule.expr.terms[it.pos + 1 + j];
    e
  }

  /** FIRST(beta a): what `get_first` gives for the rest of the item after the called nonterminal and lookahead a. */
  function Ahead(first: LLParser.Sets, it: Item, a: Symbol): set<Symbol>
    requires FormalExpr(it.rule.expr) && it.pos < |it.rule.expr.terms|
  {
    set x | x in LLParser.FirstFrom(first, Rest(it, a), 0, [])
  }

  /** The dot-0 items one LALR closure pass collects: only items with a lookahead call. */
  function SproutKeys1(ps: seq<Production>, m: Items): set<Item>
  {
    set it, i | it in m && m[it] != {} && 0 <= i < |ps| && Calls(it, ps[i].name) :: Item(ps[i], 0)
  }

  /** The lookaheads a pass gives the productions of n: FIRST(beta a) for each caller of n and each of its lookaheads a. */
  function SproutAhead(first: LLParser.Sets, m: Items, n: string): set<Symbol>
    requires FormalItems(m)
  {
    set it, a, x | it in m && a in m[it] && Calls(it, n) && x in LLParser.FirstFrom(first, Rest(it, a), 0, []) :: x
  }

  /** The `set` one pass of the LALR `closure` loop builds from the items of m. */
  function Sprouts1(ps: seq<Production>, first: LLParser.Sets, m: Items): Items
    requires FormalItems(m)
  {
    map k | k in SproutKeys1(ps, m) :: SproutAhead(first, m, k.rule.name)
  }

  /** m is closed: every item with a lookahead a and the dot before A brings A's productions with FIRST(beta a). */
  ghost predicate Closed1(ps: seq<Production>, first: LLParser.Sets, m: Items)
  {
    FormalItems(m) && Below(Sprouts1(ps, first, m), m)
  }

  /** R is the LALR closure of s: closed, above s, and below every closed set above s. */
  ghost predicate IsClosure1(ps: seq<Production>, first: LLParser.Sets, s: Items, R: Items)
  {
    Below(s, R) && Closed1(ps, first, R) && forall M :: Below(s, M) && Closed1(ps, first, M) ==> Below(R, M)
  }

  /** What closedness means item by item. */
  lemma Closed1Spec(ps: seq<Production>, first: LLParser.Sets, m: Items, it: Item, a: Symbol, i: nat)
    requires Closed1(ps, first, m) && it in m && a in m[it] && i < |ps| && Calls(it, ps[i].name)
    ensures Item(ps[i], 0) in m && Ahead(first, it, a) <= m[Item(ps[i], 0)]
  {
    var k := Item(ps[i], 0);
    assert k in SproutKeys1(ps, m);
    forall x | x in Ahead(first, it, a) ensures x in m[k] {
      assert x in SproutAhead(first, m, ps[i].name);
    }
  }

  /** Below is a preorder. */
  lemma BelowTrans(a: Items, b: Items, c: Items)
    requires Below(a, b) && Below(b, c)
    ensures Below(a, c)
  {
  }

  /** More items and lookaheads sprout more. */
  lemma Sprouts1Mono(ps: seq<Production>, first: LLParser.Sets, a: Items, b: Items)
    requires FormalItems(a) && FormalItems(b) && Below(a, b)
    ensures Below(Sprouts1(ps, first, a), Sprouts1(ps, first, b))
  {
    var sa := Sprouts1(ps, first, a);
    var sb := Sprouts1(ps, first, b);
    forall k | k in sa ensures k in sb && sa[k] <= sb[k] {
      var it, i :| it in a && a[it] != {} && 0 <= i < |ps| && Calls(it, ps[i].name) && k == Item(ps[i], 0);
      assert k in SproutKeys1(ps, b);
      forall x | x in sa[k] ensures x in sb[k] {
        var j, c, y :| j in a && c in a[j] && Calls(j, k.rule.name) && y in LLParser.FirstFrom(first, Rest(j, c), 0, []) && x == y;
      }
    }
  }

  /** An item that sprouts from a union sprouts from one side. */
  lemma Sprouts1MergeKey(ps: seq<Production>, first: LLParser.Sets, a: Items, b: Items, k: Item)
    requires k in SproutKeys1(ps, Merge(a, b))
    ensures k in SproutKeys1(ps, a) || k in SproutKeys1(ps, b)
  {
    var m := Merge(a, b);
    var it, i :| it in m && m[it] != {} && 0 <= i < |ps| && Calls(it, ps[i].name) && k == Item(ps[i], 0);
    if it in a && a[it] != {} {
      assert k in SproutKeys1(ps, a);
    } else {
      assert k in SproutKeys1(ps, b);
    }
  }

  /** A lookahead the union gives an item, one side gives it too. */
  lemma Sprouts1MergeVal(ps: seq<Production>, first: LLParser.Sets, a: Items, b: Items, k: Item, x: Symbol)
    requires FormalItems(a) && FormalItems(b) && FormalItems(Merge(a, b))
    requires k in SproutKeys1(ps, Merge(a, b)) && x in SproutAhead(first, Merge(a, b), k.rule.name)
    ensures (k in SproutKeys1(ps, a) && x in SproutAhead(first, a, k.rule.name))
         || (k in SproutKeys1(ps, b) && x in SproutAhead(first, b, k.rule.name))
  {
    var m := Merge(a, b);
    var it, i :| it in m && m[it] != {} && 0 <= i < |ps| && Calls(it, ps[i].name) && k == Item(ps[i], 0);
    var j, c, y :| j in m && c in m[j] && Calls(j, k.rule.name) && y in LLParser.FirstFrom(first, Rest(j, c), 0, []) && x == y;
    if j in a && c in a[j] {
      assert Calls(j, ps[i].name);
      assert k in SproutKeys1(ps, a);
    } else {
      assert Calls(j, ps[i].name);
      assert k in SproutKeys1(ps, b);
    }
  }

  /** What the union of two sets sprouts lies in the union of what each sprouts. */
  lemma Sprouts1Merge(ps: seq<Production>, first: LLParser.Sets, a: Items, b: Items)
    requires FormalItems(a) && FormalItems(b)
    ensures FormalItems(Merge(a, b))
    ensures Below(Sprouts1(ps, first, Merge(a, b)), Merge(Sprouts1(ps, first, a), Sprouts1(ps, first, b)))
  {
    var m := Merge(a, b);
    assert FormalItems(m);
    var sm := Sprouts1(ps, first, m);
    var u := Merge(Sprouts1(ps, first, a), Sprouts1(ps, first, b));
    forall k | k in sm ensures k in u && sm[k] <= u[k] {
      Sprouts1MergeKey(ps, first, a, b, k);
      forall x | x in sm[k] ensures x in u[k] {
        Sprouts1MergeVal(ps, first, a, b, k, x);
      }
    }
  }

  /** The dot-0 items a pass adds are the grammar's. */
  lemma Sprouts1Starts(ps: seq<Production>, first: LLParser.Sets, m: Items)
    requires FormalItems(m) && LLParser.FormalGrammar(ps)
    ensures Sprouts1(ps, first, m).Keys <= Starts(ps)
    ensures FormalItems(Sprouts1(ps, first, m))
  {
    forall k | k in Sprouts1(ps, first, m) ensures k in Starts(ps) && FormalExpr(k.rule.expr) {
      var it, i :| it in m && m[it] != {} && 0 <= i < |ps| && Calls(it, ps[i].name) && k == Item(ps[i], 0);
    }
  }

  // The finite space the closure grows in.

  /** The lookaheads of an item set. */
  ghost function Lookaheads(m: Items): set<Symbol>
  {
    set k, a | k in m && a in m[k] :: a
  }

  /** The terminals written in the bodies of the items' productions. */
  ghost function BodyTerminals(K: set<Item>): set<Symbol>
  {
    set k, j | k in K && 0 <= j < |k.rule.expr.terms| && k.rule.expr.terms[j].Terminal?
      :: T(k.rule.expr.terms[j].type_, k.rule.expr.terms[j].value)
  }

  /** The symbols a closure of s can hold as lookaheads. */
  ghost function Vocab(ps: seq<Production>, s: Items): set<Symbol>
  {
    LLParser.Alphabet(ps) + Lookaheads(s) + BodyTerminals(s.Keys)
  }

  /** Every item of m is in K with its lookaheads in A. */
  ghost predicate Within(m: Items, K: set<Item>, A: set<Symbol>)
  {
    m.Keys <= K && forall k :: k in m ==> m[k] <= A
  }

  /** An item set as a set of pairs: each item alone, and each item with each of its lookaheads. */
  ghost function Pairs(m: Items): set<(Item, Option<Symbol>)>
  {
    (set k | k in m :: (k, None)) + (set k, a | k in m && a in m[k] :: (k, Some(a)))
  }

  /** All the pairs of items of K and lookaheads of A. */
  ghost function Space(K: set<Item>, A: set<Symbol>): set<(Item, Option<Symbol>)>
  {
    (set k | k in K :: (k, None)) + (set k, a | k in K && a in A :: (k, Some(a)))
  }

  lemma PairsIn(m: Items, K: set<Item>, A: set<Symbol>)
    requires Within(m, K, A)
    ensures Pairs(m) <= Space(K, A)
  {
  }

  /** A union that grows m has more pairs. */
  lemma PairsGrow(m: Items, rhs: Items)
    requires Grows(m, rhs)
    ensures Pairs(m) < Pairs(Merge(m, rhs))
  {
    var r := Merge(m, rhs);
    MergeSpec(m, rhs);
    assert Pairs(m) <= Pairs(r);
    var k :| k in rhs && (k !in m || !(rhs[k] <= m[k]));
    if k !in m {
      assert (k, None) in Pairs(r) - Pairs(m);
    } else {
      var a :| a in rhs[k] && a !in m[k];
      assert (k, Some(a)) in Pairs(r) - Pairs(m);
    }
  }

  /** FIRST(beta a) of an item of the grammar or of s, with a lookahead from the vocabulary, stays in the vocabulary. */
  lemma AheadIn(ps: seq<Production>, first: LLParser.Sets, s: Items, it: Item, a: Symbol)
    requires LLParser.FormalGrammar(ps) && LLParser.Bounded(first, LLParser.Alphabet(ps))
    requires it in s.Keys + Starts(ps) && a in Vocab(ps, s)
    requires FormalExpr(it.rule.expr) && it.pos < |it.rule.expr.terms|
    ensures Ahead(first, it, a) <= Vocab(ps, s)
  {
    var e := Rest(it, a);
    LLParser.FirstFromMembers(first, e, 0, []);
    forall x | x in Ahead(first, it, a) ensures x in Vocab(ps, s) {
      assert LLParser.InFirst(first, e, 0, x);
      if x != LLParser.EPSILON {
        var k :| 0 <= k < |e.terms| && LLParser.NullableTo(first, e, 0, k) && x in LLParser.FirstOfTerm(first, e.terms[k]);
        if k == |e.terms| - 1 {
          assert e.terms[k] == TermOf(a);
          if a.NT? {
            assert x in first[a.name];
          }
        } else {
          var j := it.pos + 1 + k;
          assert e.terms[k] == it.rule.expr.terms[j];
          var t := it.rule.expr.terms[j];
          if t.Terminal? {
            if it in s {
              assert x in BodyTerminals(s.Keys);
            } else {
              var i :| 0 <= i < |ps| && it == Item(ps[i], 0);
              assert x == T(ps[i].expr.terms[j].type_, ps[i].expr.terms[j].value);
            }
          } else {
            assert x in first[t.name];
          }
        }
      }
    }
  }

  /** What a pass adds from items in the space stays in the space. */
  lemma Sprouts1Within(ps: seq<Production>, first: LLParser.Sets, s: Items, m: Items)
    requires LLParser.FormalGrammar(ps) && LLParser.Bounded(first, LLParser.Alphabet(ps))
    requires FormalItems(m) && Within(m, s.Keys + Starts(ps), Vocab(ps, s))
    ensures Within(Sprouts1(ps, first, m), s.Keys + Starts(ps), Vocab(ps, s))
  {
    var sp := Sprouts1(ps, first, m);
    Sprouts1Starts(ps, first, m);
    forall k, x | k in sp && x in sp[k] ensures x in Vocab(ps, s) {
      var it, a, y :| it in m && a in m[it] && Calls(it, k.rule.name) && y in LLParser.FirstFrom(first, Rest(it, a), 0, []) && x == y;
      AheadIn(ps, first, s, it, a);
      assert x in Ahead(first, it, a);
    }
  }

  // The LALR closure loop.

  /**
   * What the `closure` loop of `construct_lalr_1` keeps: ret lies above s
   * and below every closed set above s, and so does rset, the items the
   * last pass added; what ret sprouts lies in ret and what rset sprouts.
   */
  ghost predicate Closure1Inv(ps: seq<Production>, first: LLParser.Sets, s: Items, ret: Items, rset: Items)
  {
    && FormalItems(ret) && FormalItems(rset)
    && Below(s, ret) && Below(rset, ret)
    && Within(ret, s.Keys + Starts(ps), Vocab(ps, s))
    && Below(Sprouts1(ps, first, ret), Merge(ret, Sprouts1(ps, first, rset)))
    && forall M :: Below(s, M) && Closed1(ps, first, M) ==> Below(ret, M) && Below(rset, M)
  }

  lemma Closure1Init(ps: seq<Production>, first: LLParser.Sets, s: Items)
    requires FormalItems(s)
    ensures Closure1Inv(ps, first, s, s, s)
  {
    MergeSpec(s, Sprouts1(ps, first, s));
  }

  /** A pass keeps ret below every closed set above s. */
  lemma Closure1Least(ps: seq<Production>, first: LLParser.Sets, s: Items, ret: Items, rset: Items)
    requires Closure1Inv(ps, first, s, ret, rset)
    ensures forall M :: Below(s, M) && Closed1(ps, first, M) ==>
              Below(Merge(ret, Sprouts1(ps, first, rset)), M) && Below(Sprouts1(ps, first, rset), M)
  {
    var sp := Sprouts1(ps, first, rset);
    MergeSpec(ret, sp);
    forall M | Below(s, M) && Closed1(ps, first, M)
      ensures Below(Merge(ret, sp), M) && Below(sp, M)
    {
      Sprouts1Mono(ps, first, rset, M);
    }
  }

  /** A pass keeps what ret sprouts inside ret and what the new rset sprouts. */
  lemma Closure1Sprouts(ps: seq<Production>, first: LLParser.Sets, s: Items, ret: Items, rset: Items)
    requires Closure1Inv(ps, first, s, ret, rset) && LLParser.FormalGrammar(ps)
    ensures var sp := Sprouts1(ps, first, rset);
            FormalItems(sp) && FormalItems(Merge(ret, sp))
            && Below(Sprouts1(ps, first, Merge(ret, sp)), Merge(Merge(ret, sp), Sprouts1(ps, first, sp)))
  {
    var sp := Sprouts1(ps, first, rset);
    Sprouts1Starts(ps, first, rset);
    var r := Merge(ret, sp);
    var ssp := Sprouts1(ps, first, sp);
    Sprouts1Merge(ps, first, ret, sp);
    var goal := Merge(r, ssp);
    MergeSpec(r, ssp);
    MergeSpec(ret, sp);
    MergeSpec(Sprouts1(ps, first, ret), ssp);
    BelowTrans(Sprouts1(ps, first, ret), r, goal);
    BelowTrans(Sprouts1(ps, first, r), Merge(Sprouts1(ps, first, ret), ssp), goal);
  }

  /** The union of two item sets in the space is in the space. */
  lemma MergeWithin(a: Items, b: Items, K: set<Item>, A: set<Symbol>)
    requires Within(a, K, A) && Within(b, K, A)
    ensures Within(Merge(a, b), K, A)
  {
  }

  /** One pass of the closure loop keeps its invariant. */
  lemma Closure1Keep(ps: seq<Production>, first: LLParser.Sets, s: Items, ret: Items, rset: Items)
    requires Closure1Inv(ps, first, s, ret, rset)
    requires LLParser.FormalGrammar(ps) && LLParser.Bounded(first, LLParser.Alphabet(ps))
    ensures Closure1Inv(ps, first, s, Merge(ret, Sprouts1(ps, first, rset)), Sprouts1(ps, first, rset))
  {
    var sp := Sprouts1(ps, first, rset);
    var r := Merge(ret, sp);
    Closure1Sprouts(ps, first, s, ret, rset);
    Closure1Least(ps, first, s, ret, rset);
    MergeSpec(ret, sp);
    assert Below(s, r) by {
      BelowTrans(s, ret, r);
    }
    assert Within(r, s.Keys + Starts(ps), Vocab(ps, s)) by {
      assert Within(rset, s.Keys + Starts(ps), Vocab(ps, s));
      Sprouts1Within(ps, first, s, rset);
      MergeWithin(ret, sp, s.Keys + Starts(ps), Vocab(ps, s));
    }
  }

  /** A pass that adds nothing finds ret closed: ret is the closure of s. */
  lemma Closure1Done(ps: seq<Production>, first: LLParser.Sets, s: Items, ret: Items, rset: Items)
    requires Closure1Inv(ps, first, s, ret, rset) && !Grows(ret, Sprouts1(ps, first, rset))
    ensures IsClosure1(ps, first, s, ret)
  {
    var sp := Sprouts1(ps, first, rset);
    MergeSpec(ret, sp);
  }

  /** A pass that adds something gets closer to the whole space. */
  lemma Closure1Progress(ps: seq<Production>, first: LLParser.Sets, s: Items, ret: Items, rset: Items)
    requires Closure1Inv(ps, first, s, ret, rset) && Grows(ret, Sprouts1(ps, first, rset))
    requires Closure1Inv(ps, first, s, Merge(ret, Sprouts1(ps, first, rset)), Sprouts1(ps, first, rset))
    ensures var K, A := s.Keys + Starts(ps), Vocab(ps, s);
            |Pairs(ret)| < |Pairs(Merge(ret, Sprouts1(ps, first, rset)))| <= |Space(K, A)|
  {
    var K, A := s.Keys + Starts(ps), Vocab(ps, s);
    var r := Merge(ret, Sprouts1(ps, first, rset));
    PairsGrow(ret, Sprouts1(ps, first, rset));
    ProperSubsetCard(Pairs(ret), Pairs(r));
    PairsIn(r, K, A);
    SubsetCard(Pairs(r), Space(K, A));
  }

  /**
   * The `closure` of `construct_lalr_1`: each pass collects, from the
   * items the previous pass added, the dot-0 items of every nonterminal
   * after a dot with FIRST(beta a) for each lookahead a, and joins them in;
   * it stops at the first pass that changes nothing. The result is the
   * least closed item set above s.
   */
  method Closure1(ps: seq<Production>, first: LLParser.Sets, s: Items) returns (ret: Items)
    requires LLParser.FormalGrammar(ps) && LLParser.Bounded(first, LLParser.Alphabet(ps)) && FormalItems(s)
    ensures IsClosure1(ps, first, s, ret)
  {
    ret := s;
    var rset := s;
    var flag := true;
    Closure1Init(ps, first, s);
    PairsIn(s, s.Keys + Starts(ps), Vocab(ps, s));
    SubsetCard(Pairs(s), Space(s.Keys + Starts(ps), Vocab(ps, s)));
    while flag
      invariant Closure1Inv(ps, first, s, ret, rset)
      invariant |Pairs(ret)| <= |Space(s.Keys + Starts(ps), Vocab(ps, s))|
      invariant !flag ==> IsClosure1(ps, first, s, ret)
      decreases flag, |Space(s.Keys + Starts(ps), Vocab(ps, s))| - |Pairs(ret)|
    {
      var set_ := Sprouts1(ps, first, rset);
      Closure1Keep(ps, first, s, ret, rset);
      if Grows(ret, set_) {
        Closure1Progress(ps, first, s, ret, rset);
      } else {
        Closure1Done(ps, first, s, ret, rset);
        MergeSpec(ret, set_);
      }
      ret, flag := ExtendAll(ret, set_);
      rset := set_;
    }
  }

  /** Union of closures. */
  lemma Closed1Merge(ps: seq<Production>, first: LLParser.Sets, a: Items, b: Items)
    requires Closed1(ps, first, a) && Closed1(ps, first, b)
    ensures Closed1(ps, first, Merge(a, b))
  {
    Sprouts1Merge(ps, first, a, b);
    var sa, sb := Sprouts1(ps, first, a), Sprouts1(ps, first, b);
    MergeSpec(sa, sb);
    MergeSpec(a, b);
    assert Below(Merge(sa, sb), Merge(a, b)) by {
      BelowTrans(sa, a, Merge(a, b));
      BelowTrans(sb, b, Merge(a, b));
    }
    BelowTrans(Sprouts1(ps, first, Merge(a, b)), Merge(sa, sb), Merge(a, b));
  }

  /** The closure of a union is the union of the closures. */
  lemma Closure1Union(ps: seq<Production>, first: LLParser.Sets, a: Items, b: Items, ra: Items, rb: Items)
    requires IsClosure1(ps, first, a, ra) && IsClosure1(ps, first, b, rb)
    ensures IsClosure1(ps, first, Merge(a, b), Merge(ra, rb))
  {
    Closed1Merge(ps, first, ra, rb);
    MergeSpec(a, b);
    MergeSpec(ra, rb);
    BelowTrans(a, ra, Merge(ra, rb));
    BelowTrans(b, rb, Merge(ra, rb));
    forall M | Below(Merge(a, b), M) && Closed1(ps, first, M) ensures Below(Merge(ra, rb), M) {
      BelowTrans(a, Merge(a, b), M);
      BelowTrans(b, Merge(a, b), M);
    }
  }

  /** Nothing closes to nothing, and only nothing does. */
  lemma Closure1Empty(ps: seq<Production>, first: LLParser.Sets, a: Items, r: Items)
    requires IsClosure1(ps, first, a, r)
    ensures |r| == 0 <==> |a| == 0
  {
    if |a| == 0 {
      var e: Items := map[];
      assert Sprouts1(ps, first, e) == map[];
      assert Below(a, e);
      assert r.Keys == {};
    } else {
      var k :| k in a;
      assert k in r;
    }
  }

  /** The lookaheads of the item of s one position before k. */
  function Back(s: Items, k: Item): set<Symbol>
  {
    if k.pos > 0 && Item(k.rule, k.pos - 1) in s then s[Item(k.rule, k.pos - 1)] else {}
  }

  /** The items of s in D with the dot before x, moved over x, with their lookaheads. */
  function KernelPart(s: Items, x: Symbol, D: set<Item>): Items
  {
    map k | k in Kernel(D * s.Keys, x) :: Back(s, k)
  }

  /** The kernel of s on x with its lookaheads: what `goto` closes. */
  function KernelMap(s: Items, x: Symbol): (r: Items)
    ensures r.Keys == Kernel(s.Keys, x)
    ensures forall it :: it in s && Before(it, x) ==> r[Item(it.rule, it.pos + 1)] == s[it]
  {
    assert s.Keys * s.Keys == s.Keys;
    KernelPart(s, x, s.Keys)
  }

  /** One more item adds its moved item to the kernel, if the dot is before x. */
  lemma KernelAdd(K: set<Item>, x: Symbol, it: Item)
    ensures Kernel(K + {it}, x) == if Before(it, x) then Kernel(K, x) + {Item(it.rule, it.pos + 1)} else Kernel(K, x)
  {
  }

  /** Taking in one more item of s adds its moved item, if the dot is before x. */
  lemma KernelPartStep(s: Items, x: Symbol, D: set<Item>, it: Item)
    requires it in s && it !in D
    ensures KernelPart(s, x, D + {it}) ==
              if Before(it, x) then Merge(KernelPart(s, x, D), map[Item(it.rule, it.pos + 1) := s[it]])
              else KernelPart(s, x, D)
  {
    assert (D + {it}) * s.Keys == D * s.Keys + {it};
    KernelAdd(D * s.Keys, x, it);
    if Before(it, x) {
      KernelPartAdd(s, x, D, it);
    }
  }

  /** The moved item of an item with the dot before x joins the kernel part with the item's lookaheads. */
  lemma KernelPartAdd(s: Items, x: Symbol, D: set<Item>, it: Item)
    requires it in s && it !in D && Before(it, x)
    requires Kernel(D * s.Keys + {it}, x) == Kernel(D * s.Keys, x) + {Item(it.rule, it.pos + 1)}
    requires (D + {it}) * s.Keys == D * s.Keys + {it}
    ensures KernelPart(s, x, D + {it}) == Merge(KernelPart(s, x, D), map[Item(it.rule, it.pos + 1) := s[it]])
  {
    var a := KernelPart(s, x, D + {it});
    var b := KernelPart(s, x, D);
    var k := Item(it.rule, it.pos + 1);
    KernelPartFresh(s, x, D, it);
    MergeOne(b, k, s[it], a);
  }

  /** The moved item of an item outside D is not in the kernel part of D. */
  lemma KernelPartFresh(s: Items, x: Symbol, D: set<Item>, it: Item)
    requires it in s && it !in D && Before(it, x)
    requires Kernel(D * s.Keys + {it}, x) == Kernel(D * s.Keys, x) + {Item(it.rule, it.pos + 1)}
    requires (D + {it}) * s.Keys == D * s.Keys + {it}
    ensures Item(it.rule, it.pos + 1) !in KernelPart(s, x, D)
    ensures KernelPart(s, x, D + {it}).Keys == KernelPart(s, x, D).Keys + {Item(it.rule, it.pos + 1)}
    ensures KernelPart(s, x, D + {it})[Item(it.rule, it.pos + 1)] == s[it]
    ensures forall j :: j in KernelPart(s, x, D) ==> KernelPart(s, x, D + {it})[j] == KernelPart(s, x, D)[j]
  {
    assert Back(s, Item(it.rule, it.pos + 1)) == s[it];
  }

  /** A map that is b with one new key k bound to v is the merge of b with that one binding. */
  lemma MergeOne(b: Items, k: Item, v: set<Symbol>, a: Items)
    requires k !in b && a.Keys == b.Keys + {k} && a[k] == v
    requires forall j :: j in b ==> a[j] == b[j]
    ensures a == Merge(b, map[k := v])
  {
    var m := Merge(b, map[k := v]);
    assert a.Keys == m.Keys;
    forall j | j in a ensures a[j] == m[j] {
      if j == k {
        assert m[j] == {} + v;
      } else {
        assert m[j] == b[j] + {};
      }
    }
  }

  /** What the LALR goto loop keeps: ret is the closure of the kernel of the items visited. */
  ghost predicate Goto1Inv(ps: seq<Production>, first: LLParser.Sets, s: Items, x: Symbol, todo: set<Item>, ret: Items)
  {
    todo <= s.Keys && IsClosure1(ps, first, KernelPart(s, x, s.Keys - todo), ret)
  }

  /** An item with the dot before x brings the closure of its moved item. */
  lemma Goto1Step(ps: seq<Production>, first: LLParser.Sets, s: Items, x: Symbol, todo: set<Item>, ret: Items,
                  it: Item, c: Items)
    requires Goto1Inv(ps, first, s, x, todo, ret) && it in todo && Before(it, x)
    requires IsClosure1(ps, first, map[Item(it.rule, it.pos + 1) := s[it]], c)
    ensures Goto1Inv(ps, first, s, x, todo - {it}, Merge(ret, c))
  {
    assert s.Keys - (todo - {it}) == (s.Keys - todo) + {it};
    KernelPartStep(s, x, s.Keys - todo, it);
    Closure1Union(ps, first, KernelPart(s, x, s.Keys - todo), map[Item(it.rule, it.pos + 1) := s[it]], ret, c);
  }

  /** An item without x after its dot brings nothing. */
  lemma Goto1Skip(ps: seq<Production>, first: LLParser.Sets, s: Items, x: Symbol, todo: set<Item>, ret: Items, it: Item)
    requires Goto1Inv(ps, first, s, x, todo, ret) && it in todo && !Before(it, x)
    ensures Goto1Inv(ps, first, s, x, todo - {it}, ret)
  {
    assert s.Keys - (todo - {it}) == (s.Keys - todo) + {it};
    KernelPartStep(s, x, s.Keys - todo, it);
  }

  /**
   * The `goto` of `construct_lalr_1`: for each item of s with x after the
   * dot, the closure of that item with the dot moved and its lookaheads,
   * all joined. The result is the closure of the kernel of s on x with its
   * lookaheads, and it is empty iff no item of s has x next.
   */
  method Goto1(ps: seq<Production>, first: LLParser.Sets, s: Items, x: Symbol) returns (ret: Items)
    requires LLParser.FormalGrammar(ps) && LLParser.Bounded(first, LLParser.Alphabet(ps)) && FormalItems(s)
    ensures IsClosure1(ps, first, KernelMap(s, x), ret)
    ensures |ret| == 0 <==> Kernel(s.Keys, x) == {}
  {
    ret := map[];
    var todo := s.Keys;
    Goto1Init(ps, first, s, x);
    while todo != {}
      invariant Goto1Inv(ps, first, s, x, todo, ret)
      decreases |todo|
    {
      var it :| it in todo;
      ret := Goto1Item(ps, first, s, x, todo, ret, it);
      todo := todo - {it};
    }
    Goto1Final(ps, first, s, x, ret);
  }

  /** Before the `goto` loop nothing is visited and the empty map is the closure of nothing. */
  lemma Goto1Init(ps: seq<Production>, first: LLParser.Sets, s: Items, x: Symbol)
    ensures Goto1Inv(ps, first, s, x, s.Keys, map[])
  {
    assert s.Keys - s.Keys == {};
    assert KernelPart(s, x, {}) == map[];
    assert Sprouts1(ps, first, map[]) == map[];
  }

  /** After the `goto` loop every item is visited: the result closes the whole kernel. */
  lemma Goto1Final(ps: seq<Production>, first: LLParser.Sets, s: Items, x: Symbol, ret: Items)
    requires Goto1Inv(ps, first, s, x, {}, ret)
    ensures IsClosure1(ps, first, KernelMap(s, x), ret)
    ensures |ret| == 0 <==> Kernel(s.Keys, x) == {}
  {
    assert s.Keys - {} == s.Keys;
    Closure1Empty(ps, first, KernelMap(s, x), ret);
  }

  /** One item of the `goto` loop: its moved item's closure is joined in if the dot is before x. */
  method Goto1Item(ps: seq<Production>, first: LLParser.Sets, s: Items, x: Symbol, todo: set<Item>, ret: Items, it: Item)
    returns (ret1: Items)
    requires LLParser.FormalGrammar(ps) && LLParser.Bounded(first, LLParser.Alphabet(ps)) && FormalItems(s)
    requires Goto1Inv(ps, first, s, x, todo, ret) && it in todo
    ensures Goto1Inv(ps, first, s, x, todo - {it}, ret1)
  {
    if it.pos < |it.rule.expr.terms| && Formal(it.rule.expr.terms[it.pos]) && Key(it.rule.expr.terms[it.pos]) == x {
      var c := Closure1(ps, first, map[Item(it.rule, it.pos + 1) := s[it]]);
      Goto1Step(ps, first, s, x, todo, ret, it, c);
      var grew;
      ret1, grew := ExtendAll(ret, c);
    } else {
      Goto1Skip(ps, first, s, x, todo, ret, it);
      ret1 := ret;
    }
  }

  // ---------------------------------------------------------------------------
  // Where LALR item sets live, and their cores
  // ---------------------------------------------------------------------------

  /** Every item with every lookahead of A. */
  ghost function Full(C: set<Item>, A: set<Symbol>): Items
  {
    map k | k in C :: A
  }

  /** The items of s and the grammar, each with the whole vocabulary of s, form a closed set. */
  lemma FullClosed(ps: seq<Production>, first: LLParser.Sets, s: Items, C: set<Item>)
    requires LLParser.FormalGrammar(ps) && LLParser.Bounded(first, LLParser.Alphabet(ps)) && FormalItems(s)
    requires C <= s.Keys + Starts(ps) && ClosedKeys(ps, C)
    ensures Closed1(ps, first, Full(C, Vocab(ps, s)))
  {
    var A := Vocab(ps, s);
    var M := Full(C, A);
    assert FormalItems(M) by {
      forall k | k in M ensures FormalExpr(k.rule.expr) {
        if k !in s {
          var i :| 0 <= i < |ps| && k == Item(ps[i], 0);
        }
      }
    }
    var sp := Sprouts1(ps, first, M);
    forall k | k in sp ensures k in M && sp[k] <= M[k] {
      var it, i :| it in M && M[it] != {} && 0 <= i < |ps| && Calls(it, ps[i].name) && k == Item(ps[i], 0);
      forall x | x in sp[k] ensures x in A {
        var j, a, y :| j in M && a in M[j] && Calls(j, k.rule.name) && y in LLParser.FirstFrom(first, Rest(j, a), 0, []) && x == y;
        AheadIn(ps, first, s, j, a);
        assert x in Ahead(first, j, a);
      }
    }
  }

  /** A closure lies inside every closed set of items, holding the whole vocabulary, that contains its input's items. */
  lemma ClosureInside(ps: seq<Production>, first: LLParser.Sets, s: Items, R: Items, C: set<Item>)
    requires LLParser.FormalGrammar(ps) && LLParser.Bounded(first, LLParser.Alphabet(ps)) && FormalItems(s)
    requires IsClosure1(ps, first, s, R)
    requires s.Keys <= C <= s.Keys + Starts(ps) && ClosedKeys(ps, C)
    ensures Within(R, C, Vocab(ps, s))
  {
    FullClosed(ps, first, s, C);
    assert Below(s, Full(C, Vocab(ps, s)));
  }

  /** The items of the grammar's productions are formal. */
  lemma ItemsFormal(ps: seq<Production>, start: string, m: Items)
    requires LLParser.FormalGrammar(ps) && m.Keys <= ItemsOf(Rules(ps, start))
    ensures FormalItems(m)
  {
    forall k | k in m ensures FormalExpr(k.rule.expr) {
      var i, p :| 0 <= i < |Rules(ps, start)| && 0 <= p <= |Rules(ps, start)[i].expr.terms| && k == Item(Rules(ps, start)[i], p);
      if i == |ps| {
        assert k.rule == StartRule(start);
      }
    }
  }

  /** The terminals written in the grammar's productions are in its alphabet. */
  lemma BodyTerminalsIn(ps: seq<Production>, start: string, K: set<Item>)
    requires K <= ItemsOf(Rules(ps, start))
    ensures BodyTerminals(K) <= LLParser.Alphabet(ps)
  {
    forall x | x in BodyTerminals(K) ensures x in LLParser.Alphabet(ps) {
      var k, j :| k in K && 0 <= j < |k.rule.expr.terms| && k.rule.expr.terms[j].Terminal?
        && x == T(k.rule.expr.terms[j].type_, k.rule.expr.terms[j].value);
      var i, p :| 0 <= i < |Rules(ps, start)| && 0 <= p <= |Rules(ps, start)[i].expr.terms| && k == Item(Rules(ps, start)[i], p);
      assert i < |ps| && k.rule == ps[i];
    }
  }

  /** The closure of an item set of the grammar, with lookaheads from its alphabet, is one too. */
  lemma ClosureWithin(ps: seq<Production>, start: string, first: LLParser.Sets, K: Items, R: Items)
    requires LLParser.FormalGrammar(ps) && LLParser.Bounded(first, LLParser.Alphabet(ps))
    requires Within(K, ItemsOf(Rules(ps, start)), LLParser.Alphabet(ps)) && IsClosure1(ps, first, K, R)
    ensures Within(R, ItemsOf(Rules(ps, start)), LLParser.Alphabet(ps))
  {
    ItemsFormal(ps, start, K);
    StartsInItems(ps, start);
    ClosureInside(ps, first, K, R, K.Keys + Starts(ps));
    BodyTerminalsIn(ps, start, K.Keys);
    assert Vocab(ps, K) <= LLParser.Alphabet(ps);
  }

  /** The kernel of an item set of the grammar is one too. */
  lemma KernelMapWithin(ps: seq<Production>, start: string, d: Items, x: Symbol)
    requires Within(d, ItemsOf(Rules(ps, start)), LLParser.Alphabet(ps))
    ensures Within(KernelMap(d, x), ItemsOf(Rules(ps, start)), LLParser.Alphabet(ps))
  {
    var km := KernelMap(d, x);
    KernelInItems(Rules(ps, start), d.Keys, x);
    forall k | k in km ensures km[k] <= LLParser.Alphabet(ps) {
      var it :| it in d.Keys && Before(it, x) && k == Item(it.rule, it.pos + 1);
    }
  }

  /** Every nonterminal of the grammar has a symbol in its FIRST set. */
  ghost predicate Productive(ps: seq<Production>, first: LLParser.Sets)
  {
    forall n :: n in Names(ps) ==> n in first && first[n] != []
  }

  /** Every item carries a lookahead. */
  ghost predicate Filled(m: Items)
  {
    forall k :: k in m ==> m[k] != {}
  }

  /** A suffix whose terms all have nonempty FIRST sets has a nonempty FIRST set. */
  lemma {:induction false} FirstNonempty(first: LLParser.Sets, e: Expression, i: nat)
    requires FormalExpr(e) && i <= |e.terms|
    requires forall j :: i <= j < |e.terms| ==> LLParser.FirstOfTerm(first, e.terms[j]) != []
    ensures exists x :: LLParser.InFirst(first, e, i, x)
    decreases |e.terms| - i
  {
    if i == |e.terms| {
      assert LLParser.InFirst(first, e, i, LLParser.EPSILON);
    } else {
      var t := LLParser.FirstOfTerm(first, e.terms[i]);
      var y := t[0];
      if y != LLParser.EPSILON {
        LLParser.InFirstStep(first, e, i, y);
      } else {
        FirstNonempty(first, e, i + 1);
        var z :| LLParser.InFirst(first, e, i + 1, z);
        LLParser.InFirstStep(first, e, i, z);
      }
    }
  }

  /** In a productive grammar, FIRST(beta a) is never empty. */
  lemma AheadNonempty(ps: seq<Production>, start: string, first: LLParser.Sets, it: Item, a: Symbol)
    requires LLParser.FormalGrammar(ps) && LLParser.Defined(ps) && start in Names(ps) && Productive(ps, first)
    requires it in ItemsOf(Rules(ps, start)) && it.pos < |it.rule.expr.terms| && a.T?
    ensures FormalExpr(it.rule.expr) && Ahead(first, it, a) != {}
  {
    ItemsFormal(ps, start, map[it := {}]);
    var e := Rest(it, a);
    var i, p :| 0 <= i < |Rules(ps, start)| && 0 <= p <= |Rules(ps, start)[i].expr.terms| && it == Item(Rules(ps, start)[i], p);
    forall j | 0 <= j < |e.terms| ensures LLParser.FirstOfTerm(first, e.terms[j]) != [] {
      if j < |e.terms| - 1 {
        var t := it.rule.expr.terms[it.pos + 1 + j];
        assert e.terms[j] == t;
        if t.NonTerminal? && i < |ps| {
          assert t == ps[i].expr.terms[it.pos + 1 + j];
        }
      } else {
        assert e.terms[j] == TermOf(a);
      }
    }
    FirstNonempty(first, e, 0);
    var x :| LLParser.InFirst(first, e, 0, x);
    LLParser.FirstFromMembers(first, e, 0, []);
    assert x in Ahead(first, it, a);
  }

  /** The items of m that carry a lookahead. */
  ghost function FilledPart(m: Items): Items
  {
    map k | k in m && m[k] != {} :: m[k]
  }

  /** The alphabet holds terminals only. */
  lemma AlphabetTerminals(ps: seq<Production>, a: Symbol)
    requires a in LLParser.Alphabet(ps)
    ensures a.T?
  {
  }

  /** An item with lookahead a and the dot before a nonterminal sprouts its productions with FIRST(beta a). */
  lemma Sprouted(ps: seq<Production>, first: LLParser.Sets, m: Items, it: Item, a: Symbol, i: nat)
    requires FormalItems(m) && it in m && a in m[it] && i < |ps| && Calls(it, ps[i].name)
    ensures Item(ps[i], 0) in Sprouts1(ps, first, m)
    ensures Ahead(first, it, a) <= Sprouts1(ps, first, m)[Item(ps[i], 0)]
  {
    var k := Item(ps[i], 0);
    assert k in SproutKeys1(ps, m);
    forall x | x in Ahead(first, it, a) ensures x in SproutAhead(first, m, ps[i].name) {
    }
  }

  /** In a productive grammar, the items of a closed set that carry a lookahead form a closed set. */
  lemma FilledPartClosed(ps: seq<Production>, start: string, first: LLParser.Sets, R: Items)
    requires LLParser.FormalGrammar(ps) && LLParser.Defined(ps) && start in Names(ps) && Productive(ps, first)
    requires Closed1(ps, first, R) && Within(R, ItemsOf(Rules(ps, start)), LLParser.Alphabet(ps))
    ensures Closed1(ps, first, FilledPart(R))
  {
    var F := FilledPart(R);
    assert FormalItems(F);
    var sf := Sprouts1(ps, first, F);
    Sprouts1Mono(ps, first, F, R);
    BelowTrans(sf, Sprouts1(ps, first, R), R);
    forall k | k in sf ensures k in F && sf[k] <= F[k] {
      var it, i :| it in F && F[it] != {} && 0 <= i < |ps| && Calls(it, ps[i].name) && k == Item(ps[i], 0);
      var a :| a in F[it];
      Sprouted(ps, first, F, it, a, i);
      assert it in R && a in R[it];
      AlphabetTerminals(ps, a);
      AheadNonempty(ps, start, first, it, a);
      assert sf[k] != {};
    }
  }

  /** In a productive grammar, every item of a closure of lookahead-carrying items carries a lookahead. */
  lemma ClosureFilled(ps: seq<Production>, start: string, first: LLParser.Sets, K: Items, R: Items)
    requires LLParser.FormalGrammar(ps) && LLParser.Defined(ps) && start in Names(ps) && Productive(ps, first)
    requires IsClosure1(ps, first, K, R) && Filled(K) && Within(R, ItemsOf(Rules(ps, start)), LLParser.Alphabet(ps))
    ensures Filled(R)
  {
    FilledPartClosed(ps, start, first, R);
    assert Below(K, FilledPart(R));
  }

  /**
   * In a productive grammar, the core of the LALR closure of lookahead-carrying
   * items of the grammar is the LR(0) closure of their core.
   */
  lemma ClosureCore(ps: seq<Production>, start: string, first: LLParser.Sets, K: Items, R: Items)
    requires LLParser.FormalGrammar(ps) && LLParser.Defined(ps) && start in Names(ps) && Productive(ps, first)
    requires LLParser.Bounded(first, LLParser.Alphabet(ps))
    requires IsClosure1(ps, first, K, R) && Filled(K) && Within(K, ItemsOf(Rules(ps, start)), LLParser.Alphabet(ps))
    ensures IsClosure0(ps, K.Keys, R.Keys) && Filled(R)
  {
    ClosureWithin(ps, start, first, K, R);
    ClosureFilled(ps, start, first, K, R);
    forall it, i | it in R.Keys && 0 <= i < |ps| && Calls(it, ps[i].name) ensures Item(ps[i], 0) in R.Keys {
      assert Item(ps[i], 0) in SproutKeys1(ps, R);
    }
    ItemsFormal(ps, start, K);
    forall C | K.Keys <= C && ClosedKeys(ps, C) ensures R.Keys <= C {
      var C' := C * (K.Keys + Starts(ps));
      ClosureInside(ps, first, K, R, C');
    }
  }

  // ---------------------------------------------------------------------------
  // The LALR(1) automaton under construction
  // ---------------------------------------------------------------------------

  /** The start item of `construct_lalr_1`, with the end marker as its lookahead. */
  function StartMap(start: string): (m: Items)
    ensures m.Keys == {StartItem(start)}
  {
    map[StartItem(start) := {LLParser.FINISH}]
  }

  /**
   * The states: the start state lies above the start item and holds items
   * with the dot at the start only, no two states
   * share a core, every state is a closed item set of the grammar with
   * lookaheads from its alphabet; in a productive grammar the start state's
   * core is the LR(0) closure of the start item and every item has a lookahead.
   */
  ghost predicate LalrStates(ps: seq<Production>, start: string, first: LLParser.Sets, ds: seq<Items>)
  {
    && |ds| >= 1
    && Below(StartMap(start), ds[0])
    && (forall it :: it in ds[0] ==> it.pos == 0)
    && DistinctCores(ds)
    && (forall q :: 0 <= q < |ds| ==> Within(ds[q], ItemsOf(Rules(ps, start)), LLParser.Alphabet(ps)))
    && (forall q :: 0 <= q < |ds| ==> Closed1(ps, first, ds[q]))
    && (Productive(ps, first) ==> IsClosure0(ps, {StartItem(start)}, ds[0].Keys))
    && (Productive(ps, first) ==> forall q :: 0 <= q < |ds| ==> Filled(ds[q]))
  }

  /**
   * The transitions: at most one per state and symbol, each on a symbol
   * whose kernel is not empty, to a state holding that kernel; in a
   * productive grammar each leads to the
   * state whose core is the LR(0) closure of that kernel.
   */
  ghost predicate LalrEdges(ps: seq<Production>, first: LLParser.Sets, ds: seq<Items>, es: seq<Edge<Symbol>>)
  {
    && Deterministic(es)
    && forall e :: 0 <= e < |es| ==>
         && es[e].inVertex < |ds| && es[e].outVertex < |ds|
         && Kernel(ds[es[e].inVertex].Keys, es[e].cost) != {}
         && Kernel(ds[es[e].inVertex].Keys, es[e].cost) <= ds[es[e].outVertex].Keys
         && (Productive(ps, first) ==> IsClosure0(ps, Kernel(ds[es[e].inVertex].Keys, es[e].cost), ds[es[e].outVertex].Keys))
  }

  /**
   * State q is up to date for the first k symbols: each whose kernel is not
   * empty has a transition, and in a productive grammar its target holds
   * the kernel with all its lookaheads.
   */
  ghost predicate Done(ps: seq<Production>, first: LLParser.Sets, syms: seq<Symbol>, ds: seq<Items>, es: seq<Edge<Symbol>>,
                       q: nat, k: nat)
  {
    && q < |ds|
    && (forall j :: 0 <= j < k && j < |syms| && Kernel(ds[q].Keys, syms[j]) != {} ==> Automaton.Step(es, q, syms[j]).Some?)
    && (Productive(ps, first) ==>
          forall j :: 0 <= j < k && j < |syms| && Automaton.Step(es, q, syms[j]).Some? ==>
            Automaton.Step(es, q, syms[j]).value < |ds| && Below(KernelMap(ds[q], syms[j]), ds[Automaton.Step(es, q, syms[j]).value]))
  }

  /**
   * What the worklist loop of `construct_lalr_1` keeps while it visits
   * symbol k of `state`: every state off the stack but `state` is up to
   * date, and so is `state` for its first k symbols unless it is back on
   * the stack.
   */
  ghost predicate LalrInv(ps: seq<Production>, start: string, first: LLParser.Sets, syms: seq<Symbol>,
                          ds: seq<Items>, es: seq<Edge<Symbol>>, stack: seq<nat>, state: nat, k: nat)
  {
    && LalrStates(ps, start, first, ds)
    && LalrEdges(ps, first, ds, es)
    && state < |ds| && k <= |syms|
    && (forall i :: 0 <= i < |stack| ==> stack[i] < |ds|)
    && (forall q :: 0 <= q < |ds| && q !in stack && q != state ==> Done(ps, first, syms, ds, es, q, |syms|))
    && (state !in stack ==> Done(ps, first, syms, ds, es, state, k))
  }

  /** The end states are states holding a completed `"$"` item, and every such state off the stack is one. */
  ghost predicate EndsOk(ds: seq<Items>, ends: seq<nat>, stack: seq<nat>)
  {
    && (forall q :: q in ends ==> q < |ds| && Accepting(ds[q], "$"))
    && (forall q :: 0 <= q < |ds| && q !in stack && Accepting(ds[q], "$") ==> q in ends)
  }

  /** The states of ds1 are those of ds, with the same cores and at least their lookaheads, and maybe more. */
  ghost predicate Grown(ds: seq<Items>, ds1: seq<Items>)
  {
    |ds| <= |ds1| && forall r :: 0 <= r < |ds| ==> ds1[r].Keys == ds[r].Keys && Below(ds[r], ds1[r])
  }

  /** Transitions depend on cores only. */
  lemma EdgesGrown(ps: seq<Production>, first: LLParser.Sets, ds: seq<Items>, ds1: seq<Items>, es: seq<Edge<Symbol>>)
    requires LalrEdges(ps, first, ds, es) && Grown(ds, ds1)
    ensures LalrEdges(ps, first, ds1, es)
  {
  }

  /** A state is still up to date when targets only grow and its own items are unchanged. */
  lemma DoneGrown(ps: seq<Production>, first: LLParser.Sets, syms: seq<Symbol>, ds: seq<Items>, ds1: seq<Items>,
                  es: seq<Edge<Symbol>>, q: nat, k: nat)
    requires Done(ps, first, syms, ds, es, q, k) && Grown(ds, ds1) && ds1[q] == ds[q]
    ensures Done(ps, first, syms, ds1, es, q, k)
  {
    if Productive(ps, first) {
      forall j | 0 <= j < k && j < |syms| && Automaton.Step(es, q, syms[j]).Some?
        ensures Below(KernelMap(ds1[q], syms[j]), ds1[Automaton.Step(es, q, syms[j]).value])
      {
        var t := Automaton.Step(es, q, syms[j]).value;
        BelowTrans(KernelMap(ds[q], syms[j]), ds[t], ds1[t]);
      }
    }
  }

  /**
   * Growing the states keeps the worklist invariant when every state whose
   * items changed, and every new state, is on the new stack.
   */
  lemma LalrGrow(ps: seq<Production>, start: string, first: LLParser.Sets, syms: seq<Symbol>,
                 ds: seq<Items>, ds1: seq<Items>, es: seq<Edge<Symbol>>, stack: seq<nat>, stack1: seq<nat>,
                 state: nat, k: nat)
    requires LalrInv(ps, start, first, syms, ds, es, stack, state, k)
    requires Grown(ds, ds1) && LalrStates(ps, start, first, ds1)
    requires forall q :: q in stack ==> q in stack1
    requires forall i :: 0 <= i < |stack1| ==> stack1[i] < |ds1|
    requires forall q :: 0 <= q < |ds1| && q !in stack1 ==> q < |ds| && ds1[q] == ds[q]
    ensures LalrInv(ps, start, first, syms, ds1, es, stack1, state, k)
  {
    EdgesGrown(ps, first, ds, ds1, es);
    forall q | 0 <= q < |ds1| && q !in stack1 && q != state ensures Done(ps, first, syms, ds1, es, q, |syms|) {
      DoneGrown(ps, first, syms, ds, ds1, es, q, |syms|);
    }
    if state !in stack1 {
      DoneGrown(ps, first, syms, ds, ds1, es, state, k);
    }
  }

  /** End states depend on cores only; new states are on the stack. */
  lemma EndsGrown(ds: seq<Items>, ds1: seq<Items>, ends: seq<nat>, stack: seq<nat>, stack1: seq<nat>)
    requires EndsOk(ds, ends, stack) && Grown(ds, ds1)
    requires forall q :: q in stack ==> q in stack1
    requires forall q :: 0 <= q < |ds1| && q !in stack1 ==> q < |ds|
    ensures EndsOk(ds1, ends, stack1)
  {
    forall q | q in ends ensures q < |ds1| && Accepting(ds1[q], "$") {
      var it :| it in ds[q] && it.rule.name == "$" && Completed(it);
      assert it in ds1[q];
    }
    forall q | 0 <= q < |ds1| && q !in stack1 && Accepting(ds1[q], "$") ensures q in ends {
      var it :| it in ds1[q] && it.rule.name == "$" && Completed(it);
      assert it in ds[q];
    }
  }

  // The termination measure of the worklist loop.

  /** How many pairs of the space the states still lack, summed. */
  ghost function Deficit(ds: seq<Items>, S: set<(Item, Option<Symbol>)>): nat
  {
    if |ds| == 0 then 0 else Deficit(ds[..|ds| - 1], S) + |S - Pairs(ds[|ds| - 1])|
  }

  /** Replacing a state by one with more pairs of the space lowers the deficit. */
  lemma {:induction false} DeficitUpdate(ds: seq<Items>, S: set<(Item, Option<Symbol>)>, p: nat, m: Items)
    requires p < |ds| && Pairs(ds[p]) < Pairs(m) <= S
    ensures Deficit(ds[p := m], S) < Deficit(ds, S)
    decreases |ds|
  {
    var n := |ds| - 1;
    var ds1 := ds[p := m];
    if p < n {
      assert ds1[..n] == ds[..n][p := m];
      assert ds1[n] == ds[n];
      DeficitUpdate(ds[..n], S, p, m);
    } else {
      assert ds1[..n] == ds[..n];
      var x :| x in Pairs(m) && x !in Pairs(ds[p]);
      assert S - Pairs(m) < S - Pairs(ds[p]) by {
        assert x in S - Pairs(ds[p]) && x !in S - Pairs(m);
      }
      ProperSubsetCard(S - Pairs(m), S - Pairs(ds[p]));
    }
  }

  /** More states, or the same with fewer missing pairs, or the same states and a stack no longer. */
  predicate Progress(n0: nat, d0: nat, s0: nat, n: nat, d: nat, s: nat)
  {
    n > n0 || (n == n0 && (d < d0 || (d == d0 && s <= s0)))
  }

  /** What `construct_lalr_1` needs of its grammar to run without panicking, and of the FIRST sets it computes. */
  ghost predicate LalrPre(ps: seq<Production>, start: string, first: LLParser.Sets)
  {
    && LLParser.FormalGrammar(ps) && LLParser.Defined(ps) && start in Names(ps)
    && LLParser.Bounded(first, LLParser.Alphabet(ps))
  }

  /** The pairs the states of a grammar can hold. */
  ghost function LalrSpace(ps: seq<Production>, start: string): set<(Item, Option<Symbol>)>
  {
    Space(ItemsOf(Rules(ps, start)), LLParser.Alphabet(ps))
  }

  /** A goto of a state of the grammar is a closed item set of the grammar above the kernel; in a productive grammar its core is the LR(0) goto. */
  lemma GotoFacts(ps: seq<Production>, start: string, first: LLParser.Sets, d: Items, x: Symbol, g: Items)
    requires LalrPre(ps, start, first)
    requires Within(d, ItemsOf(Rules(ps, start)), LLParser.Alphabet(ps)) && IsClosure1(ps, first, KernelMap(d, x), g)
    requires Productive(ps, first) ==> Filled(d)
    ensures Within(g, ItemsOf(Rules(ps, start)), LLParser.Alphabet(ps)) && Closed1(ps, first, g)
    ensures Below(KernelMap(d, x), g)
    ensures Productive(ps, first) ==> Filled(g) && IsClosure0(ps, Kernel(d.Keys, x), g.Keys)
  {
    var km := KernelMap(d, x);
    KernelMapWithin(ps, start, d, x);
    ClosureWithin(ps, start, first, km, g);
    if Productive(ps, first) {
      forall k | k in km ensures km[k] != {} {
        var it :| it in d.Keys && Before(it, x) && k == Item(it.rule, it.pos + 1);
      }
      ClosureCore(ps, start, first, km, g);
    }
  }

  /**
   * Joining a goto into the state with its core keeps the invariant; the
   * state goes on the stack if it grew and is not there yet, and then it
   * lacks fewer pairs.
   */
  lemma LalrMerged(ps: seq<Production>, start: string, first: LLParser.Sets, syms: seq<Symbol>,
                   ds: seq<Items>, es: seq<Edge<Symbol>>, stack: seq<nat>, state: nat, k: nat, p: nat, g: Items,
                   stack1: seq<nat>)
    requires LalrPre(ps, start, first) && LalrInv(ps, start, first, syms, ds, es, stack, state, k)
    requires p < |ds| && SameCore(ds[p], g)
    requires Within(g, ItemsOf(Rules(ps, start)), LLParser.Alphabet(ps)) && Closed1(ps, first, g)
    requires Productive(ps, first) ==> Filled(g)
    requires Grows(ds[p], g) && stack1 == if p in stack then stack else stack + [p]
    ensures LalrInv(ps, start, first, syms, ds[p := Merge(ds[p], g)], es, stack1, state, k)
    ensures Grown(ds, ds[p := Merge(ds[p], g)]) && Below(g, Merge(ds[p], g))
    ensures Deficit(ds[p := Merge(ds[p], g)], LalrSpace(ps, start)) < Deficit(ds, LalrSpace(ps, start))
  {
    var m := Merge(ds[p], g);
    var ds1 := ds[p := m];
    var U := ItemsOf(Rules(ps, start));
    var A := LLParser.Alphabet(ps);
    MergedState(ps, start, first, ds[p], g);
    StatesUpdate(ps, start, first, ds, p, m);
    Pushed(stack, p, |ds|);
    forall q | 0 <= q < |ds1| && q !in stack1 ensures q < |ds| && ds1[q] == ds[q] {
      UpdateAt(ds, p, m, q);
    }
    LalrGrow(ps, start, first, syms, ds, ds1, es, stack, stack1, state, k);
    PairsGrow(ds[p], g);
    PairsIn(m, U, A);
    DeficitUpdate(ds, LalrSpace(ps, start), p, m);
  }

  /** Joining a closed item set of the grammar with the same core into a state gives a state of the same kind, above both. */
  lemma MergedState(ps: seq<Production>, start: string, first: LLParser.Sets, d: Items, g: Items)
    requires SameCore(d, g)
    requires Within(d, ItemsOf(Rules(ps, start)), LLParser.Alphabet(ps)) && Closed1(ps, first, d)
    requires Within(g, ItemsOf(Rules(ps, start)), LLParser.Alphabet(ps)) && Closed1(ps, first, g)
    ensures var m := Merge(d, g);
            && m.Keys == d.Keys && Below(d, m) && Below(g, m)
            && Within(m, ItemsOf(Rules(ps, start)), LLParser.Alphabet(ps)) && Closed1(ps, first, m)
            && (Filled(d) ==> Filled(m))
  {
    MergeSpec(d, g);
    MergeWithin(d, g, ItemsOf(Rules(ps, start)), LLParser.Alphabet(ps));
    Closed1Merge(ps, first, d, g);
  }

  /** Replacing a state by one with the same core and more lookaheads, of the same kind, keeps the states sound. */
  lemma StatesUpdate(ps: seq<Production>, start: string, first: LLParser.Sets, ds: seq<Items>, p: nat, m: Items)
    requires LalrStates(ps, start, first, ds) && p < |ds|
    requires m.Keys == ds[p].Keys && Below(ds[p], m)
    requires Within(m, ItemsOf(Rules(ps, start)), LLParser.Alphabet(ps)) && Closed1(ps, first, m)
    requires Productive(ps, first) ==> Filled(m)
    ensures LalrStates(ps, start, first, ds[p := m])
    ensures Grown(ds, ds[p := m])
  {
    UpdatedGrown(ds, p, m);
    UpdatedParts(ps, start, first, ds, p, m, ds[p := m]);
    if p == 0 {
      BelowTrans(StartMap(start), ds[0], m);
    } else {
      UpdateAt(ds, p, m, 0);
    }
  }

  /** Growing one state in place, its core kept, grows the sequence and keeps every core. */
  lemma UpdatedGrown(ds: seq<Items>, p: nat, m: Items)
    requires p < |ds| && m.Keys == ds[p].Keys && Below(ds[p], m)
    ensures Grown(ds, ds[p := m])
    ensures DistinctCores(ds) ==> DistinctCores(ds[p := m])
  {
    var ds1 := ds[p := m];
    forall i | 0 <= i < |ds| ensures ds1[i].Keys == ds[i].Keys && Below(ds[i], ds1[i]) {
      if i != p {
        UpdateAt(ds, p, m, i);
      }
    }
  }

  /** Growing one state in place by a closed set within the grammar keeps every state so. */
  lemma UpdatedParts(ps: seq<Production>, start: string, first: LLParser.Sets, ds: seq<Items>, p: nat, m: Items,
                     ds1: seq<Items>)
    requires p < |ds| && ds1 == ds[p := m]
    requires forall q :: 0 <= q < |ds| ==> Within(ds[q], ItemsOf(Rules(ps, start)), LLParser.Alphabet(ps))
    requires forall q :: 0 <= q < |ds| ==> Closed1(ps, first, ds[q])
    requires Productive(ps, first) ==> forall q :: 0 <= q < |ds| ==> Filled(ds[q])
    requires Within(m, ItemsOf(Rules(ps, start)), LLParser.Alphabet(ps)) && Closed1(ps, first, m)
    requires Productive(ps, first) ==> Filled(m)
    ensures forall q :: 0 <= q < |ds1| ==> Within(ds1[q], ItemsOf(Rules(ps, start)), LLParser.Alphabet(ps))
    ensures forall q :: 0 <= q < |ds1| ==> Closed1(ps, first, ds1[q])
    ensures Productive(ps, first) ==> forall q :: 0 <= q < |ds1| ==> Filled(ds1[q])
  {
    forall q | 0 <= q < |ds| && q != p ensures ds1[q] == ds[q] {
      UpdateAt(ds, p, m, q);
    }
  }

  /** A goto whose core no state has becomes a new state on the stack. */
  lemma LalrAppended(ps: seq<Production>, start: string, first: LLParser.Sets, syms: seq<Symbol>,
                     ds: seq<Items>, es: seq<Edge<Symbol>>, stack: seq<nat>, state: nat, k: nat, g: Items,
                     stack1: seq<nat>)
    requires LalrInv(ps, start, first, syms, ds, es, stack, state, k)
    requires forall i :: 0 <= i < |ds| ==> !SameCore(ds[i], g)
    requires Within(g, ItemsOf(Rules(ps, start)), LLParser.Alphabet(ps)) && Closed1(ps, first, g)
    requires Productive(ps, first) ==> Filled(g)
    requires stack1 == if |ds| in stack then stack else stack + [|ds|]
    ensures LalrInv(ps, start, first, syms, ds + [g], es, stack1, state, k)
    ensures Grown(ds, ds + [g])
    ensures forall q :: 0 <= q < |ds| + 1 && q !in stack1 ==> q < |ds| && (ds + [g])[q] == ds[q]
  {
    var ds1 := ds + [g];
    StatesAppend(ps, start, first, ds, g);
    Pushed(stack, |ds|, |ds| + 1);
    assert forall q :: 0 <= q < |ds| + 1 && q !in stack1 ==> q < |ds| && ds1[q] == ds[q];
    LalrGrow(ps, start, first, syms, ds, ds1, es, stack, stack1, state, k);
  }

  /** A new state with a core no state has, of the same kind, keeps the states sound. */
  lemma StatesAppend(ps: seq<Production>, start: string, first: LLParser.Sets, ds: seq<Items>, g: Items)
    requires LalrStates(ps, start, first, ds)
    requires forall i :: 0 <= i < |ds| ==> !SameCore(ds[i], g)
    requires Within(g, ItemsOf(Rules(ps, start)), LLParser.Alphabet(ps)) && Closed1(ps, first, g)
    requires Productive(ps, first) ==> Filled(g)
    ensures LalrStates(ps, start, first, ds + [g]) && Grown(ds, ds + [g])
  {
    var ds1 := ds + [g];
    forall q | 0 <= q < |ds1|
      ensures Within(ds1[q], ItemsOf(Rules(ps, start)), LLParser.Alphabet(ps)) && Closed1(ps, first, ds1[q])
      ensures Productive(ps, first) ==> Filled(ds1[q])
    {
      if q < |ds| {
        AppendAt(ds, g, q);
      }
    }
    assert DistinctCores(ds1) by {
      forall i, j | 0 <= i < j < |ds1| ensures ds1[i].Keys != ds1[j].Keys {
        AppendAt(ds, g, i);
        if j < |ds| {
          AppendAt(ds, g, j);
        }
      }
    }
    AppendAt(ds, g, 0);
    assert Grown(ds, ds1) by {
      forall r | 0 <= r < |ds| ensures ds1[r] == ds[r] {
        AppendAt(ds, g, r);
      }
    }
  }

  /** Appending leaves the earlier elements alone. */
  lemma AppendAt<X>(s: seq<X>, x: X, q: nat)
    requires q < |s|
    ensures (s + [x])[q] == s[q]
  {
  }

  /** Updating one element leaves the others alone. */
  lemma UpdateAt<X>(s: seq<X>, p: nat, x: X, q: nat)
    requires p < |s| && q < |s| && q != p
    ensures s[p := x][q] == s[q]
  {
  }

  /** `if !stack.contains(&p) { stack.push(p) }`: p is on the stack afterwards, and nothing else joined it. */
  lemma Pushed(stack: seq<nat>, p: nat, n: nat)
    requires (forall i :: 0 <= i < |stack| ==> stack[i] < n) && p < n
    ensures var s1 := if p in stack then stack else stack + [p];
            && (forall q :: q in s1 <==> q in stack || q == p)
            && (forall i :: 0 <= i < |s1| ==> s1[i] < n)
  {
  }

  /** A symbol whose kernel is empty, or whose transition already leads to a state above the kernel, needs nothing. */
  lemma LalrCovered(ps: seq<Production>, start: string, first: LLParser.Sets, syms: seq<Symbol>,
                    ds: seq<Items>, es: seq<Edge<Symbol>>, stack: seq<nat>, state: nat, k: nat)
    requires LalrInv(ps, start, first, syms, ds, es, stack, state, k) && k < |syms|
    requires Kernel(ds[state].Keys, syms[k]) == {} || Automaton.Step(es, state, syms[k]).Some?
    requires Productive(ps, first) && state !in stack && Automaton.Step(es, state, syms[k]).Some? ==>
               Automaton.Step(es, state, syms[k]).value < |ds| &&
               Below(KernelMap(ds[state], syms[k]), ds[Automaton.Step(es, state, syms[k]).value])
    ensures LalrInv(ps, start, first, syms, ds, es, stack, state, k + 1)
  {
    if state !in stack {
      DoneNext(ps, first, syms, ds, es, state, k);
    }
  }

  /** Symbol k of a state needs nothing when its kernel is empty or its transition leads above the kernel. */
  lemma DoneNext(ps: seq<Production>, first: LLParser.Sets, syms: seq<Symbol>, ds: seq<Items>, es: seq<Edge<Symbol>>,
                 q: nat, k: nat)
    requires Done(ps, first, syms, ds, es, q, k) && k < |syms|
    requires Kernel(ds[q].Keys, syms[k]) == {} || Automaton.Step(es, q, syms[k]).Some?
    requires Productive(ps, first) && Automaton.Step(es, q, syms[k]).Some? ==>
               Automaton.Step(es, q, syms[k]).value < |ds| &&
               Below(KernelMap(ds[q], syms[k]), ds[Automaton.Step(es, q, syms[k]).value])
    ensures Done(ps, first, syms, ds, es, q, k + 1)
  {
  }

  /** A transition added where there was none, to a state whose core is the LR(0) goto, covers symbol k. */
  lemma LalrEdge(ps: seq<Production>, start: string, first: LLParser.Sets, syms: seq<Symbol>,
                 ds: seq<Items>, es: seq<Edge<Symbol>>, stack: seq<nat>, state: nat, k: nat, p: nat)
    requires LalrInv(ps, start, first, syms, ds, es, stack, state, k) && k < |syms| && p < |ds|
    requires Kernel(ds[state].Keys, syms[k]) != {} && Automaton.Step(es, state, syms[k]).None?
    requires Kernel(ds[state].Keys, syms[k]) <= ds[p].Keys
    requires Productive(ps, first) ==> IsClosure0(ps, Kernel(ds[state].Keys, syms[k]), ds[p].Keys)
    requires Productive(ps, first) && state !in stack ==> Below(KernelMap(ds[state], syms[k]), ds[p])
    ensures LalrInv(ps, start, first, syms, ds, es + [Edge(state, p, syms[k])], stack, state, k + 1)
  {
    var e := Edge(state, p, syms[k]);
    EdgesAppend(ps, first, ds, es, e);
    forall q | 0 <= q < |ds| && q !in stack && q != state ensures Done(ps, first, syms, ds, es + [e], q, |syms|) {
      DoneOther(ps, first, syms, ds, es, e, q, |syms|);
    }
    if state !in stack {
      DoneAdd(ps, first, syms, ds, es, state, k, p);
    }
  }

  /** An edge from a state, on a symbol whose kernel is not empty, where there was none, to a state with the LR(0) goto as core, keeps the transitions sound. */
  lemma EdgesAppend(ps: seq<Production>, first: LLParser.Sets, ds: seq<Items>, es: seq<Edge<Symbol>>, e: Edge<Symbol>)
    requires LalrEdges(ps, first, ds, es) && e.inVertex < |ds| && e.outVertex < |ds|
    requires Kernel(ds[e.inVertex].Keys, e.cost) != {} && Automaton.Step(es, e.inVertex, e.cost).None?
    requires Kernel(ds[e.inVertex].Keys, e.cost) <= ds[e.outVertex].Keys
    requires Productive(ps, first) ==> IsClosure0(ps, Kernel(ds[e.inVertex].Keys, e.cost), ds[e.outVertex].Keys)
    ensures LalrEdges(ps, first, ds, es + [e])
  {
    DeterministicAppend(es, e);
    assert forall i :: 0 <= i < |es| ==> (es + [e])[i] == es[i];
  }

  /** A state other than the new edge's source keeps its transitions. */
  lemma DoneOther(ps: seq<Production>, first: LLParser.Sets, syms: seq<Symbol>, ds: seq<Items>, es: seq<Edge<Symbol>>,
                  e: Edge<Symbol>, q: nat, k: nat)
    requires Done(ps, first, syms, ds, es, q, k) && e.inVertex != q
    ensures Done(ps, first, syms, ds, es + [e], q, k)
  {
    forall j | 0 <= j < k && j < |syms| ensures Automaton.Step(es + [e], q, syms[j]) == Automaton.Step(es, q, syms[j]) {
      StepAppend(es, e, q, syms[j]);
    }
  }

  /** The new edge of a state on symbol k, to a state above the kernel, covers symbol k. */
  lemma DoneAdd(ps: seq<Production>, first: LLParser.Sets, syms: seq<Symbol>, ds: seq<Items>, es: seq<Edge<Symbol>>,
                state: nat, k: nat, p: nat)
    requires Done(ps, first, syms, ds, es, state, k) && k < |syms| && p < |ds|
    requires Automaton.Step(es, state, syms[k]).None?
    requires Productive(ps, first) ==> Below(KernelMap(ds[state], syms[k]), ds[p])
    ensures Done(ps, first, syms, ds, es + [Edge(state, p, syms[k])], state, k + 1)
  {
    var e := Edge(state, p, syms[k]);
    forall j | 0 <= j < k + 1 && j < |syms| ensures Automaton.Step(es + [e], state, syms[j]) ==
      if syms[j] == syms[k] then Some(p) else Automaton.Step(es, state, syms[j])
    {
      StepAppend(es, e, state, syms[j]);
    }
  }

  /** In a productive grammar, a transition on x leads to the state whose core is the LR(0) goto on x. */
  lemma GotoTarget(ps: seq<Production>, first: LLParser.Sets, ds: seq<Items>, es: seq<Edge<Symbol>>,
                   state: nat, x: Symbol, p: nat)
    requires Productive(ps, first) && DistinctCores(ds) && LalrEdges(ps, first, ds, es) && state < |ds| && p < |ds|
    requires IsClosure0(ps, Kernel(ds[state].Keys, x), ds[p].Keys)
    requires Automaton.Step(es, state, x).Some?
    ensures Automaton.Step(es, state, x).value == p
  {
    StepSpec(es, state, x);
    var i :| 0 <= i < |es| && es[i].inVertex == state && es[i].cost == x && es[i].outVertex == Automaton.Step(es, state, x).value;
    Closure0Unique(ps, Kernel(ds[state].Keys, x), ds[p].Keys, ds[es[i].outVertex].Keys);
  }

  /** `graph.vertices[p].data.extend_all(g)`: the state's items joined with g in place; the flag says whether they grew. */
  method MergeInto(graph: StateTransferGraph<Items, Symbol>, p: nat, g: Items) returns (grew: bool)
    requires graph.Valid() && p < |graph.vertices|
    modifies graph
    ensures graph.Valid()
    ensures Datas(graph.vertices) == old(Datas(graph.vertices))[p := Merge(old(graph.vertices[p].data), g)]
    ensures grew <==> Grows(old(graph.vertices[p].data), g)
    ensures graph.edges == old(graph.edges) && graph.start == old(graph.start)
    ensures graph.end == old(graph.end) && graph.ends == old(graph.ends)
  {
    var r;
    r, grew := ExtendAll(graph.vertices[p].data, g);
    graph.vertices := graph.vertices[p := graph.vertices[p].(data := r)];
  }

  /**
   * What one visit of a symbol leaves behind, from states ds0 and stack
   * stack0: the worklist invariant, states that only grew, a stack that
   * only grew, states off the stack as they were, and progress.
   */
  ghost predicate Visited(ps: seq<Production>, start: string, first: LLParser.Sets, syms: seq<Symbol>,
                          ds0: seq<Items>, stack0: seq<nat>, ds: seq<Items>, es: seq<Edge<Symbol>>, stack: seq<nat>,
                          state: nat, k: nat)
  {
    && LalrInv(ps, start, first, syms, ds, es, stack, state, k)
    && Grown(ds0, ds)
    && (forall q :: q in stack0 ==> q in stack)
    && (forall q :: 0 <= q < |ds| && q !in stack ==> q < |ds0| && ds[q] == ds0[q])
    && Progress(|ds0|, Deficit(ds0, LalrSpace(ps, start)), |stack0|, |ds|, Deficit(ds, LalrSpace(ps, start)), |stack|)
  }

  /** An empty goto: nothing changes, and the symbol is visited. */
  lemma VisitEmpty(ps: seq<Production>, start: string, first: LLParser.Sets, syms: seq<Symbol>,
                   ds: seq<Items>, es: seq<Edge<Symbol>>, stack: seq<nat>, state: nat, k: nat)
    requires LalrInv(ps, start, first, syms, ds, es, stack, state, k) && k < |syms|
    requires Kernel(ds[state].Keys, syms[k]) == {}
    ensures Visited(ps, start, first, syms, ds, stack, ds, es, stack, state, k + 1)
  {
    StepSpec(es, state, syms[k]);
    assert Automaton.Step(es, state, syms[k]).None? by {
      forall i | 0 <= i < |es| && es[i].inVertex == state ensures es[i].cost != syms[k] {
        assert Kernel(ds[es[i].inVertex].Keys, es[i].cost) != {};
      }
    }
    LalrCovered(ps, start, first, syms, ds, es, stack, state, k);
  }

  /** The goto joined into the state with its core, which grew. */
  lemma TargetMerged(ps: seq<Production>, start: string, first: LLParser.Sets, syms: seq<Symbol>,
                     ds: seq<Items>, es: seq<Edge<Symbol>>, stack: seq<nat>, state: nat, k: nat, p: nat, g: Items,
                     stack1: seq<nat>)
    requires LalrPre(ps, start, first) && LalrInv(ps, start, first, syms, ds, es, stack, state, k)
    requires p < |ds| && SameCore(ds[p], g)
    requires Within(g, ItemsOf(Rules(ps, start)), LLParser.Alphabet(ps)) && Closed1(ps, first, g)
    requires Productive(ps, first) ==> Filled(g)
    requires Grows(ds[p], g) && stack1 == if p in stack then stack else stack + [p]
    ensures Visited(ps, start, first, syms, ds, stack, ds[p := Merge(ds[p], g)], es, stack1, state, k)
    ensures Merge(ds[p], g).Keys == g.Keys && Below(g, Merge(ds[p], g))
  {
    LalrMerged(ps, start, first, syms, ds, es, stack, state, k, p, g, stack1);
    Pushed(stack, p, |ds|);
    var ds1 := ds[p := Merge(ds[p], g)];
    forall q | 0 <= q < |ds1| && q !in stack1 ensures q < |ds| && ds1[q] == ds[q] {
      UpdateAt(ds, p, Merge(ds[p], g), q);
    }
    VisitedIntro(ps, start, first, syms, ds, stack, ds1, es, stack1, state, k);
  }

  /** `Visited` of equal states. */
  lemma VisitedSame(ps: seq<Production>, start: string, first: LLParser.Sets, syms: seq<Symbol>,
                    ds0: seq<Items>, stack0: seq<nat>, ds: seq<Items>, es: seq<Edge<Symbol>>, stack: seq<nat>,
                    state: nat, k: nat, ds0': seq<Items>, ds': seq<Items>)
    requires Visited(ps, start, first, syms, ds0, stack0, ds, es, stack, state, k) && ds0' == ds0 && ds' == ds
    ensures Visited(ps, start, first, syms, ds0', stack0, ds', es, stack, state, k)
  {
  }

  /** The parts of `Visited`, put together. */
  lemma VisitedIntro(ps: seq<Production>, start: string, first: LLParser.Sets, syms: seq<Symbol>,
                     ds0: seq<Items>, stack0: seq<nat>, ds: seq<Items>, es: seq<Edge<Symbol>>, stack: seq<nat>,
                     state: nat, k: nat)
    requires LalrInv(ps, start, first, syms, ds, es, stack, state, k)
    requires Grown(ds0, ds)
    requires forall q :: q in stack0 ==> q in stack
    requires forall q :: 0 <= q < |ds| && q !in stack ==> q < |ds0| && ds[q] == ds0[q]
    requires Progress(|ds0|, Deficit(ds0, LalrSpace(ps, start)), |stack0|, |ds|, Deficit(ds, LalrSpace(ps, start)), |stack|)
    ensures Visited(ps, start, first, syms, ds0, stack0, ds, es, stack, state, k)
  {
  }

  /** The goto already inside the state with its core: nothing changes. */
  lemma TargetKept(ps: seq<Production>, start: string, first: LLParser.Sets, syms: seq<Symbol>,
                   ds: seq<Items>, es: seq<Edge<Symbol>>, stack: seq<nat>, state: nat, k: nat, p: nat, g: Items)
    requires LalrInv(ps, start, first, syms, ds, es, stack, state, k)
    requires p < |ds| && SameCore(ds[p], g) && !Grows(ds[p], g)
    ensures Visited(ps, start, first, syms, ds, stack, ds, es, stack, state, k)
    ensures Merge(ds[p], g) == ds[p] && Below(g, ds[p])
  {
    MergeSpec(ds[p], g);
  }

  /** The goto as a new state. */
  lemma TargetAppended(ps: seq<Production>, start: string, first: LLParser.Sets, syms: seq<Symbol>,
                       ds: seq<Items>, es: seq<Edge<Symbol>>, stack: seq<nat>, state: nat, k: nat, g: Items,
                       stack1: seq<nat>)
    requires LalrInv(ps, start, first, syms, ds, es, stack, state, k)
    requires forall i :: 0 <= i < |ds| ==> !SameCore(ds[i], g)
    requires Within(g, ItemsOf(Rules(ps, start)), LLParser.Alphabet(ps)) && Closed1(ps, first, g)
    requires Productive(ps, first) ==> Filled(g)
    requires stack1 == if |ds| in stack then stack else stack + [|ds|]
    ensures Visited(ps, start, first, syms, ds, stack, ds + [g], es, stack1, state, k)
    ensures (ds + [g])[|ds|] == g
  {
    LalrAppended(ps, start, first, syms, ds, es, stack, state, k, g, stack1);
    Pushed(stack, |ds|, |ds| + 1);
  }

  /** A new transition to the goto's state completes the visit. */
  lemma LinkNew(ps: seq<Production>, start: string, first: LLParser.Sets, syms: seq<Symbol>,
                ds0: seq<Items>, stack0: seq<nat>, ds: seq<Items>, es: seq<Edge<Symbol>>, stack: seq<nat>,
                state: nat, k: nat, p: nat, g: Items)
    requires Visited(ps, start, first, syms, ds0, stack0, ds, es, stack, state, k) && k < |syms| && p < |ds|
    requires state < |ds0| && Kernel(ds0[state].Keys, syms[k]) != {} && Automaton.Step(es, state, syms[k]).None?
    requires Below(KernelMap(ds0[state], syms[k]), g) && ds[p].Keys == g.Keys && Below(g, ds[p])
    requires Productive(ps, first) ==> IsClosure0(ps, Kernel(ds0[state].Keys, syms[k]), g.Keys)
    ensures Visited(ps, start, first, syms, ds0, stack0, ds, es + [Edge(state, p, syms[k])], stack, state, k + 1)
  {
    if Productive(ps, first) && state !in stack {
      BelowTrans(KernelMap(ds[state], syms[k]), g, ds[p]);
    }
    assert ds[state].Keys == ds0[state].Keys;
    assert Kernel(ds[state].Keys, syms[k]) == KernelMap(ds0[state], syms[k]).Keys;
    LalrEdge(ps, start, first, syms, ds, es, stack, state, k, p);
  }

  /** A transition already there leads to the goto's state in a productive grammar: the visit is complete. */
  lemma LinkOld(ps: seq<Production>, start: string, first: LLParser.Sets, syms: seq<Symbol>,
                ds0: seq<Items>, stack0: seq<nat>, ds: seq<Items>, es: seq<Edge<Symbol>>, stack: seq<nat>,
                state: nat, k: nat, p: nat, g: Items)
    requires Visited(ps, start, first, syms, ds0, stack0, ds, es, stack, state, k) && k < |syms| && p < |ds|
    requires state < |ds0| && Automaton.Step(es, state, syms[k]).Some?
    requires Below(KernelMap(ds0[state], syms[k]), g) && ds[p].Keys == g.Keys && Below(g, ds[p])
    requires Productive(ps, first) ==> IsClosure0(ps, Kernel(ds0[state].Keys, syms[k]), g.Keys)
    ensures Visited(ps, start, first, syms, ds0, stack0, ds, es, stack, state, k + 1)
  {
    if Productive(ps, first) {
      GotoTarget(ps, first, ds, es, state, syms[k], p);
      if state !in stack {
        BelowTrans(KernelMap(ds[state], syms[k]), g, ds[p]);
      }
    }
    LalrCovered(ps, start, first, syms, ds, es, stack, state, k);
  }

  /**
   * The state a goto joins in `construct_lalr_1`: the state with its core,
   * grown by it in place and pushed on the stack if it grew and is not
   * there; or a new state, pushed.
   */
  method LalrTarget(graph: StateTransferGraph<Items, Symbol>, ps: seq<Production>, start: string, first: LLParser.Sets,
                    ghost syms: seq<Symbol>, stack: seq<nat>, state: nat, k: nat, g: Items)
    returns (p: nat, stack1: seq<nat>)
    requires graph.Valid() && LalrPre(ps, start, first)
    requires LalrInv(ps, start, first, syms, Datas(graph.vertices), graph.edges, stack, state, k)
    requires Within(g, ItemsOf(Rules(ps, start)), LLParser.Alphabet(ps)) && Closed1(ps, first, g)
    requires Productive(ps, first) ==> Filled(g)
    modifies graph
    ensures graph.Valid() && graph.edges == old(graph.edges) && graph.start == old(graph.start)
    ensures graph.end == old(graph.end) && graph.ends == old(graph.ends)
    ensures Visited(ps, start, first, syms, old(Datas(graph.vertices)), stack, Datas(graph.vertices), graph.edges, stack1, state, k)
    ensures p < |graph.vertices| && graph.vertices[p].data.Keys == g.Keys && Below(g, graph.vertices[p].data)
  {
    var pos := Position(Datas(graph.vertices), g);
    if pos.Some? {
      p := pos.value;
      stack1 := LalrJoin(graph, ps, start, first, syms, stack, state, k, p, g);
    } else {
      p, stack1 := LalrAdd(graph, ps, start, first, syms, stack, state, k, g);
    }
  }

  /** `extend_all` of a goto into the state p with its core; p is pushed if it grew and is not on the stack. */
  method LalrJoin(graph: StateTransferGraph<Items, Symbol>, ps: seq<Production>, start: string, first: LLParser.Sets,
                  ghost syms: seq<Symbol>, stack: seq<nat>, state: nat, k: nat, p: nat, g: Items)
    returns (stack1: seq<nat>)
    requires graph.Valid() && LalrPre(ps, start, first)
    requires LalrInv(ps, start, first, syms, Datas(graph.vertices), graph.edges, stack, state, k)
    requires p < |graph.vertices| && SameCore(graph.vertices[p].data, g)
    requires Within(g, ItemsOf(Rules(ps, start)), LLParser.Alphabet(ps)) && Closed1(ps, first, g)
    requires Productive(ps, first) ==> Filled(g)
    modifies graph
    ensures graph.Valid() && graph.edges == old(graph.edges) && graph.start == old(graph.start)
    ensures graph.end == old(graph.end) && graph.ends == old(graph.ends)
    ensures Visited(ps, start, first, syms, old(Datas(graph.vertices)), stack, Datas(graph.vertices), graph.edges, stack1, state, k)
    ensures p < |graph.vertices| && graph.vertices[p].data.Keys == g.Keys && Below(g, graph.vertices[p].data)
  {
    ghost var ds := Datas(graph.vertices);
    assert ds[p] == graph.vertices[p].data;
    var grew := MergeInto(graph, p, g);
    assert Datas(graph.vertices) == ds[p := Merge(ds[p], g)];
    assert graph.vertices[p].data == Merge(ds[p], g);
    if grew {
      stack1 := if p in stack then stack else stack + [p];
      TargetMerged(ps, start, first, syms, ds, graph.edges, stack, state, k, p, g, stack1);
      VisitedSame(ps, start, first, syms, ds, stack, ds[p := Merge(ds[p], g)], graph.edges, stack1, state, k,
                  old(Datas(graph.vertices)), Datas(graph.vertices));
    } else {
      stack1 := stack;
      TargetKept(ps, start, first, syms, ds, graph.edges, stack, state, k, p, g);
      VisitedSame(ps, start, first, syms, ds, stack, ds, graph.edges, stack1, state, k,
                  old(Datas(graph.vertices)), Datas(graph.vertices));
    }
  }

  /** `add_state_with_data` of a goto whose core no state has; the new state is pushed. */
  method LalrAdd(graph: StateTransferGraph<Items, Symbol>, ps: seq<Production>, start: string, first: LLParser.Sets,
                 ghost syms: seq<Symbol>, stack: seq<nat>, state: nat, k: nat, g: Items)
    returns (p: nat, stack1: seq<nat>)
    requires graph.Valid() && LalrPre(ps, start, first)
    requires LalrInv(ps, start, first, syms, Datas(graph.vertices), graph.edges, stack, state, k)
    requires forall i :: 0 <= i < |graph.vertices| ==> !SameCore(graph.vertices[i].data, g)
    requires Within(g, ItemsOf(Rules(ps, start)), LLParser.Alphabet(ps)) && Closed1(ps, first, g)
    requires Productive(ps, first) ==> Filled(g)
    modifies graph
    ensures graph.Valid() && graph.edges == old(graph.edges) && graph.start == old(graph.start)
    ensures graph.end == old(graph.end) && graph.ends == old(graph.ends)
    ensures Visited(ps, start, first, syms, old(Datas(graph.vertices)), stack, Datas(graph.vertices), graph.edges, stack1, state, k)
    ensures p < |graph.vertices| && graph.vertices[p].data == g
  {
    ghost var ds := Datas(graph.vertices);
    p := graph.AddStateWithData(g);
    assert Datas(graph.vertices) == ds + [g];
    stack1 := if p in stack then stack else stack + [p];
    TargetAppended(ps, start, first, syms, ds, graph.edges, stack, state, k, g, stack1);
    VisitedSame(ps, start, first, syms, ds, stack, ds + [g], graph.edges, stack1, state, k,
                old(Datas(graph.vertices)), Datas(graph.vertices));
  }

  /**
   * The body of the symbol loop of `construct_lalr_1`: the goto of the
   * state on x; if it is not empty, it joins a state (`LalrTarget`), and a
   * transition on x to that state is added unless the state already has
   * one.
   */
  method Lalr1Visit(graph: StateTransferGraph<Items, Symbol>, ps: seq<Production>, start: string, first: LLParser.Sets,
                    ghost syms: seq<Symbol>, stack: seq<nat>, state: nat, k: nat, x: Symbol) returns (stack1: seq<nat>)
    requires graph.Valid() && k < |syms| && x == syms[k] && LalrPre(ps, start, first)
    requires LalrInv(ps, start, first, syms, Datas(graph.vertices), graph.edges, stack, state, k)
    modifies graph
    ensures graph.Valid() && graph.start == old(graph.start) && graph.end == old(graph.end) && graph.ends == old(graph.ends)
    ensures Visited(ps, start, first, syms, old(Datas(graph.vertices)), stack, Datas(graph.vertices), graph.edges, stack1, state, k + 1)
  {
    ghost var ds := Datas(graph.vertices);
    ItemsFormal(ps, start, ds[state]);
    var g := Goto1(ps, first, graph.vertices[state].data, x);
    if |g| == 0 {
      VisitEmpty(ps, start, first, syms, ds, graph.edges, stack, state, k);
      return stack;
    }
    GotoFacts(ps, start, first, ds[state], x, g);
    stack1 := Lalr1Link(graph, ps, start, first, syms, stack, state, k, x, g);
  }

  /** A nonempty goto of the state on x joins a state, and the state gets a transition on x if it has none. */
  method Lalr1Link(graph: StateTransferGraph<Items, Symbol>, ps: seq<Production>, start: string, first: LLParser.Sets,
                   ghost syms: seq<Symbol>, stack: seq<nat>, state: nat, k: nat, x: Symbol, g: Items)
    returns (stack1: seq<nat>)
    requires graph.Valid() && k < |syms| && x == syms[k] && LalrPre(ps, start, first)
    requires LalrInv(ps, start, first, syms, Datas(graph.vertices), graph.edges, stack, state, k)
    requires state < |graph.vertices| && Kernel(Datas(graph.vertices)[state].Keys, x) != {}
    requires Within(g, ItemsOf(Rules(ps, start)), LLParser.Alphabet(ps)) && Closed1(ps, first, g)
    requires Below(KernelMap(Datas(graph.vertices)[state], x), g)
    requires Productive(ps, first) ==> Filled(g) && IsClosure0(ps, Kernel(Datas(graph.vertices)[state].Keys, x), g.Keys)
    modifies graph
    ensures graph.Valid() && graph.start == old(graph.start) && graph.end == old(graph.end) && graph.ends == old(graph.ends)
    ensures Visited(ps, start, first, syms, old(Datas(graph.vertices)), stack, Datas(graph.vertices), graph.edges, stack1, state, k + 1)
  {
    ghost var ds := Datas(graph.vertices);
    var p;
    p, stack1 := LalrTarget(graph, ps, start, first, syms, stack, state, k, g);
    ghost var es := graph.edges;
    var tr := graph.GetTransition(state, x);
    if tr.None? {
      var e := graph.AddTransfer(state, p, x);
      LinkNew(ps, start, first, syms, ds, stack, Datas(graph.vertices), es, stack1, state, k, p, g);
    } else {
      LinkOld(ps, start, first, syms, ds, stack, Datas(graph.vertices), es, stack1, state, k, p, g);
    }
  }

  /** Two visits in a row are one. */
  lemma VisitedTrans(ps: seq<Production>, start: string, first: LLParser.Sets, syms: seq<Symbol>,
                     ds0: seq<Items>, stack0: seq<nat>, ds1: seq<Items>, es1: seq<Edge<Symbol>>, stack1: seq<nat>,
                     ds2: seq<Items>, es2: seq<Edge<Symbol>>, stack2: seq<nat>, state: nat, k: nat)
    requires Visited(ps, start, first, syms, ds0, stack0, ds1, es1, stack1, state, k)
    requires Visited(ps, start, first, syms, ds1, stack1, ds2, es2, stack2, state, k + 1)
    ensures Visited(ps, start, first, syms, ds0, stack0, ds2, es2, stack2, state, k + 1)
  {
    forall r | 0 <= r < |ds0| ensures ds2[r].Keys == ds0[r].Keys && Below(ds0[r], ds2[r]) {
      BelowTrans(ds0[r], ds1[r], ds2[r]);
    }
  }

  /** Before the first symbol, nothing has changed. */
  lemma VisitedStart(ps: seq<Production>, start: string, first: LLParser.Sets, syms: seq<Symbol>,
                     ds: seq<Items>, es: seq<Edge<Symbol>>, stack: seq<nat>, state: nat)
    requires LalrInv(ps, start, first, syms, ds, es, stack, state, 0)
    ensures Visited(ps, start, first, syms, ds, stack, ds, es, stack, state, 0)
  {
  }

  /** Marking the popped state if it accepts keeps the end states right. */
  lemma EndsPop(ds: seq<Items>, ends: seq<nat>, stack: seq<nat>, state: nat, ends1: seq<nat>)
    requires EndsOk(ds, ends, stack + [state]) && state < |ds|
    requires ends1 == if Accepting(ds[state], "$") then MarkEnd(ends, state) else ends
    ensures EndsOk(ds, ends1, stack)
  {
    MarkEndSpec(ends, state);
  }

  /**
   * One turn of the stack loop of `construct_lalr_1`, on a state just
   * popped: the state is marked as an end state if it holds a completed
   * `"$"` item, then every grammar symbol is visited.
   */
  method Lalr1State(graph: StateTransferGraph<Items, Symbol>, ps: seq<Production>, start: string, first: LLParser.Sets,
                    ghost syms: seq<Symbol>, terms: seq<Term>, stack: seq<nat>, state: nat) returns (stack1: seq<nat>)
    requires graph.Valid() && graph.start == 0 && LalrPre(ps, start, first)
    requires |terms| == |syms| && forall k :: 0 <= k < |terms| ==> Formal(terms[k]) && Key(terms[k]) == syms[k]
    requires LalrInv(ps, start, first, syms, Datas(graph.vertices), graph.edges, stack, state, 0)
    requires EndsOk(Datas(graph.vertices), graph.ends, stack + [state])
    modifies graph
    ensures graph.Valid() && graph.start == 0
    ensures Visited(ps, start, first, syms, old(Datas(graph.vertices)), stack, Datas(graph.vertices), graph.edges, stack1, state, |syms|)
    ensures EndsOk(Datas(graph.vertices), graph.ends, stack1)
  {
    ghost var ends0 := graph.ends;
    MarkAccepting(graph, state, "$");
    ghost var ds0 := Datas(graph.vertices);
    EndsPop(ds0, ends0, stack, state, graph.ends);
    VisitedStart(ps, start, first, syms, ds0, graph.edges, stack, state);
    stack1 := stack;
    for k := 0 to |terms|
      invariant graph.Valid() && graph.start == 0
      invariant Visited(ps, start, first, syms, ds0, stack, Datas(graph.vertices), graph.edges, stack1, state, k)
      invariant EndsOk(Datas(graph.vertices), graph.ends, stack1)
    {
      ghost var ds1 := Datas(graph.vertices);
      ghost var es1 := graph.edges;
      ghost var st := stack1;
      stack1 := Lalr1Visit(graph, ps, start, first, syms, stack1, state, k, Key(terms[k]));
      VisitedTrans(ps, start, first, syms, ds0, stack, ds1, es1, st, Datas(graph.vertices), graph.edges, stack1, state, k);
      EndsGrown(ds1, Datas(graph.vertices), graph.ends, st, stack1);
    }
  }

  /** Popping the top of the stack: every other state off the stack is up to date. */
  lemma LalrPop(ps: seq<Production>, start: string, first: LLParser.Sets, syms: seq<Symbol>,
                ds: seq<Items>, es: seq<Edge<Symbol>>, stack0: seq<nat>)
    requires LalrInv(ps, start, first, syms, ds, es, stack0, 0, |syms|) && |stack0| > 0
    ensures LalrInv(ps, start, first, syms, ds, es, stack0[..|stack0| - 1], stack0[|stack0| - 1], 0)
    ensures stack0 == stack0[..|stack0| - 1] + [stack0[|stack0| - 1]]
  {
    var stack := stack0[..|stack0| - 1];
    assert forall q :: q in stack0 <==> q in stack || q == stack0[|stack0| - 1];
  }

  /** A state visited in full is up to date like the others. */
  lemma LalrRest(ps: seq<Production>, start: string, first: LLParser.Sets, syms: seq<Symbol>,
                 ds0: seq<Items>, stack0: seq<nat>, ds: seq<Items>, es: seq<Edge<Symbol>>, stack: seq<nat>, state: nat)
    requires Visited(ps, start, first, syms, ds0, stack0, ds, es, stack, state, |syms|)
    ensures LalrInv(ps, start, first, syms, ds, es, stack, 0, |syms|)
    ensures Progress(|ds0|, Deficit(ds0, LalrSpace(ps, start)), |stack0|, |ds|, Deficit(ds, LalrSpace(ps, start)), |stack|)
    ensures |ds| <= Pow2(|ItemsOf(Rules(ps, start))|)
  {
    StatesBound(ds, ItemsOf(Rules(ps, start)));
  }

  /** The start state alone, on the stack, without transitions or end states. */
  lemma LalrInit(ps: seq<Production>, start: string, first: LLParser.Sets, syms: seq<Symbol>, s0: Items)
    requires LalrPre(ps, start, first) && IsClosure1(ps, first, StartMap(start), s0)
    ensures LalrInv(ps, start, first, syms, [s0], [], [0], 0, |syms|)
    ensures EndsOk([s0], [], [0])
  {
    InitState(ps, start, first, s0);
  }

  /** The start state, the closure of the start item, is a well-formed first state. */
  lemma InitState(ps: seq<Production>, start: string, first: LLParser.Sets, s0: Items)
    requires LalrPre(ps, start, first) && IsClosure1(ps, first, StartMap(start), s0)
    ensures LalrStates(ps, start, first, [s0])
  {
    var sm := StartMap(start);
    StartsInItems(ps, start);
    assert Within(sm, ItemsOf(Rules(ps, start)), LLParser.Alphabet(ps));
    ItemsFormal(ps, start, sm);
    ClosureWithin(ps, start, first, sm, s0);
    var C := {StartItem(start)} + Starts(ps);
    assert ClosedKeys(ps, C) by {
      forall it, i | it in C && 0 <= i < |ps| && Calls(it, ps[i].name) ensures Item(ps[i], 0) in C {
        assert Item(ps[i], 0) in Starts(ps);
      }
    }
    ClosureInside(ps, first, sm, s0, C);
    forall it | it in s0 ensures it.pos == 0 {
      if it != StartItem(start) {
        var i :| 0 <= i < |ps| && it == Item(ps[i], 0);
      }
    }
    if Productive(ps, first) {
      ClosureCore(ps, start, first, sm, s0);
    }
    assert LalrStates(ps, start, first, [s0]);
  }

  /** With the stack empty, there is a transition exactly where the kernel is not empty. */
  lemma LalrFinal(ps: seq<Production>, start: string, first: LLParser.Sets, syms: seq<Symbol>,
                  ds: seq<Items>, es: seq<Edge<Symbol>>)
    requires LalrInv(ps, start, first, syms, ds, es, [], 0, |syms|)
    ensures forall q, j :: 0 <= q < |ds| && 0 <= j < |syms| ==>
              (Kernel(ds[q].Keys, syms[j]) != {} <==> Automaton.Step(es, q, syms[j]).Some?)
  {
    forall q, j | 0 <= q < |ds| && 0 <= j < |syms|
      ensures Kernel(ds[q].Keys, syms[j]) != {} <==> Automaton.Step(es, q, syms[j]).Some?
    {
      assert Done(ps, first, syms, ds, es, q, |syms|);
      StepSpec(es, q, syms[j]);
    }
  }

  /** With the stack empty, in a productive grammar, every transition leads above the kernel. */
  lemma LalrFinalAhead(ps: seq<Production>, start: string, first: LLParser.Sets, syms: seq<Symbol>,
                       ds: seq<Items>, es: seq<Edge<Symbol>>)
    requires LalrInv(ps, start, first, syms, ds, es, [], 0, |syms|) && Productive(ps, first)
    ensures forall q, j :: 0 <= q < |ds| && 0 <= j < |syms| && Automaton.Step(es, q, syms[j]).Some? ==>
              Automaton.Step(es, q, syms[j]).value < |ds| &&
              Below(KernelMap(ds[q], syms[j]), ds[Automaton.Step(es, q, syms[j]).value])
  {
    forall q, j | 0 <= q < |ds| && 0 <= j < |syms| && Automaton.Step(es, q, syms[j]).Some?
      ensures Automaton.Step(es, q, syms[j]).value < |ds|
      ensures Below(KernelMap(ds[q], syms[j]), ds[Automaton.Step(es, q, syms[j]).value])
    {
      assert Done(ps, first, syms, ds, es, q, |syms|);
    }
  }

  /** With the stack empty, the end states are exactly the accepting states. */
  lemma EndsFinal(ds: seq<Items>, ends: seq<nat>)
    requires EndsOk(ds, ends, [])
    ensures forall q :: q in ends <==> 0 <= q < |ds| && Accepting(ds[q], "$")
  {
  }

  /**
   * The LALR(1) automaton of a grammar: sound states and transitions; a
   * transition exactly for each state and symbol whose kernel is not
   * empty; in a productive grammar, each transition leads to a state that
   * holds the kernel with all its lookaheads; and the end states are the
   * states with a completed `"$"` item.
   */
  ghost predicate LalrAutomaton(ps: seq<Production>, start: string, first: LLParser.Sets, syms: seq<Symbol>,
                                ds: seq<Items>, es: seq<Edge<Symbol>>, ends: seq<nat>)
  {
    && LalrStates(ps, start, first, ds)
    && LalrEdges(ps, first, ds, es)
    && (forall q, j :: 0 <= q < |ds| && 0 <= j < |syms| ==>
          (Kernel(ds[q].Keys, syms[j]) != {} <==> Automaton.Step(es, q, syms[j]).Some?))
    && (Productive(ps, first) ==>
          forall q, j :: 0 <= q < |ds| && 0 <= j < |syms| && Automaton.Step(es, q, syms[j]).Some? ==>
            Automaton.Step(es, q, syms[j]).value < |ds| &&
            Below(KernelMap(ds[q], syms[j]), ds[Automaton.Step(es, q, syms[j]).value]))
    && (forall q :: q in ends <==> 0 <= q < |ds| && Accepting(ds[q], "$"))
  }

  /** With the stack empty, the automaton is complete. */
  lemma LalrDone(ps: seq<Production>, start: string, first: LLParser.Sets, syms: seq<Symbol>,
                 ds: seq<Items>, es: seq<Edge<Symbol>>, ends: seq<nat>)
    requires LalrInv(ps, start, first, syms, ds, es, [], 0, |syms|) && EndsOk(ds, ends, [])
    ensures LalrAutomaton(ps, start, first, syms, ds, es, ends)
  {
    LalrFinal(ps, start, first, syms, ds, es);
    if Productive(ps, first) {
      LalrFinalAhead(ps, start, first, syms, ds, es);
    }
    EndsFinal(ds, ends);
  }

  /** The start of `construct_lalr_1`: a graph whose only state, the start state, is the closure of `"$" -> . <start>` with the end marker, and the grammar symbols. */
  method LalrStart(g: Grammar, first: LLParser.Sets) returns (graph: StateTransferGraph<Items, Symbol>, terms: seq<Term>)
    requires LalrPre(g.productions, g.startSymbol, first)
    ensures fresh(graph) && graph.Valid() && graph.start == 0
    ensures var syms := GrammarSymbols(g.productions);
            |terms| == |syms| && forall k :: 0 <= k < |terms| ==> Formal(terms[k]) && Key(terms[k]) == syms[k]
    ensures LalrInv(g.productions, g.startSymbol, first, GrammarSymbols(g.productions), Datas(graph.vertices), graph.edges,
                    [0], 0, |GrammarSymbols(g.productions)|)
    ensures EndsOk(Datas(graph.vertices), graph.ends, [0])
  {
    var ps := g.productions;
    graph := new StateTransferGraph(map[]);
    StartsInItems(ps, g.startSymbol);
    ItemsFormal(ps, g.startSymbol, StartMap(g.startSymbol));
    var s0 := Closure1(ps, first, StartMap(g.startSymbol));
    LalrInit(ps, g.startSymbol, first, GrammarSymbols(ps), s0);
    var start := graph.AddStateWithData(s0);
    graph.MarkAsStart(start);
    assert Datas(graph.vertices) == [s0];
    var ts := TerminalsOf(g);
    var nts := NonTerminals(g);
    terms := Symbols(ts, nts);
    SymbolsKeys(ps, ts, nts);
  }

  /**
   * The stack loop of `construct_lalr_1`: states are popped and revisited
   * until the stack is empty, and then every state is up to date.
   */
  method LalrLoop(graph: StateTransferGraph<Items, Symbol>, ps: seq<Production>, start: string, first: LLParser.Sets,
                  ghost syms: seq<Symbol>, terms: seq<Term>)
    requires graph.Valid() && graph.start == 0 && LalrPre(ps, start, first)
    requires |terms| == |syms| && forall k :: 0 <= k < |terms| ==> Formal(terms[k]) && Key(terms[k]) == syms[k]
    requires LalrInv(ps, start, first, syms, Datas(graph.vertices), graph.edges, [0], 0, |syms|)
    requires EndsOk(Datas(graph.vertices), graph.ends, [0])
    modifies graph
    ensures graph.Valid() && graph.start == 0
    ensures LalrInv(ps, start, first, syms, Datas(graph.vertices), graph.edges, [], 0, |syms|)
    ensures EndsOk(Datas(graph.vertices), graph.ends, [])
  {
    ghost var U := ItemsOf(Rules(ps, start));
    var stack := [0];
    StatesBound(Datas(graph.vertices), U);
    while |stack| > 0
      invariant graph.Valid() && graph.start == 0
      invariant LalrInv(ps, start, first, syms, Datas(graph.vertices), graph.edges, stack, 0, |syms|)
      invariant EndsOk(Datas(graph.vertices), graph.ends, stack)
      invariant |graph.vertices| <= Pow2(|U|)
      decreases Pow2(|U|) - |graph.vertices|, Deficit(Datas(graph.vertices), LalrSpace(ps, start)), |stack|
    {
      LalrPop(ps, start, first, syms, Datas(graph.vertices), graph.edges, stack);
      var state := stack[|stack| - 1];
      stack := stack[..|stack| - 1];
      ghost var ds0 := Datas(graph.vertices);
      ghost var stack0 := stack;
      stack := Lalr1State(graph, ps, start, first, syms, terms, stack, state);
      LalrRest(ps, start, first, syms, ds0, stack0, Datas(graph.vertices), graph.edges, stack, state);
    }
  }

  /**
   * `construct_lalr_1`: the LALR(1) automaton of a grammar, built with a
   * stack of states to revisit. FIRST is the least solution of its
   * equations; FOLLOW is computed and not used. State 0 lies above
   * `"$" -> . <start>` with the end marker; states have distinct cores and
   * are closed under the LALR closure; there is a transition exactly for
   * each state and grammar symbol whose kernel is not empty, to a state
   * holding that kernel; in a grammar whose nonterminals all have a
   * terminal in FIRST, a transition leads to the state whose core is the
   * LR(0) goto and which holds the kernel with all its lookaheads; and the
   * end states are the states with a completed `"$"` item. The loop ends
   * because each turn adds a state, adds a lookahead to one, or shortens
   * the stack, and states and lookaheads are finitely many.
   */
  method ConstructLALR1(g: Grammar) returns (graph: StateTransferGraph<Items, Symbol>, ghost first: LLParser.Sets)
    requires LLParser.FormalGrammar(g.productions) && LLParser.Defined(g.productions)
    requires g.startSymbol in Names(g.productions)
    ensures fresh(graph) && graph.Valid() && graph.start == 0
    ensures LLParser.FirstSolution(g.productions, first) && LLParser.LeastFirst(g.productions, first)
    ensures LalrAutomaton(g.productions, g.startSymbol, first, GrammarSymbols(g.productions), Datas(graph.vertices),
                          graph.edges, graph.ends)
  {
    var ps := g.productions;
    var fs := LLParser.FirstSets(ps);
    first := fs;
    var follow := LLParser.FollowSets(ps, g.startSymbol, fs);
    var terms;
    graph, terms := LalrStart(g, fs);
    ghost var syms := GrammarSymbols(ps);
    LalrLoop(graph, ps, g.startSymbol, fs, syms, terms);
    LalrDone(ps, g.startSymbol, fs, syms, Datas(graph.vertices), graph.edges, graph.ends);
  }

  // ---------------------------------------------------------------------------
  // `parse`: the table of the LALR(1) automaton, run
  // ---------------------------------------------------------------------------

  /**
   * The table built from an LALR(1) automaton has a row per state, every
   * shift and goto stays among them, and none leads back to state 0: state
   * 0 holds only items with the dot in front, while the target of a
   * transition holds its kernel, whose dots have moved.
   */
  lemma LalrTableClosed(ps: seq<Production>, start: string, first: LLParser.Sets, syms: seq<Symbol>,
                        ds: seq<Items>, es: seq<Edge<Symbol>>, ends: seq<nat>, orders: seq<seq<Item>>)
    requires LalrAutomaton(ps, start, first, syms, ds, es, ends) && Ordered(ds, orders)
    requires TableFrom(es, ds, orders, 0, []).Some?
    ensures LRParse.Closed(TableFrom(es, ds, orders, 0, []).value)
    ensures LRParse.NoReturn(TableFrom(es, ds, orders, 0, []).value)
  {
    TableSpec(es, ds, orders);
    var t: Table := TableFrom(es, ds, orders, 0, []).value;
    forall s: nat, x: Symbol | s < |t| && x in t[s] && t[s][x].Shift?
      ensures t[s][x].target < |t| && t[s][x].target != 0
    {
      var it: Item :| Proposes(es, s, ds[s], x, it, Entry(it.rule, t[s][x]));
      StepSpec(es, s, x);
      var e :| 0 <= e < |es| && es[e].inVertex == s && es[e].cost == x && es[e].outVertex == t[s][x].target;
      var kit :| kit in Kernel(ds[s].Keys, x);
      assert kit in ds[t[s][x].target] && kit.pos > 0;
    }
  }

  /**
   * The LALR(1) automaton is closed for `parse_with_graph`: the start is
   * state 0 and every transition stays among the states and away from it.
   */
  lemma LalrGraphClosed(ps: seq<Production>, start: string, first: LLParser.Sets, syms: seq<Symbol>,
                        ds: seq<Items>, es: seq<Edge<Symbol>>, ends: seq<nat>)
    requires LalrAutomaton(ps, start, first, syms, ds, es, ends)
    ensures LRGraph.GraphClosed(es, |ds|, 0)
  {
    forall e | 0 <= e < |es|
      ensures es[e].outVertex < |ds| && es[e].outVertex != 0
    {
      assert LalrEdges(ps, first, ds, es);
      assert Kernel(ds[es[e].inVertex].Keys, es[e].cost) != {};
      var kit :| kit in Kernel(ds[es[e].inVertex].Keys, es[e].cost);
      assert kit in ds[es[e].outVertex] && kit.pos > 0;
    }
  }

  /** The items of a state listed in some order: the source walks a hash map. */
  method ListItems(d: Items) returns (order: seq<Item>)
    ensures Lists(order, d)
  {
    order := [];
    var rest := d.Keys;
    while rest != {}
      invariant rest <= d.Keys
      invariant forall it :: it in d ==> it in order || it in rest
      invariant forall i :: 0 <= i < |order| ==> order[i] in d
      decreases |rest|
    {
      var it :| it in rest;
      order := order + [it];
      rest := rest - {it};
    }
  }

  /** An order for every state of the automaton. */
  method ListOrders(ds: seq<Items>) returns (orders: seq<seq<Item>>)
    ensures |orders| == |ds| && forall s :: 0 <= s < |ds| ==> Lists(orders[s], ds[s])
  {
    orders := [];
    for s := 0 to |ds|
      invariant |orders| == s && forall k :: 0 <= k < s ==> Lists(orders[k], ds[k])
    {
      var order := ListItems(ds[s]);
      orders := orders + [order];
    }
  }

  /**
   * `parse`: build the LALR(1) automaton, its table (`None`, the panic of
   * `unwrap`, when an item's symbol has no transition) and run the table.
   * A tree it returns reads, leaf by leaf, the first tokens of the input.
   */
  method Parse(src: seq<Token>, g: Grammar, fuel: nat) returns (r: LRParse.Outcome)
    requires LLParser.FormalGrammar(g.productions) && LLParser.Defined(g.productions)
    requires g.startSymbol in Names(g.productions)
    ensures r.Success? ==> exists n: nat :: ParseTree.Fringe(r.tree) <= LRParse.Consumed(src, n)
  {
    var graph, first := ConstructLALR1(g);
    var orders := ListOrders(Datas(graph.vertices));
    ghost var ds := Datas(graph.vertices);
    assert Ordered(ds, orders) by {
      forall s | 0 <= s < |ds|
        ensures FormalItems(ds[s])
      {
        assert Closed1(g.productions, first, ds[s]);
      }
    }
    var table := ConstructTable(graph, orders);
    if table.None? {
      return LRParse.Panic;
    }
    LalrTableClosed(g.productions, g.startSymbol, first, GrammarSymbols(g.productions), ds, graph.edges, graph.ends,
                    orders);
    LRParse.ParseSound(table.value, src, fuel);
    r := LRParse.ParseWithTable(src, table.value, fuel);
    if r.Success? {
      var mv := LRParse.RunTable(table.value, src, LRParse.Init(0), fuel);
      assert ParseTree.FringeOf(mv.node.childs)
             == ParseTree.Fringe(mv.node.childs[0]) + ParseTree.FringeOf(mv.node.childs[1..]);
      assert ParseTree.Fringe(r.tree) <= LRParse.Consumed(src, mv.m.next);
    }
  }
}
