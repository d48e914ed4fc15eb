/**
 * The item sets of src/parser/lrparser.rs: `LRItem`, `LRItems` and the
 * operations that grow them.
 *
 * An item is a production with a dot before its term `pos`. An item set
 * maps each item to its lookahead terms; a lookahead is kept as the
 * `Symbol` its term stands for, because `HashSet<Term>` compares terms
 * with `Term ==`. `LRItems` is an owned value that its `&mut self`
 * operations update; here they return the new map with their flag.
 */
module LRItems {
  import opened Wrappers
  import opened Grammar

  /** `LRItem`: a production and the position of the dot in its body. */
  datatype Item = Item(rule: Production, pos: nat)

  /** `LRItems`: the items of a state, each with its lookahead set. */
  type Items = map<Item, set<Symbol>>

  /** The dot is at the end of the body: the item asks for a reduction. */
  predicate Completed(it: Item)
  {
    it.pos == |it.rule.expr.terms|
  }

  /** The term after the dot, if the item is not completed. */
  function NextTerm(it: Item): (r: Option<Term>)
    ensures r.Some? <==> it.pos < |it.rule.expr.terms|
    ensures r.Some? ==> r.value == it.rule.expr.terms[it.pos]
  {
    if it.pos < |it.rule.expr.terms| then Some(it.rule.expr.terms[it.pos]) else None
  }

  /** Adding elements grows a set iff one of them is new. */
  lemma UnionGrows<X>(a: set<X>, b: set<X>)
    ensures |a + b| > |a| <==> !(b <= a)
  {
    if b <= a {
      assert a + b == a;
    } else {
      var x :| x in b && x !in a;
      assert a + {x} <= a + b;
      SubsetCard(a + {x}, a + b);
    }
  }

  /** A subset is no larger. */
  lemma SubsetCard<X>(a: set<X>, b: set<X>)
    requires a <= b
    ensures |a| <= |b|
  {
    assert b == a + (b - a);
  }

  /** A proper subset is smaller. */
  lemma ProperSubsetCard<X>(a: set<X>, b: set<X>)
    requires a < b
    ensures |a| < |b|
  {
    var x :| x in b && x !in a;
    assert a + {x} <= b;
    SubsetCard(a + {x}, b);
  }

  /**
   * `extend`: the lookaheads joined into the item's set, or the item added
   * with them; the flag is the growth test `v.len() > len`.
   */
  function Extend(m: Items, item: Item, ahead: set<Symbol>): (r: (Items, bool))
    ensures r.0.Keys == m.Keys + {item}
    ensures r.0[item] == (if item in m then m[item] else {}) + ahead
    ensures forall k :: k in m && k != item ==> r.0[k] == m[k]
    ensures r.1 <==> item !in m || !(ahead <= m[item])
  {
    if item in m then
      var v := m[item] + ahead;
      UnionGrows(m[item], ahead);
      (m[item := v], |v| > |m[item]|)
    else (m[item := ahead], true)
  }

  /** `push`: one lookahead joined into the item's set; the flag is `HashSet::insert`'s. */
  function Push(m: Items, item: Item, ahead: Symbol): (r: (Items, bool))
    ensures r.0.Keys == m.Keys + {item}
    ensures r.0[item] == (if item in m then m[item] else {}) + {ahead}
    ensures forall k :: k in m && k != item ==> r.0[k] == m[k]
    ensures r.1 <==> item !in m || ahead !in m[item]
  {
    if item in m then (m[item := m[item] + {ahead}], ahead !in m[item])
    else (m[item := {ahead}], true)
  }

  /** The union of two item sets, item by item. */
  function Merge(m: Items, rhs: Items): Items
  {
    map k | k in m.Keys + rhs.Keys :: (if k in m then m[k] else {}) + (if k in rhs then rhs[k] else {})
  }

  /** Some item of rhs is missing from m, or brings a lookahead m lacks for it. */
  predicate Grows(m: Items, rhs: Items)
  {
    exists k :: k in rhs && (k !in m || !(rhs[k] <= m[k]))
  }

  /** m lies inside b: every item of m is in b with at least its lookaheads. */
  predicate Below(m: Items, b: Items)
  {
    forall k :: k in m ==> k in b && m[k] <= b[k]
  }

  /**
   * The union contains both sides, is the smallest set that does, and
   * differs from m exactly when rhs grows it.
   */
  lemma MergeSpec(m: Items, rhs: Items)
    ensures Below(m, Merge(m, rhs)) && Below(rhs, Merge(m, rhs))
    ensures forall b :: Below(m, b) && Below(rhs, b) ==> Below(Merge(m, rhs), b)
    ensures Merge(m, rhs) == m <==> !Grows(m, rhs)
    ensures Merge(m, rhs).Keys == m.Keys + rhs.Keys
  {
    if !Grows(m, rhs) {
      assert Merge(m, rhs).Keys == m.Keys;
      forall k | k in m ensures Merge(m, rhs)[k] == m[k] {
        if k in rhs { assert rhs[k] <= m[k]; }
      }
    }
  }

  /** m grown by the items of rhs outside todo. */
  function Partial(m: Items, rhs: Items, todo: set<Item>): Items
  {
    map k | k in m.Keys + (rhs.Keys - todo) ::
      (if k in m then m[k] else {}) + (if k in rhs && k !in todo then rhs[k] else {})
  }

  /** Some item of rhs outside todo grows m. */
  predicate PartGrows(m: Items, rhs: Items, todo: set<Item>)
  {
    exists k :: k in rhs && k !in todo && (k !in m || !(rhs[k] <= m[k]))
  }

  /** Extending by one more item of rhs is growing m by a larger part of rhs. */
  lemma ExtendStep(m: Items, rhs: Items, todo: set<Item>, k: Item)
    requires k in todo && todo <= rhs.Keys
    ensures Extend(Partial(m, rhs, todo), k, rhs[k]).0 == Partial(m, rhs, todo - {k})
  {
    var p := Partial(m, rhs, todo);
    var b := Partial(m, rhs, todo - {k});
    var v := (if k in p then p[k] else {}) + rhs[k];
    assert p[k := v].Keys == b.Keys;
    forall j | j in b ensures p[k := v][j] == b[j] {
      if j != k {
        assert j in p;
      }
    }
    assert p[k := v] == b;
  }

  /** ... and its flag says whether that item grows m. */
  lemma ExtendFlag(m: Items, rhs: Items, todo: set<Item>, k: Item)
    requires k in todo && todo <= rhs.Keys
    ensures Extend(Partial(m, rhs, todo), k, rhs[k]).1 || PartGrows(m, rhs, todo) <==> PartGrows(m, rhs, todo - {k})
  {
  }

  /** Nothing of rhs left out: the whole union. */
  lemma PartialAll(m: Items, rhs: Items)
    ensures Partial(m, rhs, {}) == Merge(m, rhs)
    ensures PartGrows(m, rhs, {}) == Grows(m, rhs)
    ensures Partial(m, rhs, rhs.Keys) == m && !PartGrows(m, rhs, rhs.Keys)
  {
    PartialNone(m, rhs);
    PartialFull(m, rhs);
  }

  /** With nothing left to do, the partial union is the union. */
  lemma PartialNone(m: Items, rhs: Items)
    ensures Partial(m, rhs, {}) == Merge(m, rhs)
  {
    assert Partial(m, rhs, {}).Keys == Merge(m, rhs).Keys;
  }

  /** With everything left to do, the partial union is m. */
  lemma PartialFull(m: Items, rhs: Items)
    ensures Partial(m, rhs, rhs.Keys) == m
  {
    var a := Partial(m, rhs, rhs.Keys);
    assert a.Keys == m.Keys;
    forall k | k in m ensures a[k] == m[k] {
      assert m[k] + {} == m[k];
    }
  }

  /**
   * `extend_all`: every item of rhs extended into m, in the map's own
   * (unspecified) order; the flag is true iff some `extend` returned true.
   */
  method ExtendAll(m: Items, rhs: Items) returns (r: Items, grew: bool)
    ensures r == Merge(m, rhs)
    ensures grew <==> Grows(m, rhs)
  {
    r := m;
    grew := false;
    var todo := rhs.Keys;
    PartialAll(m, rhs);
    while todo != {}
      invariant todo <= rhs.Keys
      invariant r == Partial(m, rhs, todo)
      invariant grew <==> PartGrows(m, rhs, todo)
      decreases |todo|
    {
      var k :| k in todo;
      var next := Extend(r, k, rhs[k]);
      ExtendStep(m, rhs, todo, k);
      ExtendFlag(m, rhs, todo, k);
      r := next.0;
      grew := next.1 || grew;
      todo := todo - {k};
    }
  }

  /** `LRItems == LRItems`: the same items, whatever their lookaheads. */
  predicate SameCore(a: Items, b: Items)
  {
    a.Keys == b.Keys
  }

  /**
   * Core equality is an equivalence that ignores lookaheads: joining
   * lookaheads of known items never changes a set's core.
   */
  lemma SameCoreSpec(a: Items, b: Items, c: Items)
    ensures SameCore(a, a)
    ensures SameCore(a, b) ==> SameCore(b, a)
    ensures SameCore(a, b) && SameCore(b, c) ==> SameCore(a, c)
    ensures b.Keys <= a.Keys ==> SameCore(a, Merge(a, b))
    ensures SameCore(a, Merge(a, b)) ==> b.Keys <= a.Keys
  {
    MergeSpec(a, b);
  }
}
