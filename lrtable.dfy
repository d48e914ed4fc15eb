/**
 * `construct_table` of src/parser/lrparser.rs: the action table read off
 * an LR automaton.
 *
 * For every state, each item proposes an entry: an item with the dot
 * before X proposes `Shift` to the state the automaton reaches on X, a
 * completed item proposes `Reduce` by its rule on each of its lookaheads.
 * When two proposals meet on one symbol, the precedence of their rules
 * decides; ties go by associativity. The items are visited in the hash
 * map's order, which the source leaves unspecified: here it is a
 * parameter, and what is proved holds for every order.
 */
module LRTable {
  import opened Wrappers
  import opened Grammar
  import opened Graph
  import opened Automaton
  import opened LRItems

  /** `LRAction`. */
  datatype Action = Shift(target: nat) | Reduce(rule: Production)

  /** One row of `LRTable`: the action for each term, keyed by what the term stands for. */
  type Row = map<Symbol, Action>

  type Table = seq<Row>

  /** A row under construction keeps the rule that proposed each action. */
  datatype Entry = Entry(rule: Production, action: Action)

  /** Every item's body is made of nonterminals and terminals. */
  predicate FormalItems(d: Items)
  {
    forall it :: it in d ==> FormalExpr(it.rule.expr)
  }

  /** The order lists exactly the items of the state. */
  predicate Lists(order: seq<Item>, d: Items)
  {
    (forall it :: it in d ==> it in order) && forall i :: 0 <= i < |order| ==> order[i] in d
  }

  /** A shift displaces the held entry iff its rule binds looser: lower precedence, or equal and right-associative. */
  predicate ShiftWins(rule: Production, held: Production)
  {
    rule.precedence < held.precedence || (rule.precedence == held.precedence && rule.associativity == Right)
  }

  /** A reduce displaces the held entry iff its rule has lower precedence, or equal and left-associative. */
  predicate ReduceWins(rule: Production, held: Production)
  {
    rule.precedence < held.precedence || (rule.precedence == held.precedence && rule.associativity == Left)
  }

  /** The inner loop over a completed item's lookaheads: each one gets `Reduce(rule)` unless it loses. */
  function ReduceInto(row: map<Symbol, Entry>, rule: Production, ahead: set<Symbol>): map<Symbol, Entry>
  {
    map x | x in row.Keys + ahead ::
      if x in ahead && (x !in row || ReduceWins(rule, row[x].rule)) then Entry(rule, Reduce(rule)) else row[x]
  }

  /**
   * One item of the loop over a state's items; `None` where the shift's
   * `get_transition(..).expect(..)` panics. The transition is looked up
   * only when the shift wins.
   */
  function AddItem(edges: seq<Edge<Symbol>>, s: nat, row: map<Symbol, Entry>, it: Item, ahead: set<Symbol>)
    : Option<map<Symbol, Entry>>
    requires FormalExpr(it.rule.expr)
  {
    if it.pos < |it.rule.expr.terms| then
      var x := Key(it.rule.expr.terms[it.pos]);
      if x !in row || ShiftWins(it.rule, row[x].rule) then
        match Automaton.Step(edges, s, x)
        case None => None
        case Some(q) => Some(row[x := Entry(it.rule, Shift(q))])
      else Some(row)
    else Some(ReduceInto(row, it.rule, ahead))
  }

  /** The loop over `order[i..]`, starting from `row`. */
  function RowFrom(edges: seq<Edge<Symbol>>, s: nat, d: Items, order: seq<Item>, i: nat, row: map<Symbol, Entry>)
    : Option<map<Symbol, Entry>>
    requires FormalItems(d) && Lists(order, d) && i <= |order|
    decreases |order| - i
  {
    if i == |order| then Some(row)
    else
      match AddItem(edges, s, row, order[i], d[order[i]])
      case None => None
      case Some(r) => RowFrom(edges, s, d, order, i + 1, r)
  }

  /** The row with the proposing rules dropped: `map.into_iter().map(|(t, (_, a))| (t, a))`. */
  function Actions(row: map<Symbol, Entry>): Row
  {
    map x | x in row :: row[x].action
  }

  // ---------------------------------------------------------------------------
  // What an entry can be
  // ---------------------------------------------------------------------------

  /** The item proposes an entry for x: the dot is before a term standing for x, or there is no term after the dot and x is among its lookaheads. */
  predicate Candidate(d: Items, x: Symbol, it: Item)
    requires FormalItems(d)
  {
    it in d &&
    if it.pos < |it.rule.expr.terms| then Key(it.rule.expr.terms[it.pos]) == x
    else x in d[it]
  }

  /** e is what the item proposes for x: a shift to the automaton's target, or a reduce by its rule. */
  predicate Proposes(edges: seq<Edge<Symbol>>, s: nat, d: Items, x: Symbol, it: Item, e: Entry)
    requires FormalItems(d)
  {
    Candidate(d, x, it) && e.rule == it.rule &&
    if it.pos < |it.rule.expr.terms| then Automaton.Step(edges, s, x).Some? && e.action == Shift(Automaton.Step(edges, s, x).value)
    else e.action == Reduce(it.rule)
  }

  /**
   * What the row holds once the items of `done` are visited: an entry for
   * exactly the symbols some visited item proposes; each entry is the
   * proposal of a visited item; and its rule has the lowest precedence
   * among the visited proposals for that symbol.
   */
  ghost predicate RowInv(edges: seq<Edge<Symbol>>, s: nat, d: Items, done: seq<Item>, row: map<Symbol, Entry>)
    requires FormalItems(d)
  {
    && (forall x :: x in row <==> exists it :: it in done && Candidate(d, x, it))
    && (forall x :: x in row ==> exists it :: it in done && Proposes(edges, s, d, x, it, row[x]))
    && (forall x, it :: x in row && it in done && Candidate(d, x, it) ==> row[x].rule.precedence <= it.rule.precedence)
  }

  /** Every item with the dot before a symbol has a transition on it. */
  predicate Complete(edges: seq<Edge<Symbol>>, s: nat, d: Items)
    requires FormalItems(d)
  {
    forall it :: it in d && it.pos < |it.rule.expr.terms| ==> Automaton.Step(edges, s, Key(it.rule.expr.terms[it.pos])).Some?
  }

  /** The reduce loop keeps the row invariant with the completed item added. */
  lemma ReduceIntoInv(edges: seq<Edge<Symbol>>, s: nat, d: Items, done: seq<Item>, row: map<Symbol, Entry>, it: Item)
    requires FormalItems(d) && RowInv(edges, s, d, done, row) && it in d && it.pos >= |it.rule.expr.terms|
    ensures RowInv(edges, s, d, done + [it], ReduceInto(row, it.rule, d[it]))
  {
    var r := ReduceInto(row, it.rule, d[it]);
    var done' := done + [it];
    forall x | x in r ensures exists j :: j in done' && Proposes(edges, s, d, x, j, r[x]) {
      if x in d[it] && (x !in row || ReduceWins(it.rule, row[x].rule)) {
        assert Proposes(edges, s, d, x, it, r[x]);
      } else {
        var j :| j in done && Proposes(edges, s, d, x, j, row[x]);
        assert j in done';
      }
    }
    forall x | (exists j :: j in done' && Candidate(d, x, j)) ensures x in r {
      var j :| j in done' && Candidate(d, x, j);
      if j != it {
        assert j in done;
      }
    }
    forall x, j | x in r && j in done' && Candidate(d, x, j) ensures r[x].rule.precedence <= j.rule.precedence {
      if j != it {
        assert j in done;
      }
    }
    forall x | x in r ensures exists j :: j in done' && Candidate(d, x, j) {
      if x in row {
        var j :| j in done && Candidate(d, x, j);
        assert j in done';
      } else {
        assert Candidate(d, x, it);
      }
    }
  }

  /** A shift item keeps the row invariant, or panics only for want of a transition. */
  lemma ShiftInv(edges: seq<Edge<Symbol>>, s: nat, d: Items, done: seq<Item>, row: map<Symbol, Entry>, it: Item)
    requires FormalItems(d) && RowInv(edges, s, d, done, row) && it in d && it.pos < |it.rule.expr.terms|
    ensures AddItem(edges, s, row, it, d[it]).None? ==> Automaton.Step(edges, s, Key(it.rule.expr.terms[it.pos])).None?
    ensures AddItem(edges, s, row, it, d[it]).Some? ==> RowInv(edges, s, d, done + [it], AddItem(edges, s, row, it, d[it]).value)
  {
    var x := Key(it.rule.expr.terms[it.pos]);
    var done' := done + [it];
    assert Candidate(d, x, it);
    if AddItem(edges, s, row, it, d[it]).Some? {
      var r := AddItem(edges, s, row, it, d[it]).value;
      forall y | y in r ensures exists j :: j in done' && Proposes(edges, s, d, y, j, r[y]) {
        if y == x && (x !in row || ShiftWins(it.rule, row[x].rule)) {
          assert Proposes(edges, s, d, y, it, r[y]);
        } else {
          var j :| j in done && Proposes(edges, s, d, y, j, row[y]);
          assert j in done';
        }
      }
      forall y | (exists j :: j in done' && Candidate(d, y, j)) ensures y in r {
        var j :| j in done' && Candidate(d, y, j);
        if j != it {
          assert j in done;
        }
      }
      forall y, j | y in r && j in done' && Candidate(d, y, j) ensures r[y].rule.precedence <= j.rule.precedence {
        if j != it {
          assert j in done;
        }
      }
      forall y | y in r ensures exists j :: j in done' && Candidate(d, y, j) {
        if y in row {
          var j :| j in done && Candidate(d, y, j);
          assert j in done';
        }
      }
    }
  }

  /** One item keeps the row invariant, or panics only for want of a transition. */
  lemma AddItemInv(edges: seq<Edge<Symbol>>, s: nat, d: Items, done: seq<Item>, row: map<Symbol, Entry>, it: Item)
    requires FormalItems(d) && RowInv(edges, s, d, done, row) && it in d
    ensures AddItem(edges, s, row, it, d[it]).None? ==>
              it.pos < |it.rule.expr.terms| && Automaton.Step(edges, s, Key(it.rule.expr.terms[it.pos])).None?
    ensures AddItem(edges, s, row, it, d[it]).Some? ==> RowInv(edges, s, d, done + [it], AddItem(edges, s, row, it, d[it]).value)
  {
    if it.pos < |it.rule.expr.terms| {
      ShiftInv(edges, s, d, done, row, it);
    } else {
      ReduceIntoInv(edges, s, d, done, row, it);
    }
  }

  /** The loop over the rest of the order keeps the invariant, and panics only for want of a transition. */
  lemma {:induction false} RowFromInv(edges: seq<Edge<Symbol>>, s: nat, d: Items, order: seq<Item>, i: nat,
                                      row: map<Symbol, Entry>)
    requires FormalItems(d) && Lists(order, d) && i <= |order| && RowInv(edges, s, d, order[..i], row)
    ensures RowFrom(edges, s, d, order, i, row).Some? ==> RowInv(edges, s, d, order, RowFrom(edges, s, d, order, i, row).value)
    ensures RowFrom(edges, s, d, order, i, row).None? ==> !Complete(edges, s, d)
    decreases |order| - i
  {
    if i == |order| {
      assert order[..i] == order;
    } else {
      var it := order[i];
      AddItemInv(edges, s, d, order[..i], row, it);
      assert order[..i + 1] == order[..i] + [it];
      if AddItem(edges, s, row, it, d[it]).Some? {
        RowFromInv(edges, s, d, order, i + 1, AddItem(edges, s, row, it, d[it]).value);
      }
    }
  }

  /** The row of one state, from an empty map. */
  function RowOf(edges: seq<Edge<Symbol>>, s: nat, d: Items, order: seq<Item>): Option<map<Symbol, Entry>>
    requires FormalItems(d) && Lists(order, d)
  {
    RowFrom(edges, s, d, order, 0, map[])
  }

  /**
   * Whatever the order of the items: the row panics only when an item's
   * symbol has no transition, and never when every such symbol has one; it
   * has an entry for exactly the symbols some item proposes; each entry is
   * some item's proposal (a shift to the automaton's target, or a reduce
   * by a rule with no term left and the symbol among its lookaheads); and
   * the entry's rule has the lowest precedence among the proposals for its
   * symbol.
   */
  lemma RowSpec(edges: seq<Edge<Symbol>>, s: nat, d: Items, order: seq<Item>)
    requires FormalItems(d) && Lists(order, d)
    ensures Complete(edges, s, d) ==> RowOf(edges, s, d, order).Some?
    ensures RowOf(edges, s, d, order).Some? ==>
      var row := RowOf(edges, s, d, order).value;
      && (forall x :: x in row <==> exists it :: it in d && Candidate(d, x, it))
      && (forall x :: x in row ==> exists it :: it in d && Proposes(edges, s, d, x, it, row[x]))
      && (forall x, it :: x in row && Candidate(d, x, it) ==> row[x].rule.precedence <= it.rule.precedence)
  {
    assert order[..0] == [];
    RowFromInv(edges, s, d, order, 0, map[]);
  }

  // ---------------------------------------------------------------------------
  // The loops
  // ---------------------------------------------------------------------------

  /** One more lookahead handled is the reduce loop over one more symbol. */
  lemma ReduceStep(row: map<Symbol, Entry>, rule: Production, ahead: set<Symbol>, todo: set<Symbol>, x: Symbol)
    requires x in todo && todo <= ahead
    ensures var r := ReduceInto(row, rule, ahead - todo);
      (if x !in r || ReduceWins(rule, r[x].rule) then r[x := Entry(rule, Reduce(rule))] else r)
      == ReduceInto(row, rule, ahead - (todo - {x}))
  {
    var r := ReduceInto(row, rule, ahead - todo);
    var r' := if x !in r || ReduceWins(rule, r[x].rule) then r[x := Entry(rule, Reduce(rule))] else r;
    var goal := ReduceInto(row, rule, ahead - (todo - {x}));
    assert r'.Keys == goal.Keys;
    forall y | y in goal ensures r'[y] == goal[y] {
    }
  }

  /** `for ahead in ahead { .. }` of a completed item, in the set's own order. */
  method ReduceAll(row: map<Symbol, Entry>, rule: Production, ahead: set<Symbol>) returns (r: map<Symbol, Entry>)
    ensures r == ReduceInto(row, rule, ahead)
  {
    r := row;
    var todo := ahead;
    assert ReduceInto(row, rule, ahead - todo) == row;
    while todo != {}
      invariant todo <= ahead && r == ReduceInto(row, rule, ahead - todo)
      decreases |todo|
    {
      var x :| x in todo;
      ReduceStep(row, rule, ahead, todo, x);
      var f := x !in r || ReduceWins(rule, r[x].rule);
      if f {
        r := r[x := Entry(rule, Reduce(rule))];
      }
      todo := todo - {x};
    }
    assert ahead - {} == ahead;
  }

  /** The loop over one state's items, in the given order. */
  method ConstructRow(edges: seq<Edge<Symbol>>, s: nat, d: Items, order: seq<Item>)
    returns (r: Option<map<Symbol, Entry>>)
    requires FormalItems(d) && Lists(order, d)
    ensures r == RowOf(edges, s, d, order)
  {
    var row: map<Symbol, Entry> := map[];
    ghost var goal := RowOf(edges, s, d, order);
    for i := 0 to |order|
      invariant RowFrom(edges, s, d, order, i, row) == goal
    {
      var it := order[i];
      var ahead := d[it];
      if it.pos < |it.rule.expr.terms| {
        var x := Key(it.rule.expr.terms[it.pos]);
        var f := x !in row || ShiftWins(it.rule, row[x].rule);
        if f {
          var q := Automaton.Step(edges, s, x);
          if q.None? {
            return None;
          }
          row := row[x := Entry(it.rule, Shift(q.value))];
        }
      } else {
        row := ReduceAll(row, it.rule, ahead);
      }
    }
    return Some(row);
  }

  /** The payloads of the automaton's states. */
  function Datas(vs: seq<Vertex<Items>>): (ds: seq<Items>)
    ensures |ds| == |vs| && forall s :: 0 <= s < |vs| ==> ds[s] == vs[s].data
  {
    Payloads(vs)
  }

  /** Every state's items are formal and listed by its order. */
  predicate Ordered(ds: seq<Items>, orders: seq<seq<Item>>)
  {
    |orders| == |ds| && forall s :: 0 <= s < |ds| ==> FormalItems(ds[s]) && Lists(orders[s], ds[s])
  }

  /** The rows of states `s..`, appended to `acc`; `None` if one of them panics. */
  function TableFrom(edges: seq<Edge<Symbol>>, ds: seq<Items>, orders: seq<seq<Item>>, s: nat, acc: Table)
    : Option<Table>
    requires Ordered(ds, orders) && s <= |ds|
    decreases |ds| - s
  {
    if s == |ds| then Some(acc)
    else
      match RowOf(edges, s, ds[s], orders[s])
      case None => None
      case Some(row) => TableFrom(edges, ds, orders, s + 1, acc + [Actions(row)])
  }

  /** The table has one row per state, each the actions of that state's row. */
  lemma {:induction false} TableFromSpec(edges: seq<Edge<Symbol>>, ds: seq<Items>, orders: seq<seq<Item>>, s: nat, acc: Table)
    requires Ordered(ds, orders) && s <= |ds| && |acc| == s
    ensures TableFrom(edges, ds, orders, s, acc).Some? <==>
              forall k :: s <= k < |ds| ==> RowOf(edges, k, ds[k], orders[k]).Some?
    ensures TableFrom(edges, ds, orders, s, acc).Some? ==>
      var t := TableFrom(edges, ds, orders, s, acc).value;
      |t| == |ds| && t[..s] == acc &&
      forall k :: s <= k < |ds| ==> t[k] == Actions(RowOf(edges, k, ds[k], orders[k]).value)
    decreases |ds| - s
  {
    if s < |ds| {
      var row := RowOf(edges, s, ds[s], orders[s]);
      if row.Some? {
        TableFromSpec(edges, ds, orders, s + 1, acc + [Actions(row.value)]);
        if TableFrom(edges, ds, orders, s, acc).Some? {
          var t := TableFrom(edges, ds, orders, s, acc).value;
          assert t[..s + 1][..s] == t[..s];
        }
      }
    }
  }

  /**
   * `construct_table`: one row per state, in state order. The result is
   * `None` where the source panics, which happens only when an item's
   * symbol has no transition.
   */
  method ConstructTable(graph: StateTransferGraph<Items, Symbol>, orders: seq<seq<Item>>) returns (r: Option<Table>)
    requires Ordered(Datas(graph.vertices), orders)
    ensures r == TableFrom(graph.edges, Datas(graph.vertices), orders, 0, [])
  {
    var table: Table := [];
    ghost var ds := Datas(graph.vertices);
    ghost var goal := TableFrom(graph.edges, ds, orders, 0, []);
    for s := 0 to |graph.vertices|
      invariant TableFrom(graph.edges, ds, orders, s, table) == goal
    {
      var row := ConstructRow(graph.edges, s, graph.vertices[s].data, orders[s]);
      if row.None? {
        return None;
      }
      table := table + [Actions(row.value)];
    }
    return Some(table);
  }

  /**
   * The table of an automaton whose every item has a transition on its
   * symbol exists, has one row per state, and row s holds, for each
   * symbol, an action some item of s proposes; a reduce there is by a rule
   * with no term left that has the symbol among its lookaheads.
   */
  lemma TableSpec(edges: seq<Edge<Symbol>>, ds: seq<Items>, orders: seq<seq<Item>>)
    requires Ordered(ds, orders)
    ensures (forall s :: 0 <= s < |ds| ==> Complete(edges, s, ds[s])) ==> TableFrom(edges, ds, orders, 0, []).Some?
    ensures TableFrom(edges, ds, orders, 0, []).Some? ==>
      var t := TableFrom(edges, ds, orders, 0, []).value;
      |t| == |ds| &&
      forall s, x :: 0 <= s < |ds| && x in t[s] ==>
        exists it: Item :: Proposes(edges, s, ds[s], x, it, Entry(it.rule, t[s][x]))
  {
    forall s | 0 <= s < |ds| {
      RowSpec(edges, s, ds[s], orders[s]);
    }
    TableFromSpec(edges, ds, orders, 0, []);
    if TableFrom(edges, ds, orders, 0, []).Some? {
      var t := TableFrom(edges, ds, orders, 0, []).value;
      forall s, x | 0 <= s < |ds| && x in t[s]
        ensures exists it: Item :: Proposes(edges, s, ds[s], x, it, Entry(it.rule, t[s][x]))
      {
        var row := RowOf(edges, s, ds[s], orders[s]).value;
        var it :| it in ds[s] && Proposes(edges, s, ds[s], x, it, row[x]);
        assert row[x] == Entry(it.rule, t[s][x]);
      }
    }
  }
}
