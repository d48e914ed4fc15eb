/**
 * `minimize_dfa` of src/lexer/dfa.rs. States start in two groups
 * (accepting or not); each group in turn is split, token by token, into the
 * members whose transition equals the first member's and a new group of
 * the rest; the result has one state per group.
 *
 * The split compares the target states themselves, not their groups, so
 * the groups end up being exactly the classes of states with identical
 * rows (acceptance plus one target per token), which `Refine` proves.
 */
module Minimize {
  import opened Wrappers
  import opened Graph
  import opened Automaton
  import Dfa

  // ---------------------------------------------------------------------------
  // Rows
  // ---------------------------------------------------------------------------

  /** a and b move alike on every token of `toks`. */
  predicate Agree<T(==)>(es: seq<Edge<T>>, a: nat, b: nat, toks: seq<T>)
  {
    forall t :: t in toks ==> Step(es, a, t) == Step(es, b, t)
  }

  /** a and b have the same row: both accept or neither does, and they move alike on `charmap`. */
  predicate SameRow<T(==)>(es: seq<Edge<T>>, ends: seq<nat>, a: nat, b: nat, charmap: seq<T>)
  {
    (a in ends <==> b in ends) && Agree(es, a, b, charmap)
  }

  /** The number of members of group i among the states below m. */
  function Rank(group: seq<nat>, i: nat, m: nat): nat
    requires m <= |group|
  {
    if m == 0 then 0 else Rank(group, i, m - 1) + (if group[m - 1] == i then 1 else 0)
  }

  /** The first member of group i at or after `from`, or |group| when there is none. */
  function FirstMember(group: seq<nat>, i: nat, from: nat): (r: nat)
    requires from <= |group|
    ensures from <= r <= |group|
    ensures r < |group| ==> group[r] == i
    ensures forall m :: from <= m < r ==> group[m] != i
    decreases |group| - from
  {
    if from == |group| then |group|
    else if group[from] == i then from
    else FirstMember(group, i, from + 1)
  }

  /** The transition of group i's first member on `token`, against which the others are compared. */
  function Pivot<T(==)>(es: seq<Edge<T>>, group: seq<nat>, i: nat, token: T): Option<nat>
  {
    var f := FirstMember(group, i, 0);
    if f < |group| then Step(es, f, token) else None
  }

  /** Nobody below the first member is in the group. */
  lemma {:induction false} RankBefore(group: seq<nat>, i: nat, m: nat)
    requires m <= |group| && forall j :: 0 <= j < m ==> group[j] != i
    ensures Rank(group, i, m) == 0
  {
    if m > 0 {
      RankBefore(group, i, m - 1);
    }
  }

  // ---------------------------------------------------------------------------
  // One split
  // ---------------------------------------------------------------------------

  /** Group i after the split on `token`: members moving unlike the pivot go to group `groups0 + 1`. */
  function Split<T(==)>(es: seq<Edge<T>>, group0: seq<nat>, groups0: nat, i: nat, token: T, j: nat): nat
    requires j < |group0|
  {
    if group0[j] == i && Step(es, j, token) != Pivot(es, group0, i, token) then groups0 + 1 else group0[j]
  }

  /**
   * The body of the token loop: collect the transitions of group i's
   * members on `token`, then move every member whose transition differs
   * from the first one's into one new group.
   */
  method SplitGroup<D, T(==)>(ori: StateTransferGraph<D, T>, group0: seq<nat>, groups0: nat, i: nat, token: T)
    returns (group: seq<nat>, groups: nat)
    requires ori.Valid() && |group0| == |ori.vertices|
    requires i <= groups0
    ensures |group| == |group0|
    ensures forall j :: 0 <= j < |group| ==> group[j] == Split(ori.edges, group0, groups0, i, token, j)
    ensures groups == if exists j :: 0 <= j < |group0| && group0[j] == i && Step(ori.edges, j, token) != Pivot(ori.edges, group0, i, token)
                      then groups0 + 1 else groups0
  {
    var column := Column(ori, group0, i, token);
    group, groups := Relabel(ori.edges, group0, groups0, i, token, column);
  }

  /** The first loop of the split: the transitions of group i's members on `token`, in state order. */
  method Column<D, T(==)>(ori: StateTransferGraph<D, T>, group0: seq<nat>, i: nat, token: T) returns (column: seq<Option<nat>>)
    requires ori.Valid() && |group0| == |ori.vertices|
    ensures |column| == Rank(group0, i, |group0|)
    ensures forall m :: 0 <= m < |group0| && group0[m] == i ==>
              Rank(group0, i, m) < |column| && column[Rank(group0, i, m)] == Step(ori.edges, m, token)
  {
    column := [];
    for j := 0 to |group0|
      invariant |column| == Rank(group0, i, j)
      invariant forall m :: 0 <= m < j && group0[m] == i ==>
                  Rank(group0, i, m) < |column| && column[Rank(group0, i, m)] == Step(ori.edges, m, token)
    {
      if group0[j] == i {
        var tr := ori.GetTransition(j, token);
        column := column + [tr];
      }
    }
  }

  /** The second loop of the split: members of group i whose transition differs from the first member's move out. */
  method Relabel<T(==)>(ghost es: seq<Edge<T>>, group0: seq<nat>, groups0: nat, i: nat, ghost token: T,
                        column: seq<Option<nat>>)
    returns (group: seq<nat>, groups: nat)
    requires |column| == Rank(group0, i, |group0|)
    requires forall m :: 0 <= m < |group0| && group0[m] == i ==>
               Rank(group0, i, m) < |column| && column[Rank(group0, i, m)] == Step(es, m, token)
    ensures |group| == |group0|
    ensures forall j :: 0 <= j < |group| ==> group[j] == Split(es, group0, groups0, i, token, j)
    ensures groups == if exists j :: 0 <= j < |group0| && group0[j] == i && Step(es, j, token) != Pivot(es, group0, i, token)
                      then groups0 + 1 else groups0
  {
    ghost var f := FirstMember(group0, i, 0);
    if f < |group0| {
      RankBefore(group0, i, f);
    }
    var k := 0;
    var newGroup := groups0 + 1;
    group, groups := group0, groups0;
    for j := 0 to |group0|
      invariant |group| == |group0| && k == Rank(group0, i, j)
      invariant forall m :: 0 <= m < |group0| ==>
                  group[m] == if m < j then Split(es, group0, groups0, i, token, m) else group0[m]
      invariant groups == if exists m :: 0 <= m < j && group0[m] == i && Step(es, m, token) != Pivot(es, group0, i, token)
                          then newGroup else groups0
    {
      if group[j] == i {
        assert column[k] == Step(es, j, token) && column[0] == Pivot(es, group0, i, token);
        if column[k] != column[0] {
          groups := newGroup;
          group := group[j := groups];
        }
        k := k + 1;
      }
    }
  }

  // ---------------------------------------------------------------------------
  // The refinement loop
  // ---------------------------------------------------------------------------

  /**
   * The refinement invariant while group i is split on `toks`: groups are
   * numbered up to `groups`, group members agree on acceptance, members of
   * an earlier group agree on all of `charmap` and members of group i on
   * `toks`, members of different groups have different rows, and every
   * group above 1 has a member.
   */
  ghost predicate Refining<T>(es: seq<Edge<T>>, ends: seq<nat>, charmap: seq<T>, group: seq<nat>, groups: nat,
                                  i: nat, toks: seq<T>)
  {
    && 1 <= groups && i <= groups + 1
    && (forall j :: 0 <= j < |group| ==> group[j] <= groups)
    && (forall a, b :: 0 <= a < |group| && 0 <= b < |group| && group[a] == group[b] ==> (a in ends <==> b in ends))
    && (forall a, b :: 0 <= a < |group| && 0 <= b < |group| && group[a] == group[b] < i ==> Agree(es, a, b, charmap))
    && (forall a, b :: 0 <= a < |group| && 0 <= b < |group| && group[a] == group[b] == i ==> Agree(es, a, b, toks))
    && (forall a, b :: 0 <= a < |group| && 0 <= b < |group| && group[a] != group[b] ==> !SameRow(es, ends, a, b, charmap))
    && (forall g :: 2 <= g <= groups ==> g in group)
  }

  /** `group` and `groups` are what splitting group i of `group0` on token t gives. */
  ghost predicate SplitOf<T>(es: seq<Edge<T>>, group0: seq<nat>, groups0: nat, group: seq<nat>, groups: nat, i: nat, t: T)
  {
    && |group| == |group0| && (forall j :: 0 <= j < |group| ==> group[j] == Split(es, group0, groups0, i, t, j))
    && groups == if exists j :: 0 <= j < |group0| && group0[j] == i && Step(es, j, t) != Pivot(es, group0, i, t)
                 then groups0 + 1 else groups0
  }

  /** The split on `charmap[k]` keeps the invariant, with group i now agreeing on `charmap[..k + 1]`. */
  lemma SplitKeeps<T>(es: seq<Edge<T>>, ends: seq<nat>, charmap: seq<T>, group0: seq<nat>, groups0: nat,
                          group: seq<nat>, groups: nat, i: nat, k: nat)
    requires k < |charmap| && i <= groups0
    requires Refining(es, ends, charmap, group0, groups0, i, charmap[..k])
    requires SplitOf(es, group0, groups0, group, groups, i, charmap[k])
    ensures Refining(es, ends, charmap, group, groups, i, charmap[..k + 1])
  {
    SplitNumbers(es, ends, charmap, group0, groups0, group, groups, i, k);
    SplitAgrees(es, ends, charmap, group0, groups0, group, groups, i, k);
    SplitAgreesOnPrefix(es, ends, charmap, group0, groups0, group, groups, i, k);
    SplitSeparates(es, ends, charmap, group0, groups0, group, groups, i, k);
  }

  /** After the split the group numbers stay in range and every number from 2 is in use. */
  lemma SplitNumbers<T>(es: seq<Edge<T>>, ends: seq<nat>, charmap: seq<T>, group0: seq<nat>, groups0: nat,
                        group: seq<nat>, groups: nat, i: nat, k: nat)
    requires k < |charmap| && i <= groups0
    requires Refining(es, ends, charmap, group0, groups0, i, charmap[..k])
    requires SplitOf(es, group0, groups0, group, groups, i, charmap[k])
    ensures 1 <= groups && i <= groups + 1
    ensures forall j :: 0 <= j < |group| ==> group[j] <= groups
    ensures forall g :: 2 <= g <= groups ==> g in group
  {
    var t := charmap[k];
    var p := Pivot(es, group0, i, t);
    var f := FirstMember(group0, i, 0);
    forall j | 0 <= j < |group| ensures group[j] <= groups {
      if group[j] == groups0 + 1 {
        assert group0[j] == i && Step(es, j, t) != p;
      }
    }
    forall g | 2 <= g <= groups ensures g in group {
      if g == groups0 + 1 {
        var j :| 0 <= j < |group0| && group0[j] == i && Step(es, j, t) != p;
        assert group[j] == g;
      } else if g == i {
        assert g in group0;
        var j :| 0 <= j < |group0| && group0[j] == i;
        assert f <= j;
        assert group[f] == i;
      } else {
        assert g in group0;
        var j :| 0 <= j < |group0| && group0[j] == g;
        assert group[j] == g;
      }
    }
  }

  /** After the split, members of one group below i still agree on all of `charmap`. */
  lemma SplitAgrees<T>(es: seq<Edge<T>>, ends: seq<nat>, charmap: seq<T>, group0: seq<nat>, groups0: nat,
                       group: seq<nat>, groups: nat, i: nat, k: nat)
    requires k < |charmap| && i <= groups0
    requires Refining(es, ends, charmap, group0, groups0, i, charmap[..k])
    requires SplitOf(es, group0, groups0, group, groups, i, charmap[k])
    ensures forall a, b :: 0 <= a < |group| && 0 <= b < |group| && group[a] == group[b] < i ==> Agree(es, a, b, charmap)
  {
    forall a, b | 0 <= a < |group| && 0 <= b < |group| && group[a] == group[b] < i
      ensures Agree(es, a, b, charmap)
    {
      assert group0[a] == group[a] && group0[b] == group[b];
    }
  }

  /** After the split on `charmap[k]`, members of group i agree on `charmap[..k + 1]`. */
  lemma SplitAgreesOnPrefix<T>(es: seq<Edge<T>>, ends: seq<nat>, charmap: seq<T>, group0: seq<nat>, groups0: nat,
                               group: seq<nat>, groups: nat, i: nat, k: nat)
    requires k < |charmap| && i <= groups0
    requires Refining(es, ends, charmap, group0, groups0, i, charmap[..k])
    requires SplitOf(es, group0, groups0, group, groups, i, charmap[k])
    ensures forall a, b :: 0 <= a < |group| && 0 <= b < |group| && group[a] == group[b] == i ==> Agree(es, a, b, charmap[..k + 1])
  {
    var t := charmap[k];
    var p := Pivot(es, group0, i, t);
    assert charmap[..k + 1] == charmap[..k] + [t];
    forall a, b | 0 <= a < |group| && 0 <= b < |group| && group[a] == group[b] == i
      ensures Agree(es, a, b, charmap[..k + 1])
    {
      assert group0[a] == i && group0[b] == i;
      assert Step(es, a, t) == p && Step(es, b, t) == p;
    }
  }

  /** After the split, one group never mixes accepting and other states, and different groups differ. */
  lemma SplitSeparates<T>(es: seq<Edge<T>>, ends: seq<nat>, charmap: seq<T>, group0: seq<nat>, groups0: nat,
                          group: seq<nat>, groups: nat, i: nat, k: nat)
    requires k < |charmap| && i <= groups0
    requires Refining(es, ends, charmap, group0, groups0, i, charmap[..k])
    requires SplitOf(es, group0, groups0, group, groups, i, charmap[k])
    ensures forall a, b :: 0 <= a < |group| && 0 <= b < |group| && group[a] == group[b] ==> (a in ends <==> b in ends)
    ensures forall a, b :: 0 <= a < |group| && 0 <= b < |group| && group[a] != group[b] ==> !SameRow(es, ends, a, b, charmap)
  {
    var t := charmap[k];
    var p := Pivot(es, group0, i, t);
    forall a, b | 0 <= a < |group| && 0 <= b < |group| && group[a] == group[b]
      ensures a in ends <==> b in ends
    {
      if group[a] == groups0 + 1 {
        assert group0[a] == i && group0[b] == i;
      } else {
        assert group0[a] == group[a] && group0[b] == group[b];
      }
    }
    forall a, b | 0 <= a < |group| && 0 <= b < |group| && group[a] != group[b]
      ensures !SameRow(es, ends, a, b, charmap)
    {
      if group0[a] == group0[b] {
        assert group0[a] == i;
        assert (Step(es, a, t) == p) != (Step(es, b, t) == p);
        assert t in charmap;
      }
    }
  }

  /** Once group i agrees on all of `charmap`, the loop moves to group i + 1. */
  lemma NextGroup<T>(es: seq<Edge<T>>, ends: seq<nat>, charmap: seq<T>, group: seq<nat>, groups: nat, i: nat)
    requires i <= groups && Refining(es, ends, charmap, group, groups, i, charmap[..|charmap|])
    ensures Refining(es, ends, charmap, group, groups, i + 1, [])
  {
    assert charmap[..|charmap|] == charmap;
  }

  /** The numbers from lo up to but not including hi. */
  function Interval(lo: nat, hi: nat): (r: set<nat>)
    ensures forall g :: g in r <==> lo <= g < hi
    ensures |r| == if lo <= hi then hi - lo else 0
    decreases hi - lo
  {
    if lo >= hi then {} else {lo} + Interval(lo + 1, hi)
  }

  lemma {:induction false} ImageCard(group: seq<nat>)
    ensures |set j | 0 <= j < |group| :: group[j]| <= |group|
    decreases |group|
  {
    if |group| > 0 {
      var init := group[..|group| - 1];
      ImageCard(init);
      assert (set j | 0 <= j < |group| :: group[j]) <= (set j | 0 <= j < |init| :: init[j]) + {group[|group| - 1]} by {
        forall j | 0 <= j < |group| ensures group[j] in (set j | 0 <= j < |init| :: init[j]) + {group[|group| - 1]} {
          if j < |init| {
            assert init[j] == group[j];
          }
        }
      }
      Dfa.SubsetCard(set j | 0 <= j < |group| :: group[j], (set j | 0 <= j < |init| :: init[j]) + {group[|group| - 1]});
    }
  }

  /** Every group above 1 has a member, so there are at most one more groups than states. */
  lemma GroupBound(group: seq<nat>, groups: nat)
    requires forall g :: 2 <= g <= groups ==> g in group
    ensures groups <= |group| + 1
  {
    if groups >= 2 {
      var used := set j | 0 <= j < |group| :: group[j];
      var range := Interval(2, groups + 1);
      forall g | g in range ensures g in used {
        assert g in group;
        var j :| 0 <= j < |group| && group[j] == g;
      }
      ImageCard(group);
      Dfa.SubsetCard(range, used);
    }
  }

  /** The group of each state before any split: 1 for the accepting states, 0 for the others. */
  method InitialGroups(n: nat, ends: seq<nat>) returns (group: seq<nat>)
    requires forall e :: e in ends ==> e < n
    ensures |group| == n && forall j :: 0 <= j < n ==> group[j] == if j in ends then 1 else 0
  {
    group := seq(n, _ => 0);
    for e := 0 to |ends|
      invariant |group| == n && forall j :: 0 <= j < n ==> group[j] == if j in ends[..e] then 1 else 0
    {
      assert ends[..e + 1] == ends[..e] + [ends[e]];
      assert ends[e] in ends;
      group := group[ends[e] := 1];
    }
    assert ends[..|ends|] == ends;
  }

  /**
   * The refinement half of `minimize_dfa`. Two states end up in the same
   * group exactly when they have the same row.
   */
  method Refine<D, T(==)>(ori: StateTransferGraph<D, T>, charmap: seq<T>) returns (group: seq<nat>, groups: nat)
    requires ori.Valid() && forall e :: e in ori.ends ==> e < |ori.vertices|
    ensures |group| == |ori.vertices| && 1 <= groups
    ensures forall j :: 0 <= j < |group| ==> group[j] <= groups
    ensures forall g :: 2 <= g <= groups ==> g in group
    ensures forall a, b :: 0 <= a < |group| && 0 <= b < |group| ==>
              (group[a] == group[b] <==> SameRow(ori.edges, ori.ends, a, b, charmap))
  {
    ghost var es, ends := ori.edges, ori.ends;
    group := InitialGroups(|ori.vertices|, ori.ends);
    groups := 1;
    var i := 0;
    while i <= groups
      invariant |group| == |ori.vertices| && ori.Valid() && es == ori.edges && ends == ori.ends
      invariant Refining(es, ends, charmap, group, groups, i, [])
      decreases |group| + 2 - i
    {
      GroupBound(group, groups);
      assert charmap[..0] == [];
      for k := 0 to |charmap|
        invariant |group| == |ori.vertices| && i <= groups
        invariant Refining(es, ends, charmap, group, groups, i, charmap[..k])
      {
        ghost var group0, groups0 := group, groups;
        group, groups := SplitGroup(ori, group, groups, i, charmap[k]);
        SplitKeeps(es, ends, charmap, group0, groups0, group, groups, i, k);
      }
      NextGroup(es, ends, charmap, group, groups, i);
      i := i + 1;
      GroupBound(group, groups);
    }
    forall a, b | 0 <= a < |group| && 0 <= b < |group| && SameRow(es, ends, a, b, charmap)
      ensures group[a] == group[b]
    {
    }
  }

  // ---------------------------------------------------------------------------
  // The quotient automaton
  // ---------------------------------------------------------------------------

  /** The members of group i among the states below m, in increasing order. */
  function Members(group: seq<nat>, i: nat, m: nat): (r: seq<nat>)
    requires m <= |group|
    ensures forall k :: 0 <= k < |r| ==> r[k] < m && group[r[k]] == i
    ensures forall x :: 0 <= x < m && group[x] == i ==> x in r
  {
    if m == 0 then [] else Members(group, i, m - 1) + (if group[m - 1] == i then [m - 1] else [])
  }

  /** The transition on t of the first state of `ms` that has one. */
  function FirstStep<T(==)>(es: seq<Edge<T>>, ms: seq<nat>, t: T): Option<nat>
  {
    if |ms| == 0 then None
    else
      match Step(es, ms[0], t)
      case Some(r) => Some(r)
      case None => FirstStep(es, ms[1..], t)
  }

  lemma {:induction false} FirstStepRange<T>(es: seq<Edge<T>>, n: nat, ms: seq<nat>, t: T)
    requires EdgesInRange(es, n)
    ensures FirstStep(es, ms, t).Some? ==> FirstStep(es, ms, t).value < n
  {
    if |ms| > 0 {
      Dfa.StepInRange(es, n, ms[0], t);
      FirstStepRange(es, n, ms[1..], t);
    }
  }

  /** When all of `ms` move alike on t, the first transition found is theirs. */
  lemma {:induction false} FirstStepUniform<T>(es: seq<Edge<T>>, ms: seq<nat>, t: T, x: Option<nat>)
    requires |ms| > 0 && forall k :: 0 <= k < |ms| ==> Step(es, ms[k], t) == x
    ensures FirstStep(es, ms, t) == x
  {
    if |ms| > 1 && x.None? {
      FirstStepUniform(es, ms[1..], t, x);
    }
  }

  /** The edge of group i on t: to the group of the first member's target, if a member has one. */
  function TokenEdge<T(==)>(es: seq<Edge<T>>, group: seq<nat>, i: nat, t: T): seq<Edge<T>>
    requires EdgesInRange(es, |group|)
  {
    FirstStepRange(es, |group|, Members(group, i, |group|), t);
    match FirstStep(es, Members(group, i, |group|), t)
    case Some(r) => [Edge(i, group[r], t)]
    case None => []
  }

  /** The edges of group i, one per token of `toks` that some member can take. */
  function GroupEdges<T(==)>(es: seq<Edge<T>>, group: seq<nat>, i: nat, toks: seq<T>): seq<Edge<T>>
    requires EdgesInRange(es, |group|)
  {
    if |toks| == 0 then []
    else GroupEdges(es, group, i, toks[..|toks| - 1]) + TokenEdge(es, group, i, toks[|toks| - 1])
  }

  /** The edges of groups 0 .. m-1, group by group. */
  function QuotientEdges<T(==)>(es: seq<Edge<T>>, group: seq<nat>, charmap: seq<T>, m: nat): seq<Edge<T>>
    requires EdgesInRange(es, |group|)
  {
    if m == 0 then [] else QuotientEdges(es, group, charmap, m - 1) + GroupEdges(es, group, m - 1, charmap)
  }

  /** Some accepting state of the original automaton is in group v. */
  predicate HasEnd(ends: seq<nat>, group: seq<nat>, v: nat)
  {
    exists x :: x in ends && x < |group| && group[x] == v
  }

  /** The inner loop of the build: the first member with a transition on `token` gives group i its edge. */
  method AddGroupEdge<D, T(==)>(g: StateTransferGraph<D, T>, ori: StateTransferGraph<D, T>, group: seq<nat>, i: nat,
                                states: seq<nat>, token: T)
    requires g != ori && g.Valid() && ori.Valid() && |group| == |ori.vertices| && i < |g.vertices|
    requires states == Members(group, i, |group|)
    requires forall j :: 0 <= j < |group| ==> group[j] < |g.vertices|
    modifies g
    ensures g.Valid() && g.edges == old(g.edges) + TokenEdge(ori.edges, group, i, token)
    ensures |g.vertices| == old(|g.vertices|) && g.start == old(g.start) && g.end == old(g.end) && g.ends == old(g.ends)
  {
    ghost var es := ori.edges;
    FirstStepRange(es, |group|, states, token);
    for s := 0 to |states|
      invariant g.Valid() && g.edges == old(g.edges) && |g.vertices| == old(|g.vertices|)
      invariant g.start == old(g.start) && g.end == old(g.end) && g.ends == old(g.ends)
      invariant FirstStep(es, states, token) == FirstStep(es, states[s..], token)
    {
      var trans := ori.GetTransition(states[s], token);
      Dfa.StepInRange(es, |group|, states[s], token);
      if trans.Some? {
        var _ := g.AddTransfer(i, group[trans.value], token);
        return;
      }
      assert states[s..][1..] == states[s + 1..];
    }
  }

  /** One pass of the build's outer loop: group i, token by token. */
  method BuildGroup<D, T(==)>(g: StateTransferGraph<D, T>, ori: StateTransferGraph<D, T>, group: seq<nat>,
                              charmap: seq<T>, i: nat)
    requires g != ori && g.Valid() && ori.Valid() && |group| == |ori.vertices| && i < |g.vertices|
    requires forall j :: 0 <= j < |group| ==> group[j] < |g.vertices|
    requires |charmap| > 0 ==> ori.start < |ori.vertices|
    modifies g
    ensures g.Valid() && |g.vertices| == old(|g.vertices|)
    ensures g.edges == old(g.edges) + GroupEdges(ori.edges, group, i, charmap)
    ensures g.start == if |charmap| > 0 && group[ori.start] == i then i else old(g.start)
    ensures forall v: nat :: v in g.ends <==> v in old(g.ends) || (|charmap| > 0 && v == i && HasEnd(ori.ends, group, v))
  {
    ghost var es := ori.edges;
    var states := Members(group, i, |group|);
    assert charmap[..0] == [];
    for k := 0 to |charmap|
      invariant g.Valid() && |g.vertices| == old(|g.vertices|)
      invariant g.edges == old(g.edges) + GroupEdges(es, group, i, charmap[..k])
      invariant g.start == if k > 0 && group[ori.start] == i then i else old(g.start)
      invariant forall v: nat :: v in g.ends <==> v in old(g.ends) || (k > 0 && v == i && HasEnd(ori.ends, group, v))
    {
      GroupToken(g, ori, group, i, states, charmap, k);
      GroupEdgesStep(es, group, i, charmap, k);
    }
    assert charmap[..|charmap|] == charmap;
  }

  /** The body of the build's token loop for `charmap[k]`: marks group i, then adds its edge. */
  method GroupToken<D, T(==)>(g: StateTransferGraph<D, T>, ori: StateTransferGraph<D, T>, group: seq<nat>, i: nat,
                              states: seq<nat>, charmap: seq<T>, k: nat)
    requires g != ori && g.Valid() && ori.Valid() && |group| == |ori.vertices| && i < |g.vertices|
    requires states == Members(group, i, |group|)
    requires forall j :: 0 <= j < |group| ==> group[j] < |g.vertices|
    requires k < |charmap| && ori.start < |ori.vertices|
    modifies g
    ensures g.Valid() && |g.vertices| == old(|g.vertices|)
    ensures g.edges == old(g.edges) + TokenEdge(ori.edges, group, i, charmap[k])
    ensures g.start == if group[ori.start] == i then i else old(g.start)
    ensures forall v: nat :: v in g.ends <==> v in old(g.ends) || (v == i && HasEnd(ori.ends, group, v))
  {
    MarkGroup(g, ori, group, i);
    AddGroupEdge(g, ori, group, i, states, charmap[k]);
  }

  lemma GroupEdgesStep<T>(es: seq<Edge<T>>, group: seq<nat>, i: nat, toks: seq<T>, k: nat)
    requires EdgesInRange(es, |group|) && k < |toks|
    ensures GroupEdges(es, group, i, toks[..k + 1]) == GroupEdges(es, group, i, toks[..k]) + TokenEdge(es, group, i, toks[k])
  {
    assert toks[..k + 1][..k] == toks[..k];
  }

  /** The marking part of one token's pass: start and accepting flags for group i. */
  method MarkGroup<D, T(==)>(g: StateTransferGraph<D, T>, ori: StateTransferGraph<D, T>, group: seq<nat>, i: nat)
    requires g != ori && g.Valid() && i < |g.vertices| && ori.start < |group|
    modifies g
    ensures g.Valid() && g.vertices == old(g.vertices) && g.edges == old(g.edges)
    ensures g.start == if group[ori.start] == i then i else old(g.start)
    ensures forall v: nat :: v in g.ends <==> v in old(g.ends) || (v == i && HasEnd(ori.ends, group, v))
  {
    if group[ori.start] == i {
      g.MarkAsStart(i);
    }
    if exists x :: x in ori.ends && x < |group| && group[x] == i {
      ghost var before := g.ends;
      g.MarkAsEnd(i);
      MarkEndSpec(before, i);
    }
  }

  /**
   * The build half of `minimize_dfa`: one state per group; for each group
   * and each token, the group is marked start or accepting when a member
   * is, and gets the edge its first member with a transition gives it.
   */
  method BuildQuotient<D, T(==)>(ori: StateTransferGraph<D, T>, group: seq<nat>, groups: nat, charmap: seq<T>)
    returns (g: StateTransferGraph<D, T>)
    requires ori.Valid() && |group| == |ori.vertices| && forall j :: 0 <= j < |group| ==> group[j] <= groups
    requires |charmap| > 0 ==> ori.start < |ori.vertices|
    ensures fresh(g) && g.Valid() && |g.vertices| == groups + 1
    ensures g.edges == QuotientEdges(ori.edges, group, charmap, groups + 1)
    ensures g.start == if |charmap| > 0 then group[ori.start] else 0
    ensures forall v: nat :: v in g.ends <==> |charmap| > 0 && v <= groups && HasEnd(ori.ends, group, v)
  {
    g := new StateTransferGraph<D, T>(ori.dflt);
    for v := 0 to groups + 1
      invariant g.Valid() && |g.vertices| == v && g.edges == [] && g.start == 0 && g.ends == []
    {
      var _ := g.AddState();
    }
    for i := 0 to groups + 1
      invariant g.Valid() && |g.vertices| == groups + 1
      invariant g.edges == QuotientEdges(ori.edges, group, charmap, i)
      invariant g.start == if |charmap| > 0 && group[ori.start] < i then group[ori.start] else 0
      invariant forall v: nat :: v in g.ends <==> |charmap| > 0 && v < i && HasEnd(ori.ends, group, v)
    {
      BuildGroup(g, ori, group, charmap, i);
    }
  }

  // ---------------------------------------------------------------------------
  // What the quotient does
  // ---------------------------------------------------------------------------

  /** Steps in es1 + es2: es1's edges come first, es2 only fills a missing target. */
  lemma {:induction false} StepConcat<T>(es1: seq<Edge<T>>, es2: seq<Edge<T>>, v: nat, t: T)
    ensures Step(es1 + es2, v, t) == if Step(es1, v, t).Some? then Step(es1, v, t) else Step(es2, v, t)
    decreases |es2|
  {
    if |es2| == 0 {
      assert es1 + es2 == es1;
    } else {
      var init, e := es2[..|es2| - 1], es2[|es2| - 1];
      assert es1 + es2 == (es1 + init) + [e];
      assert es2 == init + [e];
      assert init == [] + init;
      StepConcat(es1, init, v, t);
      StepAppend(es1 + init, e, v, t);
      StepAppend(init, e, v, t);
    }
  }

  /** Where group i goes on t, if any member can take t: the group of the first such member's target. */
  function TokenTarget<T(==)>(es: seq<Edge<T>>, group: seq<nat>, i: nat, t: T): Option<nat>
    requires EdgesInRange(es, |group|)
  {
    FirstStepRange(es, |group|, Members(group, i, |group|), t);
    match FirstStep(es, Members(group, i, |group|), t)
    case Some(r) => Some(group[r])
    case None => None
  }

  lemma TokenEdgeStep<T>(es: seq<Edge<T>>, group: seq<nat>, i: nat, t: T, v: nat, c: T)
    requires EdgesInRange(es, |group|)
    ensures Step(TokenEdge(es, group, i, t), v, c) == if v == i && c == t then TokenTarget(es, group, i, t) else None
  {
    var te := TokenEdge(es, group, i, t);
    if |te| == 1 {
      assert te == [] + [te[0]];
      StepAppend([], te[0], v, c);
    }
  }

  /** The edges of group i move only group i, and only on the tokens of `toks`. */
  lemma {:induction false} GroupEdgesTarget<T>(es: seq<Edge<T>>, group: seq<nat>, i: nat, toks: seq<T>, v: nat, c: T)
    requires EdgesInRange(es, |group|)
    ensures Step(GroupEdges(es, group, i, toks), v, c) == if v == i && c in toks then TokenTarget(es, group, i, c) else None
    decreases |toks|
  {
    if |toks| > 0 {
      var init := toks[..|toks| - 1];
      assert toks == init + [toks[|toks| - 1]];
      GroupEdgesTarget(es, group, i, init, v, c);
      StepConcat(GroupEdges(es, group, i, init), TokenEdge(es, group, i, toks[|toks| - 1]), v, c);
      TokenEdgeStep(es, group, i, toks[|toks| - 1], v, c);
    }
  }

  /** Group v of the quotient moves on each token of `charmap` as its first member able to. */
  lemma {:induction false} QuotientStep<T>(es: seq<Edge<T>>, group: seq<nat>, charmap: seq<T>, m: nat, v: nat, c: T)
    requires EdgesInRange(es, |group|)
    ensures Step(QuotientEdges(es, group, charmap, m), v, c) ==
              if v < m && c in charmap then TokenTarget(es, group, v, c) else None
  {
    if m > 0 {
      var i: nat := m - 1;
      var prev, last := QuotientEdges(es, group, charmap, i), GroupEdges(es, group, i, charmap);
      assert QuotientEdges(es, group, charmap, m) == prev + last;
      var target := TokenTarget(es, group, v, c);
      assert Step(last, v, c) == if v + 1 == m && c in charmap then target else None by {
        GroupEdgesTarget(es, group, i, charmap, v, c);
      }
      assert Step(prev, v, c) == if v + 1 < m && c in charmap then target else None by {
        QuotientStep(es, group, charmap, i, v, c);
      }
      ConcatCase(prev, last, v, c, m, c in charmap, target);
    }
  }

  lemma ConcatCase<T>(prev: seq<Edge<T>>, last: seq<Edge<T>>, v: nat, c: T, m: nat, inC: bool, target: Option<nat>)
    requires Step(prev, v, c) == if v + 1 < m && inC then target else None
    requires Step(last, v, c) == if v + 1 == m && inC then target else None
    ensures Step(prev + last, v, c) == if v < m && inC then target else None
  {
    StepConcat(prev, last, v, c);
  }

  /** The groups are exactly the classes of states with the same row. */
  predicate Classes<T(==)>(es: seq<Edge<T>>, ends: seq<nat>, charmap: seq<T>, group: seq<nat>)
  {
    forall a, b :: 0 <= a < |group| && 0 <= b < |group| ==> (group[a] == group[b] <==> SameRow(es, ends, a, b, charmap))
  }

  /** When the groups are the row classes, a group moves on a token as each of its members does. */
  lemma TokenTargetOf<T>(es: seq<Edge<T>>, ends: seq<nat>, charmap: seq<T>, group: seq<nat>, q: nat, t: T)
    requires EdgesInRange(es, |group|) && Classes(es, ends, charmap, group) && q < |group| && t in charmap
    ensures TokenTarget(es, group, group[q], t) ==
              match Step(es, q, t) case None => None case Some(r) => if r < |group| then Some(group[r]) else None
    ensures Step(es, q, t).Some? ==> Step(es, q, t).value < |group|
  {
    Dfa.StepInRange(es, |group|, q, t);
    var ms := Members(group, group[q], |group|);
    assert q in ms;
    forall k | 0 <= k < |ms| ensures Step(es, ms[k], t) == Step(es, q, t) {
      assert SameRow(es, ends, ms[k], q, charmap);
    }
    FirstStepUniform(es, ms, t, Step(es, q, t));
  }

  /** Running the quotient from q's group follows the original run group by group. */
  lemma {:induction false} QuotientRun<T>(es: seq<Edge<T>>, ends: seq<nat>, charmap: seq<T>, group: seq<nat>, groups: nat,
                                         q: nat, w: seq<T>)
    requires EdgesInRange(es, |group|) && Classes(es, ends, charmap, group) && q < |group|
    requires forall j :: 0 <= j < |group| ==> group[j] <= groups
    requires forall k :: 0 <= k < |w| ==> w[k] in charmap
    ensures Dfa.DfaRun(es, q, w).Some? ==> Dfa.DfaRun(es, q, w).value < |group|
    ensures Dfa.DfaRun(QuotientEdges(es, group, charmap, groups + 1), group[q], w) ==
              match Dfa.DfaRun(es, q, w) case None => None case Some(r) => Some(group[r])
    decreases |w|
  {
    if |w| > 0 {
      QuotientStep(es, group, charmap, groups + 1, group[q], w[0]);
      TokenTargetOf(es, ends, charmap, group, q, w[0]);
      match Step(es, q, w[0])
      case None =>
      case Some(r) =>
        QuotientRun(es, ends, charmap, group, groups, r, w[1..]);
    }
  }

  /**
   * The quotient accepts, leaves unfinished and rejects exactly the words
   * over `charmap` that the original automaton does.
   */
  lemma QuotientMatches<T>(es: seq<Edge<T>>, ends: seq<nat>, start: nat, charmap: seq<T>, group: seq<nat>, groups: nat,
                           qends: seq<nat>, w: seq<T>)
    requires EdgesInRange(es, |group|) && Classes(es, ends, charmap, group) && start < |group|
    requires forall j :: 0 <= j < |group| ==> group[j] <= groups
    requires forall v: nat :: v in qends <==> v <= groups && HasEnd(ends, group, v)
    requires forall k :: 0 <= k < |w| ==> w[k] in charmap
    ensures Dfa.MatchDfaSpec(QuotientEdges(es, group, charmap, groups + 1), group[start], qends, w)
            == Dfa.MatchDfaSpec(es, start, ends, w)
  {
    QuotientRun(es, ends, charmap, group, groups, start, w);
    if Dfa.DfaRun(es, start, w).Some? {
      var r := Dfa.DfaRun(es, start, w).value;
      if group[r] in qends {
        var x :| x in ends && x < |group| && group[x] == group[r];
        assert SameRow(es, ends, x, r, charmap);
      } else if r in ends {
        assert HasEnd(ends, group, group[r]);
      }
    }
  }

  /**
   * `minimize_dfa`: merges the states with the same row (acceptance and the
   * target state on every token of `charmap`) into one state per group and
   * builds the quotient; on words over `charmap` it matches as the original.
   */
  method MinimizeDfa<D, T(==)>(ori: StateTransferGraph<D, T>, charmap: seq<T>)
    returns (g: StateTransferGraph<D, T>, ghost group: seq<nat>)
    requires ori.Valid() && forall e :: e in ori.ends ==> e < |ori.vertices|
    requires |charmap| > 0 ==> ori.start < |ori.vertices|
    ensures fresh(g) && g.Valid()
    ensures |group| == |ori.vertices| && Classes(ori.edges, ori.ends, charmap, group)
    ensures forall j :: 0 <= j < |group| ==> group[j] < |g.vertices|
    ensures g.edges == QuotientEdges(ori.edges, group, charmap, |g.vertices|)
    ensures g.start == if |charmap| > 0 then group[ori.start] else 0
    ensures forall v: nat :: v in g.ends <==> |charmap| > 0 && v < |g.vertices| && HasEnd(ori.ends, group, v)
    ensures |charmap| > 0 ==> forall w :: (forall k :: 0 <= k < |w| ==> w[k] in charmap) ==>
              Dfa.MatchDfaSpec(g.edges, g.start, g.ends, w) == Dfa.MatchDfaSpec(ori.edges, ori.start, ori.ends, w)
  {
    var classes, groups := Refine(ori, charmap);
    group := classes;
    g := BuildQuotient(ori, classes, groups, charmap);
    if |charmap| > 0 {
      forall w | forall k :: 0 <= k < |w| ==> w[k] in charmap
        ensures Dfa.MatchDfaSpec(g.edges, g.start, g.ends, w) == Dfa.MatchDfaSpec(ori.edges, ori.start, ori.ends, w)
      {
        QuotientMatches(ori.edges, ori.ends, ori.start, charmap, group, groups, g.ends, w);
      }
    }
  }
}
