/**
 * `FollowPosImpl::downward` of src/lexer/dfa.rs: one walk over a regular
 * expression that numbers its `Atomic` leaves as positions, computes
 * nullable/firstpos/lastpos of every subexpression and fills the followpos
 * matrix, as the direct regex-to-DFA construction needs.
 *
 * The two tables `downward` receives by mutable reference are threaded
 * through as in/out parameters.
 */
module Followpos {
  import opened Utils
  import opened Re
  import Nfa

  /**
   * `downward` panics on `Alias` and `Match`, and an empty concatenation
   * underflows `arr.len() - 1`.
   */
  predicate DfaReady(re: RegularExpression)
  {
    match re
    case Alias(_) => false
    case Match(_) => false
    case Union(ops) => forall i :: 0 <= i < |ops| ==> DfaReady(ops[i])
    case Concatenation(ops) => |ops| > 0 && forall i :: 0 <= i < |ops| ==> DfaReady(ops[i])
    case Iteration(o) => DfaReady(o)
    case _ => true
  }

  /** What `downward` returns for a subexpression: (nullable, firstpos, lastpos). */
  datatype Summary = Summary(nullable: bool, first: VertexSet, last: VertexSet)

  /** The followpos matrix and the character at each position. */
  datatype Positions = Positions(followpos: seq<VertexSet>, posmap: seq<char>)

  predicate Shaped(p: Positions)
  {
    Square(p.followpos) && |p.posmap| == |p.followpos|
  }

  /** Every summary's sets fit in `n` flags. */
  predicate Fits(arr: seq<Summary>, n: nat)
  {
    forall k :: 0 <= k < |arr| ==> |arr[k].first| <= n && |arr[k].last| <= n
  }

  // ---------------------------------------------------------------------------
  // Specification of `downward`
  // ---------------------------------------------------------------------------

  /** The tables and the summary `downward` leaves for `re` when started on `p`. */
  function Down(re: RegularExpression, p: Positions): (r: (Positions, Summary))
    requires DfaReady(re) && Shaped(p)
    ensures Shaped(r.0) && |r.0.followpos| >= |p.followpos|
    ensures |r.1.first| == |r.0.followpos| && |r.1.last| == |r.0.followpos|
    decreases re, Nfa.Arity(re) + 1
  {
    var n := |p.followpos|;
    match re
    case Epsilon => (p, Summary(true, NewSet(n), NewSet(n)))
    case Atomic(c) =>
      PushedSpec(p.followpos);
      (Positions(Pushed(p.followpos), p.posmap + [c]), Summary(false, NewSet(n) + [true], NewSet(n) + [true]))
    case Union(ops) =>
      var (q, arr) := DownPrefix(re, |ops|, p);
      var m := |q.followpos|;
      (q, UnionSummary(arr, 0, Summary(false, NewSet(m), NewSet(m))))
    case Concatenation(ops) =>
      var (q, arr) := DownPrefix(re, |ops|, p);
      var m := |q.followpos|;
      var (nullable, first) := FirstScan(arr, 0, true, NewSet(m));
      (Positions(ConcatFollow(q.followpos, arr, 0), q.posmap),
       Summary(nullable, first, LastScan(Reverse(arr), 0, true, NewSet(m))))
    case Iteration(o) =>
      var (q, s) := Down(o, p);
      (Positions(StarFollow(q.followpos, s.last, s.first, 0), q.posmap), Summary(true, s.first, s.last))
  }

  /** The operand loop: `downward` on operands 0 .. n-1 in turn, collecting their summaries. */
  function DownPrefix(re: RegularExpression, n: nat, p: Positions): (r: (Positions, seq<Summary>))
    requires (re.Union? || re.Concatenation?) && DfaReady(re) && n <= |re.operands| && Shaped(p)
    ensures Shaped(r.0) && |r.0.followpos| >= |p.followpos| && |r.1| == n && Fits(r.1, |r.0.followpos|)
    decreases re, n
  {
    if n == 0 then (p, [])
    else
      var (q, arr) := DownPrefix(re, n - 1, p);
      var (q', s) := Down(re.operands[n - 1], q);
      (q', arr + [s])
  }

  /** The union's combining loop from summary k on: nullable if any is, sets joined. */
  function UnionSummary(arr: seq<Summary>, k: nat, acc: Summary): (r: Summary)
    requires k <= |arr| && Fits(arr, |acc.first|) && |acc.first| == |acc.last|
    ensures |r.first| == |acc.first| && |r.last| == |acc.last|
    decreases |arr| - k
  {
    if k == |arr| then acc
    else UnionSummary(arr, k + 1, Summary(acc.nullable || arr[k].nullable,
                                           Cup(acc.first, arr[k].first), Cup(acc.last, arr[k].last)))
  }

  /**
   * The innermost followpos loop of a concatenation: row j gets the firstpos
   * of summaries k, k+1, … up to and including the first non-nullable one.
   */
  function ChainFrom(fp: seq<VertexSet>, j: nat, arr: seq<Summary>, k: nat): (r: seq<VertexSet>)
    requires Square(fp) && j < |fp| && k <= |arr| && Fits(arr, |fp|)
    ensures Square(r) && |r| == |fp|
    decreases |arr| - k
  {
    if k == |arr| then fp
    else
      var fp' := fp[j := Cup(fp[j], arr[k].first)];
      if arr[k].nullable then ChainFrom(fp', j, arr, k + 1) else fp'
  }

  /** The loop over the lastpos flags j, j+1, … of summary i. */
  function RowsFrom(fp: seq<VertexSet>, arr: seq<Summary>, i: nat, j: nat): (r: seq<VertexSet>)
    requires Square(fp) && i < |arr| && j <= |arr[i].last| && Fits(arr, |fp|)
    ensures Square(r) && |r| == |fp|
    decreases |arr[i].last| - j
  {
    if j == |arr[i].last| then fp
    else RowsFrom(if arr[i].last[j] then ChainFrom(fp, j, arr, i + 1) else fp, arr, i, j + 1)
  }

  /** The outer followpos loop of a concatenation, over summaries i .. |arr|-2. */
  function ConcatFollow(fp: seq<VertexSet>, arr: seq<Summary>, i: nat): (r: seq<VertexSet>)
    requires Square(fp) && 0 < |arr| && i <= |arr| - 1 && Fits(arr, |fp|)
    ensures Square(r) && |r| == |fp|
    decreases |arr| - i
  {
    if i == |arr| - 1 then fp
    else ConcatFollow(RowsFrom(fp, arr, i, 0), arr, i + 1)
  }

  /** The firstpos loop of a concatenation: joins firstpos while the prefix stays nullable. */
  function FirstScan(arr: seq<Summary>, k: nat, nullable: bool, first: VertexSet): (r: (bool, VertexSet))
    requires k <= |arr| && Fits(arr, |first|)
    ensures |r.1| == |first|
    decreases |arr| - k
  {
    if k == |arr| then (nullable, first)
    else
      var first' := if nullable then Cup(first, arr[k].first) else first;
      var nullable' := nullable && arr[k].nullable;
      if !arr[k].nullable then (nullable', first') else FirstScan(arr, k + 1, nullable', first')
  }

  /** The lastpos loop of a concatenation, over the reversed summaries. */
  function LastScan(rev: seq<Summary>, k: nat, flag: bool, last: VertexSet): (r: VertexSet)
    requires k <= |rev| && Fits(rev, |last|)
    ensures |r| == |last|
    decreases |rev| - k
  {
    if k == |rev| then last
    else
      var last' := if flag then Cup(last, rev[k].last) else last;
      if !rev[k].nullable then last' else LastScan(rev, k + 1, rev[k].nullable, last')
  }

  /** The followpos loop of an iteration: each lastpos row i, i+1, … gets the whole firstpos. */
  function StarFollow(fp: seq<VertexSet>, last: VertexSet, first: VertexSet, i: nat): (r: seq<VertexSet>)
    requires Square(fp) && |last| <= |fp| && |first| <= |fp| && i <= |last|
    ensures Square(r) && |r| == |fp|
    decreases |last| - i
  {
    if i == |last| then fp
    else StarFollow(if last[i] then fp[i := Cup(fp[i], first)] else fp, last, first, i + 1)
  }

  // ---------------------------------------------------------------------------
  // `downward` and its loops
  // ---------------------------------------------------------------------------

  /** `downward`: grows `followpos` and `posmap` and returns (nullable, firstpos, lastpos). */
  method Downward(re: RegularExpression, followpos: seq<VertexSet>, posmap: seq<char>)
    returns (fp: seq<VertexSet>, pm: seq<char>, s: Summary)
    requires DfaReady(re) && Square(followpos) && |posmap| == |followpos|
    ensures (Positions(fp, pm), s) == Down(re, Positions(followpos, posmap))
    decreases re
  {
    var n := |followpos|;
    ghost var p0 := Positions(followpos, posmap);
    match re {
      case Epsilon =>
        fp, pm, s := followpos, posmap, Summary(true, NewSet(n), NewSet(n));
      case Atomic(c) =>
        var first := NewSet(n) + [true];
        var last := NewSet(n) + [true];
        var grown, size := PushSets(followpos);
        fp, pm, s := grown, posmap + [c], Summary(false, first, last);
      case Union(ops) =>
        var arr: seq<Summary> := [];
        fp, pm := followpos, posmap;
        for i := 0 to |ops|
          invariant (Positions(fp, pm), arr) == DownPrefix(re, i, p0)
        {
          var fp', pm', child := Downward(ops[i], fp, pm);
          fp, pm, arr := fp', pm', arr + [child];
        }
        s := CombineUnion(arr, |fp|);
      case Concatenation(ops) =>
        var arr: seq<Summary> := [];
        fp, pm := followpos, posmap;
        for i := 0 to |ops|
          invariant (Positions(fp, pm), arr) == DownPrefix(re, i, p0)
        {
          var fp', pm', child := Downward(ops[i], fp, pm);
          fp, pm, arr := fp', pm', arr + [child];
        }
        var m := |fp|;
        fp := FollowConcat(fp, arr);
        var nullable, first := FirstLoop(arr, m);
        var last := LastLoop(arr, m);
        s := Summary(nullable, first, last);
      case Iteration(o) =>
        var fp', pm', child := Downward(o, followpos, posmap);
        fp := StarLoop(fp', child.last, child.first);
        pm, s := pm', Summary(true, child.first, child.last);
    }
  }

  method CombineUnion(arr: seq<Summary>, m: nat) returns (s: Summary)
    requires Fits(arr, m)
    ensures s == UnionSummary(arr, 0, Summary(false, NewSet(m), NewSet(m)))
  {
    var nullable := false;
    var first := NewSet(m);
    var last := NewSet(m);
    for k := 0 to |arr|
      invariant |first| == m && |last| == m
      invariant UnionSummary(arr, 0, Summary(false, NewSet(m), NewSet(m)))
                == UnionSummary(arr, k, Summary(nullable, first, last))
    {
      nullable := nullable || arr[k].nullable;
      first := CupSet(first, arr[k].first);
      last := CupSet(last, arr[k].last);
    }
    s := Summary(nullable, first, last);
  }

  method FollowConcat(fp0: seq<VertexSet>, arr: seq<Summary>) returns (fp: seq<VertexSet>)
    requires Square(fp0) && 0 < |arr| && Fits(arr, |fp0|)
    ensures fp == ConcatFollow(fp0, arr, 0)
  {
    fp := fp0;
    for i := 0 to |arr| - 1
      invariant Square(fp) && |fp| == |fp0|
      invariant ConcatFollow(fp0, arr, 0) == ConcatFollow(fp, arr, i)
    {
      ghost var start := fp;
      for j := 0 to |arr[i].last|
        invariant Square(fp) && |fp| == |fp0|
        invariant RowsFrom(start, arr, i, 0) == RowsFrom(fp, arr, i, j)
      {
        if !arr[i].last[j] {
          continue;
        }
        fp := Chain(fp, j, arr, i + 1);
      }
    }
  }

  /** The `flag_null` loop for one lastpos row j, starting at summary k. */
  method Chain(fp0: seq<VertexSet>, j: nat, arr: seq<Summary>, k: nat) returns (fp: seq<VertexSet>)
    requires Square(fp0) && j < |fp0| && k <= |arr| && Fits(arr, |fp0|)
    ensures fp == ChainFrom(fp0, j, arr, k)
  {
    fp := fp0;
    var flagNull := true;
    for t := k to |arr|
      invariant Square(fp) && |fp| == |fp0|
      invariant flagNull ==> ChainFrom(fp0, j, arr, k) == ChainFrom(fp, j, arr, t)
      invariant !flagNull ==> ChainFrom(fp0, j, arr, k) == fp
    {
      if !flagNull {
        break;
      }
      var row := CupSet(fp[j], arr[t].first);
      fp := fp[j := row];
      flagNull := arr[t].nullable;
    }
  }

  method FirstLoop(arr: seq<Summary>, m: nat) returns (nullable: bool, first: VertexSet)
    requires Fits(arr, m)
    ensures (nullable, first) == FirstScan(arr, 0, true, NewSet(m))
  {
    nullable := true;
    first := NewSet(m);
    for k := 0 to |arr|
      invariant |first| == m
      invariant FirstScan(arr, 0, true, NewSet(m)) == FirstScan(arr, k, nullable, first)
    {
      if nullable {
        first := CupSet(first, arr[k].first);
      }
      nullable := nullable && arr[k].nullable;
      if !arr[k].nullable {
        break;
      }
    }
  }

  method LastLoop(arr: seq<Summary>, m: nat) returns (last: VertexSet)
    requires Fits(arr, m)
    ensures last == LastScan(Reverse(arr), 0, true, NewSet(m))
  {
    var rev := Reverse(arr);
    var lastNull := true;
    last := NewSet(m);
    for k := 0 to |rev|
      invariant |last| == m
      invariant LastScan(rev, 0, true, NewSet(m)) == LastScan(rev, k, lastNull, last)
    {
      if lastNull {
        last := CupSet(last, rev[k].last);
      }
      lastNull := rev[k].nullable;
      if !rev[k].nullable {
        break;
      }
    }
  }

  method StarLoop(fp0: seq<VertexSet>, last: VertexSet, first: VertexSet) returns (fp: seq<VertexSet>)
    requires Square(fp0) && |last| <= |fp0| && |first| <= |fp0|
    ensures fp == StarFollow(fp0, last, first, 0)
  {
    fp := fp0;
    for i := 0 to |last|
      invariant Square(fp) && |fp| == |fp0|
      invariant StarFollow(fp0, last, first, 0) == StarFollow(fp, last, first, i)
    {
      if !last[i] {
        continue;
      }
      var row := CupSet(fp[i], first);
      fp := fp[i := row];
    }
  }

  // ---------------------------------------------------------------------------
  // What the loops compute
  // ---------------------------------------------------------------------------

  /** Firstpos of summaries k, k+1, … reached through a run of nullable summaries starting at k. */
  ghost function ReachFirst(arr: seq<Summary>, k: nat): set<nat>
    requires k <= |arr|
  {
    set t, l | k <= t < |arr| && (forall u :: k <= u < t ==> arr[u].nullable) && l in Bits(arr[t].first) :: l
  }

  /** Lastpos of summaries k-1, k-2, … reached through a run of nullable summaries ending before k. */
  ghost function ReachLast(arr: seq<Summary>, k: nat): set<nat>
    requires k <= |arr|
  {
    set t, l | 0 <= t < k && (forall u :: t < u < k ==> arr[u].nullable) && l in Bits(arr[t].last) :: l
  }

  /**
   * The followpos targets a concatenation adds to row x: the firstpos of
   * every summary that some summary m >= i with x in its lastpos reaches
   * through nullable summaries.
   */
  ghost function Chained(arr: seq<Summary>, x: nat, i: nat): set<nat>
    requires 0 < |arr| && i <= |arr| - 1
  {
    set m, l | i <= m < |arr| - 1 && x in Bits(arr[m].last) && l in Fed(arr, m) :: l
  }

  /** The firstpos the lastpos of summary m feeds: what the summaries after it reach. */
  ghost function Fed(arr: seq<Summary>, m: nat): set<nat>
    requires m < |arr|
  {
    ReachFirst(arr, m + 1)
  }

  ghost function Firsts(arr: seq<Summary>, k: nat): set<nat>
  {
    set t, l | k <= t < |arr| && l in Bits(arr[t].first) :: l
  }

  ghost function Lasts(arr: seq<Summary>, k: nat): set<nat>
  {
    set t, l | k <= t < |arr| && l in Bits(arr[t].last) :: l
  }

  lemma ReachFirstStep(arr: seq<Summary>, k: nat)
    requires k < |arr|
    ensures ReachFirst(arr, k) == Bits(arr[k].first) + (if arr[k].nullable then ReachFirst(arr, k + 1) else {})
  {
    var rhs := Bits(arr[k].first) + (if arr[k].nullable then ReachFirst(arr, k + 1) else {});
    forall l | l in ReachFirst(arr, k) ensures l in rhs {
      var t :| k <= t < |arr| && (forall u :: k <= u < t ==> arr[u].nullable) && l in Bits(arr[t].first);
    }
    forall l | l in rhs ensures l in ReachFirst(arr, k) {
      if l !in Bits(arr[k].first) {
        var t :| k + 1 <= t < |arr| && (forall u :: k + 1 <= u < t ==> arr[u].nullable) && l in Bits(arr[t].first);
        assert forall u :: k <= u < t ==> arr[u].nullable;
      }
    }
  }

  lemma ReachLastStep(arr: seq<Summary>, k: nat)
    requires 0 < k <= |arr|
    ensures ReachLast(arr, k) == Bits(arr[k - 1].last) + (if arr[k - 1].nullable then ReachLast(arr, k - 1) else {})
  {
    var rhs := Bits(arr[k - 1].last) + (if arr[k - 1].nullable then ReachLast(arr, k - 1) else {});
    forall l | l in ReachLast(arr, k) ensures l in rhs {
      var t :| 0 <= t < k && (forall u :: t < u < k ==> arr[u].nullable) && l in Bits(arr[t].last);
    }
    forall l | l in rhs ensures l in ReachLast(arr, k) {
      if l !in Bits(arr[k - 1].last) {
        var t :| 0 <= t < k - 1 && (forall u :: t < u < k - 1 ==> arr[u].nullable) && l in Bits(arr[t].last);
        assert forall u :: t < u < k ==> arr[u].nullable;
      }
    }
  }

  /** The `flag_null` loop adds to row j exactly the firstpos reached from summary k, and touches no other row. */
  lemma {:induction false} ChainFromSpec(fp: seq<VertexSet>, j: nat, arr: seq<Summary>, k: nat)
    requires Square(fp) && j < |fp| && k <= |arr| && Fits(arr, |fp|)
    ensures forall x :: 0 <= x < |fp| && x != j ==> ChainFrom(fp, j, arr, k)[x] == fp[x]
    ensures Bits(ChainFrom(fp, j, arr, k)[j]) == Bits(fp[j]) + ReachFirst(arr, k)
    decreases |arr| - k
  {
    if k < |arr| {
      var fp' := fp[j := Cup(fp[j], arr[k].first)];
      CupBits(fp[j], arr[k].first);
      ReachFirstStep(arr, k);
      if arr[k].nullable {
        ChainFromSpec(fp', j, arr, k + 1);
      }
    }
  }

  /** Row x gains the firstpos reached after summary i exactly when x is in summary i's lastpos. */
  lemma {:induction false} RowsFromSpec(fp: seq<VertexSet>, arr: seq<Summary>, i: nat, j: nat)
    requires Square(fp) && i < |arr| && j <= |arr[i].last| && Fits(arr, |fp|)
    ensures forall x :: 0 <= x < |fp| ==>
      Bits(RowsFrom(fp, arr, i, j)[x])
        == Bits(fp[x]) + (if j <= x < |arr[i].last| && arr[i].last[x] then ReachFirst(arr, i + 1) else {})
    decreases |arr[i].last| - j
  {
    if j < |arr[i].last| {
      var fp1 := if arr[i].last[j] then ChainFrom(fp, j, arr, i + 1) else fp;
      assert RowsFrom(fp, arr, i, j) == RowsFrom(fp1, arr, i, j + 1);
      if arr[i].last[j] {
        ChainFromSpec(fp, j, arr, i + 1);
      }
      RowsFromSpec(fp1, arr, i, j + 1);
      forall x | 0 <= x < |fp|
        ensures Bits(RowsFrom(fp, arr, i, j)[x])
          == Bits(fp[x]) + (if j <= x < |arr[i].last| && arr[i].last[x] then ReachFirst(arr, i + 1) else {})
      {
        RowsRow(Bits(fp[x]), Bits(fp1[x]), Bits(RowsFrom(fp1, arr, i, j + 1)[x]), ReachFirst(arr, i + 1),
                x == j && arr[i].last[j], j + 1 <= x < |arr[i].last| && arr[i].last[x]);
      }
    }
  }

  /** One row of one step of the lastpos loop: a row gains the firstpos at most once. */
  lemma RowsRow(before: set<nat>, mid: set<nat>, after: set<nat>, gain: set<nat>, now: bool, later: bool)
    requires mid == before + (if now then gain else {})
    requires after == mid + (if later then gain else {})
    ensures after == before + (if now || later then gain else {})
  {
  }

  lemma ChainedStep(arr: seq<Summary>, x: nat, i: nat)
    requires 0 < |arr| && i < |arr| - 1
    ensures Chained(arr, x, i) == (if x in Bits(arr[i].last) then ReachFirst(arr, i + 1) else {}) + Chained(arr, x, i + 1)
  {
    var rhs := (if x in Bits(arr[i].last) then ReachFirst(arr, i + 1) else {}) + Chained(arr, x, i + 1);
    forall l | l in Chained(arr, x, i) ensures l in rhs {
      var m :| i <= m < |arr| - 1 && x in Bits(arr[m].last) && l in Fed(arr, m);
    }
    forall l | l in rhs ensures l in Chained(arr, x, i) {
      if x in Bits(arr[i].last) && l in ReachFirst(arr, i + 1) {
        assert l in Fed(arr, i);
      }
    }
  }

  /** One row of one round of the concatenation's followpos loops. */
  lemma ConcatRow(fp: seq<VertexSet>, arr: seq<Summary>, i: nat, x: nat, rows: seq<VertexSet>)
    requires Square(fp) && 0 < |arr| && i < |arr| - 1 && Fits(arr, |fp|) && x < |fp|
    requires rows == RowsFrom(fp, arr, i, 0)
    requires Bits(ConcatFollow(rows, arr, i + 1)[x]) == Bits(rows[x]) + Chained(arr, x, i + 1)
    requires Bits(rows[x]) == Bits(fp[x]) + (if 0 <= x < |arr[i].last| && arr[i].last[x] then ReachFirst(arr, i + 1) else {})
    ensures Bits(ConcatFollow(fp, arr, i)[x]) == Bits(fp[x]) + Chained(arr, x, i)
  {
    ChainedStep(arr, x, i);
    var fed := if x in Bits(arr[i].last) then ReachFirst(arr, i + 1) else {};
    assert fed == if 0 <= x < |arr[i].last| && arr[i].last[x] then ReachFirst(arr, i + 1) else {};
    assert ConcatFollow(fp, arr, i) == ConcatFollow(rows, arr, i + 1);
    UnionAssoc(Bits(fp[x]), fed, Chained(arr, x, i + 1));
  }

  lemma UnionAssoc(a: set<nat>, b: set<nat>, c: set<nat>)
    ensures a + b + c == a + (b + c)
  {
  }

  /** The concatenation's followpos loops add to row x exactly `Chained(arr, x, i)`. */
  lemma {:induction false} ConcatFollowSpec(fp: seq<VertexSet>, arr: seq<Summary>, i: nat)
    requires Square(fp) && 0 < |arr| && i <= |arr| - 1 && Fits(arr, |fp|)
    ensures forall x :: 0 <= x < |fp| ==> Bits(ConcatFollow(fp, arr, i)[x]) == Bits(fp[x]) + Chained(arr, x, i)
    decreases |arr| - i
  {
    if i < |arr| - 1 {
      var rows := RowsFrom(fp, arr, i, 0);
      RowsFromSpec(fp, arr, i, 0);
      ConcatFollowSpec(rows, arr, i + 1);
      ConcatRound(fp, arr, i, rows);
    } else {
      forall x | 0 <= x < |fp| ensures Chained(arr, x, i) == {} {
        ChainedNone(arr, x);
      }
    }
  }

  lemma ChainedNone(arr: seq<Summary>, x: nat)
    requires 0 < |arr|
    ensures Chained(arr, x, |arr| - 1) == {}
  {
  }

  /** One round of the outer loop, row by row, given what the rounds after it add. */
  lemma ConcatRound(fp: seq<VertexSet>, arr: seq<Summary>, i: nat, rows: seq<VertexSet>)
    requires Square(fp) && 0 < |arr| && i < |arr| - 1 && Fits(arr, |fp|)
    requires rows == RowsFrom(fp, arr, i, 0)
    requires forall x :: 0 <= x < |fp| ==>
      Bits(rows[x]) == Bits(fp[x]) + (if 0 <= x < |arr[i].last| && arr[i].last[x] then ReachFirst(arr, i + 1) else {})
    requires forall x :: 0 <= x < |rows| ==> Bits(ConcatFollow(rows, arr, i + 1)[x]) == Bits(rows[x]) + Chained(arr, x, i + 1)
    ensures forall x :: 0 <= x < |fp| ==> Bits(ConcatFollow(fp, arr, i)[x]) == Bits(fp[x]) + Chained(arr, x, i)
  {
    forall x | 0 <= x < |fp| ensures Bits(ConcatFollow(fp, arr, i)[x]) == Bits(fp[x]) + Chained(arr, x, i) {
      ConcatRow(fp, arr, i, x, rows);
    }
  }

  /** The firstpos loop: nullable iff every summary is, firstpos is what the nullable prefix reaches. */
  lemma {:induction false} FirstScanSpec(arr: seq<Summary>, k: nat, first: VertexSet)
    requires k <= |arr| && Fits(arr, |first|)
    ensures FirstScan(arr, k, true, first).0 <==> forall t :: k <= t < |arr| ==> arr[t].nullable
    ensures Bits(FirstScan(arr, k, true, first).1) == Bits(first) + ReachFirst(arr, k)
    decreases |arr| - k
  {
    if k < |arr| {
      CupBits(first, arr[k].first);
      ReachFirstStep(arr, k);
      if arr[k].nullable {
        FirstScanSpec(arr, k + 1, Cup(first, arr[k].first));
      }
    }
  }

  lemma FitsReverse(arr: seq<Summary>, n: nat)
    requires Fits(arr, n)
    ensures Fits(Reverse(arr), n)
  {
    var rev := Reverse(arr);
    forall t | 0 <= t < |rev| ensures |rev[t].first| <= n && |rev[t].last| <= n {
      assert rev[t] == arr[|arr| - 1 - t];
    }
  }

  /** The lastpos loop over the reversed summaries collects what the nullable suffix reaches. */
  lemma {:induction false} LastScanSpec(arr: seq<Summary>, k: nat, last: VertexSet)
    requires k <= |arr| && Fits(arr, |last|)
    ensures Fits(Reverse(arr), |last|)
    ensures Bits(LastScan(Reverse(arr), k, true, last)) == Bits(last) + ReachLast(arr, |arr| - k)
    decreases |arr| - k
  {
    FitsReverse(arr, |last|);
    var rev := Reverse(arr);
    if k == |arr| {
      assert ReachLast(arr, 0) == {};
    } else {
      var j := |arr| - 1 - k;
      assert rev[k] == arr[j];
      var cup := Cup(last, rev[k].last);
      CupBits(last, rev[k].last);
      ReachLastStep(arr, j + 1);
      if rev[k].nullable {
        assert LastScan(rev, k, true, last) == LastScan(rev, k + 1, true, cup);
        LastScanSpec(arr, k + 1, cup);
      } else {
        assert LastScan(rev, k, true, last) == cup;
      }
    }
  }

  /** The iteration loop gives every lastpos row i, i+1, … the whole firstpos. */
  lemma {:induction false} StarFollowSpec(fp: seq<VertexSet>, last: VertexSet, first: VertexSet, i: nat)
    requires Square(fp) && |last| <= |fp| && |first| <= |fp| && i <= |last|
    ensures forall x :: 0 <= x < |fp| ==>
      Bits(StarFollow(fp, last, first, i)[x]) == Bits(fp[x]) + (if i <= x < |last| && last[x] then Bits(first) else {})
    decreases |last| - i
  {
    if i < |last| {
      if last[i] {
        CupBits(fp[i], first);
      }
      StarFollowSpec(if last[i] then fp[i := Cup(fp[i], first)] else fp, last, first, i + 1);
    }
  }

  /** The union loop: nullable iff some summary is, firstpos and lastpos the unions. */
  lemma {:induction false} UnionSummarySpec(arr: seq<Summary>, k: nat, acc: Summary)
    requires k <= |arr| && Fits(arr, |acc.first|) && |acc.first| == |acc.last|
    ensures UnionSummary(arr, k, acc).nullable <==> acc.nullable || exists t :: k <= t < |arr| && arr[t].nullable
    ensures Bits(UnionSummary(arr, k, acc).first) == Bits(acc.first) + Firsts(arr, k)
    ensures Bits(UnionSummary(arr, k, acc).last) == Bits(acc.last) + Lasts(arr, k)
    decreases |arr| - k
  {
    if k < |arr| {
      var acc' := Summary(acc.nullable || arr[k].nullable, Cup(acc.first, arr[k].first), Cup(acc.last, arr[k].last));
      assert UnionSummary(arr, k, acc) == UnionSummary(arr, k + 1, acc');
      CupBits(acc.first, arr[k].first);
      CupBits(acc.last, arr[k].last);
      UnionSummarySpec(arr, k + 1, acc');
      SummariesStep(arr, k);
      UnionAssoc(Bits(acc.first), Bits(arr[k].first), Firsts(arr, k + 1));
      UnionAssoc(Bits(acc.last), Bits(arr[k].last), Lasts(arr, k + 1));
    }
  }

  lemma SummariesStep(arr: seq<Summary>, k: nat)
    requires k < |arr|
    ensures Firsts(arr, k) == Bits(arr[k].first) + Firsts(arr, k + 1)
    ensures Lasts(arr, k) == Bits(arr[k].last) + Lasts(arr, k + 1)
    ensures (exists t :: k <= t < |arr| && arr[t].nullable) <==> arr[k].nullable || exists t :: k + 1 <= t < |arr| && arr[t].nullable
  {
  }

  // ---------------------------------------------------------------------------
  // `downward`, constructor by constructor
  // ---------------------------------------------------------------------------

  /** An `Atomic` leaf allocates exactly one position, its own, with no followpos yet. */
  lemma DownAtomic(re: RegularExpression, p: Positions)
    requires re.Atomic? && Shaped(p)
    ensures var (q, s) := Down(re, p);
      && |q.followpos| == |p.followpos| + 1 && q.posmap == p.posmap + [re.id]
      && (forall i :: 0 <= i < |p.followpos| ==> Bits(q.followpos[i]) == Bits(p.followpos[i]))
      && Bits(q.followpos[|p.followpos|]) == {}
      && !s.nullable && Bits(s.first) == {|p.followpos|} && Bits(s.last) == {|p.followpos|}
  {
    PushedSpec(p.followpos);
  }

  /** A union is nullable iff some operand is; its firstpos and lastpos are the operands' unions. */
  lemma DownUnion(re: RegularExpression, p: Positions)
    requires re.Union? && DfaReady(re) && Shaped(p)
    ensures var (q, arr) := DownPrefix(re, |re.operands|, p);
      && Down(re, p).0 == q
      && (Down(re, p).1.nullable <==> exists t :: 0 <= t < |arr| && arr[t].nullable)
      && Bits(Down(re, p).1.first) == Firsts(arr, 0)
      && Bits(Down(re, p).1.last) == Lasts(arr, 0)
  {
    var (q, arr) := DownPrefix(re, |re.operands|, p);
    var m := |q.followpos|;
    UnionSummarySpec(arr, 0, Summary(false, NewSet(m), NewSet(m)));
  }

  /**
   * A concatenation links every lastpos of an operand to the firstpos of
   * the operands after it up to the first non-nullable one; it is nullable
   * iff every operand is, and its firstpos/lastpos are what the nullable
   * prefix/suffix reaches.
   */
  lemma DownConcat(re: RegularExpression, p: Positions)
    requires re.Concatenation? && DfaReady(re) && Shaped(p)
    ensures var (q, arr) := DownPrefix(re, |re.operands|, p);
      && |arr| > 0
      && Down(re, p).0.posmap == q.posmap
      && |Down(re, p).0.followpos| == |q.followpos|
      && (forall x :: 0 <= x < |q.followpos| ==>
            Bits(Down(re, p).0.followpos[x]) == Bits(q.followpos[x]) + Chained(arr, x, 0))
      && (Down(re, p).1.nullable <==> forall t :: 0 <= t < |arr| ==> arr[t].nullable)
      && Bits(Down(re, p).1.first) == ReachFirst(arr, 0)
      && Bits(Down(re, p).1.last) == ReachLast(arr, |arr|)
  {
    var (q, arr) := DownPrefix(re, |re.operands|, p);
    var m := |q.followpos|;
    ConcatFollowSpec(q.followpos, arr, 0);
    FirstScanSpec(arr, 0, NewSet(m));
    LastScanSpec(arr, 0, NewSet(m));
  }

  /** An iteration is nullable and sends every lastpos of its operand to the operand's whole firstpos. */
  lemma DownIteration(re: RegularExpression, p: Positions)
    requires re.Iteration? && DfaReady(re) && Shaped(p)
    ensures var (q, s) := Down(re.operand, p);
      && Down(re, p).0.posmap == q.posmap
      && |Down(re, p).0.followpos| == |q.followpos|
      && (forall x :: 0 <= x < |q.followpos| ==>
            Bits(Down(re, p).0.followpos[x]) == Bits(q.followpos[x]) + (if x in Bits(s.last) then Bits(s.first) else {}))
      && Down(re, p).1 == Summary(true, s.first, s.last)
  {
    var (q, s) := Down(re.operand, p);
    StarFollowSpec(q.followpos, s.last, s.first, 0);
  }

  // ---------------------------------------------------------------------------
  // The whole walk
  // ---------------------------------------------------------------------------

  /** The characters of the `Atomic` leaves of `re`, left to right. */
  function Leaves(re: RegularExpression): seq<char>
    decreases re, Nfa.Arity(re) + 1
  {
    match re
    case Atomic(c) => [c]
    case Union(ops) => LeavesUpTo(re, |ops|)
    case Concatenation(ops) => LeavesUpTo(re, |ops|)
    case Iteration(o) => Leaves(o)
    case _ => []
  }

  function LeavesUpTo(re: RegularExpression, n: nat): seq<char>
    requires (re.Union? || re.Concatenation?) && n <= |re.operands|
    decreases re, n
  {
    if n == 0 then [] else LeavesUpTo(re, n - 1) + Leaves(re.operands[n - 1])
  }

  /** Whether `re` matches the empty string. */
  predicate Nullable(re: RegularExpression)
  {
    match re
    case Epsilon => true
    case Union(ops) => exists i :: 0 <= i < |ops| && Nullable(ops[i])
    case Concatenation(ops) => forall i :: 0 <= i < |ops| ==> Nullable(ops[i])
    case Iteration(_) => true
    case _ => false
  }

  /**
   * Walking from `p` to `q` left the rows of the old positions as they were
   * and made every new position follow only new positions.
   */
  ghost predicate Confined(p: Positions, q: Positions)
  {
    && |p.followpos| <= |q.followpos|
    && (forall i :: 0 <= i < |p.followpos| ==> Bits(q.followpos[i]) == Bits(p.followpos[i]))
    && (forall i, y :: |p.followpos| <= i < |q.followpos| && y in Bits(q.followpos[i]) ==> |p.followpos| <= y)
  }

  lemma ConfinedTrans(p: Positions, q: Positions, r: Positions)
    requires Confined(p, q) && Confined(q, r)
    ensures Confined(p, r)
  {
    forall i, y | |p.followpos| <= i < |r.followpos| && y in Bits(r.followpos[i])
      ensures |p.followpos| <= y
    {
      if i < |q.followpos| {
        assert y in Bits(q.followpos[i]);
      }
    }
  }

  /**
   * `downward` gives each `Atomic` leaf the next position in left-to-right
   * order, agrees with `Nullable`, returns firstpos and lastpos among the
   * positions it created, and adds followpos only between those positions.
   */
  lemma {:induction false} DownShape(re: RegularExpression, p: Positions)
    requires DfaReady(re) && Shaped(p)
    ensures Down(re, p).0.posmap == p.posmap + Leaves(re)
    ensures Down(re, p).1.nullable == Nullable(re)
    ensures Confined(p, Down(re, p).0)
    ensures forall x :: x in Bits(Down(re, p).1.first) ==> |p.followpos| <= x
    ensures forall x :: x in Bits(Down(re, p).1.last) ==> |p.followpos| <= x
    decreases re, Nfa.Arity(re) + 2
  {
    match re
    case Epsilon =>
    case Atomic(c) =>
      DownAtomic(re, p);
    case Union(ops) =>
      UnionShape(re, p);
    case Concatenation(ops) =>
      ConcatShape(re, p);
    case Iteration(o) =>
      DownShape(o, p);
      DownIteration(re, p);
  }

  lemma {:induction false} UnionShape(re: RegularExpression, p: Positions)
    requires re.Union? && DfaReady(re) && Shaped(p)
    ensures Down(re, p).0.posmap == p.posmap + Leaves(re)
    ensures Down(re, p).1.nullable == Nullable(re)
    ensures Confined(p, Down(re, p).0)
    ensures forall x :: x in Bits(Down(re, p).1.first) ==> |p.followpos| <= x
    ensures forall x :: x in Bits(Down(re, p).1.last) ==> |p.followpos| <= x
    decreases re, Nfa.Arity(re) + 1
  {
    var ops := re.operands;
    var pr := DownPrefix(re, |ops|, p);
    var arr := pr.1;
    DownPrefixLeaves(re, |ops|, p);
    DownPrefixNullable(re, |ops|, p);
    DownPrefixConfined(re, |ops|, p);
    DownUnion(re, p);
    assert Down(re, p).1.nullable == Nullable(re) by {
      if Down(re, p).1.nullable {
        var t :| 0 <= t < |arr| && arr[t].nullable;
        assert Nullable(ops[t]);
      }
    }
  }

  lemma {:induction false} ConcatShape(re: RegularExpression, p: Positions)
    requires re.Concatenation? && DfaReady(re) && Shaped(p)
    ensures Down(re, p).0.posmap == p.posmap + Leaves(re)
    ensures Down(re, p).1.nullable == Nullable(re)
    ensures Confined(p, Down(re, p).0)
    ensures forall x :: x in Bits(Down(re, p).1.first) ==> |p.followpos| <= x
    ensures forall x :: x in Bits(Down(re, p).1.last) ==> |p.followpos| <= x
    decreases re, Nfa.Arity(re) + 1
  {
    var n := |p.followpos|;
    var ops := re.operands;
    var pr := DownPrefix(re, |ops|, p);
    var q, arr := pr.0, pr.1;
    DownPrefixLeaves(re, |ops|, p);
    DownPrefixNullable(re, |ops|, p);
    DownPrefixConfined(re, |ops|, p);
    DownConcat(re, p);
    var q' := Down(re, p).0;
    assert Down(re, p).1.nullable == Nullable(re) by {
      if !Nullable(re) {
        var t :| 0 <= t < |ops| && !Nullable(ops[t]);
        assert !arr[t].nullable;
      }
    }
    ReachBounds(arr, n);
    forall i, y | n <= i < |q'.followpos| && y in Bits(q'.followpos[i]) ensures n <= y {
      if y !in Bits(q.followpos[i]) {
        assert y in Chained(arr, i, 0);
      }
    }
  }

  /** Positions reached through the summaries are no lower than every summary's first and last positions. */
  lemma ReachBounds(arr: seq<Summary>, lo: nat)
    requires forall t, x :: 0 <= t < |arr| && x in Bits(arr[t].first) ==> lo <= x
    requires forall t, x :: 0 <= t < |arr| && x in Bits(arr[t].last) ==> lo <= x
    ensures forall k: nat, x :: k <= |arr| && x in ReachFirst(arr, k) ==> lo <= x
    ensures forall k: nat, x :: k <= |arr| && x in ReachLast(arr, k) ==> lo <= x
    ensures 0 < |arr| ==> forall i: nat, x :: x in Chained(arr, i, 0) ==> lo <= x
  {
    forall k: nat, x | k <= |arr| && x in ReachFirst(arr, k) ensures lo <= x {
      var t :| k <= t < |arr| && (forall u :: k <= u < t ==> arr[u].nullable) && x in Bits(arr[t].first);
    }
    forall k: nat, x | k <= |arr| && x in ReachLast(arr, k) ensures lo <= x {
      var t :| 0 <= t < k && (forall u :: t < u < k ==> arr[u].nullable) && x in Bits(arr[t].last);
    }
    if 0 < |arr| {
      forall i: nat, x | x in Chained(arr, i, 0) ensures lo <= x {
        var m :| 0 <= m < |arr| - 1 && i in Bits(arr[m].last) && x in Fed(arr, m);
      }
    }
  }

  /** The operand loop appends the operands' leaves. */
  lemma {:induction false} DownPrefixLeaves(re: RegularExpression, n: nat, p: Positions)
    requires (re.Union? || re.Concatenation?) && DfaReady(re) && n <= |re.operands| && Shaped(p)
    ensures DownPrefix(re, n, p).0.posmap == p.posmap + LeavesUpTo(re, n)
    decreases re, n
  {
    if n > 0 {
      var pr := DownPrefix(re, n - 1, p);
      var d := Down(re.operands[n - 1], pr.0);
      assert DownPrefix(re, n, p).0 == d.0;
      DownPrefixLeaves(re, n - 1, p);
      DownShape(re.operands[n - 1], pr.0);
      AppendAssoc(p.posmap, LeavesUpTo(re, n - 1), Leaves(re.operands[n - 1]), pr.0.posmap, d.0.posmap);
    }
  }

  lemma AppendAssoc<T>(a: seq<T>, b: seq<T>, c: seq<T>, ab: seq<T>, abc: seq<T>)
    requires ab == a + b && abc == ab + c
    ensures abc == a + (b + c)
  {
  }

  /** The operand loop records each operand's nullability. */
  lemma {:induction false} DownPrefixNullable(re: RegularExpression, n: nat, p: Positions)
    requires (re.Union? || re.Concatenation?) && DfaReady(re) && n <= |re.operands| && Shaped(p)
    ensures forall t :: 0 <= t < n ==> DownPrefix(re, n, p).1[t].nullable == Nullable(re.operands[t])
    decreases re, n
  {
    if n > 0 {
      var pr := DownPrefix(re, n - 1, p);
      var d := Down(re.operands[n - 1], pr.0);
      assert DownPrefix(re, n, p).1 == pr.1 + [d.1];
      DownPrefixNullable(re, n - 1, p);
      DownShape(re.operands[n - 1], pr.0);
      NullableStep(re.operands, n, pr.1, d.1);
    }
  }

  lemma NullableStep(ops: seq<RegularExpression>, n: nat, arr: seq<Summary>, s: Summary)
    requires 0 < n <= |ops| && |arr| == n - 1
    requires forall t :: 0 <= t < n - 1 ==> arr[t].nullable == Nullable(ops[t])
    requires s.nullable == Nullable(ops[n - 1])
    ensures forall t :: 0 <= t < n ==> (arr + [s])[t].nullable == Nullable(ops[t])
  {
    forall t | 0 <= t < n ensures (arr + [s])[t].nullable == Nullable(ops[t]) {
      if t < n - 1 {
        assert (arr + [s])[t] == arr[t];
      }
    }
  }

  /** The operand loop only adds positions, and the operands' first and last sets lie among them. */
  lemma {:induction false} DownPrefixConfined(re: RegularExpression, n: nat, p: Positions)
    requires (re.Union? || re.Concatenation?) && DfaReady(re) && n <= |re.operands| && Shaped(p)
    ensures Confined(p, DownPrefix(re, n, p).0)
    ensures forall t, x :: 0 <= t < n && x in Bits(DownPrefix(re, n, p).1[t].first) ==> |p.followpos| <= x
    ensures forall t, x :: 0 <= t < n && x in Bits(DownPrefix(re, n, p).1[t].last) ==> |p.followpos| <= x
    decreases re, n
  {
    if n > 0 {
      var pr := DownPrefix(re, n - 1, p);
      var q, arr := pr.0, pr.1;
      var d := Down(re.operands[n - 1], q);
      assert DownPrefix(re, n, p) == (d.0, arr + [d.1]);
      DownPrefixConfined(re, n - 1, p);
      DownShape(re.operands[n - 1], q);
      PrefixStep(p, q, d.0, arr, d.1);
    }
  }

  lemma PrefixStep(p: Positions, q: Positions, q': Positions, arr: seq<Summary>, s: Summary)
    requires Confined(p, q) && Confined(q, q')
    requires forall t, x :: 0 <= t < |arr| && x in Bits(arr[t].first) ==> |p.followpos| <= x
    requires forall t, x :: 0 <= t < |arr| && x in Bits(arr[t].last) ==> |p.followpos| <= x
    requires forall x :: x in Bits(s.first) ==> |q.followpos| <= x
    requires forall x :: x in Bits(s.last) ==> |q.followpos| <= x
    ensures Confined(p, q')
    ensures forall t, x :: 0 <= t < |arr| + 1 && x in Bits((arr + [s])[t].first) ==> |p.followpos| <= x
    ensures forall t, x :: 0 <= t < |arr| + 1 && x in Bits((arr + [s])[t].last) ==> |p.followpos| <= x
  {
    ConfinedTrans(p, q, q');
  }


}
