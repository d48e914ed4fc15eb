/**
 * The bit-set and collection helpers of src/utils.rs: the `new_set!`,
 * `cup_set!`, `push_sets!`, `set!` and `map!` macros, and the two marker
 * tokens used by every grammar algorithm.
 */
module Utils {

  /** A set of state or position indices, stored as one flag per index. */
  type VertexSet = seq<bool>

  /** Marks the empty string in FIRST sets. */
  const EPSILON_TOKEN: string := "\0"
  /** Marks the end of the input. */
  const FINISH_TOKEN: string := "$"

  lemma MarkersDistinct()
    ensures EPSILON_TOKEN != FINISH_TOKEN
    ensures EPSILON_TOKEN == ['\0'] && FINISH_TOKEN == ['$']
  {
    assert EPSILON_TOKEN[0] != FINISH_TOKEN[0];
  }

  /** The indices whose flag is set. */
  function Bits(s: VertexSet): (r: set<nat>)
    ensures forall i :: i in r <==> 0 <= i < |s| && s[i]
  {
    set i: nat | i < |s| && s[i]
  }

  /** How many flags are set. */
  function Count(s: VertexSet): (r: nat)
    ensures r <= |s|
  {
    if |s| == 0 then 0 else (if s[|s| - 1] then 1 else 0) + Count(s[..|s| - 1])
  }

  /** Setting a clear flag raises the count by one. */
  lemma {:induction false} CountSet(s: VertexSet, v: nat)
    requires v < |s| && !s[v]
    ensures Count(s[v := true]) == Count(s) + 1
    decreases |s|
  {
    var t := s[v := true];
    if v < |s| - 1 {
      assert t[..|t| - 1] == s[..|s| - 1][v := true];
      CountSet(s[..|s| - 1], v);
    } else {
      assert t[..|t| - 1] == s[..|s| - 1];
    }
  }

  /** `new_set!(n)`: n flags, none of them set. */
  function NewSet(n: nat): (r: VertexSet)
    ensures |r| == n && Bits(r) == {}
  {
    seq(n, _ => false)
  }

  /** `cup_set!(lhs, rhs)` as a value: lhs with every flag of rhs added. */
  function Cup(lhs: VertexSet, rhs: VertexSet): VertexSet
    requires |rhs| <= |lhs|
  {
    seq(|lhs|, i requires 0 <= i < |lhs| => lhs[i] || (i < |rhs| && rhs[i]))
  }

  lemma CupBits(lhs: VertexSet, rhs: VertexSet)
    requires |rhs| <= |lhs|
    ensures |Cup(lhs, rhs)| == |lhs| && Bits(Cup(lhs, rhs)) == Bits(lhs) + Bits(rhs)
  {
  }

  /**
   * `cup_set!(lhs, rhs)`: walks rhs and sets lhs[i] wherever rhs[i] is set.
   * Indexing lhs by every index of rhs needs |rhs| <= |lhs|.
   */
  method CupSet(lhs: VertexSet, rhs: VertexSet) returns (r: VertexSet)
    requires |rhs| <= |lhs|
    ensures |r| == |lhs|
    ensures forall i :: 0 <= i < |rhs| && rhs[i] ==> r[i]
    ensures forall i :: 0 <= i < |lhs| && !(i < |rhs| && rhs[i]) ==> r[i] == lhs[i]
    ensures r == Cup(lhs, rhs)
  {
    r := lhs;
    for i := 0 to |rhs|
      invariant |r| == |lhs|
      invariant forall k :: 0 <= k < i && rhs[k] ==> r[k]
      invariant forall k :: 0 <= k < |lhs| && !(k < i && rhs[k]) ==> r[k] == lhs[k]
    {
      if rhs[i] {
        r := r[i := true];
      }
    }
  }

  /** Every row of the matrix is as long as the matrix has rows. */
  predicate Square(sets: seq<VertexSet>)
  {
    forall i :: 0 <= i < |sets| ==> |sets[i]| == |sets|
  }

  /** The matrix `push_sets!` leaves behind, as a value. */
  function Pushed(sets: seq<VertexSet>): (r: seq<VertexSet>)
    ensures |r| == |sets| + 1
  {
    seq(|sets| + 1, i requires 0 <= i <= |sets| => if i < |sets| then sets[i] + [false] else NewSet(|sets| + 1))
  }

  /** `push_sets!` keeps every existing flag, adds none, and keeps a square matrix square. */
  lemma PushedSpec(sets: seq<VertexSet>)
    ensures forall i :: 0 <= i < |sets| ==> Bits(Pushed(sets)[i]) == Bits(sets[i])
    ensures Bits(Pushed(sets)[|sets|]) == {}
    ensures Square(sets) ==> Square(Pushed(sets))
  {
    forall i | 0 <= i < |sets|
      ensures Bits(Pushed(sets)[i]) == Bits(sets[i])
    {
      assert Pushed(sets)[i] == sets[i] + [false];
    }
    assert Pushed(sets)[|sets|] == NewSet(|sets| + 1);
    if Square(sets) {
      forall i | 0 <= i < |sets| + 1 ensures |Pushed(sets)[i]| == |sets| + 1 {
        if i < |sets| {
          assert Pushed(sets)[i] == sets[i] + [false];
        }
      }
    }
  }

  /**
   * `push_sets!(sets)`: appends one unset flag to every row, then a new
   * all-unset row one longer than the old row count; evaluates to the new
   * row count.
   */
  method PushSets(sets: seq<VertexSet>) returns (r: seq<VertexSet>, n: nat)
    ensures n == |sets| + 1 && |r| == n
    ensures forall i :: 0 <= i < |sets| ==> r[i] == sets[i] + [false]
    ensures r[|sets|] == NewSet(n)
    ensures Square(sets) ==> Square(r)
    ensures r == Pushed(sets)
  {
    var len := |sets|;
    r := sets;
    for i := 0 to len
      invariant |r| == len
      invariant forall k :: 0 <= k < i ==> r[k] == sets[k] + [false]
      invariant forall k :: i <= k < len ==> r[k] == sets[k]
    {
      r := r[i := r[i] + [false]];
    }
    r := r + [NewSet(len + 1)];
    n := len + 1;
  }

  /** `set!(k1, ..., kn)`: one insertion per listed key. */
  method SetOf<K>(keys: seq<K>) returns (s: set<K>)
    requires |keys| > 0
    ensures forall k :: k in s <==> k in keys
  {
    s := {};
    for i := 0 to |keys|
      invariant forall k :: k in s <==> k in keys[..i]
    {
      s := s + {keys[i]};
    }
  }

  /**
   * `map!(k1 => v1, ..., kn => vn)`: one insertion per listed pair, so a key
   * listed twice keeps its last value.
   */
  method MapOf<K, V>(pairs: seq<(K, V)>) returns (m: map<K, V>)
    requires |pairs| > 0
    ensures forall k :: k in m <==> exists i :: 0 <= i < |pairs| && pairs[i].0 == k
    ensures forall i :: 0 <= i < |pairs| && (forall j :: i < j < |pairs| ==> pairs[j].0 != pairs[i].0)
              ==> pairs[i].0 in m && m[pairs[i].0] == pairs[i].1
  {
    m := map[];
    for n := 0 to |pairs|
      invariant forall k :: k in m <==> exists i :: 0 <= i < n && pairs[i].0 == k
      invariant forall i :: 0 <= i < n && (forall j :: i < j < n ==> pairs[j].0 != pairs[i].0)
                  ==> pairs[i].0 in m && m[pairs[i].0] == pairs[i].1
    {
      m := m[pairs[n].0 := pairs[n].1];
    }
  }
}
