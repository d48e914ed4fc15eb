/**
 * The class-hierarchy part of src/cool/beam.rs: the COOL front end's
 * `CoolClass` record built from a parse tree, the program's class table
 * (`CoolProgram::add_file`) and the type environment (`CoolEnvironment`)
 * with its queries over the inheritance map.
 *
 * Walking the inheritance map loops until it meets `Object` or a class
 * without a recorded parent. The source gives no bound; the model asks that
 * every walk stops within as many steps as the map has entries
 * (`Grounded`), which holds exactly when the map has no cycle.
 */
module CoolBeam {
  import opened Wrappers
  import Lexer
  import Tree
  import PT = ParseTree

  const ObjectType: string := "Object"
  const SelfType: string := "SELF_TYPE"
  const DynamicType: string := "$Unknown"

  // ---------------------------------------------------------------------------
  // Classes and files
  // ---------------------------------------------------------------------------

  /**
   * `CoolClass`: its name, its parent, and its feature nodes split into
   * attributes and methods (the features are kept as parse-tree nodes).
   */
  datatype CoolClass = CoolClass(name: string, inherit: string, attributes: seq<PT.Node>, methods: seq<PT.Node>,
                                 pos: nat)

  /** `CoolFile`: the classes of one source file, in order. */
  datatype CoolFile = CoolFile(classes: seq<CoolClass>)

  /** The text of a token node; other nodes have none. */
  function TokenValue(n: PT.Node): Option<string>
  {
    if n.value.TerminalNode? then Some(n.value.token.value) else None
  }

  /** A `feature` nonterminal with the given tag. */
  predicate IsFeature(n: PT.Node, tag: string)
  {
    n.value.NonTerminalNode? && n.value.nt.type_ == "feature" && n.value.nt.value_ == tag
  }

  /** The children that are features with the given tag, in order. */
  function Features(ns: seq<PT.Node>, tag: string): (r: seq<PT.Node>)
    ensures forall x :: x in r <==> x in ns && IsFeature(x, tag)
    ensures |r| <= |ns|
  {
    if |ns| == 0 then []
    else (if IsFeature(ns[0], tag) then [ns[0]] else []) + Features(ns[1..], tag)
  }

  /** Whether the third child is the `INHERITS` keyword. */
  predicate Inherits(childs: seq<PT.Node>)
    requires |childs| >= 3
  {
    childs[2].value.TerminalNode? && childs[2].value.token.type_ == "INHERITS"
  }

  /**
   * `CoolClass::parse`: the name from the second child, the parent from the
   * fourth when the third is `INHERITS` (`Object` otherwise), and the
   * features by tag. `None` is the panic on a missing child.
   */
  function ParseClass(n: PT.Node): (r: Option<CoolClass>)
    ensures r.Some? <==> |n.childs| >= 3 && (Inherits(n.childs) ==> |n.childs| >= 4)
    ensures r.Some? ==> r.value.pos == n.index
    ensures r.Some? && !Inherits(n.childs) ==> r.value.inherit == ObjectType
    ensures r.Some? && Inherits(n.childs) && n.childs[3].value.TerminalNode? ==>
      r.value.inherit == n.childs[3].value.token.value
    ensures r.Some? && n.childs[1].value.TerminalNode? ==> r.value.name == n.childs[1].value.token.value
    ensures r.Some? ==> forall x :: x in r.value.attributes <==> x in n.childs && IsFeature(x, "attribute")
    ensures r.Some? ==> forall x :: x in r.value.methods <==> x in n.childs && IsFeature(x, "method")
  {
    if |n.childs| < 3 then None
    else if Inherits(n.childs) && |n.childs| < 4 then None
    else
      var name := match TokenValue(n.childs[1]) case Some(v) => v case None => "";
      var parent := if Inherits(n.childs) then
                      (match TokenValue(n.childs[3]) case Some(v) => v case None => ObjectType)
                    else ObjectType;
      Some(CoolClass(name, parent, Features(n.childs, "attribute"), Features(n.childs, "method"), n.index))
  }

  /** An attribute or method node is kept in exactly one of the two lists. */
  lemma FeaturesSplit(n: PT.Node, x: PT.Node)
    requires ParseClass(n).Some?
    ensures x in ParseClass(n).value.attributes ==> x !in ParseClass(n).value.methods
    ensures x in n.childs && (IsFeature(x, "attribute") || IsFeature(x, "method")) ==>
      x in ParseClass(n).value.attributes || x in ParseClass(n).value.methods
  {
  }

  /** A `class` nonterminal. */
  predicate IsClassNode(n: PT.Node)
  {
    n.value.NonTerminalNode? && n.value.nt.type_ == "class"
  }

  /** The classes parsed from the `class` children, in order; `None` when one of them panics. */
  function ParseClasses(ns: seq<PT.Node>): (r: Option<seq<CoolClass>>)
    ensures r.Some? <==> forall i :: 0 <= i < |ns| && IsClassNode(ns[i]) ==> ParseClass(ns[i]).Some?
    ensures r.Some? ==> |r.value| <= |ns|
    ensures r.Some? ==> forall c :: c in r.value <==>
      exists i :: 0 <= i < |ns| && IsClassNode(ns[i]) && ParseClass(ns[i]) == Some(c)
  {
    if |ns| == 0 then Some([])
    else
      var rest := ParseClasses(ns[1..]);
      assert forall i :: 1 <= i < |ns| ==> ns[i] == ns[1..][i - 1];
      if !IsClassNode(ns[0]) then rest
      else match ParseClass(ns[0])
        case None => None
        case Some(c) => if rest.None? then None else Some([c] + rest.value)
  }

  /**
   * `CoolFile::parse`: the classes of a `program` node's `class` children;
   * any other node gives an empty file.
   */
  function ParseFile(n: PT.Node): (r: Option<CoolFile>)
    ensures !(n.value.NonTerminalNode? && n.value.nt.type_ == "program") ==> r == Some(CoolFile([]))
    ensures n.value.NonTerminalNode? && n.value.nt.type_ == "program" ==>
      (r.Some? <==> forall i :: 0 <= i < |n.childs| && IsClassNode(n.childs[i]) ==> ParseClass(n.childs[i]).Some?)
    ensures r.Some? ==> forall c :: c in r.value.classes ==>
      exists i :: 0 <= i < |n.childs| && IsClassNode(n.childs[i]) && ParseClass(n.childs[i]) == Some(c)
  {
    if n.value.NonTerminalNode? && n.value.nt.type_ == "program" then
      match ParseClasses(n.childs)
      case None => None
      case Some(cs) => Some(CoolFile(cs))
    else Some(CoolFile([]))
  }

  // ---------------------------------------------------------------------------
  // The class table
  // ---------------------------------------------------------------------------

  /**
   * `add_file` on values: each class is inserted under its name; the first
   * class whose name is already present stops the insertion with that name
   * as the error, after it has replaced the earlier class.
   */
  function Insert(m: map<string, CoolClass>, cs: seq<CoolClass>): (r: (map<string, CoolClass>, Option<string>))
    ensures m.Keys <= r.0.Keys
    ensures r.1.None? ==> forall n :: n in m ==> r.0[n] == m[n]
    ensures r.1.None? ==> forall i :: 0 <= i < |cs| ==> cs[i].name in r.0 && r.0[cs[i].name] == cs[i]
    decreases |cs|
  {
    if |cs| == 0 then (m, None)
    else if cs[0].name in m then (m[cs[0].name := cs[0]], Some(cs[0].name))
    else Insert(m[cs[0].name := cs[0]], cs[1..])
  }

  /** No class of the file is already in the table, and no two share a name. */
  predicate Fresh(m: map<string, CoolClass>, cs: seq<CoolClass>)
  {
    (forall i :: 0 <= i < |cs| ==> cs[i].name !in m) &&
    (forall i, j :: 0 <= i < j < |cs| ==> cs[i].name != cs[j].name)
  }

  /** The insertion succeeds exactly for fresh names. */
  lemma {:induction false} InsertOk(m: map<string, CoolClass>, cs: seq<CoolClass>)
    ensures Insert(m, cs).1.None? <==> Fresh(m, cs)
    decreases |cs|
  {
    if |cs| > 0 {
      var m' := m[cs[0].name := cs[0]];
      InsertOk(m', cs[1..]);
      if Fresh(m, cs) {
        assert Fresh(m', cs[1..]) by {
          forall i | 0 <= i < |cs[1..]|
            ensures cs[1..][i].name !in m'
          {
            assert cs[1..][i] == cs[i + 1];
          }
        }
      }
      if cs[0].name !in m && Fresh(m', cs[1..]) {
        forall i, j | 0 <= i < j < |cs|
          ensures cs[i].name != cs[j].name
        {
          if i > 0 {
            assert cs[1..][i - 1] == cs[i] && cs[1..][j - 1] == cs[j];
          } else {
            assert cs[1..][j - 1] == cs[j];
          }
        }
        forall i | 0 <= i < |cs|
          ensures cs[i].name !in m
        {
          if i > 0 {
            assert cs[1..][i - 1] == cs[i];
          }
        }
      }
    }
  }

  /**
   * A successful insertion keeps every earlier class and adds each class of
   * the file under its name, and nothing else.
   */
  lemma {:induction false} InsertAll(m: map<string, CoolClass>, cs: seq<CoolClass>)
    requires Insert(m, cs).1.None?
    ensures forall i :: 0 <= i < |cs| ==> cs[i].name in Insert(m, cs).0 && Insert(m, cs).0[cs[i].name] == cs[i]
    ensures forall k :: k in m ==> k in Insert(m, cs).0 && Insert(m, cs).0[k] == m[k]
    ensures forall k :: k in Insert(m, cs).0 ==> k in m || exists i :: 0 <= i < |cs| && cs[i].name == k
    decreases |cs|
  {
    if |cs| > 0 {
      var m' := m[cs[0].name := cs[0]];
      InsertAll(m', cs[1..]);
      InsertOk(m, cs);
      var r := Insert(m, cs).0;
      forall i | 0 <= i < |cs|
        ensures cs[i].name in r && r[cs[i].name] == cs[i]
      {
        if i > 0 {
          assert cs[1..][i - 1] == cs[i];
        }
      }
      forall k | k in r
        ensures k in m || exists i :: 0 <= i < |cs| && cs[i].name == k
      {
        if k !in m' {
          var i :| 0 <= i < |cs[1..]| && cs[1..][i].name == k;
          assert cs[i + 1].name == k;
        }
      }
    }
  }

  /**
   * A failed insertion names a class whose name was already taken, by the
   * table or by an earlier class of the file, and that class has already
   * replaced the earlier one.
   */
  lemma {:induction false} InsertClash(m: map<string, CoolClass>, cs: seq<CoolClass>)
    requires Insert(m, cs).1.Some?
    ensures exists i :: 0 <= i < |cs| && cs[i].name == Insert(m, cs).1.value &&
                        (cs[i].name in m || exists j :: 0 <= j < i && cs[j].name == cs[i].name) &&
                        cs[i].name in Insert(m, cs).0 && Insert(m, cs).0[cs[i].name] == cs[i]
    decreases |cs|
  {
    if cs[0].name !in m {
      var m' := m[cs[0].name := cs[0]];
      InsertClash(m', cs[1..]);
      var i :| 0 <= i < |cs[1..]| && cs[1..][i].name == Insert(m', cs[1..]).1.value &&
               (cs[1..][i].name in m' || exists j :: 0 <= j < i && cs[1..][j].name == cs[1..][i].name) &&
               cs[1..][i].name in Insert(m', cs[1..]).0 && Insert(m', cs[1..]).0[cs[1..][i].name] == cs[1..][i];
      assert cs[1..][i] == cs[i + 1];
      if cs[i + 1].name in m {
      } else if cs[i + 1].name in m' {
        assert cs[0].name == cs[i + 1].name;
      } else {
        var j :| 0 <= j < i && cs[1..][j].name == cs[1..][i].name;
        assert cs[j + 1].name == cs[i + 1].name;
      }
    }
  }

  /** `CoolProgram`: the classes of every file added so far, by name. */
  class CoolProgram {
    var classes: map<string, CoolClass>

    constructor ()
      ensures classes == map[]
    {
      classes := map[];
    }

    /**
     * `add_file`: insert the file's classes one by one; `Err` with the
     * class name at the first name already present.
     */
    method AddFile(f: CoolFile) returns (r: Result<(), string>)
      modifies this
      ensures (classes, if r.Err? then Some(r.error) else None) == Insert(old(classes), f.classes)
    {
      for i := 0 to |f.classes|
        invariant Insert(old(classes), f.classes) == Insert(classes, f.classes[i..])
      {
        assert f.classes[i..][1..] == f.classes[i + 1..];
        var cls := f.classes[i];
        var present := cls.name in classes;
        classes := classes[cls.name := cls];
        if present {
          return Err(cls.name);
        }
      }
      return Ok(());
    }
  }

  // ---------------------------------------------------------------------------
  // Walking the inheritance map
  // ---------------------------------------------------------------------------

  /** The walk from `c` stops within `k` steps: at `Object` or at a class without a parent. */
  predicate Stops(inh: map<string, string>, c: string, k: nat)
    decreases k
  {
    c == ObjectType || c !in inh || (k > 0 && Stops(inh, inh[c], k - 1))
  }

  /** Every walk stops within as many steps as there are entries: the map has no cycle. */
  predicate Grounded(inh: map<string, string>)
  {
    forall c :: c in inh ==> Stops(inh, c, |inh|)
  }

  /** `c` and the classes the walk from `c` meets, in order. */
  function Lineage(inh: map<string, string>, c: string, k: nat): (r: seq<string>)
    ensures |r| >= 1 && r[0] == c
    decreases k
  {
    if c == ObjectType || c !in inh || k == 0 then [c] else [c] + Lineage(inh, inh[c], k - 1)
  }

  /** The walk with the map's own bound. */
  function Ancestry(inh: map<string, string>, c: string): seq<string>
  {
    Lineage(inh, c, |inh|)
  }

  lemma GroundedStops(inh: map<string, string>, c: string)
    requires Grounded(inh)
    ensures Stops(inh, c, |inh|)
  {
  }

  /** Once the walk stops, more steps change nothing. */
  lemma {:induction false} LineageFuel(inh: map<string, string>, c: string, k: nat, k': nat)
    requires Stops(inh, c, k) && k <= k'
    ensures Stops(inh, c, k')
    ensures Lineage(inh, c, k) == Lineage(inh, c, k')
    decreases k
  {
    if c != ObjectType && c in inh {
      LineageFuel(inh, inh[c], k - 1, k' - 1);
    }
  }

  /** The walk from the i-th class met is the rest of the walk. */
  lemma {:induction false} LineageFrom(inh: map<string, string>, c: string, k: nat, i: nat)
    requires Grounded(inh) && Stops(inh, c, k) && i < |Lineage(inh, c, k)|
    ensures Lineage(inh, c, k)[i..] == Ancestry(inh, Lineage(inh, c, k)[i])
    decreases i
  {
    GroundedStops(inh, c);
    if i == 0 {
      if k <= |inh| {
        LineageFuel(inh, c, k, |inh|);
      } else {
        LineageFuel(inh, c, |inh|, k);
      }
    } else {
      var L := Lineage(inh, c, k);
      assert L == [c] + Lineage(inh, inh[c], k - 1);
      LineageFrom(inh, inh[c], k - 1, i - 1);
      assert L[i..] == Lineage(inh, inh[c], k - 1)[i - 1..];
    }
  }

  /** In a map without cycles a walk never meets a class twice. */
  lemma AncestryDistinct(inh: map<string, string>, c: string, i: nat, j: nat)
    requires Grounded(inh) && i < j < |Ancestry(inh, c)|
    ensures Ancestry(inh, c)[i] != Ancestry(inh, c)[j]
  {
    GroundedStops(inh, c);
    var L := Ancestry(inh, c);
    LineageFrom(inh, c, |inh|, i);
    LineageFrom(inh, c, |inh|, j);
    assert |L[i..]| != |L[j..]|;
  }

  /** A class met on the walk from `c` has its own walk inside `c`'s. */
  lemma AncestryInside(inh: map<string, string>, c: string, d: string, x: string)
    requires Grounded(inh) && d in Ancestry(inh, c) && x in Ancestry(inh, d)
    ensures x in Ancestry(inh, c)
  {
    GroundedStops(inh, c);
    var L := Ancestry(inh, c);
    var i :| 0 <= i < |L| && L[i] == d;
    LineageFrom(inh, c, |inh|, i);
    assert x in L[i..];
  }

  // ---------------------------------------------------------------------------
  // Conformance, join and method lookup on values
  // ---------------------------------------------------------------------------

  /** `check_default!`: `SELF_TYPE` stands for the current class. */
  function Resolve(selfType: string, ty: string): string
  {
    if ty == SelfType then selfType else ty
  }

  /** `is_type`: `ty` conforms to `tys` when it is the dynamic type or `tys` is met on its walk. */
  predicate Conforms(inh: map<string, string>, selfType: string, ty: string, tys: string)
  {
    var a := Resolve(selfType, ty);
    a == DynamicType || Resolve(selfType, tys) in Ancestry(inh, a)
  }

  /** Conformance is reflexive. */
  lemma ConformsRefl(inh: map<string, string>, selfType: string, ty: string)
    ensures Conforms(inh, selfType, ty, ty)
  {
  }

  /** Conformance is transitive through any type other than the dynamic one. */
  lemma ConformsTrans(inh: map<string, string>, selfType: string, a: string, b: string, c: string)
    requires Grounded(inh)
    requires Conforms(inh, selfType, a, b) && Conforms(inh, selfType, b, c)
    requires Resolve(selfType, a) != DynamicType && Resolve(selfType, b) != DynamicType
    ensures Conforms(inh, selfType, a, c)
  {
    AncestryInside(inh, Resolve(selfType, a), Resolve(selfType, b), Resolve(selfType, c));
  }

  /** In a map without cycles two distinct static types never conform both ways. */
  lemma ConformsAntisym(inh: map<string, string>, x: string, y: string)
    requires Grounded(inh) && y in Ancestry(inh, x) && x in Ancestry(inh, y)
    ensures x == y
  {
    GroundedStops(inh, x);
    var L := Ancestry(inh, x);
    var i :| 0 <= i < |L| && L[i] == y;
    LineageFrom(inh, x, |inh|, i);
    var j :| i <= j < |L| && L[j] == x;
    if j > 0 {
      AncestryDistinct(inh, x, 0, j);
    }
  }

  /** The first class of `l` that is also in `seen`. */
  function FirstIn(l: seq<string>, seen: seq<string>): (r: Option<string>)
    ensures r.Some? <==> exists i :: 0 <= i < |l| && l[i] in seen
    ensures r.Some? ==> r.value in l && r.value in seen
  {
    if |l| == 0 then None
    else if l[0] in seen then Some(l[0])
    else (assert forall i :: 1 <= i < |l| ==> l[i] == l[1..][i - 1];
          FirstIn(l[1..], seen))
  }

  /**
   * `join_type`: an empty name gives the other type; otherwise the first
   * class on the second type's walk that the first type's walk meets.
   * `None` is the panic on a walk that ends without reaching `Object`
   * (first type) or the first type's walk (second type).
   */
  function Join(inh: map<string, string>, selfType: string, ty1: string, ty2: string): (r: Option<string>)
    ensures r.Some? && ty1 != "" && ty2 != "" ==>
      r.value in Ancestry(inh, Resolve(selfType, ty1)) && r.value in Ancestry(inh, Resolve(selfType, ty2))
  {
    if ty1 == "" then Some(ty2)
    else if ty2 == "" then Some(ty1)
    else
      var l1 := Ancestry(inh, Resolve(selfType, ty1));
      if l1[|l1| - 1] != ObjectType then None
      else FirstIn(Ancestry(inh, Resolve(selfType, ty2)), l1)
  }

  /** The join is an upper bound: both types conform to it. */
  lemma JoinUpper(inh: map<string, string>, selfType: string, ty1: string, ty2: string)
    requires ty1 != "" && ty2 != "" && Join(inh, selfType, ty1, ty2).Some?
    requires Join(inh, selfType, ty1, ty2).value != SelfType
    ensures Conforms(inh, selfType, ty1, Join(inh, selfType, ty1, ty2).value)
    ensures Conforms(inh, selfType, ty2, Join(inh, selfType, ty1, ty2).value)
  {
  }

  lemma FirstInIndex(l: seq<string>, seen: seq<string>) returns (i: nat)
    requires FirstIn(l, seen).Some?
    ensures i < |l| && l[i] == FirstIn(l, seen).value
    ensures forall j :: 0 <= j < i ==> l[j] !in seen
  {
    if l[0] in seen {
      i := 0;
    } else {
      var i' := FirstInIndex(l[1..], seen);
      i := i' + 1;
    }
  }

  /** The join is the least upper bound: every common ancestor is above it. */
  lemma JoinLeast(inh: map<string, string>, selfType: string, ty1: string, ty2: string, c: string)
    requires Grounded(inh) && ty1 != "" && ty2 != "" && Join(inh, selfType, ty1, ty2).Some?
    requires c in Ancestry(inh, Resolve(selfType, ty1)) && c in Ancestry(inh, Resolve(selfType, ty2))
    ensures c in Ancestry(inh, Join(inh, selfType, ty1, ty2).value)
  {
    var l1 := Ancestry(inh, Resolve(selfType, ty1));
    var l2 := Ancestry(inh, Resolve(selfType, ty2));
    var i := FirstInIndex(l2, l1);
    var j :| 0 <= j < |l2| && l2[j] == c;
    GroundedStops(inh, Resolve(selfType, ty2));
    LineageFrom(inh, Resolve(selfType, ty2), |inh|, i);
    assert l2[j] in l2[i..];
  }

  /** Two walks that both end at `Object` always join. */
  lemma JoinDefined(inh: map<string, string>, selfType: string, ty1: string, ty2: string)
    requires ty1 != "" && ty2 != ""
    requires Ancestry(inh, Resolve(selfType, ty1))[|Ancestry(inh, Resolve(selfType, ty1))| - 1] == ObjectType
    requires Ancestry(inh, Resolve(selfType, ty2))[|Ancestry(inh, Resolve(selfType, ty2))| - 1] == ObjectType
    ensures Join(inh, selfType, ty1, ty2).Some?
  {
    var l2 := Ancestry(inh, Resolve(selfType, ty2));
    assert l2[|l2| - 1] in Ancestry(inh, Resolve(selfType, ty1));
  }

  /** In a map without cycles the join does not depend on the order of its arguments. */
  lemma JoinSymmetric(inh: map<string, string>, selfType: string, ty1: string, ty2: string)
    requires Grounded(inh) && ty1 != "" && ty2 != ""
    requires Join(inh, selfType, ty1, ty2).Some? && Join(inh, selfType, ty2, ty1).Some?
    ensures Join(inh, selfType, ty1, ty2) == Join(inh, selfType, ty2, ty1)
  {
    var j12 := Join(inh, selfType, ty1, ty2).value;
    var j21 := Join(inh, selfType, ty2, ty1).value;
    JoinLeast(inh, selfType, ty1, ty2, j21);
    JoinLeast(inh, selfType, ty2, ty1, j12);
    ConformsAntisym(inh, j12, j21);
  }

  /**
   * `get_method` on values: the class's own table if it lists the method;
   * otherwise its parent's, unless the class is `Object` or has no parent.
   * A class without a table stops the search too. `Err` names the class
   * where the search stopped.
   */
  function Lookup(inh: map<string, string>, ms: map<string, map<string, seq<string>>>, c: string, id: string,
                  k: nat): (r: Result<seq<string>, string>)
    ensures r.Ok? ==> exists d :: d in ms && id in ms[d] && r.value == ms[d][id]
    ensures r.Err? ==> r.error !in ms || id !in ms[r.error]
    decreases k
  {
    if c !in ms then Err(c)
    else if id in ms[c] then Ok(ms[c][id])
    else if c == ObjectType || c !in inh || k == 0 then Err(c)
    else Lookup(inh, ms, inh[c], id, k - 1)
  }

  /** The method is declared by the i-th class of the walk, and every class before it has a table without it. */
  predicate FoundAt(ms: map<string, map<string, seq<string>>>, L: seq<string>, id: string, i: nat)
  {
    i < |L| && L[i] in ms && id in ms[L[i]] &&
    forall j :: 0 <= j < i ==> L[j] in ms && id !in ms[L[j]]
  }

  /** Past a class without the method, a declaration on the walk is one further on. */
  lemma FoundShift(ms: map<string, map<string, seq<string>>>, c: string, L': seq<string>, id: string)
    requires c in ms && id !in ms[c]
    ensures forall i: nat :: FoundAt(ms, [c] + L', id, i) ==> i > 0 && FoundAt(ms, L', id, i - 1)
    ensures forall i: nat :: FoundAt(ms, L', id, i) ==> FoundAt(ms, [c] + L', id, i + 1)
  {
    var L := [c] + L';
    forall i: nat | FoundAt(ms, L, id, i)
      ensures i > 0 && FoundAt(ms, L', id, i - 1)
    {
      assert i > 0;
      forall j | 0 <= j < i - 1
        ensures L'[j] in ms && id !in ms[L'[j]]
      {
        assert L'[j] == L[j + 1];
      }
    }
    forall i: nat | FoundAt(ms, L', id, i)
      ensures FoundAt(ms, L, id, i + 1)
    {
      forall j | 0 <= j < i + 1
        ensures L[j] in ms && id !in ms[L[j]]
      {
        if j > 0 {
          assert L[j] == L'[j - 1];
        }
      }
    }
  }

  /** The lookup finds the nearest declaration on the walk, and fails exactly when there is none to reach. */
  lemma {:induction false} LookupNearest(inh: map<string, string>, ms: map<string, map<string, seq<string>>>,
                                         c: string, id: string, k: nat)
    ensures Lookup(inh, ms, c, id, k).Ok? <==> exists i: nat :: FoundAt(ms, Lineage(inh, c, k), id, i)
    ensures forall i: nat :: FoundAt(ms, Lineage(inh, c, k), id, i) ==>
      Lookup(inh, ms, c, id, k) == Ok(ms[Lineage(inh, c, k)[i]][id])
    decreases k
  {
    var L := Lineage(inh, c, k);
    if c in ms && id !in ms[c] && c != ObjectType && c in inh && k > 0 {
      var L' := Lineage(inh, inh[c], k - 1);
      assert L == [c] + L';
      LookupNearest(inh, ms, inh[c], id, k - 1);
      FoundShift(ms, c, L', id);
      if exists i: nat :: FoundAt(ms, L', id, i) {
        var i: nat :| FoundAt(ms, L', id, i);
        assert FoundAt(ms, L, id, i + 1);
      }
      if exists i: nat :: FoundAt(ms, L, id, i) {
        var i: nat :| FoundAt(ms, L, id, i);
        assert FoundAt(ms, L', id, i - 1);
        assert Lookup(inh, ms, inh[c], id, k - 1).Ok?;
        assert Lookup(inh, ms, c, id, k) == Lookup(inh, ms, inh[c], id, k - 1);
        assert Lookup(inh, ms, c, id, k).Ok?;
        assert exists i: nat :: FoundAt(ms, Lineage(inh, c, k), id, i);
      }
    } else {
      if c in ms && id in ms[c] {
        assert FoundAt(ms, L, id, 0);
      } else if c in ms {
        assert L == [c];
      }
      forall i: nat | FoundAt(ms, L, id, i)
        ensures i == 0 && c in ms && id in ms[c]
      {
        assert L[0] == c;
      }
      if Lookup(inh, ms, c, id, k).Err? {
        assert !exists i: nat :: FoundAt(ms, L, id, i);
      } else {
        assert FoundAt(ms, L, id, 0);
        assert exists i: nat :: FoundAt(ms, Lineage(inh, c, k), id, i);
      }
    }
  }

  // ---------------------------------------------------------------------------
  // The environment
  // ---------------------------------------------------------------------------

  /**
   * `CoolEnvironment`: the types of the objects in scope, each class's
   * method signatures, the current class, and each class's parent.
   */
  class CoolEnvironment {
    var objects: map<string, string>
    var methods: map<string, map<string, seq<string>>>
    var selfType: string
    var inherits: map<string, string>

    /** The inheritance map has no cycle. */
    predicate Valid()
      reads this
    {
      Grounded(inherits)
    }

    constructor (methods: map<string, map<string, seq<string>>>, inherits: map<string, string>)
      ensures objects == map[] && this.methods == methods && selfType == "" && this.inherits == inherits
    {
      objects := map[];
      this.methods := methods;
      selfType := "";
      this.inherits := inherits;
    }

    /** `get_object`: the recorded type, or `Err` naming the object. */
    function GetObject(id: string): (r: Result<string, string>)
      reads this
      ensures r.Ok? <==> id in objects
      ensures r.Ok? ==> r.value == objects[id]
      ensures r.Err? ==> r.error == id
    {
      if id in objects then Ok(objects[id]) else Err(id)
    }

    /** `get_inherited`: the recorded parent, or `Err` naming the class. */
    function GetInherited(cls: string): (r: Result<string, string>)
      reads this
      ensures r.Ok? <==> cls in inherits
      ensures r.Ok? ==> r.value == inherits[cls]
      ensures r.Err? ==> r.error == cls
    {
      if cls in inherits then Ok(inherits[cls]) else Err(cls)
    }

    /** `set_object`: record (or overwrite) an object's type; nothing else changes. */
    method SetObject(id: string, ty: string)
      modifies this
      ensures objects == old(objects)[id := ty]
      ensures methods == old(methods) && selfType == old(selfType) && inherits == old(inherits)
      ensures GetObject(id) == Ok(ty)
      ensures forall other :: other != id ==> GetObject(other) == old(GetObject(other))
    {
      objects := objects[id := ty];
    }

    /** `is_type`: walk up from `ty` looking for `tys`. */
    method IsType(ty: string, tys: string) returns (b: bool)
      requires Valid()
      ensures b == Conforms(inherits, selfType, ty, tys)
    {
      var a := Resolve(selfType, ty);
      var target := Resolve(selfType, tys);
      if a == target || a == DynamicType {
        return true;
      }
      GroundedStops(inherits, a);
      var t := a;
      ghost var k: nat := |inherits|;
      while true
        invariant Stops(inherits, t, k) && t != target
        invariant (target in Ancestry(inherits, a)) <==> (target in Lineage(inherits, t, k))
        decreases k
      {
        if t == ObjectType {
          break;
        }
        var parent := GetInherited(t);
        if parent.Err? {
          break;
        }
        assert Lineage(inherits, t, k) == [t] + Lineage(inherits, parent.value, k - 1);
        t := parent.value;
        k := k - 1;
        if t == target {
          return true;
        }
      }
      return false;
    }

    /** `get_method`: the signature from the class (`SELF_TYPE` resolved) or its nearest ancestor. */
    method GetMethod(cls: string, id: string) returns (r: Result<seq<string>, string>)
      requires Valid()
      ensures r == Lookup(inherits, methods, Resolve(selfType, cls), id, |inherits|)
    {
      var c := Resolve(selfType, cls);
      GroundedStops(inherits, c);
      ghost var k: nat := |inherits|;
      while true
        invariant Stops(inherits, c, k)
        invariant Lookup(inherits, methods, Resolve(selfType, cls), id, |inherits|)
                  == Lookup(inherits, methods, c, id, k)
        decreases k
      {
        if c !in methods {
          break;
        }
        if id in methods[c] {
          return Ok(methods[c][id]);
        }
        if c == ObjectType {
          break;
        }
        var parent := GetInherited(c);
        if parent.Err? {
          break;
        }
        c := parent.value;
        k := k - 1;
      }
      return Err(c);
    }

    /** `join_type`: collect the first type's walk, then climb from the second until it is met. */
    method JoinType(ty1: string, ty2: string) returns (r: Option<string>)
      requires Valid()
      ensures r == Join(inherits, selfType, ty1, ty2)
    {
      if ty1 == "" {
        return Some(ty2);
      }
      if ty2 == "" {
        return Some(ty1);
      }
      var a := Resolve(selfType, ty1);
      var b := Resolve(selfType, ty2);
      var seen := Climb(a);
      if seen.None? {
        return None;
      }
      r := Meet(b, seen.value);
    }

    /** The first loop of `join_type`: the walk from `a`, which must reach `Object`. */
    method Climb(a: string) returns (r: Option<seq<string>>)
      requires Valid()
      ensures var l := Ancestry(inherits, a);
              if l[|l| - 1] == ObjectType then r == Some(l) else r.None?
    {
      GroundedStops(inherits, a);
      var seen := [a];
      var t := a;
      ghost var k: nat := |inherits|;
      while t != ObjectType
        invariant Stops(inherits, t, k)
        invariant |seen| > 0 && seen[|seen| - 1] == t
        invariant seen + Lineage(inherits, t, k)[1..] == Ancestry(inherits, a)
        decreases k
      {
        if t !in inherits {
          assert Lineage(inherits, t, k) == [t];
          assert seen + [] == seen;
          return None;
        }
        var l := Lineage(inherits, inherits[t], k - 1);
        assert Lineage(inherits, t, k)[1..] == l;
        assert l == [inherits[t]] + l[1..];
        t := inherits[t];
        k := k - 1;
        seen := seen + [t];
      }
      assert Lineage(inherits, t, k) == [t];
      assert seen + [] == seen;
      return Some(seen);
    }

    /** The second loop of `join_type`: climb from `b` to the first class in `seen`. */
    method Meet(b: string, seen: seq<string>) returns (r: Option<string>)
      requires Valid() && ObjectType in seen
      ensures r == FirstIn(Ancestry(inherits, b), seen)
    {
      GroundedStops(inherits, b);
      var t := b;
      ghost var k: nat := |inherits|;
      while true
        invariant Stops(inherits, t, k)
        invariant FirstIn(Ancestry(inherits, b), seen) == FirstIn(Lineage(inherits, t, k), seen)
        decreases k
      {
        if t in seen {
          return Some(t);
        }
        if t !in inherits {
          return None;
        }
        t := inherits[t];
        k := k - 1;
      }
    }
  }
}
