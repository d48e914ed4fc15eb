/**
 * Building a parse tree from a list of derivation steps
 * (src/parser/derivations.rs).
 *
 * Both builders make a root out of the first production, then apply the
 * productions one by one at the focus of a zipper. The focus must be a
 * nonterminal of the production's name. The production's terms are appended
 * to it as children: a token leaf for each terminal, taking the tokens in the
 * order the terminals are met, and a blank nonterminal for each nonterminal.
 * The focus then moves on to the next nonterminal to expand: left to right
 * for `build_leftmost`, right to left for `build_rightmost`. A panic of the
 * source is `None` here.
 */
module Derivations {
  import opened Wrappers
  import opened Grammar
  import Lexer
  import Tree
  import opened ParseTree

  type Zip = Tree.Zipper<NodeType>

  /** `Production::default()`: empty name, label and expression, precedence 0, left associative. */
  const Blank: Production := Production("", "", Expression([]), 0, Left)

  /** A terminal child: `Node::new` of a token. */
  function Leaf(tok: Lexer.Token): Node
  {
    Tree.Node(TerminalNode(tok), [], 0)
  }

  /** A nonterminal child not expanded yet: its type, an empty label and the default production. */
  function Placeholder(name: string): Node
  {
    Tree.Node(NonTerminalNode(NonTerminalData(name, "", Blank)), [], 0)
  }

  /** The root both builders start from: `Node::new` of the first production's nonterminal. */
  function Seed(d: Production): Node
  {
    Tree.Node(NonTerminalNode(FromProduction(d)), [], 0)
  }

  // ---------------------------------------------------------------------------
  // One expansion
  // ---------------------------------------------------------------------------

  /** How many of the terms are terminals. */
  function CountTerminals(ts: seq<Term>): nat
    decreases |ts|
  {
    if |ts| == 0 then 0 else CountTerminals(ts[..|ts| - 1]) + (if ts[|ts| - 1].Terminal? then 1 else 0)
  }

  /** Every term is a terminal or a nonterminal, the only kinds the builders expand. */
  predicate Plain(ts: seq<Term>)
  {
    forall i :: 0 <= i < |ts| ==> ts[i].Terminal? || ts[i].NonTerminal?
  }

  /** Child i of an expansion: the token following the earlier terminals' ones, or a blank nonterminal. */
  predicate Sprouted(ts: seq<Term>, tokens: seq<Lexer.Token>, next: nat, i: nat, c: Node)
    requires i < |ts|
  {
    (ts[i].Terminal? ==> next + CountTerminals(ts[..i]) < |tokens| && c == Leaf(tokens[next + CountTerminals(ts[..i])]))
    && (ts[i].NonTerminal? ==> c == Placeholder(ts[i].name))
  }

  /**
   * The children one expansion appends and the token counter after it (the
   * `map` over the terms): `None` where the source panics, on a term of
   * another kind or on a token index past the end.
   */
  function Sprout(ts: seq<Term>, tokens: seq<Lexer.Token>, next: nat): (r: Option<(seq<Node>, nat)>)
    requires next <= |tokens|
    decreases |ts|
    ensures r.Some? <==> Plain(ts) && next + CountTerminals(ts) <= |tokens|
    ensures r.Some? ==> |r.value.0| == |ts| && r.value.1 == next + CountTerminals(ts)
    ensures r.Some? ==> forall i :: 0 <= i < |ts| ==> Sprouted(ts, tokens, next, i, r.value.0[i])
  {
    if |ts| == 0 then Some(([], next))
    else
      var init := ts[..|ts| - 1];
      var t := ts[|ts| - 1];
      assert forall i :: 0 <= i < |init| ==> init[i] == ts[i] && init[..i] == ts[..i];
      match Sprout(init, tokens, next)
      case None => None
      case Some((cs, n)) =>
        if t.Terminal? then
          if n < |tokens| then Some((cs + [Leaf(tokens[n])], n + 1)) else None
        else if t.NonTerminal? then Some((cs + [Placeholder(t.name)], n))
        else None
  }

  /**
   * One derivation at the focus: `None` (a panic) unless the focus is a
   * nonterminal of the production's name and every term expands. The focus
   * then records the production and gets the new children after its old ones.
   */
  function Expand(z: Zip, d: Production, tokens: seq<Lexer.Token>, next: nat): (r: Option<(Zip, nat)>)
    requires next <= |tokens|
    ensures r.Some? <==> z.node.value.NonTerminalNode? && z.node.value.nt.type_ == d.name
                         && Plain(d.expr.terms) && next + CountTerminals(d.expr.terms) <= |tokens|
    ensures r.Some? ==> r.value.0.parent == z.parent && r.value.0.indexInParent == z.indexInParent
    ensures r.Some? ==> r.value.0.node.value == NonTerminalNode(FromProduction(d))
    ensures r.Some? ==> Tree.Len(r.value.0.node) == Tree.Len(z.node) + |d.expr.terms|
    ensures r.Some? ==> r.value.0.node.childs[..Tree.Len(z.node)] == z.node.childs
    ensures r.Some? ==> r.value.1 == next + CountTerminals(d.expr.terms)
  {
    if !z.node.value.NonTerminalNode? || z.node.value.nt.type_ != d.name then None
    else match Sprout(d.expr.terms, tokens, next)
      case None => None
      case Some((cs, n)) =>
        Some((z.(node := z.node.(value := NonTerminalNode(FromProduction(d)), childs := z.node.childs + cs)), n))
  }

  // ---------------------------------------------------------------------------
  // Moving to the next nonterminal
  // ---------------------------------------------------------------------------

  /** Going down to child i: the chain stays climbable, one frame deeper, with i taken out of the parent frame. */
  lemma Down(p: Zip, i: nat)
    requires Tree.Climbable(p) && i < Tree.Len(p.node)
    ensures var c := Tree.Child(p, i);
            Tree.Climbable(c) && Tree.Depth(c) == Tree.Depth(p) + 1
            && Tree.Len(c.parent.value.node) + 1 == Tree.Len(p.node) && c.indexInParent == i
            && Tree.Root(c) == Tree.Root(p)
  {
    Tree.RootChild(p, i);
  }

  /** How many slots of the parent lie from the focus's slot on: shrinks on every step right. */
  function Rank(z: Zip): nat
  {
    if z.parent.Some? && z.indexInParent <= Tree.Len(z.parent.value.node)
    then Tree.Len(z.parent.value.node) + 1 - z.indexInParent else 0
  }

  /** The `while` goes on: the focus was not reached by a move (`f`), or it is a terminal. */
  predicate Restless(z: Zip, f: bool)
  {
    !f || z.node.value.TerminalNode?
  }

  /**
   * One turn of the `while` of `build_leftmost` below the root: climb to the
   * parent, then go to the next slot on the right if there is one (the new
   * `f`). The tree being built does not change.
   */
  function RightTurn(z: Zip): (r: (Zip, bool))
    requires Tree.Climbable(z) && z.parent.Some?
    ensures Tree.Climbable(r.0) && Tree.Root(r.0) == Tree.Root(z)
    ensures r.1 ==> Tree.Depth(r.0) == Tree.Depth(z) && Rank(r.0) < Rank(z)
    ensures !r.1 ==> Tree.Depth(r.0) < Tree.Depth(z)
  {
    var pos := z.indexInParent + 1;
    Tree.ParentClimbable(z);
    var p := Tree.Parent(z);
    if pos < Tree.Len(p.node) then
      Down(p, pos);
      (Tree.Child(p, pos), true)
    else
      (p, false)
  }

  /** One turn of the `while` of `build_rightmost`: climb, then go to the slot on the left if there is one. */
  function LeftTurn(z: Zip): (r: (Zip, bool))
    requires Tree.Climbable(z) && z.parent.Some?
    ensures Tree.Climbable(r.0) && Tree.Root(r.0) == Tree.Root(z)
    ensures r.1 ==> Tree.Depth(r.0) == Tree.Depth(z) && r.0.indexInParent < z.indexInParent
    ensures !r.1 ==> Tree.Depth(r.0) < Tree.Depth(z)
  {
    var pos := z.indexInParent;
    Tree.ParentClimbable(z);
    var p := Tree.Parent(z);
    if pos > 0 then
      Down(p, pos - 1);
      (Tree.Child(p, pos - 1), true)
    else
      (p, false)
  }

  /** `RightTurn` spelled out on the parent. */
  lemma RightTurnIs(z: Zip)
    requires Tree.Climbable(z) && z.parent.Some?
    ensures Tree.CanClimb(z)
    ensures var p := Tree.Parent(z);
            RightTurn(z) == if z.indexInParent + 1 < Tree.Len(p.node) then (Tree.Child(p, z.indexInParent + 1), true) else (p, false)
  {
  }

  /** `LeftTurn` spelled out on the parent. */
  lemma LeftTurnIs(z: Zip)
    requires Tree.Climbable(z) && z.parent.Some?
    ensures Tree.CanClimb(z)
    ensures var p := Tree.Parent(z);
            LeftTurn(z) == if z.indexInParent > 0 then (Tree.Child(p, z.indexInParent - 1), true) else (p, false)
  {
  }

  /** The `while` of `build_leftmost`: turn until a nonterminal is reached by a move, or the root is left with nothing on the right. */
  function SeekRight(z: Zip, f: bool): (r: Zip)
    requires Tree.Climbable(z)
    ensures Tree.Climbable(r) && Tree.Root(r) == Tree.Root(z)
    ensures r.parent.None? || !r.node.value.TerminalNode?
    decreases Tree.Depth(z), Rank(z)
  {
    if !Restless(z, f) || z.parent.None? then z
    else
      var (c, g) := RightTurn(z);
      SeekRight(c, g)
  }

  /** The `while` of `build_rightmost`: the same, turning left. */
  function SeekLeft(z: Zip, f: bool): (r: Zip)
    requires Tree.Climbable(z)
    ensures Tree.Climbable(r) && Tree.Root(r) == Tree.Root(z)
    ensures r.parent.None? || !r.node.value.TerminalNode?
    decreases Tree.Depth(z), z.indexInParent
  {
    if !Restless(z, f) || z.parent.None? then z
    else
      var (c, g) := LeftTurn(z);
      SeekLeft(c, g)
  }

  /** After an expansion: to the first (leftmost) or last (rightmost) child if any, then on to a nonterminal. */
  function Move(z: Zip, leftmost: bool): (r: Zip)
    requires Tree.Climbable(z)
    ensures Tree.Climbable(r) && Tree.Root(r) == Tree.Root(z)
  {
    if Tree.Len(z.node) == 0 then
      if leftmost then SeekRight(z, false) else SeekLeft(z, false)
    else
      var i := if leftmost then 0 else Tree.Len(z.node) - 1;
      Down(z, i);
      if leftmost then SeekRight(Tree.Child(z, i), true) else SeekLeft(Tree.Child(z, i), true)
  }

  // ---------------------------------------------------------------------------
  // The builders
  // ---------------------------------------------------------------------------

  /** How many tokens the productions take together. */
  function Total(ds: seq<Production>): nat
  {
    if |ds| == 0 then 0 else CountTerminals(ds[0].expr.terms) + Total(ds[1..])
  }

  /** The `for` over the derivations: expand at the focus, then move; `None` on the first panic. */
  function Run(ds: seq<Production>, tokens: seq<Lexer.Token>, z: Zip, next: nat, leftmost: bool): (r: Option<(Zip, nat)>)
    requires Tree.Climbable(z) && next <= |tokens|
    ensures r.Some? ==> Tree.Climbable(r.value.0) && r.value.1 == next + Total(ds) <= |tokens|
    decreases |ds|
  {
    if |ds| == 0 then Some((z, next))
    else match Expand(z, ds[0], tokens, next)
      case None => None
      case Some((z1, n1)) => Run(ds[1..], tokens, Move(z1, leftmost), n1, leftmost)
  }

  /**
   * `build_leftmost` (leftmost) and `build_rightmost`, as the source builds
   * them: `None` on an empty list (`derivations[0]`) or a panic, else the
   * tree `finish` returns. The tokens are handed out in expansion order.
   */
  function Build(ds: seq<Production>, tokens: seq<Lexer.Token>, leftmost: bool): (r: Option<Node>)
    ensures |ds| == 0 ==> r.None?
    ensures r.Some? ==> Total(ds) <= |tokens|
  {
    if |ds| == 0 then None
    else
      Tree.FinishStart(Seed(ds[0]));
      match Run(ds, tokens, Tree.Start(Seed(ds[0])), 0, leftmost)
      case None => None
      case Some((z, _)) => Some(Tree.Root(z))
  }

  /** The body of `build_leftmost`'s `while` below the root: climb, then step right if a slot is left. */
  method TurnRight(z0: Zip) returns (z: Zip, f: bool)
    requires Tree.Climbable(z0) && z0.parent.Some?
    ensures (z, f) == RightTurn(z0)
  {
    RightTurnIs(z0);
    var pos := z0.indexInParent + 1;
    z := Tree.Parent(z0);
    if pos < Tree.Len(z.node) {
      z := Tree.Child(z, pos);
      f := true;
    } else {
      f := false;
    }
  }

  /** The body of `build_rightmost`'s `while` below the root: climb, then step left if a slot is left. */
  method TurnLeft(z0: Zip) returns (z: Zip, f: bool)
    requires Tree.Climbable(z0) && z0.parent.Some?
    ensures (z, f) == LeftTurn(z0)
  {
    LeftTurnIs(z0);
    var pos := z0.indexInParent;
    z := Tree.Parent(z0);
    if pos > 0 {
      z := Tree.Child(z, pos - 1);
      f := true;
    } else {
      f := false;
    }
  }

  /** `build_leftmost`'s move: to the first child, then right until a nonterminal or the root. */
  method MoveRight(z0: Zip) returns (z: Zip)
    requires Tree.Climbable(z0)
    ensures z == Move(z0, true)
  {
    ghost var target := Move(z0, true);
    z := z0;
    var f := false;
    if Tree.Len(z.node) > 0 {
      Down(z, 0);
      z := Tree.Child(z, 0);
      f := true;
    }
    while !f || z.node.value.TerminalNode?
      invariant Tree.Climbable(z) && SeekRight(z, f) == target
      decreases Tree.Depth(z), Rank(z)
    {
      if z.parent.Some? {
        z, f := TurnRight(z);
      } else {
        break;
      }
    }
  }

  /** `build_rightmost`'s move: to the last child, then left until a nonterminal or the root. */
  method MoveLeft(z0: Zip) returns (z: Zip)
    requires Tree.Climbable(z0)
    ensures z == Move(z0, false)
  {
    ghost var target := Move(z0, false);
    z := z0;
    var f := false;
    if Tree.Len(z.node) > 0 {
      var pos := Tree.Len(z.node) - 1;
      Down(z, pos);
      z := Tree.Child(z, pos);
      f := true;
    }
    while !f || z.node.value.TerminalNode?
      invariant Tree.Climbable(z) && SeekLeft(z, f) == target
      decreases Tree.Depth(z), z.indexInParent
    {
      if z.parent.Some? {
        z, f := TurnLeft(z);
      } else {
        break;
      }
    }
  }

  /** `build_leftmost`: the loop over the derivations, expanding at the focus and moving it right. */
  method BuildLeftmost(ds: seq<Production>, tokens: seq<Lexer.Token>) returns (r: Option<Node>)
    ensures r == Build(ds, tokens, true)
  {
    if |ds| == 0 {
      return None;
    }
    var z := Tree.Start(Seed(ds[0]));
    Tree.FinishStart(Seed(ds[0]));
    var next: nat := 0;
    for i := 0 to |ds|
      invariant Tree.Climbable(z) && next <= |tokens|
      invariant Run(ds, tokens, Tree.Start(Seed(ds[0])), 0, true) == Run(ds[i..], tokens, z, next, true)
    {
      assert ds[i..][1..] == ds[i + 1..];
      var e := Expand(z, ds[i], tokens, next);
      if e.None? {
        return None;
      }
      z := MoveRight(e.value.0);
      next := e.value.1;
    }
    var n := Tree.Finish(z);
    r := Some(n);
  }

  /** `build_rightmost`: the same loop, moving the focus left. */
  method BuildRightmost(ds: seq<Production>, tokens: seq<Lexer.Token>) returns (r: Option<Node>)
    ensures r == Build(ds, tokens, false)
  {
    if |ds| == 0 {
      return None;
    }
    var z := Tree.Start(Seed(ds[0]));
    Tree.FinishStart(Seed(ds[0]));
    var next: nat := 0;
    for i := 0 to |ds|
      invariant Tree.Climbable(z) && next <= |tokens|
      invariant Run(ds, tokens, Tree.Start(Seed(ds[0])), 0, false) == Run(ds[i..], tokens, z, next, false)
    {
      assert ds[i..][1..] == ds[i + 1..];
      var e := Expand(z, ds[i], tokens, next);
      if e.None? {
        return None;
      }
      z := MoveLeft(e.value.0);
      next := e.value.1;
    }
    var n := Tree.Finish(z);
    r := Some(n);
  }

  // ---------------------------------------------------------------------------
  // The root
  // ---------------------------------------------------------------------------

  /** The value of the outermost frame: the root's value once the zipper is finished. */
  function TopValue(z: Zip): NodeType
    decreases z
  {
    if z.parent.None? then z.node.value else TopValue(z.parent.value)
  }

  /** Climbing changes no node's value, so the finished tree's root has the top frame's value. */
  lemma {:induction false} RootValue(z: Zip)
    requires Tree.Climbable(z)
    ensures Tree.Root(z).value == TopValue(z)
    decreases Tree.Depth(z)
  {
    if z.parent.Some? {
      Tree.ParentClimbable(z);
      RootValue(Tree.Parent(z));
    }
  }

  /** The root is a nonterminal of the given name, recording a production of that name. */
  predicate RootOk(z: Zip, name: string)
  {
    var v := TopValue(z);
    v.NonTerminalNode? && v.nt.type_ == name && Consistent(v.nt)
  }

  /** Expansions and moves keep the root a consistent nonterminal of its name. */
  lemma {:induction false} RunRoot(ds: seq<Production>, tokens: seq<Lexer.Token>, z: Zip, next: nat, leftmost: bool, name: string)
    requires Tree.Climbable(z) && next <= |tokens| && RootOk(z, name)
    ensures Run(ds, tokens, z, next, leftmost).Some? ==> RootOk(Run(ds, tokens, z, next, leftmost).value.0, name)
    decreases |ds|
  {
    if |ds| > 0 {
      var e := Expand(z, ds[0], tokens, next);
      if e.Some? {
        var z1 := e.value.0;
        assert TopValue(z1) == if z.parent.None? then z1.node.value else TopValue(z);
        assert RootOk(z1, name);
        RootValue(z1);
        RootValue(Move(z1, leftmost));
        RunRoot(ds[1..], tokens, Move(z1, leftmost), e.value.1, leftmost, name);
      }
    }
  }

  /**
   * The built tree's root is a nonterminal named by the first derivation and
   * recording a production of that name, with its label.
   */
  lemma BuildRoot(ds: seq<Production>, tokens: seq<Lexer.Token>, leftmost: bool)
    ensures Build(ds, tokens, leftmost).Some? ==>
              var v := Build(ds, tokens, leftmost).value.value;
              v.NonTerminalNode? && v.nt.type_ == ds[0].name && Consistent(v.nt)
  {
    if |ds| > 0 {
      var z0 := Tree.Start(Seed(ds[0]));
      Tree.FinishStart(Seed(ds[0]));
      RunRoot(ds, tokens, z0, 0, leftmost, ds[0].name);
      var r := Run(ds, tokens, z0, 0, leftmost);
      if r.Some? {
        RootValue(r.value.0);
      }
    }
  }

  // ---------------------------------------------------------------------------
  // Leaves in input order
  // ---------------------------------------------------------------------------

  /** Two trees that differ at most in the tokens of their terminal leaves. */
  predicate SameShape(a: Node, b: Node)
    decreases a
  {
    a.index == b.index && |a.childs| == |b.childs|
    && (a.value == b.value || (a.value.TerminalNode? && b.value.TerminalNode?))
    && forall i :: 0 <= i < |a.childs| ==> SameShape(a.childs[i], b.childs[i])
  }

  /** The tokens from k on handed to the terminal leaves left to right; `None` when they run out. */
  function Fill(n: Node, tokens: seq<Lexer.Token>, k: nat): (r: Option<(Node, nat)>)
    requires k <= |tokens|
    ensures r.Some? <==> k + |Fringe(n)| <= |tokens|
    ensures r.Some? ==> r.value.1 == k + |Fringe(n)| && SameShape(r.value.0, n)
    decreases n, 1
  {
    if n.value.TerminalNode? && k >= |tokens| then None
    else
      var k1 := if n.value.TerminalNode? then k + 1 else k;
      match FillAll(n.childs, tokens, k1)
      case None => None
      case Some((cs, k2)) =>
        Some((n.(value := if n.value.TerminalNode? then TerminalNode(tokens[k]) else n.value, childs := cs), k2))
  }

  function FillAll(ns: seq<Node>, tokens: seq<Lexer.Token>, k: nat): (r: Option<(seq<Node>, nat)>)
    requires k <= |tokens|
    ensures r.Some? <==> k + |FringeOf(ns)| <= |tokens|
    ensures r.Some? ==> r.value.1 == k + |FringeOf(ns)| && |r.value.0| == |ns|
    ensures r.Some? ==> forall i :: 0 <= i < |ns| ==> SameShape(r.value.0[i], ns[i])
    decreases ns, 0
  {
    if |ns| == 0 then Some(([], k))
    else match Fill(ns[0], tokens, k)
      case None => None
      case Some((m, k1)) =>
        match FillAll(ns[1..], tokens, k1)
        case None => None
        case Some((cs, k2)) => Some(([m] + cs, k2))
  }

  /** The filled tree's leaves read the tokens from k on, in order. */
  lemma {:induction false} FillFringe(n: Node, tokens: seq<Lexer.Token>, k: nat)
    requires k <= |tokens|
    ensures Fill(n, tokens, k).Some? ==> Fringe(Fill(n, tokens, k).value.0) == tokens[k..Fill(n, tokens, k).value.1]
    decreases n, 1
  {
    var r := Fill(n, tokens, k);
    if r.Some? {
      var k1 := if n.value.TerminalNode? then k + 1 else k;
      FillAllFringe(n.childs, tokens, k1);
      var m := r.value.0;
      if n.value.TerminalNode? {
        assert tokens[k..r.value.1] == [tokens[k]] + tokens[k1..r.value.1];
      }
    }
  }

  lemma {:induction false} FillAllFringe(ns: seq<Node>, tokens: seq<Lexer.Token>, k: nat)
    requires k <= |tokens|
    ensures FillAll(ns, tokens, k).Some? ==> FringeOf(FillAll(ns, tokens, k).value.0) == tokens[k..FillAll(ns, tokens, k).value.1]
    decreases ns, 0
  {
    var r := FillAll(ns, tokens, k);
    if r.Some? && |ns| > 0 {
      var (m, k1) := Fill(ns[0], tokens, k).value;
      FillFringe(ns[0], tokens, k);
      FillAllFringe(ns[1..], tokens, k1);
      var cs := r.value.0;
      assert cs[1..] == FillAll(ns[1..], tokens, k1).value.0;
      assert tokens[k..r.value.1] == tokens[k..k1] + tokens[k1..r.value.1];
    }
  }

  /**
   * The builders with the tokens handed to the leaves in left-to-right order,
   * as a parse tree's leaves should read: the tree shape the source builds,
   * then `Fill` from the first token.
   */
  function BuildInOrder(ds: seq<Production>, tokens: seq<Lexer.Token>, leftmost: bool): (r: Option<Node>)
    ensures r.Some? ==> Build(ds, tokens, leftmost).Some? && SameShape(r.value, Build(ds, tokens, leftmost).value)
  {
    match Build(ds, tokens, leftmost)
    case None => None
    case Some(n) =>
      match Fill(n, tokens, 0)
      case None => None
      case Some((m, _)) => Some(m)
  }

  /** The in-order tree's leaves are the first tokens of the input, in order. */
  lemma InOrderFringe(ds: seq<Production>, tokens: seq<Lexer.Token>, leftmost: bool)
    ensures BuildInOrder(ds, tokens, leftmost).Some? ==>
              var m := BuildInOrder(ds, tokens, leftmost).value;
              |Fringe(m)| <= |tokens| && Fringe(m) == tokens[..|Fringe(m)|]
  {
    var b := Build(ds, tokens, leftmost);
    if b.Some? {
      FillFringe(b.value, tokens, 0);
    }
  }

  // ---------------------------------------------------------------------------
  // Tokens in expansion order: a terminal after a nonterminal
  // ---------------------------------------------------------------------------

  /** `S = B c` and `B = b`, read from the tokens `b c`. */
  const PairRule: Production := Production("S", "", Expression([NonTerminal("B", false), Terminal("c", None)]), 0, Left)
  const InnerRule: Production := Production("B", "", Expression([Terminal("b", None)]), 0, Left)
  const PairInput: seq<Lexer.Token> := [Lexer.Token("b", "b", 1), Lexer.Token("c", "c", 1)]

  /** `S` expanded at the root: the blank `B`, then `c`'s leaf holding the first token, `b`. */
  const Expanded: Node := Tree.Node(NonTerminalNode(FromProduction(PairRule)), [Placeholder("B"), Leaf(PairInput[0])], 0)
  /** `B` expanded: its leaf holds the second token, `c`. */
  const InnerDone: Node := Tree.Node(NonTerminalNode(FromProduction(InnerRule)), [Leaf(PairInput[1])], 0)
  /** The tree both builders return: its leaves read `c b`. */
  const PairTree: Node := Tree.Node(NonTerminalNode(FromProduction(PairRule)), [InnerDone, Leaf(PairInput[0])], 0)

  /** The first expansion, at the root. */
  lemma ExpandPair()
    ensures Expand(Tree.Start(Seed(PairRule)), PairRule, PairInput, 0) == Some((Tree.Start(Expanded), 1))
  {
    var ts := PairRule.expr.terms;
    var init := ts[..1];
    assert init[..|init| - 1] == [] && init[|init| - 1] == NonTerminal("B", false);
    assert Sprout([], PairInput, 0) == Some(([], 0));
    var none: seq<Node> := [];
    assert none + [Placeholder("B")] == [Placeholder("B")];
    assert Sprout(init, PairInput, 0) == Some(([Placeholder("B")], 0));
    assert ts[..|ts| - 1] == init && ts[|ts| - 1] == Terminal("c", None);
    assert [Placeholder("B")] + [Leaf(PairInput[0])] == [Placeholder("B"), Leaf(PairInput[0])];
    assert Sprout(ts, PairInput, 0) == Some(([Placeholder("B"), Leaf(PairInput[0])], 1));
  }

  /** The second expansion, at the blank `B`. */
  lemma ExpandInner(z: Zip)
    requires z.node == Placeholder("B")
    ensures Expand(z, InnerRule, PairInput, 1) == Some((z.(node := InnerDone), 2))
  {
    var ts := InnerRule.expr.terms;
    assert ts[..0] == [];
    assert Sprout(ts[..0], PairInput, 1) == Some(([], 1));
    assert ts[..|ts| - 1] == ts[..0] && ts[|ts| - 1].Terminal?;
    var none: seq<Node> := [];
    assert none + [Leaf(PairInput[1])] == [Leaf(PairInput[1])];
    assert Sprout(ts, PairInput, 1) == Some(([Leaf(PairInput[1])], 2));
  }

  /** `build_rightmost`: from the last child (`c`'s leaf), a terminal, the focus turns left to the first child. */
  lemma RightmostLeftTurn()
    ensures Tree.Climbable(Tree.Start(Expanded))
    ensures Move(Tree.Start(Expanded), false) == SeekLeft(Tree.Child(Tree.Start(Expanded), 0), true)
  {
    var z1 := Tree.Start(Expanded);
    Tree.FinishStart(Expanded);
    var c := Tree.Child(z1, 1);
    Tree.ParentChild(z1, 1);
    Down(z1, 0);
    Down(z1, 1);
    assert Move(z1, false) == SeekLeft(c, true);
    assert Restless(c, true);
    assert LeftTurn(c) == (Tree.Child(z1, 0), true);
  }

  /** `build_rightmost`: from the last child (`c`'s leaf) the focus goes left to `B`. */
  lemma RightmostFirstMove() returns (zb: Zip)
    ensures Move(Tree.Start(Expanded), false) == zb && Tree.Climbable(zb)
    ensures AtInner(zb)
  {
    var z1 := Tree.Start(Expanded);
    RightmostLeftTurn();
    zb := Tree.Child(z1, 0);
    Down(z1, 0);
    assert zb.node == Placeholder("B");
    assert SeekLeft(zb, true) == zb;
    assert zb.parent.value.node.childs == [Leaf(PairInput[0])];
  }

  /** `build_rightmost`: after `B`, the focus climbs to the root and stops. */
  lemma RightmostSecondMove(zb: Zip)
    requires AtInner(zb)
    ensures Tree.Climbable(zb.(node := InnerDone))
    ensures Move(zb.(node := InnerDone), false) == Tree.Start(PairTree)
  {
    var z2 := zb.(node := InnerDone);
    assert Tree.Climbable(z2);
    var c := Tree.Child(z2, 0);
    Tree.ParentChild(z2, 0);
    Down(z2, 0);
    assert Move(z2, false) == SeekLeft(c, true);
    assert LeftTurn(c) == (z2, false);
    assert SeekLeft(c, true) == SeekLeft(z2, false);
    var root := Tree.Parent(z2);
    assert root.node.childs == [InnerDone, Leaf(PairInput[0])];
    assert root == Tree.Start(PairTree);
    assert LeftTurn(z2) == (root, false);
    assert SeekLeft(z2, false) == root;
  }

  /** `build_leftmost`: the first child is `B`, a nonterminal, so the focus stops there. */
  lemma LeftmostFirstMove() returns (zb: Zip)
    ensures Move(Tree.Start(Expanded), true) == zb && Tree.Climbable(zb)
    ensures AtInner(zb)
  {
    var z1 := Tree.Start(Expanded);
    Tree.FinishStart(Expanded);
    zb := Tree.Child(z1, 0);
    Down(z1, 0);
    assert Move(z1, true) == SeekRight(zb, true);
    assert !Restless(zb, true);
    assert zb.parent.value.node.childs == [Leaf(PairInput[0])];
  }

  /** `build_leftmost`: after `B`, the focus climbs, visits `c`'s leaf, and climbs to the root. */
  lemma LeftmostSecondMove(zb: Zip)
    requires AtInner(zb)
    ensures Tree.Climbable(zb.(node := InnerDone))
    ensures Move(zb.(node := InnerDone), true) == Tree.Start(PairTree)
  {
    var z2 := zb.(node := InnerDone);
    assert Tree.Climbable(z2);
    var c := Tree.Child(z2, 0);
    Tree.ParentChild(z2, 0);
    Down(z2, 0);
    assert Move(z2, true) == SeekRight(c, true);
    assert RightTurn(c) == (z2, false);
    assert SeekRight(c, true) == SeekRight(z2, false);
    var root := Tree.Parent(z2);
    assert root.node.childs == [InnerDone, Leaf(PairInput[0])];
    assert root == Tree.Start(PairTree);
    var leaf := Tree.Child(root, 1);
    Tree.ParentChild(root, 1);
    Down(root, 1);
    assert RightTurn(z2) == (leaf, true);
    assert SeekRight(z2, false) == SeekRight(leaf, true);
    assert RightTurn(leaf) == (root, false);
    assert SeekRight(leaf, true) == root;
  }

  /** The blank `B` the first move reaches, in its parent frame. */
  predicate AtInner(zb: Zip)
  {
    zb.node == Placeholder("B") && zb.parent == Some(Tree.Start(Expanded.(childs := [Leaf(PairInput[0])])))
    && zb.indexInParent == 0
  }

  /** The first turn of the `for`: expand `S` at the root, then move. */
  lemma RunFirst(leftmost: bool)
    ensures Tree.Climbable(Tree.Start(Expanded))
    ensures Run([PairRule, InnerRule], PairInput, Tree.Start(Seed(PairRule)), 0, leftmost)
            == Run([InnerRule], PairInput, Move(Tree.Start(Expanded), leftmost), 1, leftmost)
  {
    var ds := [PairRule, InnerRule];
    Tree.FinishStart(Seed(PairRule));
    Tree.FinishStart(Expanded);
    ExpandPair();
    assert ds[1..] == [InnerRule];
  }

  /** The second turn: expand `B`, then move back to the root. */
  lemma RunSecond(zb: Zip, leftmost: bool)
    requires AtInner(zb) && Tree.Climbable(zb)
    requires Tree.Climbable(zb.(node := InnerDone)) && Move(zb.(node := InnerDone), leftmost) == Tree.Start(PairTree)
    ensures Run([InnerRule], PairInput, zb, 1, leftmost) == Some((Tree.Start(PairTree), 2))
  {
    ExpandInner(zb);
    RunOne([InnerRule], PairInput, zb, 1, leftmost, zb.(node := InnerDone), 2);
  }

  /** One derivation: expand it, then move. */
  lemma RunOne(ds: seq<Production>, tokens: seq<Lexer.Token>, z: Zip, next: nat, leftmost: bool, z1: Zip, n1: nat)
    requires Tree.Climbable(z) && next <= |tokens| && |ds| == 1
    requires Expand(z, ds[0], tokens, next) == Some((z1, n1))
    ensures Tree.Climbable(Move(z1, leftmost)) && n1 <= |tokens|
    ensures Run(ds, tokens, z, next, leftmost) == Some((Move(z1, leftmost), n1))
  {
    assert ds[1..] == [];
  }

  /** Both builders return `PairTree` on these derivations. */
  lemma BuildsPair(leftmost: bool)
    ensures Build([PairRule, InnerRule], PairInput, leftmost) == Some(PairTree)
  {
    RunFirst(leftmost);
    var zb;
    if leftmost {
      zb := LeftmostFirstMove();
      LeftmostSecondMove(zb);
    } else {
      zb := RightmostFirstMove();
      RightmostSecondMove(zb);
    }
    RunSecond(zb, leftmost);
    Tree.FinishStart(PairTree);
  }

  /** `PairTree`'s leaves, left to right. */
  lemma PairFringe()
    ensures Fringe(PairTree) == [PairInput[1], PairInput[0]]
  {
    var a, b := Leaf(PairInput[0]), Leaf(PairInput[1]);
    assert Fringe(a) == [PairInput[0]] by {
      assert FringeOf(a.childs) == [];
    }
    assert Fringe(b) == [PairInput[1]] by {
      assert FringeOf(b.childs) == [];
    }
    assert InnerDone.childs[1..] == [];
    assert Fringe(InnerDone) == [PairInput[1]];
    assert PairTree.childs[1..] == [a] && [a][1..] == [];
    assert FringeOf([a]) == [PairInput[0]];
  }

  /**
   * Both builders hand the first token to `c`'s leaf, met first in expansion
   * order, and the second to `b`'s: the leaves read `c b` where the input is
   * `b c`.
   */
  lemma TokenOrderCounterexample()
    ensures Build([PairRule, InnerRule], PairInput, true) == Some(PairTree)
    ensures Build([PairRule, InnerRule], PairInput, false) == Some(PairTree)
    ensures Fringe(PairTree) == [PairInput[1], PairInput[0]] != PairInput
  {
    BuildsPair(true);
    BuildsPair(false);
    PairFringe();
  }

  /** On the same derivations the in-order builder's leaves read the input, `b c`. */
  lemma InOrderPair()
    ensures BuildInOrder([PairRule, InnerRule], PairInput, false).Some?
    ensures Fringe(BuildInOrder([PairRule, InnerRule], PairInput, false).value) == PairInput
  {
    BuildsPair(false);
    PairFringe();
    FillFringe(PairTree, PairInput, 0);
    assert PairInput[0..2] == PairInput;
  }
}
