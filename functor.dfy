/**
 * The parse-tree-to-regex functor of src/parser/functor.rs (`REParser`).
 *
 * `Parse` reads the tree the LR parser builds for a regular expression and
 * returns the `RegularExpression` it denotes. `Err(())` is `Rejected`, and
 * every Rust panic on the way (an `unwrap` of a failed sub-result, a child
 * index past the end, a token text too short to slice, a range counter
 * overflowing its byte) is `Panicked`. The `"chargroup"` loop is the method
 * `CharGroup`, proved equal to the fold `Collect` that `Parse` uses.
 */
module Functor {
  import opened Wrappers
  import opened Re
  import Tree
  import Lexer
  import Grammar
  import PT = ParseTree

  // ---------------------------------------------------------------------------
  // Characters
  // ---------------------------------------------------------------------------

  /**
   * `parse_char`: the first character, or after a backslash the escaped
   * one, with `t`, `n`, `r` and `0` standing for tab, line feed, carriage
   * return and NUL. `None` where the source unwraps a missing character.
   */
  function ParseChar(s: string): (r: Option<char>)
    ensures r.None? <==> |s| == 0 || (s[0] == '\\' && |s| == 1)
    ensures r.Some? && s[0] != '\\' ==> r.value == s[0]
  {
    if |s| == 0 then None
    else if s[0] != '\\' then Some(s[0])
    else if |s| == 1 then None
    else Some(match s[1]
              case 't' => '\t'
              case 'n' => '\n'
              case 'r' => '\r'
              case '0' => '\0'
              case _ => s[1])
  }

  /** The token text of a terminal node. */
  function Text(n: PT.Node): Option<string>
  {
    if n.value.TerminalNode? then Some(n.value.token.value) else None
  }

  // ---------------------------------------------------------------------------
  // Character groups
  // ---------------------------------------------------------------------------

  /** The `"chargroup"` loop's state: the set so far and the negation flag, or how it stopped. */
  datatype Group = Collecting(atoms: seq<RegularExpression>, negate: bool) | Stopped(outcome: ParseOutcome)

  /** `set.remove(p)` at the first position holding x, if there is one. */
  function RemoveFirst(xs: seq<RegularExpression>, x: RegularExpression): (r: seq<RegularExpression>)
    ensures multiset(r) == multiset(xs) - multiset{x}
  {
    if |xs| == 0 then []
    else
      assert xs == [xs[0]] + xs[1..];
      if xs[0] == x then xs[1..] else [xs[0]] + RemoveFirst(xs[1..], x)
  }

  /**
   * The two ends of a `"charset"` member: its first and third children's
   * characters. A missing child or character panics; a child that is not a
   * terminal is `Err`.
   */
  function Bounds(m: PT.Node): (r: Result<(char, char), ParseOutcome>)
    ensures r.Err? ==> !r.error.Parsed?
  {
    if |m.childs| == 0 then Err(Panicked)
    else match Text(m.childs[0])
      case None => Err(Rejected)
      case Some(s) =>
        match ParseChar(s)
        case None => Err(Panicked)
        case Some(a) =>
          if |m.childs| < 3 then Err(Panicked)
          else match Text(m.childs[2])
            case None => Err(Rejected)
            case Some(t) =>
              match ParseChar(t)
              case None => Err(Panicked)
              case Some(z) => Ok((a, z))
  }

  /**
   * One child of a `"chargroup"` node. A `"char"` member adds its character,
   * or after `CharNeg` removes one occurrence of it. A `"charset"` member
   * adds every character of its range, or after `CharNeg` removes them all.
   * A `CharNeg` token sets the flag, and anything else changes nothing.
   */
  function GroupStep(g: Group, m: PT.Node): (r: Group)
    ensures g.Stopped? ==> r == g
    ensures g.Collecting? && r.Collecting? ==> (g.negate ==> r.negate)
  {
    if g.Stopped? then g
    else match m.value
      case NonTerminalNode(nt) =>
        if nt.value_ == "char" then
          if |m.childs| == 0 then Stopped(Panicked)
          else match Text(m.childs[0])
            case None => g
            case Some(s) =>
              match ParseChar(s)
              case None => Stopped(Panicked)
              case Some(c) =>
                if g.negate then Collecting(RemoveFirst(g.atoms, Atomic(c)), true)
                else Collecting(g.atoms + [Atomic(c)], false)
        else if nt.value_ == "charset" then
          match Bounds(m)
          case Err(o) => Stopped(o)
          case Ok((a, z)) =>
            match RangeAtoms(a, z)
            case None => Stopped(Panicked)
            case Some(span) =>
              if g.negate then Collecting(Without(g.atoms, span), true)
              else Collecting(g.atoms + span, false)
        else g
      case TerminalNode(tok) => if tok.type_ == "CharNeg" then Collecting(g.atoms, true) else g
      case _ => g
  }

  /** The `"chargroup"` loop over the children ns, from state g. */
  function Collect(g: Group, ns: seq<PT.Node>): Group
    decreases |ns|
  {
    if |ns| == 0 then g else Collect(GroupStep(g, ns[0]), ns[1..])
  }

  /** Once stopped, the loop stays stopped. */
  lemma {:induction false} CollectStopped(o: ParseOutcome, ns: seq<PT.Node>)
    ensures Collect(Stopped(o), ns) == Stopped(o)
    decreases |ns|
  {
    if |ns| > 0 {
      CollectStopped(o, ns[1..]);
    }
  }

  /** The prefix acc followed by the rest of a range, if the rest does not overflow. */
  function Then(acc: seq<RegularExpression>, rest: Option<seq<RegularExpression>>): Option<seq<RegularExpression>>
  {
    match rest
    case None => None
    case Some(r) => Some(acc + r)
  }

  /**
   * The inner `while curr <= end` loop: push the counter, then advance it
   * by `(curr as u8 + 1) as char`, which panics (`None`) past 255.
   */
  method Range(start: char, last: char) returns (r: Option<seq<RegularExpression>>)
    ensures r == RangeAtoms(start, last)
  {
    var acc: seq<RegularExpression> := [];
    var curr := start;
    ghost var first := true;
    while curr <= last
      invariant first ==> curr == start && acc == []
      invariant !first ==> 0 < curr as int < 256 && RangeAtoms(start, last) == Then(acc, RangeFrom(curr as int, last))
      decreases if first then 257 else 256 - curr as int
    {
      ghost var before := acc;
      acc := acc + [Atomic(curr)];
      if curr as int % 256 == 255 {
        return None;
      }
      var next := curr as int % 256 + 1;
      assert RangeAtoms(start, last) == Then(acc, RangeFrom(next, last)) by {
        if first {
          RangeFirst(start, last);
          assert acc == [Atomic(start)];
        } else {
          assert next == curr as int + 1;
          RangeStep(before, curr, last);
        }
      }
      curr := next as char;
      first := false;
    }
    assert !first ==> RangeFrom(curr as int, last) == Some([]) && acc + [] == acc;
    return Some(acc);
  }

  /** One turn of the range loop: the counter joins the prefix, the rest goes on from the next one. */
  lemma RangeStep(acc: seq<RegularExpression>, curr: char, last: char)
    requires 0 < curr as int < 255 && curr <= last
    ensures Then(acc, RangeFrom(curr as int, last)) == Then(acc + [Atomic(curr)], RangeFrom(curr as int + 1, last))
  {
    assert NextByte(curr as int) == Some(curr as int + 1);
    assert (curr as int) as char == curr;
    var rest := RangeFrom(curr as int + 1, last);
    if rest.Some? {
      assert acc + ([Atomic(curr)] + rest.value) == acc + [Atomic(curr)] + rest.value;
    }
  }

  /** The first turn: the start character, then the rest from the next counter. */
  lemma RangeFirst(start: char, last: char)
    requires start <= last && start as int % 256 != 255
    ensures RangeAtoms(start, last) == Then([Atomic(start)], RangeFrom(start as int % 256 + 1, last))
  {
    assert NextByte(start as int) == Some(start as int % 256 + 1);
  }

  /** The `"chargroup"` branch: the loop over the node's children. */
  method CharGroup(childs: seq<PT.Node>) returns (g: Group)
    ensures g == Collect(Collecting([], false), childs)
  {
    var atoms: seq<RegularExpression> := [];
    var negate := false;
    for i := 0 to |childs|
      invariant Collect(Collecting([], false), childs) == Collect(Collecting(atoms, negate), childs[i..])
    {
      assert childs[i..][1..] == childs[i + 1..];
      var m := childs[i];
      if m.value.NonTerminalNode? {
        var kind := m.value.nt.value_;
        if kind == "char" {
          if |m.childs| == 0 {
            CollectStopped(Panicked, childs[i + 1..]);
            return Stopped(Panicked);
          }
          var s := Text(m.childs[0]);
          if s.Some? {
            var c := ParseChar(s.value);
            if c.None? {
              CollectStopped(Panicked, childs[i + 1..]);
              return Stopped(Panicked);
            }
            if negate {
              atoms := RemoveFirst(atoms, Atomic(c.value));
            } else {
              atoms := atoms + [Atomic(c.value)];
            }
          }
        } else if kind == "charset" {
          var ends := Bounds(m);
          if ends.Err? {
            CollectStopped(ends.error, childs[i + 1..]);
            return Stopped(ends.error);
          }
          var span := Range(ends.value.0, ends.value.1);
          if span.None? {
            CollectStopped(Panicked, childs[i + 1..]);
            return Stopped(Panicked);
          }
          if negate {
            atoms := Without(atoms, span.value);
          } else {
            atoms := atoms + span.value;
          }
        }
      } else if m.value.TerminalNode? && m.value.token.type_ == "CharNeg" {
        negate := true;
      }
    }
    return Collecting(atoms, negate);
  }

  // ---------------------------------------------------------------------------
  // The functor
  // ---------------------------------------------------------------------------

  /** The nonterminal children, in order (the `filter_map` of `"RegularExpression"` and `"Alternative"`). */
  function Kids(ns: seq<PT.Node>): (r: seq<PT.Node>)
    ensures |r| <= |ns|
    ensures forall i :: 0 <= i < |r| ==> r[i] in ns && r[i].value.NonTerminalNode?
  {
    if |ns| == 0 then []
    else (if ns[0].value.NonTerminalNode? then [ns[0]] else []) + Kids(ns[1..])
  }

  /**
   * `parse`: a terminal is its character (NUL the empty word);
   * `"RegularExpression"` and `"Alternative"` are the union and the
   * concatenation of their nonterminal children; `"Kleen"` with more than
   * one child iterates the first, and otherwise is the first; `"Term"`
   * nodes go by their tag. Anything else is `Err`.
   */
  function Parse(n: PT.Node): (r: ParseOutcome)
    ensures r.Parsed? && n.value.NonTerminalNode? && n.value.nt.type_ == "RegularExpression" ==> r.re.Union?
    ensures r.Parsed? && n.value.NonTerminalNode? && n.value.nt.type_ == "Alternative" ==> r.re.Concatenation?
    ensures r.Parsed? && n.value.NonTerminalNode? && n.value.nt.type_ == "Kleen" && |n.childs| > 1 ==> r.re.Iteration?
    decreases n, 2
  {
    match n.value
    case TerminalNode(tok) =>
      (match ParseChar(tok.value)
       case None => Panicked
       case Some(c) => Parsed(if c == '\0' then Epsilon else Atomic(c)))
    case NonTerminalNode(nt) =>
      if nt.type_ == "RegularExpression" then
        (match Operands(n, Kids(n.childs))
         case None => Panicked
         case Some(ops) => Parsed(Union(ops)))
      else if nt.type_ == "Alternative" then
        (match Operands(n, Kids(n.childs))
         case None => Panicked
         case Some(ops) => Parsed(Concatenation(ops)))
      else if nt.type_ == "Kleen" then
        if |n.childs| == 0 then Panicked
        else if |n.childs| > 1 then
          (match Parse(n.childs[0])
           case Parsed(e) => Parsed(Iteration(e))
           case _ => Panicked)
        else Parse(n.childs[0])
      else if nt.type_ == "Term" then ParseTerm(n, nt.value_)
      else Rejected
    case _ => Rejected
  }

  /**
   * A `"Term"` node by its tag: `"match"` wraps and `"group"` is its
   * second child, `"alias"` names its token without the first and last
   * characters, `"char"`, `"charn"` and `"charr"` are their first child,
   * and `"chargroup"` is the union of the atoms its loop collects.
   */
  function ParseTerm(n: PT.Node, tag: string): (r: ParseOutcome)
    ensures r.Parsed? && tag == "match" ==> r.re.Match?
    ensures r.Parsed? && tag == "alias" ==> r.re.Alias? && |n.childs| > 0 && Text(n.childs[0]).Some? && |Text(n.childs[0]).value| == |r.re.name| + 2
    ensures r.Parsed? && tag == "chargroup" ==>
      r.re.Union? && forall i :: 0 <= i < |r.re.operands| ==> r.re.operands[i].Atomic?
    decreases n, 1
  {
    if tag == "match" then
      if |n.childs| < 2 then Panicked
      else (match Parse(n.childs[1])
            case Parsed(e) => Parsed(Match(e))
            case _ => Panicked)
    else if tag == "group" then
      if |n.childs| < 2 then Panicked else Parse(n.childs[1])
    else if tag == "alias" then
      if |n.childs| == 0 then Panicked
      else (match Text(n.childs[0])
            case None => Rejected
            case Some(s) => if |s| < 2 then Panicked else Parsed(Alias(s[1..|s| - 1])))
    else if tag == "char" || tag == "charn" || tag == "charr" then
      if |n.childs| == 0 then Panicked else Parse(n.childs[0])
    else if tag == "chargroup" then
      CollectAtoms(Collecting([], false), n.childs);
      (match Collect(Collecting([], false), n.childs)
       case Collecting(atoms, _) => Parsed(Union(atoms))
       case Stopped(o) => o)
    else Rejected
  }

  /**
   * The operands of a union or concatenation: each of ks (the nonterminal
   * children of n) parsed, in order, or `None` (a panic, the `unwrap`)
   * when one of them does not parse.
   */
  function Operands(n: PT.Node, ks: seq<PT.Node>): (r: Option<seq<RegularExpression>>)
    requires forall i :: 0 <= i < |ks| ==> ks[i] in n.childs
    ensures r.Some? <==> forall i :: 0 <= i < |ks| ==> Parse(ks[i]).Parsed?
    ensures r.Some? ==> |r.value| == |ks|
    ensures r.Some? ==> forall i :: 0 <= i < |ks| ==> r.value[i] == Parse(ks[i]).re
    decreases n, 0, |ks|
  {
    if |ks| == 0 then Some([])
    else match Parse(ks[0])
      case Parsed(e) =>
        (match Operands(n, ks[1..])
         case None => None
         case Some(rest) => Some([e] + rest))
      case _ => None
  }

  // ---------------------------------------------------------------------------
  // What the functor promises
  // ---------------------------------------------------------------------------

  /** A one-token leaf. */
  function Leaf(text: string): (n: PT.Node)
    ensures Text(n) == Some(text) && n.childs == []
  {
    Tree.Node(PT.TerminalNode(Lexer.Token("Char", text, 0)), [], 0)
  }

  /** A nonterminal node of the given type and tag over the children. */
  function Inner(type_: string, tag: string, childs: seq<PT.Node>): (n: PT.Node)
    ensures n.value.NonTerminalNode? && n.value.nt.type_ == type_ && n.value.nt.value_ == tag
    ensures n.childs == childs
  {
    var rule := Grammar.Production(type_, tag, Grammar.Expression([]), 0, Grammar.Left);
    Tree.Node(PT.NonTerminalNode(PT.FromProduction(rule)), childs, 0)
  }

  /** No atom of re is the NUL character, which the functor reads as the empty word. */
  predicate NulFree(re: RegularExpression)
  {
    match re
    case Atomic(c) => c != '\0'
    case Union(ops) => forall i :: 0 <= i < |ops| ==> NulFree(ops[i])
    case Concatenation(ops) => forall i :: 0 <= i < |ops| ==> NulFree(ops[i])
    case Iteration(e) => NulFree(e)
    case Match(e) => NulFree(e)
    case _ => true
  }

  /**
   * A tree the regex grammar would give for re: characters under `"char"`
   * terms (a backslash escaped, the empty word as `\0`), unions with `|`
   * separators between the alternatives, `*` after an iterated operand,
   * brackets around a match and braces around an alias.
   */
  function Render(re: RegularExpression): (n: PT.Node)
    ensures n.value.NonTerminalNode?
    decreases re, 1
  {
    match re
    case Epsilon => Inner("Term", "char", [Leaf("\\0")])
    case Atomic(c) => Inner("Term", "char", [Leaf(if c == '\\' then "\\\\" else [c])])
    case Union(ops) => Inner("RegularExpression", "", RenderAll(ops, Some("|")))
    case Concatenation(ops) => Inner("Alternative", "", RenderAll(ops, None))
    case Iteration(e) => Inner("Kleen", "", [Render(e), Leaf("*")])
    case Match(e) => Inner("Term", "match", [Leaf("("), Render(e), Leaf(")")])
    case Alias(name) => Inner("Term", "alias", [Leaf("{" + name + "}")])
  }

  /** The operands rendered in order, with a separator leaf between two of them if there is one. */
  function RenderAll(ops: seq<RegularExpression>, sep: Option<string>): (ns: seq<PT.Node>)
    decreases ops, 0
  {
    if |ops| == 0 then []
    else if |ops| == 1 || sep.None? then [Render(ops[0])] + RenderAll(ops[1..], sep)
    else [Render(ops[0]), Leaf(sep.value)] + RenderAll(ops[1..], sep)
  }

  /** A terminal node's character: an escaped character agrees with the escapes of the regex syntax. */
  lemma EscapeAgrees(c: char)
    ensures Parse(Leaf(['\\', c])) == Parsed(if c == '\0' then Epsilon else Escaped(c))
  {
  }

  /** A plain character other than a backslash and NUL is its own atom. */
  lemma PlainChar(c: char)
    requires c != '\\' && c != '\0'
    ensures Parse(Leaf([c])) == Parsed(Atomic(c))
  {
  }

  /** Parsing a rendered NUL-free expression gives the expression back. */
  lemma {:induction false} ParseRender(re: RegularExpression)
    requires NulFree(re)
    ensures Parse(Render(re)) == Parsed(re)
    decreases re, 1
  {
    match re
    case Epsilon =>
      CharTerm(Render(re));
    case Atomic(c) =>
      CharTerm(Render(re));
    case Union(ops) =>
      ParseRenderAll(ops, Some("|"));
      OperandsRendered(Render(re), ops, Some("|"));
    case Concatenation(ops) =>
      ParseRenderAll(ops, None);
      OperandsRendered(Render(re), ops, None);
    case Iteration(e) =>
      ParseRender(e);
    case Match(e) =>
      ParseRender(e);
    case Alias(name) =>
      var s := "{" + name + "}";
      assert s[1..|s| - 1] == name;
  }

  /** Every rendered operand reads back as itself. */
  lemma {:induction false} ParseRenderAll(ops: seq<RegularExpression>, sep: Option<string>)
    requires forall i :: 0 <= i < |ops| ==> NulFree(ops[i])
    ensures forall i :: 0 <= i < |ops| ==> Parse(Render(ops[i])) == Parsed(ops[i])
    decreases ops, 0
  {
    forall i | 0 <= i < |ops|
      ensures Parse(Render(ops[i])) == Parsed(ops[i])
    {
      ParseRender(ops[i]);
    }
  }

  /** The rendered operands, without the separators. */
  function Renders(ops: seq<RegularExpression>): (ns: seq<PT.Node>)
    ensures |ns| == |ops| && forall i :: 0 <= i < |ops| ==> ns[i] == Render(ops[i])
  {
    if |ops| == 0 then [] else [Render(ops[0])] + Renders(ops[1..])
  }

  /** The separators are the only terminal children of a rendered union. */
  lemma {:induction false} KidsRendered(ops: seq<RegularExpression>, sep: Option<string>)
    ensures Kids(RenderAll(ops, sep)) == Renders(ops)
  {
    if |ops| > 0 {
      var rest := RenderAll(ops[1..], sep);
      KidsRendered(ops[1..], sep);
      if |ops| == 1 || sep.None? {
        assert RenderAll(ops, sep)[1..] == rest;
      } else {
        TerminalsSkipped(rest, Leaf(sep.value));
        assert RenderAll(ops, sep)[1..] == [Leaf(sep.value)] + rest;
      }
      assert Renders(ops) == [Render(ops[0])] + Renders(ops[1..]);
    }
  }

  /** A rendered union or concatenation has the operands it was rendered from. */
  lemma OperandsRendered(n: PT.Node, ops: seq<RegularExpression>, sep: Option<string>)
    requires n.childs == RenderAll(ops, sep)
    requires forall i :: 0 <= i < |ops| ==> Parse(Render(ops[i])) == Parsed(ops[i])
    ensures Operands(n, Kids(n.childs)) == Some(ops)
  {
    KidsRendered(ops, sep);
    var r := Operands(n, Kids(n.childs));
    assert r.value == ops;
  }

  /** A `"char"` term is its first child. */
  lemma CharTerm(n: PT.Node)
    requires n.value.NonTerminalNode? && n.value.nt.type_ == "Term" && n.value.nt.value_ == "char"
    ensures Parse(n) == if |n.childs| == 0 then Panicked else Parse(n.childs[0])
  {
  }

  /** Terminal children of a union or concatenation (separators) are not operands. */
  lemma TerminalsSkipped(ns: seq<PT.Node>, t: PT.Node)
    requires t.value.TerminalNode?
    ensures Kids([t] + ns) == Kids(ns)
  {
    assert ([t] + ns)[1..] == ns;
  }

  /** Every node that is not a terminal, nor one of the known nonterminals, is `Err`. */
  lemma UnknownRejected(n: PT.Node)
    requires !n.value.TerminalNode?
    requires n.value.NonTerminalNode? ==>
               n.value.nt.type_ !in {"RegularExpression", "Alternative", "Kleen", "Term"}
               || (n.value.nt.type_ == "Term"
                   && n.value.nt.value_ !in {"match", "group", "alias", "char", "charn", "charr", "chargroup"})
    ensures Parse(n) == Rejected
  {
  }

  // ---------------------------------------------------------------------------
  // Character-set arithmetic
  // ---------------------------------------------------------------------------

  /** Every character a range pushes is an atom. */
  lemma {:induction false} RangeFromAtoms(curr: int, last: char)
    requires 0 <= curr && (curr < 256 || curr == last as int)
    ensures RangeFrom(curr, last).Some? ==> forall i :: 0 <= i < |RangeFrom(curr, last).value| ==> RangeFrom(curr, last).value[i].Atomic?
    decreases if curr < 256 then 256 - curr else 257
  {
    if curr <= last as int && NextByte(curr).Some? {
      RangeFromAtoms(NextByte(curr).value, last);
    }
  }

  lemma RangeAtomsAtoms(a: char, z: char)
    ensures RangeAtoms(a, z).Some? ==> forall i :: 0 <= i < |RangeAtoms(a, z).value| ==> RangeAtoms(a, z).value[i].Atomic?
  {
    if a <= z && NextByte(a as int).Some? {
      RangeFromAtoms(NextByte(a as int).value, z);
    }
  }

  lemma {:induction false} WithoutKeeps(xs: seq<RegularExpression>, ys: seq<RegularExpression>)
    ensures forall x :: x in Without(xs, ys) <==> x in xs && x !in ys
  {
    if |xs| > 0 {
      WithoutKeeps(xs[1..], ys);
      assert xs == [xs[0]] + xs[1..];
    }
  }

  /** A group's set only ever holds atoms, and the loop only stops on a failure. */
  predicate AllAtoms(g: Group)
  {
    && (g.Collecting? ==> forall i :: 0 <= i < |g.atoms| ==> g.atoms[i].Atomic?)
    && (g.Stopped? ==> !g.outcome.Parsed?)
  }

  lemma StepAtoms(g: Group, m: PT.Node)
    requires AllAtoms(g)
    ensures AllAtoms(GroupStep(g, m))
  {
    if g.Collecting? && m.value.NonTerminalNode? {
      if m.value.nt.value_ == "char" {
        CharAtoms(g, m);
      } else if m.value.nt.value_ == "charset" {
        CharsetAtoms(g, m);
      }
    }
  }

  lemma CharAtoms(g: Group, m: PT.Node)
    requires AllAtoms(g) && g.Collecting?
    requires m.value.NonTerminalNode? && m.value.nt.value_ == "char"
    ensures AllAtoms(GroupStep(g, m))
  {
    var r := GroupStep(g, m);
    if r.Collecting? {
      forall i | 0 <= i < |r.atoms|
        ensures r.atoms[i].Atomic?
      {
        assert r.atoms[i] in multiset(r.atoms);
      }
    }
  }

  lemma CharsetAtoms(g: Group, m: PT.Node)
    requires AllAtoms(g) && g.Collecting?
    requires m.value.NonTerminalNode? && m.value.nt.value_ == "charset"
    ensures AllAtoms(GroupStep(g, m))
  {
    if Bounds(m).Ok? {
      var (a, z) := Bounds(m).value;
      RangeAtomsAtoms(a, z);
      var r := GroupStep(g, m);
      if RangeAtoms(a, z).Some? && r.Collecting? {
        WithoutKeeps(g.atoms, RangeAtoms(a, z).value);
        forall i | 0 <= i < |r.atoms|
          ensures r.atoms[i].Atomic?
        {
          assert r.atoms[i] in r.atoms;
        }
      }
    }
  }

  lemma {:induction false} CollectAtoms(g: Group, ns: seq<PT.Node>)
    requires AllAtoms(g)
    ensures AllAtoms(Collect(g, ns))
    decreases |ns|
  {
    if |ns| > 0 {
      StepAtoms(g, ns[0]);
      CollectAtoms(GroupStep(g, ns[0]), ns[1..]);
    }
  }

  /** A `"chargroup"` term is a union of atoms. */
  lemma ChargroupUnion(n: PT.Node)
    requires n.value.NonTerminalNode? && n.value.nt.type_ == "Term" && n.value.nt.value_ == "chargroup"
    ensures Parse(n).Parsed? ==> Parse(n).re.Union?
    ensures Parse(n).Parsed? ==> forall i :: 0 <= i < |Parse(n).re.operands| ==> Parse(n).re.operands[i].Atomic?
  {
    assert Parse(n) == ParseTerm(n, "chargroup");
    var g := Collect(Collecting([], false), n.childs);
    CollectAtoms(Collecting([], false), n.childs);
    assert g.Collecting? ==> Parse(n) == Parsed(Union(g.atoms));
  }

  /** Before `CharNeg`, a range from a to z (below 255) adds every character from a to z. */
  lemma RangeAdded(atoms: seq<RegularExpression>, m: PT.Node, a: char, z: char)
    requires m.value.NonTerminalNode? && m.value.nt.value_ == "charset"
    requires Bounds(m) == Ok((a, z)) && (z as int) < 255
    ensures GroupStep(Collecting(atoms, false), m) == Collecting(atoms + Span(a as int, z as int), false)
  {
    RangeAtomsSpan(a, z);
  }

  /**
   * After `CharNeg`, a range from a to z (below 255) leaves exactly the
   * atoms outside the range, so no character from a to z remains.
   */
  lemma RangeRemoved(atoms: seq<RegularExpression>, m: PT.Node, a: char, z: char)
    requires m.value.NonTerminalNode? && m.value.nt.value_ == "charset"
    requires Bounds(m) == Ok((a, z)) && (z as int) < 255
    ensures GroupStep(Collecting(atoms, true), m).Collecting?
    ensures forall x :: x in GroupStep(Collecting(atoms, true), m).atoms <==> x in atoms && x !in Span(a as int, z as int)
    ensures forall c: char :: a <= c <= z ==> Atomic(c) !in GroupStep(Collecting(atoms, true), m).atoms
  {
    RangeAtomsSpan(a, z);
    var span := Span(a as int, z as int);
    WithoutKeeps(atoms, span);
    forall c: char | a <= c <= z
      ensures Atomic(c) in span
    {
      assert span[c as int - a as int] == Atomic(c);
    }
  }

  /** After `CharNeg`, a character removes one occurrence of its atom; before, it adds one. */
  lemma CharToggled(atoms: seq<RegularExpression>, m: PT.Node, c: char)
    requires m.value.NonTerminalNode? && m.value.nt.value_ == "char"
    requires |m.childs| > 0 && Text(m.childs[0]).Some? && ParseChar(Text(m.childs[0]).value) == Some(c)
    ensures multiset(GroupStep(Collecting(atoms, true), m).atoms) == multiset(atoms) - multiset{Atomic(c)}
    ensures GroupStep(Collecting(atoms, false), m).atoms == atoms + [Atomic(c)]
  {
  }

  /** Once `CharNeg` is seen, the group stays negated to the end. */
  lemma {:induction false} NegationSticks(atoms: seq<RegularExpression>, ns: seq<PT.Node>)
    ensures Collect(Collecting(atoms, true), ns).Collecting? ==> Collect(Collecting(atoms, true), ns).negate
    decreases |ns|
  {
    if |ns| > 0 {
      var g := GroupStep(Collecting(atoms, true), ns[0]);
      if g.Collecting? {
        NegationSticks(g.atoms, ns[1..]);
      } else {
        CollectStopped(g.outcome, ns[1..]);
      }
    }
  }
}
