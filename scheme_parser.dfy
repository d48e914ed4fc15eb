/**
 * The Scheme reader (src/scheme/parser.rs): tokens to a bracket tree with
 * the zipper of src/utils/tree.rs, then the tree to a `Datum`.
 *
 * `parse` pushes group and abbreviation tokens as children and moves the
 * focus into them, climbs on `RGroup`, and appends every other token as a
 * leaf. An abbreviation (`'`, `` ` ``, `,`, `,@`) is closed when the focus
 * is an abbreviation node with exactly one child at the start of a token.
 * The tree's root is the first token itself, so a program `( … )` becomes
 * a root whose only child is the list.
 *
 * A panic of the source (`unwrap` on a missing parent, `expect` on a
 * missing child or character, `remove(0)` of an empty list) is a `None`
 * or `Panic` outcome here.
 */
module SchemeParser {
  import opened Wrappers
  import opened Tree
  import Lexer
  type Token = Lexer.Token

  datatype SpecialForm =
    | Eval | Apply | Begin | Define | DefineSyntax | Lambda | Set | Let | Letstar | Letrec
    | And | Or | Cond | If | Quote

  datatype AbbrevPrefix = QuotePrefix | Template | Comma | CommaSplicing

  /** The data `parse_datum` builds; a number keeps its literal text. */
  datatype Datum =
    | SpecialForm(form: SpecialForm)
    | Number(text: string)
    | String(chars: string)
    | Boolean(truth: bool)
    | Character(letter: char)
    | Symbol(name: string)
    | List(items: seq<Datum>)
    | Vector(items: seq<Datum>)
    | Abbreviation(prefix: AbbrevPrefix, datum: Datum)

  /** What `parse` returns: a datum, `Err(())` for a root that is not a list, or a panic. */
  datatype Outcome = Parsed(datum: Datum) | NotAList | Panic

  // ---------------------------------------------------------------------------
  // Token types
  // ---------------------------------------------------------------------------

  /** What a token type means to the reader. */
  datatype Kind =
    | FormKind(form: SpecialForm)
    | NumberKind | StringKind | BooleanKind | CharacterKind
    | ListKind | VectorKind | CloseKind
    | AbbrevKind(prefix: AbbrevPrefix)
    | SymbolKind

  /** The token types the reader and `parse_datum` tell apart; every other type is a symbol. */
  function KindOf(kind: string): Kind
  {
    match kind
    case "Eval" => FormKind(Eval)
    case "Apply" => FormKind(Apply)
    case "Begin" => FormKind(Begin)
    case "Define" => FormKind(Define)
    case "DefineSyntax" => FormKind(DefineSyntax)
    case "Lambda" => FormKind(Lambda)
    case "Set" => FormKind(Set)
    case "Let" => FormKind(Let)
    case "Letstar" => FormKind(Letstar)
    case "Letrec" => FormKind(Letrec)
    case "And" => FormKind(And)
    case "Or" => FormKind(Or)
    case "Cond" => FormKind(Cond)
    case "If" => FormKind(If)
    case "Quote" => FormKind(Quote)
    case "Number" => NumberKind
    case "String" => StringKind
    case "Boolean" => BooleanKind
    case "Character" => CharacterKind
    case "LGroup" => ListKind
    case "VGroup" => VectorKind
    case "RGroup" => CloseKind
    case "Symbolize" => AbbrevKind(QuotePrefix)
    case "Template" => AbbrevKind(Template)
    case "Comma" => AbbrevKind(Comma)
    case "Comma_Splicing" => AbbrevKind(CommaSplicing)
    case _ => SymbolKind
  }

  /** The token type of a special form. */
  function FormName(f: SpecialForm): (r: string)
    ensures KindOf(r) == FormKind(f)
  {
    match f
    case Eval => "Eval"
    case Apply => "Apply"
    case Begin => "Begin"
    case Define => "Define"
    case DefineSyntax => "DefineSyntax"
    case Lambda => "Lambda"
    case Set => "Set"
    case Let => "Let"
    case Letstar => "Letstar"
    case Letrec => "Letrec"
    case And => "And"
    case Or => "Or"
    case Cond => "Cond"
    case If => "If"
    case Quote => "Quote"
  }

  /** The token type of an abbreviation prefix. */
  function PrefixName(p: AbbrevPrefix): (r: string)
    ensures KindOf(r) == AbbrevKind(p)
  {
    match p
    case QuotePrefix => "Symbolize"
    case Template => "Template"
    case Comma => "Comma"
    case CommaSplicing => "Comma_Splicing"
  }

  predicate IsAbbreviation(kind: string)
  {
    KindOf(kind).AbbrevKind?
  }

  predicate IsGroup(kind: string)
  {
    KindOf(kind).ListKind? || KindOf(kind).VectorKind?
  }

  // ---------------------------------------------------------------------------
  // parse_datum
  // ---------------------------------------------------------------------------

  /**
   * `parse_datum`: keyword types give special forms, `Number`, `String`,
   * `Boolean` and `Character` their literals, groups the data of their
   * children in order, an abbreviation its first child's datum under the
   * prefix, anything else a symbol named by the token's value. An
   * abbreviation without children or an empty character token panics.
   */
  function ParseDatum(n: Node<Token>): (r: Option<Datum>)
    ensures r.Some? && IsGroup(n.value.type_) ==> (r.value.List? || r.value.Vector?) && |r.value.items| == |n.childs|
    decreases n
  {
    var t := n.value;
    match KindOf(t.type_)
    case FormKind(f) => Some(SpecialForm(f))
    case NumberKind => Some(Number(t.value))
    case StringKind => Some(String(t.value))
    case BooleanKind => Some(Boolean(t.value == "#t"))
    case CharacterKind => if |t.value| == 0 then None else Some(Character(t.value[0]))
    case ListKind => (match ParseAll(n) case None => None case Some(items) => Some(List(items)))
    case VectorKind => (match ParseAll(n) case None => None case Some(items) => Some(Vector(items)))
    case AbbrevKind(p) =>
      if |n.childs| == 0 then None
      else (match ParseDatum(n.childs[0]) case None => None case Some(d) => Some(Abbreviation(p, d)))
    case _ => Some(Symbol(t.value))
  }

  /** The data of a group's children in order, or `None` if one of them panics. */
  function ParseAll(n: Node<Token>): (r: Option<seq<Datum>>)
    ensures r.Some? <==> forall i :: 0 <= i < |n.childs| ==> ParseDatum(n.childs[i]).Some?
    ensures r.Some? ==> |r.value| == |n.childs| && forall i :: 0 <= i < |n.childs| ==> Some(r.value[i]) == ParseDatum(n.childs[i])
    decreases n, 0
  {
    if forall i | 0 <= i < |n.childs| :: ParseDatum(n.childs[i]).Some? then
      Some(seq(|n.childs|, i requires 0 <= i < |n.childs| && ParseDatum(n.childs[i]).Some? => ParseDatum(n.childs[i]).value))
    else None
  }

  // ---------------------------------------------------------------------------
  // The tree builder
  // ---------------------------------------------------------------------------

  /** `tree.node.push(Node::new(t))`. */
  function Push(z: Zipper<Token>, n: Node<Token>): Zipper<Token>
  {
    z.(node := PushChild(z.node, n))
  }

  /** The focus is an abbreviation that already has its one datum. */
  predicate Complete(z: Zipper<Token>)
  {
    Len(z.node) == 1 && IsAbbreviation(z.node.value.type_)
  }

  /**
   * What a token does once any abbreviation is closed: a group or
   * abbreviation token becomes a new last child and the focus, `RGroup`
   * climbs (a panic at the root), anything else becomes a leaf.
   */
  function Act(z: Zipper<Token>, t: Token): (r: Option<Zipper<Token>>)
    requires Climbable(z)
    ensures r.Some? ==> Climbable(r.value)
    ensures (IsGroup(t.type_) || IsAbbreviation(t.type_)) ==> r == Some(Zipper(NewNode(t), Some(z), Len(z.node)))
    ensures KindOf(t.type_).CloseKind? ==> r == if z.parent.None? then None else Some(Parent(z))
    ensures !IsGroup(t.type_) && !IsAbbreviation(t.type_) && !KindOf(t.type_).CloseKind? ==> r == Some(Push(z, NewNode(t)))
  {
    if IsGroup(t.type_) || IsAbbreviation(t.type_) then
      var p := Push(z, NewNode(t));
      PushFocus(z, NewNode(t));
      ChildClimbable(p, Len(p.node) - 1);
      Some(Child(p, Len(p.node) - 1))
    else if KindOf(t.type_).CloseKind? then
      if z.parent.None? then None
      else
        ParentClimbable(z);
        Some(Parent(z))
    else Some(Push(z, NewNode(t)))
  }

  /** The check at the head of each round, as written: close one complete abbreviation. */
  function CloseOnce(z: Zipper<Token>): (r: Option<Zipper<Token>>)
    requires Climbable(z)
    ensures r.Some? ==> Climbable(r.value)
  {
    if !Complete(z) then Some(z)
    else if z.parent.None? then None
    else
      ParentClimbable(z);
      Some(Parent(z))
  }

  /**
   * The check at the head of each round, corrected: close complete
   * abbreviations until the focus is not one, so that a quoted quotation
   * is closed as a whole.
   */
  function Settle(z: Zipper<Token>): (r: Option<Zipper<Token>>)
    requires Climbable(z)
    ensures r.Some? ==> Climbable(r.value) && !Complete(r.value)
    decreases Depth(z)
  {
    if !Complete(z) then Some(z)
    else if z.parent.None? then None
    else
      ParentClimbable(z);
      Settle(Parent(z))
  }

  /** One round of the loop, as written and corrected. */
  function Step(z: Zipper<Token>, t: Token, corrected: bool): (r: Option<Zipper<Token>>)
    requires Climbable(z)
    ensures r.Some? ==> Climbable(r.value)
  {
    match (if corrected then Settle(z) else CloseOnce(z))
    case None => None
    case Some(w) => Act(w, t)
  }

  /** The zipper after the loop has read ts, or `None` if it panicked. */
  function Feed(z: Zipper<Token>, ts: seq<Token>, corrected: bool): (r: Option<Zipper<Token>>)
    requires Climbable(z)
    ensures r.Some? ==> Climbable(r.value)
  {
    if ts == [] then Some(z)
    else match Feed(z, ts[..|ts| - 1], corrected)
      case None => None
      case Some(w) => Step(w, ts[|ts| - 1], corrected)
  }

  /** `parse` after the loop: finish the tree, read it, take the first datum of the root list. */
  function Conclude(r: Option<Zipper<Token>>): Outcome
    requires r.Some? ==> Climbable(r.value)
  {
    match r
    case None => Panic
    case Some(z) =>
      match ParseDatum(Root(z))
      case None => Panic
      case Some(List(l)) => if |l| == 0 then Panic else Parsed(l[0])
      case Some(_) => NotAList
  }

  /** `parse` as written; an empty token list panics at `src[0]`. */
  function ParseAsWritten(src: seq<Token>): (r: Outcome)
    ensures |src| == 0 ==> r == Panic
  {
    if |src| == 0 then Panic
    else Conclude(Feed(Start(NewNode(src[0])), src, false))
  }

  /** `parse` with abbreviations closed as a whole; an empty token list panics at `src[0]`. */
  function ParseSpec(src: seq<Token>): (r: Outcome)
    ensures |src| == 0 ==> r == Panic
  {
    if |src| == 0 then Panic
    else Conclude(Feed(Start(NewNode(src[0])), src, true))
  }

  /** Once the loop has panicked, reading more tokens changes nothing. */
  lemma {:induction false} FeedStops(z: Zipper<Token>, ts: seq<Token>, k: nat)
    requires Climbable(z) && k <= |ts| && Feed(z, ts[..k], true).None?
    ensures Feed(z, ts, true).None?
    decreases |ts| - k
  {
    if k < |ts| {
      assert ts[..k + 1][..k] == ts[..k];
      FeedStops(z, ts, k + 1);
    } else {
      assert ts[..k] == ts;
    }
  }

  /** The reader's loop over the tokens, with the corrected closing check. */
  method Parse(src: seq<Token>) returns (r: Outcome)
    ensures r == ParseSpec(src)
  {
    if |src| == 0 {
      return Panic;
    }
    var z := Start(NewNode(src[0]));
    var i := 0;
    while i < |src|
      invariant i <= |src| && Climbable(z)
      invariant Feed(Start(NewNode(src[0])), src[..i], true) == Some(z)
    {
      FeedPrefix(Start(NewNode(src[0])), src, i, true);
      var w := CloseAll(z);
      if w.None? {
        FeedStops(Start(NewNode(src[0])), src, i + 1);
        return Panic;
      }
      var next := Act(w.value, src[i]);
      if next.None? {
        FeedStops(Start(NewNode(src[0])), src, i + 1);
        return Panic;
      }
      z := next.value;
      i := i + 1;
    }
    assert src[..i] == src;
    var root := Finish(z);
    r := Read(root);
  }

  /** The corrected check at the head of a round: climb out of complete abbreviations. */
  method CloseAll(z0: Zipper<Token>) returns (r: Option<Zipper<Token>>)
    requires Climbable(z0)
    ensures r == Settle(z0)
  {
    var z := z0;
    while Complete(z)
      invariant Climbable(z) && Settle(z) == Settle(z0)
      decreases Depth(z)
    {
      if z.parent.None? {
        return None;
      }
      ParentClimbable(z);
      z := Parent(z);
    }
    r := Some(z);
  }

  /** The end of `parse`: read the finished tree and take the first datum of the root list. */
  method Read(root: Node<Token>) returns (r: Outcome)
    ensures r == match ParseDatum(root)
                 case None => Panic
                 case Some(List(l)) => if |l| == 0 then Panic else Parsed(l[0])
                 case Some(_) => NotAList
  {
    var d := ParseDatum(root);
    if d.None? {
      return Panic;
    }
    match d.value
    case List(l) => r := if |l| == 0 then Panic else Parsed(l[0]);
    case _ => r := NotAList;
  }

  // ---------------------------------------------------------------------------
  // Printing, and reading back what was printed
  // ---------------------------------------------------------------------------

  function Tok(kind: string, text: string): Token
  {
    Lexer.Token(kind, text, 0)
  }

  const Open: Token := Tok("LGroup", "(")
  const OpenVector: Token := Tok("VGroup", "#(")
  const Close: Token := Tok("RGroup", ")")

  /** The kinds of the token types the printer uses. */
  lemma PrinterKinds()
    ensures KindOf("LGroup") == ListKind && KindOf("VGroup") == VectorKind && KindOf("RGroup") == CloseKind
    ensures KindOf("Number") == NumberKind && KindOf("String") == StringKind && KindOf("Boolean") == BooleanKind
    ensures KindOf("Character") == CharacterKind && KindOf("Identifier") == SymbolKind
  {
  }

  function Flatten(ss: seq<seq<Token>>): seq<Token>
  {
    if ss == [] then [] else Flatten(ss[..|ss| - 1]) + ss[|ss| - 1]
  }

  /** The tokens of a datum: atoms one token each, groups bracketed, an abbreviation its prefix first. */
  function Print(d: Datum): (ts: seq<Token>)
    ensures |ts| > 0
    decreases d
  {
    match d
    case SpecialForm(f) => [Tok(FormName(f), FormName(f))]
    case Number(text) => [Tok("Number", text)]
    case String(chars) => [Tok("String", chars)]
    case Boolean(b) => [Tok("Boolean", if b then "#t" else "#f")]
    case Character(c) => [Tok("Character", [c])]
    case Symbol(name) => [Tok("Identifier", name)]
    case List(items) =>
      [Open] + Flatten(seq(|items|, i requires 0 <= i < |items| => Print(items[i]))) + [Close]
    case Vector(items) =>
      [OpenVector] + Flatten(seq(|items|, i requires 0 <= i < |items| => Print(items[i]))) + [Close]
    case Abbreviation(p, e) => [Tok(PrefixName(p), PrefixName(p))] + Print(e)
  }

  /** The tree the reader should build for a datum's tokens. */
  function Shape(d: Datum): Node<Token>
    decreases d
  {
    match d
    case List(items) => Node(Open, seq(|items|, i requires 0 <= i < |items| => Shape(items[i])), 0)
    case Vector(items) => Node(OpenVector, seq(|items|, i requires 0 <= i < |items| => Shape(items[i])), 0)
    case Abbreviation(p, e) => Node(Tok(PrefixName(p), PrefixName(p)), [Shape(e)], 0)
    case _ => NewNode(Print(d)[0])
  }

  function Prints(items: seq<Datum>): (r: seq<seq<Token>>)
    ensures |r| == |items| && forall i :: 0 <= i < |items| ==> r[i] == Print(items[i])
  {
    seq(|items|, i requires 0 <= i < |items| => Print(items[i]))
  }

  function Shapes(items: seq<Datum>): (r: seq<Node<Token>>)
    ensures |r| == |items| && forall i :: 0 <= i < |items| ==> r[i] == Shape(items[i])
  {
    seq(|items|, i requires 0 <= i < |items| => Shape(items[i]))
  }

  /** `parse_datum` reads back every datum from its tree. */
  lemma {:induction false} ReadShape(d: Datum)
    ensures ParseDatum(Shape(d)) == Some(d)
    decreases d
  {
    match d
    case List(items) =>
      forall i | 0 <= i < |items| ensures ParseDatum(Shape(items[i])) == Some(items[i]) {
        ReadShape(items[i]);
      }
      ReadGroup(d);
    case Vector(items) =>
      forall i | 0 <= i < |items| ensures ParseDatum(Shape(items[i])) == Some(items[i]) {
        ReadShape(items[i]);
      }
      ReadGroup(d);
    case Abbreviation(p, e) =>
      ReadShape(e);
      assert KindOf(Shape(d).value.type_) == AbbrevKind(p);
    case _ =>
      ReadAtom(d);
  }

  /** A group's tree reads back as the group once each item's does. */
  lemma ReadGroup(d: Datum)
    requires d.List? || d.Vector?
    requires forall i :: 0 <= i < |d.items| ==> ParseDatum(Shape(d.items[i])) == Some(d.items[i])
    ensures ParseDatum(Shape(d)) == Some(d)
  {
    PrintGroup(d);
    ReadChildren(Shape(d), d.items);
    PrinterKinds();
  }

  /** Children that each read as the matching item read, all together, as the items. */
  lemma ReadChildren(n: Node<Token>, items: seq<Datum>)
    requires n.childs == Shapes(items)
    requires forall i :: 0 <= i < |items| ==> ParseDatum(Shape(items[i])) == Some(items[i])
    ensures ParseAll(n) == Some(items)
  {
    assert ParseAll(n).value == items;
  }

  /** An atom's one-token tree reads back as the atom. */
  lemma ReadAtom(d: Datum)
    requires !d.List? && !d.Vector? && !d.Abbreviation?
    ensures ParseDatum(Shape(d)) == Some(d)
  {
    PrinterKinds();
    if d.Boolean? {
      assert ("#f" == "#t") == false;
    } else if d.Character? {
      assert [d.letter][0] == d.letter;
    }
  }

  /** Changing the focus node keeps the chain above it climbable. */
  lemma FocusClimbable(z: Zipper<Token>, n: Node<Token>)
    requires Climbable(z)
    ensures Climbable(z.(node := n))
  {
  }

  /** Reading a + b is reading a, then b. */
  lemma {:induction false} FeedConcat(z: Zipper<Token>, a: seq<Token>, b: seq<Token>, corrected: bool)
    requires Climbable(z)
    ensures Feed(z, a + b, corrected) ==
            match Feed(z, a, corrected) case None => None case Some(w) => Feed(w, b, corrected)
    decreases |b|
  {
    if b == [] {
      assert a + b == a;
    } else {
      var b' := b[..|b| - 1];
      assert (a + b)[..|a + b| - 1] == a + b';
      assert (a + b)[|a + b| - 1] == b[|b| - 1];
      FeedConcat(z, a, b', corrected);
    }
  }

  /** The corrected loop closes abbreviations before each token, so only the settled zipper matters. */
  lemma {:induction false} FeedSettle(u: Zipper<Token>, ts: seq<Token>)
    requires Climbable(u) && ts != [] && Settle(u).Some?
    ensures Feed(u, ts, true) == Feed(Settle(u).value, ts, true)
    decreases |ts|
  {
    var w := Settle(u).value;
    var front := ts[..|ts| - 1];
    if front != [] {
      FeedSettle(u, front);
    }
  }

  /**
   * Reading a datum's tokens with the corrected loop, from a focus that is
   * not a complete abbreviation, leaves the zipper that pushing the datum's
   * tree would, once settled; exactly that zipper for a list or vector.
   */
  lemma {:induction false} FeedPrint(z: Zipper<Token>, d: Datum)
    requires Climbable(z) && !Complete(z)
    ensures Climbable(Push(z, Shape(d)))
    ensures Feed(z, Print(d), true).Some?
    ensures Settle(Feed(z, Print(d), true).value) == Settle(Push(z, Shape(d)))
    ensures d.List? || d.Vector? ==> Feed(z, Print(d), true) == Some(Push(z, Shape(d)))
    decreases d, 1
  {
    FocusClimbable(z, PushChild(z.node, Shape(d)));
    match d
    case List(items) =>
      FeedGroup(z, d, Open);
    case Vector(items) =>
      FeedGroup(z, d, OpenVector);
    case Abbreviation(p, e) =>
      FeedAbbreviation(z, d);
    case _ =>
      FeedAtom(z, d);
  }

  /** The abbreviation case of `FeedPrint`: its prefix token, then its datum, which completes it. */
  lemma {:induction false} FeedAbbreviation(z: Zipper<Token>, d: Datum)
    requires Climbable(z) && !Complete(z) && d.Abbreviation?
    ensures Climbable(Push(z, Shape(d)))
    ensures Feed(z, Print(d), true).Some?
    ensures Settle(Feed(z, Print(d), true).value) == Settle(Push(z, Shape(d)))
    decreases d, 0
  {
    FocusClimbable(z, PushChild(z.node, Shape(d)));
    var a := Tok(PrefixName(d.prefix), PrefixName(d.prefix));
    var w := Zipper(NewNode(a), Some(z), Len(z.node));
    FeedOne(z, a);
    assert Feed(z, [a], true) == Some(w);
    assert Print(d) == [a] + Print(d.datum);
    FeedConcat(z, [a], Print(d.datum), true);
    assert Feed(z, Print(d), true) == Feed(w, Print(d.datum), true);
    FeedPrint(w, d.datum);
    FeedCloses(z, a, Shape(d.datum));
  }

  /** A prefix token with its one datum pushed settles like the finished abbreviation pushed. */
  lemma FeedCloses(z: Zipper<Token>, a: Token, c: Node<Token>)
    requires Climbable(z) && IsAbbreviation(a.type_)
    ensures Climbable(Push(Zipper(NewNode(a), Some(z), Len(z.node)), c))
    ensures Climbable(Push(z, Node(a, [c], 0)))
    ensures Settle(Push(Zipper(NewNode(a), Some(z), Len(z.node)), c)) == Settle(Push(z, Node(a, [c], 0)))
  {
    var we := Push(Zipper(NewNode(a), Some(z), Len(z.node)), c);
    assert Complete(we);
    ParentLast(we);
    assert Parent(we) == Push(z, Node(a, [c], 0));
  }

  /** The atom case of `FeedPrint`: one token, pushed as a leaf. */
  lemma FeedAtom(z: Zipper<Token>, d: Datum)
    requires Climbable(z) && !Complete(z)
    requires !d.List? && !d.Vector? && !d.Abbreviation?
    ensures Feed(z, Print(d), true) == Some(Push(z, Shape(d)))
  {
    PrinterKinds();
    var t := Print(d)[0];
    assert Print(d) == [t];
    FeedOne(z, t);
    assert !IsGroup(t.type_) && !IsAbbreviation(t.type_) && !KindOf(t.type_).CloseKind?;
  }

  /** The group case of `FeedPrint`: open, the items, close. */
  lemma {:induction false} FeedGroup(z: Zipper<Token>, d: Datum, open: Token)
    requires Climbable(z) && !Complete(z) && (d.List? || d.Vector?)
    requires open == Shape(d).value
    ensures Feed(z, Print(d), true) == Some(Push(z, Shape(d)))
    decreases d, 0
  {
    var body := Flatten(Prints(d.items));
    PrintGroup(d);
    var w := Zipper(NewNode(open), Some(z), Len(z.node));
    FeedItems(w, d, |d.items|);
    assert Prints(d.items)[..|d.items|] == Prints(d.items);
    assert Shapes(d.items)[..|d.items|] == Shapes(d.items);
    FeedBracket(z, open, body, Shapes(d.items));
  }

  /** Reading a bracketed group whose body grows the group node by cs pushes the finished group. */
  lemma FeedBracket(z: Zipper<Token>, open: Token, body: seq<Token>, cs: seq<Node<Token>>)
    requires Climbable(z) && !Complete(z) && IsGroup(open.type_)
    requires var w := Zipper(NewNode(open), Some(z), Len(z.node));
             Feed(w, body, true).Some? && Settle(Feed(w, body, true).value) == Some(Grown(w, cs))
    ensures Feed(z, [open] + body + [Close], true) == Some(Push(z, Node(open, cs, 0)))
  {
    var w := Zipper(NewNode(open), Some(z), Len(z.node));
    FeedOne(z, open);
    assert Feed(z, [open], true) == Some(w);
    FeedConcat(z, [open], body, true);
    var u := Feed(w, body, true).value;
    var wf := Grown(w, cs);
    assert Feed(z, [open] + body, true) == Some(u);
    FeedLast(z, [open] + body, Close);
    PrinterKinds();
    assert Feed(z, [open] + body + [Close], true) == Step(u, Close, true);
    assert Step(u, Close, true) == Some(Parent(wf));
    ParentLast(wf);
    assert wf.node == Node(open, cs, 0) by {
      assert [] + cs == cs;
    }
    assert Parent(wf) == Push(z, Node(open, cs, 0));
  }

  /** A group prints as its opening token, its items' tokens, and `RGroup`; its tree has the items' trees as children. */
  lemma PrintGroup(d: Datum)
    requires d.List? || d.Vector?
    ensures Print(d) == [Shape(d).value] + Flatten(Prints(d.items)) + [Close]
    ensures Shape(d) == Node(Shape(d).value, Shapes(d.items), 0)
    ensures IsGroup(Shape(d).value.type_)
  {
    PrinterKinds();
  }

  /** Reading one token is one round. */
  lemma FeedOne(z: Zipper<Token>, t: Token, corrected: bool := true)
    requires Climbable(z)
    ensures Feed(z, [t], corrected) == Step(z, t, corrected)
  {
    assert [t][..0] == [];
  }

  /** Reading a last token is one more round. */
  lemma FeedLast(z: Zipper<Token>, a: seq<Token>, t: Token, corrected: bool := true)
    requires Climbable(z)
    ensures Feed(z, a + [t], corrected) == match Feed(z, a, corrected) case None => None case Some(u) => Step(u, t, corrected)
  {
    assert (a + [t])[..|a|] == a;
  }

  /** Reading one more token of src is one more round. */
  lemma FeedPrefix(z: Zipper<Token>, src: seq<Token>, k: nat, corrected: bool)
    requires Climbable(z) && k < |src|
    ensures Feed(z, src[..k + 1], corrected) ==
            match Feed(z, src[..k], corrected) case None => None case Some(u) => Step(u, src[k], corrected)
  {
    assert src[..k + 1][..k] == src[..k];
  }

  /** Reading the first k items of a group, with the group node in focus. */
  lemma {:induction false} FeedItems(z: Zipper<Token>, d: Datum, k: nat)
    requires Climbable(z) && IsGroup(z.node.value.type_) && (d.List? || d.Vector?) && k <= |d.items|
    ensures Feed(z, Flatten(Prints(d.items)[..k]), true).Some?
    ensures Settle(Feed(z, Flatten(Prints(d.items)[..k]), true).value) == Some(Grown(z, Shapes(d.items)[..k]))
    decreases d, 0, k
  {
    if k == 0 {
      assert z.node.childs + [] == z.node.childs;
    } else {
      var ps := Prints(d.items);
      var item := d.items[k - 1];
      FeedItems(z, d, k - 1);
      var zk := Grown(z, Shapes(d.items)[..k - 1]);
      FocusClimbable(z, zk.node);
      FeedPrint(zk, item);
      GrownPush(z, Shapes(d.items), k);
      FlattenSnoc(ps, k);
      FeedNext(z, zk, Flatten(ps[..k - 1]), Print(item), Push(zk, Shape(item)));
    }
  }

  /** The focus with more children appended. */
  function Grown(z: Zipper<Token>, cs: seq<Node<Token>>): Zipper<Token>
  {
    z.(node := z.node.(childs := z.node.childs + cs))
  }

  lemma GrownPush(z: Zipper<Token>, cs: seq<Node<Token>>, k: nat)
    requires 0 < k <= |cs|
    ensures Push(Grown(z, cs[..k - 1]), cs[k - 1]) == Grown(z, cs[..k])
  {
    assert z.node.childs + cs[..k - 1] + [cs[k - 1]] == z.node.childs + cs[..k];
  }

  lemma FlattenSnoc(ps: seq<seq<Token>>, k: nat)
    requires 0 < k <= |ps|
    ensures Flatten(ps[..k]) == Flatten(ps[..k - 1]) + ps[k - 1]
  {
    assert ps[..k][..k - 1] == ps[..k - 1];
  }

  /** One more item read from a settled position: settle, then read it. */
  lemma FeedNext(z: Zipper<Token>, zk: Zipper<Token>, a: seq<Token>, p: seq<Token>, zk2: Zipper<Token>)
    requires Climbable(z) && p != []
    requires Feed(z, a, true).Some? && Settle(Feed(z, a, true).value) == Some(zk)
    requires Feed(zk, p, true).Some? && Settle(Feed(zk, p, true).value) == Some(zk2)
    ensures Feed(z, a + p, true).Some? && Settle(Feed(z, a + p, true).value) == Some(zk2)
  {
    FeedConcat(z, a, p, true);
    FeedSettle(Feed(z, a, true).value, p);
  }

  /** Reading back a printed program: the corrected reader returns every list it is given. */
  lemma ReadPrinted(items: seq<Datum>)
    ensures ParseSpec(Print(List(items))) == Parsed(List(items))
  {
    var src := Print(List(items));
    PrintGroup(List(items));
    FeedGroup(Start(NewNode(Open)), List(items), Open);
    ReadShape(List(items));
    Conclusion(src, Shape(List(items)), List(items));
  }

  /** The reader's end: a root `LGroup` holding one child that reads as d gives d. */
  lemma Conclusion(src: seq<Token>, c: Node<Token>, d: Datum)
    requires |src| > 0 && src[0] == Open
    requires Feed(Start(NewNode(Open)), src, true) == Some(Push(Start(NewNode(Open)), c))
    requires ParseDatum(c) == Some(d)
    ensures ParseSpec(src) == Parsed(d)
  {
    var z := Push(Start(NewNode(Open)), c);
    assert Root(z) == Node(Open, [c], 0);
    ReadList(c, d);
  }

  /** A root `LGroup` node with one child reads as the list of that child's datum. */
  lemma ReadList(c: Node<Token>, d: Datum)
    requires ParseDatum(c) == Some(d)
    ensures var r := ParseDatum(Node(Open, [c], 0));
            r.Some? && r.value.List? && |r.value.items| == 1 && r.value.items[0] == d
  {
    assert KindOf(Open.type_) == ListKind;
  }

  /**
   * The reader as written loses data: in `(''a b)` the outer quote is still
   * the focus when `b` arrives, so `b` becomes its second child, which
   * `parse_datum` ignores.
   */
  lemma NestedQuoteCounterexample()
    ensures var quoted := Abbreviation(QuotePrefix, Abbreviation(QuotePrefix, Symbol("a")));
            ParseAsWritten(Print(List([quoted, Symbol("b")]))) == Parsed(List([quoted]))
            && ParseSpec(Print(List([quoted, Symbol("b")]))) == Parsed(List([quoted, Symbol("b")]))
  {
    var quoted := Abbreviation(QuotePrefix, Abbreviation(QuotePrefix, Symbol("a")));
    ReadPrinted([quoted, Symbol("b")]);
    var q := Tok("Symbolize", "Symbolize");
    var s2a := Node(q, [NewNode(Tok("Identifier", "a"))], 0);
    var s1b := Node(q, [s2a, NewNode(Tok("Identifier", "b"))], 0);
    FeedQuotedPair();
    ReadQuotedPair(s2a, s1b);
    ConclusionAsWritten(QuotedPair(), s1b, quoted);
  }

  /** The loop as written ending inside the program's list, holding one child that reads as d, gives the list of d. */
  lemma ConclusionAsWritten(src: seq<Token>, inner: Node<Token>, d: Datum)
    requires |src| > 0 && src[0] == Open
    requires Feed(Start(NewNode(Open)), src, false) == Some(Zipper(Node(Open, [inner], 0), Some(Start(NewNode(Open))), 0))
    requires ParseDatum(inner) == Some(d)
    ensures ParseAsWritten(src) == Parsed(List([d]))
  {
    RootOfChild(Node(Open, [inner], 0));
    ReadNested(inner, d);
  }

  /** Finishing from the program's list, a child of the root, gives the root holding that list. */
  lemma RootOfChild(c: Node<Token>)
    ensures var z := Zipper(c, Some(Start(NewNode(Open))), 0);
            Climbable(z) && Root(z) == Node(Open, [c], 0)
  {
    var z := Zipper(c, Some(Start(NewNode(Open))), 0);
    ParentLast(z);
  }

  /** A root holding a list that holds one child reading as d reads as the list of the list of d. */
  lemma ReadNested(inner: Node<Token>, d: Datum)
    requires ParseDatum(inner) == Some(d)
    ensures var r := ParseDatum(Node(Open, [Node(Open, [inner], 0)], 0));
            r.Some? && r.value.List? && |r.value.items| == 1 && r.value.items[0] == List([d])
  {
    ReadList(inner, d);
    var l := ParseDatum(Node(Open, [inner], 0)).value.items;
    assert l == [d];
    ReadList(Node(Open, [inner], 0), List([d]));
  }

  /** The tokens of `(''a b)`. */
  function QuotedPair(): (src: seq<Token>)
    ensures src == Print(List([Abbreviation(QuotePrefix, Abbreviation(QuotePrefix, Symbol("a"))), Symbol("b")]))
  {
    var q := Tok("Symbolize", "Symbolize");
    var ta := Tok("Identifier", "a");
    var tb := Tok("Identifier", "b");
    var src := [Open, q, q, ta, tb, Close];
    var quoted := Abbreviation(QuotePrefix, Abbreviation(QuotePrefix, Symbol("a")));
    var items := [quoted, Symbol("b")];
    assert Print(Abbreviation(QuotePrefix, Symbol("a"))) == [q, ta];
    assert Print(quoted) == [q, q, ta];
    assert Print(Symbol("b")) == [tb];
    var ps := Prints(items);
    assert ps[..1] == [[q, q, ta]] && ps[..2] == ps;
    assert Flatten(ps[..1]) == [q, q, ta] by {
      assert ps[..1][..0] == [];
    }
    assert Flatten(ps) == [q, q, ta, tb];
    PrintGroup(List(items));
    src
  }

  /** The loop as written on `(''a b)`: `b` lands under the outer quote. */
  lemma FeedQuotedPair()
    ensures var q := Tok("Symbolize", "Symbolize");
            var s2a := Node(q, [NewNode(Tok("Identifier", "a"))], 0);
            var s1b := Node(q, [s2a, NewNode(Tok("Identifier", "b"))], 0);
            Feed(Start(NewNode(Open)), QuotedPair(), false) == Some(Zipper(Node(Open, [s1b], 0), Some(Start(NewNode(Open))), 0))
  {
    PrinterKinds();
    assert KindOf("Symbolize") == AbbrevKind(QuotePrefix);
    FeedNested(Tok("Symbolize", "Symbolize"), Tok("Identifier", "a"), Tok("Identifier", "b"));
  }

  /** The loop as written on an open group, two prefixes, and two atoms, then a close. */
  lemma FeedNested(q: Token, ta: Token, tb: Token)
    requires IsAbbreviation(q.type_) && KindOf(ta.type_) == SymbolKind && KindOf(tb.type_) == SymbolKind
    ensures var z0 := Start(NewNode(Open));
            var s1b := Node(q, [Node(q, [NewNode(ta)], 0), NewNode(tb)], 0);
            Feed(z0, [Open, q, q, ta, tb, Close], false) == Some(Zipper(Node(Open, [s1b], 0), Some(z0), 0))
  {
    PrinterKinds();
    var src := [Open, q, q, ta, tb, Close];
    var z0 := Start(NewNode(Open));
    var z1 := Zipper(NewNode(Open), Some(z0), 0);
    var s1 := Zipper(NewNode(q), Some(z1), 0);
    var s2 := Zipper(NewNode(q), Some(s1), 0);
    var s2a := Push(s2, NewNode(ta));
    var s1a := Zipper(Node(q, [s2a.node], 0), Some(z1), 0);
    var s1b := Push(s1a, NewNode(tb));
    var a1 := [Open];
    var a2 := a1 + [q];
    var a3 := a2 + [q];
    var a4 := a3 + [ta];
    var a5 := a4 + [tb];
    FeedOne(z0, Open, false);
    StepOpens(z0, Open);
    assert Feed(z0, a1, false) == Some(z1);
    FeedLast(z0, a1, q, false);
    StepOpens(z1, q);
    assert Feed(z0, a2, false) == Some(s1);
    FeedLast(z0, a2, q, false);
    StepOpens(s1, q);
    assert Feed(z0, a3, false) == Some(s2);
    FeedLast(z0, a3, ta, false);
    StepLeaf(s2, ta);
    assert Feed(z0, a4, false) == Some(s2a);
    FeedLast(z0, a4, tb, false);
    StepClosesOnce(s2a, tb);
    ParentLast(s2a);
    assert s2a.node.childs == [NewNode(ta)];
    assert Parent(s2a) == s1a;
    assert Feed(z0, a5, false) == Some(s1b);
    FeedLast(z0, a5, Close, false);
    assert Climbable(s1b);
    Pair(s2a.node, NewNode(tb));
    assert s1b.node.childs == [s2a.node, NewNode(tb)];
    StepRGroup(s1b);
    assert Feed(z0, a5 + [Close], false) == Some(Parent(s1b));
    ParentLast(s1b);
    Six(Open, q, q, ta, tb, Close);
  }

  lemma Pair<X>(a: X, b: X)
    ensures [a] + [b] == [a, b]
  {
  }

  lemma Six<X>(a: X, b: X, c: X, d: X, e: X, f: X)
    ensures [a] + [b] + [c] + [d] + [e] + [f] == [a, b, c, d, e, f]
  {
  }

  /** A group or prefix token, with no abbreviation to close, opens a new focus. */
  lemma StepOpens(z: Zipper<Token>, t: Token)
    requires Climbable(z) && Len(z.node) == 0 && (IsGroup(t.type_) || IsAbbreviation(t.type_))
    ensures Step(z, t, false) == Some(Zipper(NewNode(t), Some(z), 0))
  {
  }

  /** A symbol token, with no abbreviation to close, becomes a leaf. */
  lemma StepLeaf(z: Zipper<Token>, t: Token)
    requires Climbable(z) && Len(z.node) == 0 && KindOf(t.type_) == SymbolKind
    ensures Step(z, t, false) == Some(Push(z, NewNode(t)))
  {
  }

  /** As written, a complete abbreviation is closed once and the token then goes to the parent. */
  lemma StepClosesOnce(z: Zipper<Token>, t: Token)
    requires Climbable(z) && Complete(z) && z.parent.Some? && KindOf(t.type_) == SymbolKind
    ensures Step(z, t, false) == Some(Push(Parent(z), NewNode(t)))
  {
    ParentClimbable(z);
    assert CloseOnce(z) == Some(Parent(z));
    assert !IsGroup(t.type_) && !IsAbbreviation(t.type_) && !KindOf(t.type_).CloseKind?;
  }

  /** `RGroup` on a focus with two children climbs. */
  lemma StepRGroup(z: Zipper<Token>)
    requires Climbable(z) && Len(z.node) == 2 && z.parent.Some?
    ensures Step(z, Close, false) == Some(Parent(z))
  {
    PrinterKinds();
  }

  /** The tree of `''a` with `b` beside the inner quote reads as `''a`. */
  lemma ReadQuotedPair(s2a: Node<Token>, s1b: Node<Token>)
    requires s2a == Node(Tok("Symbolize", "Symbolize"), [NewNode(Tok("Identifier", "a"))], 0)
    requires s1b == Node(Tok("Symbolize", "Symbolize"), [s2a, NewNode(Tok("Identifier", "b"))], 0)
    ensures ParseDatum(s1b) == Some(Abbreviation(QuotePrefix, Abbreviation(QuotePrefix, Symbol("a"))))
  {
    PrinterKinds();
    assert KindOf("Symbolize") == AbbrevKind(QuotePrefix);
    assert ParseDatum(NewNode(Tok("Identifier", "a"))) == Some(Symbol("a"));
    assert ParseDatum(s2a) == Some(Abbreviation(QuotePrefix, Symbol("a")));
  }
}
