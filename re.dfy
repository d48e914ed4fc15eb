/**
 * Regular expressions of the lexer (src/lexer/re.rs): the expression tree,
 * the character-by-character stack-machine parser, and alias substitution.
 *
 * The parser keeps a stack of partial results and markers plus four mode
 * flags. `Step` is one character of it as a value, `Finish` the end of input;
 * `Parse` is the loop itself, proved equal to running `Step` over the input
 * and then `Finish`. A Rust `panic!` (an empty union or concatenation, a `*`
 * with nothing to repeat, an unknown alias, an overflowing range counter) is
 * the `Panicked` outcome.
 */
module Re {
  import opened Wrappers

  datatype RegularExpression =
    | Epsilon
    | Atomic(id: char)
    | Union(operands: seq<RegularExpression>)
    | Concatenation(operands: seq<RegularExpression>)
    | Iteration(operand: RegularExpression)
    | Alias(name: string)
    | Match(operand: RegularExpression)

  /** The parser's stack entries: finished sub-expressions and pending markers. */
  datatype Node = Expression(e: RegularExpression) | Tuple | Group | GroupNegate | UnionOp | RangeOp

  /** The parser's state between two characters. */
  datatype Machine = Machine(
    stack: seq<Node>,
    buffer: string,
    escape: bool,
    group: bool,
    range: bool,
    alias: bool)

  datatype StepResult = Continue(m: Machine) | StepRejected | StepPanicked

  datatype ParseOutcome = Parsed(re: RegularExpression) | Rejected | Panicked

  type Definitions = map<string, RegularExpression>

  const Init := Machine([], "", false, false, false, false)

  function Reverse<X>(s: seq<X>): (r: seq<X>)
    ensures |r| == |s|
    ensures forall i :: 0 <= i < |s| ==> r[i] == s[|s| - 1 - i]
  {
    if |s| == 0 then [] else Reverse(s[1..]) + [s[0]]
  }

  /** The elements of `xs` that do not occur in `ys`, in order. */
  function Without(xs: seq<RegularExpression>, ys: seq<RegularExpression>): seq<RegularExpression>
  {
    if |xs| == 0 then []
    else (if xs[0] in ys then [] else [xs[0]]) + Without(xs[1..], ys)
  }

  /** One sub-expression stands for itself; several are combined by `mk`; none is a panic. */
  function Combine(rset: seq<RegularExpression>, union: bool): (r: Option<RegularExpression>)
    ensures r.None? <==> |rset| == 0
  {
    if |rset| == 0 then None
    else if |rset| == 1 then Some(rset[0])
    else if union then Some(Union(Reverse(rset)))
    else Some(Concatenation(Reverse(rset)))
  }

  /**
   * `collect_concat`'s popping loop: pops down to the nearest `Tuple` or
   * `UnionOp` (left in place), gathering expressions in pop order and
   * dropping every other marker.
   */
  function ConcatScan(stack: seq<Node>, rset: seq<RegularExpression>): (seq<Node>, seq<RegularExpression>)
    decreases |stack|
  {
    if |stack| == 0 then ([], rset)
    else
      var top := stack[|stack| - 1];
      if top.Tuple? || top.UnionOp? then (stack, rset)
      else ConcatScan(stack[..|stack| - 1], if top.Expression? then rset + [top.e] else rset)
  }

  /**
   * `collect_union`'s popping loop: pops down to and including the nearest
   * `Tuple` or `Group`. `GroupNegate` moves what was gathered since the last
   * one into the negated set and starts afresh.
   */
  function UnionScan(stack: seq<Node>, rset: seq<RegularExpression>, neg: seq<RegularExpression>)
    : (seq<Node>, seq<RegularExpression>, seq<RegularExpression>)
    decreases |stack|
  {
    if |stack| == 0 then ([], rset, neg)
    else
      var top := stack[|stack| - 1];
      var rest := stack[..|stack| - 1];
      if top.Tuple? || top.Group? then (rest, rset, neg)
      else if top.GroupNegate? then UnionScan(rest, [], rset)
      else UnionScan(rest, if top.Expression? then rset + [top.e] else rset, neg)
  }

  function CollectConcatSpec(stack: seq<Node>): Option<seq<Node>>
  {
    var (rest, rset) := ConcatScan(stack, []);
    match Combine(rset, false)
    case None => None
    case Some(e) => Some(rest + [Expression(e)])
  }

  function CollectUnionSpec(stack: seq<Node>): Option<seq<Node>>
  {
    var (rest, rset, neg) := UnionScan(stack, [], []);
    match Combine(Without(rset, neg), true)
    case None => None
    case Some(e) => Some(rest + [Expression(e)])
  }

  /** The expression an escaped character stands for. */
  function Escaped(c: char): RegularExpression
  {
    if c == '0' then Epsilon
    else if c == 't' then Atomic('\t')
    else if c == 'n' then Atomic('\n')
    else if c == 'r' then Atomic('\r')
    else Atomic(c)
  }

  /**
   * The range counter after `b`: `(b as u8 + 1) as char`. The cast keeps the
   * low byte, and the increment overflows (a panic) from 255.
   */
  function NextByte(code: int): Option<int>
    requires code >= 0
  {
    if code % 256 == 255 then None else Some(code % 256 + 1)
  }

  /** The atoms a range from counter `curr` to `last` pushes; `None` when the counter overflows. */
  function RangeFrom(curr: int, last: char): Option<seq<RegularExpression>>
    requires 0 <= curr && (curr < 256 || curr == last as int)
    decreases if curr < 256 then 256 - curr else 257
  {
    if curr > last as int then Some([])
    else
      match NextByte(curr)
      case None => None
      case Some(next) =>
        match RangeFrom(next, last)
        case None => None
        case Some(rest) => Some([Atomic(if curr < 256 then curr as char else last)] + rest)
  }

  /** The atoms `a-z` pushes inside a group: `start`, `start`+1, …, `last`. */
  function RangeAtoms(start: char, last: char): Option<seq<RegularExpression>>
  {
    if start > last then Some([])
    else
      match NextByte(start as int)
      case None => None
      case Some(next) =>
        match RangeFrom(next, last)
        case None => None
        case Some(rest) => Some([Atomic(start)] + rest)
  }

  /** Every character from `first` to `last` inclusive, as atoms. */
  function Span(first: int, last: int): (r: seq<RegularExpression>)
    requires 0 <= first && last < 256
    ensures |r| == if first <= last then last - first + 1 else 0
    ensures forall i :: 0 <= i < |r| ==> r[i] == Atomic((first + i) as char)
    decreases last - first
  {
    if first > last then [] else [Atomic(first as char)] + Span(first + 1, last)
  }

  lemma {:induction false} RangeFromSpan(curr: int, last: char)
    requires 0 < curr < 256 && (last as int) < 255
    ensures RangeFrom(curr, last) == Some(Span(curr, last as int))
    decreases 256 - curr
  {
    if curr <= last as int {
      RangeFromSpan(curr + 1, last);
    }
  }

  /**
   * Inside a group, `a-z` with both ends below 255 expands to every
   * character from a to z inclusive (nothing when z precedes a).
   */
  lemma RangeAtomsSpan(start: char, last: char)
    requires (last as int) < 255
    ensures RangeAtoms(start, last) == Some(Span(start as int, last as int))
  {
    if start <= last {
      RangeFromSpan(start as int + 1, last);
    }
  }

  /** The range step: the top entry is popped; only an atom is expanded, anything else is lost. */
  function ExpandRange(stack: seq<Node>, last: char): Option<seq<Node>>
  {
    if |stack| == 0 then Some(stack)
    else
      var top := stack[|stack| - 1];
      var rest := stack[..|stack| - 1];
      if top.Expression? && top.e.Atomic? then
        match RangeAtoms(top.e.id, last)
        case None => None
        case Some(atoms) => Some(rest + Exprs(atoms))
      else Some(rest)
  }

  function Push(m: Machine, n: Node): Machine
  {
    m.(stack := m.stack + [n])
  }

  predicate IsWhitespace(c: char)
  {
    c == ' ' || c == '\n' || c == '\t' || c == '\r'
  }

  /** The parser's handling of one character, in the order the source's match arms are tried. */
  function Step(m: Machine, c: char, defs: Option<Definitions>): StepResult
  {
    if m.escape then Continue(Push(m, Expression(Escaped(c))).(escape := false))
    else if m.range then
      match ExpandRange(m.stack, c)
      case None => StepPanicked
      case Some(s) => Continue(m.(stack := s, range := false))
    else if m.alias then
      if c == '}' then
        if defs.Some? && m.buffer in defs.value
        then Continue(Push(m, Expression(defs.value[m.buffer])).(buffer := "", alias := false))
        else StepPanicked
      else Continue(m.(buffer := m.buffer + [c]))
    else if IsWhitespace(c) then Continue(m)
    else if c == '*' then
      if |m.stack| > 0 && m.stack[|m.stack| - 1].Expression?
      then Continue(m.(stack := m.stack[..|m.stack| - 1] + [Expression(Iteration(m.stack[|m.stack| - 1].e))]))
      else StepPanicked
    else if c == '|' || c == '+' then
      match CollectConcatSpec(m.stack)
      case None => StepPanicked
      case Some(s) => Continue(m.(stack := s + [UnionOp]))
    else if c == '(' then Continue(Push(m, Tuple))
    else if c == ')' then
      match CollectConcatSpec(m.stack)
      case None => StepPanicked
      case Some(s) =>
        match CollectUnionSpec(s)
        case None => StepPanicked
        case Some(s') => Continue(m.(stack := s'))
    else if c == '[' then
      if m.group then StepRejected else Continue(Push(m, Group).(group := true))
    else if c == ']' then
      match CollectUnionSpec(m.stack)
      case None => StepPanicked
      case Some(s) => Continue(m.(stack := s, group := false))
    else if c == '{' then Continue(m.(alias := true))
    else if c == '-' && m.group then Continue(m.(range := true))
    else if c == '^' && m.group then Continue(Push(m, GroupNegate))
    else if c == '\\' then Continue(m.(escape := true))
    else Continue(Push(m, Expression(Atomic(c))))
  }

  /** Feeds every character of `src` to `Step`, stopping at the first error or panic. */
  function Run(m: Machine, src: string, defs: Option<Definitions>): StepResult
    decreases |src|
  {
    if |src| == 0 then Continue(m)
    else
      match Step(m, src[0], defs)
      case Continue(m') => Run(m', src[1..], defs)
      case other => other
  }

  /** End of input: close the pending concatenation and union; exactly one expression must remain. */
  function Finish(m: Machine): ParseOutcome
  {
    match CollectConcatSpec(m.stack)
    case None => Panicked
    case Some(s) =>
      match CollectUnionSpec(s)
      case None => Panicked
      case Some(s') => if |s'| == 1 && s'[0].Expression? then Parsed(s'[0].e) else Rejected
  }

  function ParseSpec(src: string, defs: Option<Definitions>): ParseOutcome
  {
    match Run(Init, src, defs)
    case Continue(m) => Finish(m)
    case StepRejected => Rejected
    case StepPanicked => Panicked
  }

  /** `collect_concat`: the popping loop, then one expression, a concatenation, or a panic. */
  method CollectConcat(stack: seq<Node>) returns (r: Option<seq<Node>>)
    ensures r == CollectConcatSpec(stack)
  {
    var st := stack;
    var rset: seq<RegularExpression> := [];
    while |st| > 0
      invariant ConcatScan(st, rset) == ConcatScan(stack, [])
      decreases |st|
    {
      var node := st[|st| - 1];
      if node.Tuple? || node.UnionOp? {
        break;
      }
      st := st[..|st| - 1];
      if node.Expression? {
        rset := rset + [node.e];
      }
    }
    if |rset| == 1 {
      r := Some(st + [Expression(rset[0])]);
    } else if |rset| > 1 {
      r := Some(st + [Expression(Concatenation(Reverse(rset)))]);
    } else {
      r := None;
    }
  }

  /** `collect_union`: the popping loop, the negation filter, then one expression, a union, or a panic. */
  method CollectUnion(stack: seq<Node>) returns (r: Option<seq<Node>>)
    ensures r == CollectUnionSpec(stack)
  {
    var st := stack;
    var rset: seq<RegularExpression> := [];
    var rnegset: seq<RegularExpression> := [];
    while |st| > 0
      invariant UnionScan(st, rset, rnegset) == UnionScan(stack, [], [])
      decreases |st|
    {
      var node := st[|st| - 1];
      st := st[..|st| - 1];
      if node.Tuple? || node.Group? {
        break;
      } else if node.GroupNegate? {
        rnegset := rset;
        rset := [];
      } else if node.Expression? {
        rset := rset + [node.e];
      }
    }
    var kept := Without(rset, rnegset);
    if |kept| == 1 {
      r := Some(st + [Expression(kept[0])]);
    } else if |kept| > 1 {
      r := Some(st + [Expression(Union(Reverse(kept)))]);
    } else {
      r := None;
    }
  }

  /** The range arm: pops the top entry and, when it is an atom, pushes the counted characters. */
  method ExpandRangeLoop(stack: seq<Node>, last: char) returns (r: Option<seq<Node>>)
    ensures r == ExpandRange(stack, last)
  {
    if |stack| == 0 {
      return Some(stack);
    }
    var top := stack[|stack| - 1];
    var st := stack[..|stack| - 1];
    if !(top.Expression? && top.e.Atomic?) {
      return Some(st);
    }
    var start := top.e.id;
    assert stack[..|stack| - 1] == st;
    if start > last {
      assert st + Exprs([]) == st;
      return Some(st);
    }
    var next := NextByte(start as int);
    if next.None? {
      return None;
    }
    var pushed := CountRange([Atomic(start)], next.value, last);
    if pushed.None? {
      return None;
    }
    r := Some(st + Exprs(pushed.value));
  }

  /** The counting loop of the range arm: from `curr` up to `last`, appended to `pushed0`. */
  method CountRange(pushed0: seq<RegularExpression>, curr0: int, last: char) returns (r: Option<seq<RegularExpression>>)
    requires 0 < curr0 < 256
    ensures r.None? <==> RangeFrom(curr0, last).None?
    ensures r.Some? ==> r.value == pushed0 + RangeFrom(curr0, last).value
  {
    var pushed := pushed0;
    var curr := curr0;
    while curr <= last as int
      invariant 0 < curr < 256
      invariant RangeFrom(curr0, last).Some? <==> RangeFrom(curr, last).Some?
      invariant RangeFrom(curr0, last).Some? ==> pushed0 + RangeFrom(curr0, last).value == pushed + RangeFrom(curr, last).value
      decreases 256 - curr
    {
      pushed := pushed + [Atomic(curr as char)];
      var next := NextByte(curr);
      if next.None? {
        return None;
      }
      curr := next.value;
    }
    assert RangeFrom(curr, last) == Some([]);
    assert pushed + [] == pushed;
    r := Some(pushed);
  }

  /**
   * `RegularExpression::parse`: the stack machine over the characters of
   * `src`, with `defs` the optional alias table.
   */
  method Parse(src: string, defs: Option<Definitions>) returns (r: ParseOutcome)
    ensures r == ParseSpec(src, defs)
  {
    var m := Init;
    for i := 0 to |src|
      invariant Run(Init, src, defs) == Run(m, src[i..], defs)
    {
      var c := src[i];
      assert src[i..][0] == c && src[i..][1..] == src[i + 1..];
      if m.escape {
        m := Push(m, Expression(Escaped(c))).(escape := false);
      } else if m.range {
        var s := ExpandRangeLoop(m.stack, c);
        if s.None? {
          return Panicked;
        }
        m := m.(stack := s.value, range := false);
      } else if m.alias {
        if c == '}' {
          if defs.None? || m.buffer !in defs.value {
            return Panicked;
          }
          m := Push(m, Expression(defs.value[m.buffer])).(buffer := "", alias := false);
        } else {
          m := m.(buffer := m.buffer + [c]);
        }
      } else if IsWhitespace(c) {
      } else if c == '*' {
        if !(|m.stack| > 0 && m.stack[|m.stack| - 1].Expression?) {
          return Panicked;
        }
        m := m.(stack := m.stack[..|m.stack| - 1] + [Expression(Iteration(m.stack[|m.stack| - 1].e))]);
      } else if c == '|' || c == '+' {
        var s := CollectConcat(m.stack);
        if s.None? {
          return Panicked;
        }
        m := m.(stack := s.value + [UnionOp]);
      } else if c == '(' {
        m := Push(m, Tuple);
      } else if c == ')' {
        var s := CollectConcat(m.stack);
        if s.None? {
          return Panicked;
        }
        var s' := CollectUnion(s.value);
        if s'.None? {
          return Panicked;
        }
        m := m.(stack := s'.value);
      } else if c == '[' {
        if m.group {
          return Rejected;
        }
        m := Push(m, Group).(group := true);
      } else if c == ']' {
        var s := CollectUnion(m.stack);
        if s.None? {
          return Panicked;
        }
        m := m.(stack := s.value, group := false);
      } else if c == '{' {
        m := m.(alias := true);
      } else if c == '-' && m.group {
        m := m.(range := true);
      } else if c == '^' && m.group {
        m := Push(m, GroupNegate);
      } else if c == '\\' {
        m := m.(escape := true);
      } else {
        m := Push(m, Expression(Atomic(c)));
      }
    }
    var s := CollectConcat(m.stack);
    if s.None? {
      return Panicked;
    }
    var s' := CollectUnion(s.value);
    if s'.None? {
      return Panicked;
    }
    if |s'.value| == 1 && s'.value[0].Expression? {
      return Parsed(s'.value[0].e);
    }
    return Rejected;
  }

  // ---------------------------------------------------------------------
  // What single characters do

  /** No escape, range or alias is pending. */
  predicate Plain(m: Machine)
  {
    !m.escape && !m.range && !m.alias
  }

  /** `*` wraps the most recently pushed expression in `Iteration`. */
  lemma StarWrapsTop(m: Machine, e: RegularExpression, defs: Option<Definitions>)
    requires Plain(m) && |m.stack| > 0 && m.stack[|m.stack| - 1] == Expression(e)
    ensures Step(m, '*', defs) == Continue(m.(stack := m.stack[..|m.stack| - 1] + [Expression(Iteration(e))]))
  {
  }

  /** `*` with no expression on top of the stack panics. */
  lemma StarWithoutOperandPanics(m: Machine, defs: Option<Definitions>)
    requires Plain(m) && (|m.stack| == 0 || !m.stack[|m.stack| - 1].Expression?)
    ensures Step(m, '*', defs) == StepPanicked
  {
  }

  /** `|` and `+` are the same separator: both close the pending concatenation and push `UnionOp`. */
  lemma BarAndPlusAgree(m: Machine, defs: Option<Definitions>)
    requires Plain(m)
    ensures Step(m, '|', defs) == Step(m, '+', defs)
    ensures Step(m, '|', defs).Continue? <==> CollectConcatSpec(m.stack).Some?
    ensures Step(m, '|', defs).Continue? ==>
              Step(m, '|', defs).m.stack == CollectConcatSpec(m.stack).value + [UnionOp]
  {
  }

  /** A `[` inside a group is an error, not a panic. */
  lemma NestedGroupRejected(m: Machine, defs: Option<Definitions>)
    requires Plain(m) && m.group
    ensures Step(m, '[', defs) == StepRejected
  {
  }

  /** Two opening brackets in a row reject the whole input, whatever follows. */
  lemma ParseNestedGroup(rest: string, defs: Option<Definitions>)
    ensures ParseSpec(['[', '['] + rest, defs) == Rejected
  {
    var src := ['[', '['] + rest;
    assert src[1..] == ['['] + rest;
    var m1 := Push(Init, Group).(group := true);
    assert Run(Init, src, defs) == Run(m1, src[1..], defs);
    assert Step(m1, '[', defs) == StepRejected;
  }

  /** After a backslash: `0` is the empty string, `t`, `n`, `r` are control characters, anything else is itself. */
  lemma EscapeSequences(m: Machine, c: char, defs: Option<Definitions>)
    requires m.escape
    ensures Step(m, c, defs) == Continue(Push(m, Expression(Escaped(c))).(escape := false))
    ensures Escaped('0') == Epsilon && Escaped('t') == Atomic('\t')
    ensures Escaped('n') == Atomic('\n') && Escaped('r') == Atomic('\r')
    ensures c != '0' && c != 't' && c != 'n' && c != 'r' ==> Escaped(c) == Atomic(c)
  {
  }

  /** Unescaped blanks, tabs, newlines and carriage returns change nothing. */
  lemma WhitespaceIgnored(m: Machine, c: char, defs: Option<Definitions>)
    requires Plain(m) && IsWhitespace(c)
    ensures Step(m, c, defs) == Continue(m)
  {
  }

  /** Characters that stand for themselves outside a group. */
  predicate Ordinary(c: char)
  {
    !IsWhitespace(c) && c != '*' && c != '|' && c != '+' && c != '(' && c != ')'
    && c != '[' && c != ']' && c != '{' && c != '\\'
  }

  lemma {:induction false} AliasBuffer(m: Machine, name: string, rest: string, defs: Option<Definitions>)
    requires !m.escape && !m.range && m.alias && '}' !in name
    ensures Run(m, name + ['}'] + rest, defs) == Run(m.(buffer := m.buffer + name), ['}'] + rest, defs)
    decreases |name|
  {
    if |name| > 0 {
      var src := name + ['}'] + rest;
      assert src[0] == name[0] && src[1..] == name[1..] + ['}'] + rest;
      AliasBuffer(m.(buffer := m.buffer + [name[0]]), name[1..], rest, defs);
      assert m.buffer + [name[0]] + name[1..] == m.buffer + name;
    } else {
      assert name + ['}'] + rest == ['}'] + rest;
      assert m.buffer + name == m.buffer;
    }
  }

  /**
   * `{name}` is replaced by the definition of `name`; an unknown name, or no
   * table at all, panics.
   */
  lemma AliasReplaced(m: Machine, name: string, rest: string, defs: Option<Definitions>)
    requires Plain(m) && m.buffer == "" && '}' !in name
    ensures defs.Some? && name in defs.value ==>
              Run(m, ['{'] + name + ['}'] + rest, defs)
              == Run(Push(m, Expression(defs.value[name])), rest, defs)
    ensures !(defs.Some? && name in defs.value) ==>
              Run(m, ['{'] + name + ['}'] + rest, defs) == StepPanicked
  {
    var src := ['{'] + name + ['}'] + rest;
    assert src[0] == '{' && src[1..] == name + ['}'] + rest;
    var ma := m.(alias := true);
    assert Run(m, src, defs) == Run(ma, src[1..], defs);
    AliasBuffer(ma, name, rest, defs);
    var mb := ma.(buffer := name);
    assert ma.buffer + name == name;
    var tail := ['}'] + rest;
    assert tail[0] == '}' && tail[1..] == rest;
    if defs.Some? && name in defs.value {
      assert Push(mb, Expression(defs.value[name])).(buffer := "", alias := false)
          == Push(m, Expression(defs.value[name]));
    }
  }

  // ---------------------------------------------------------------------
  // Groups: ranges and negation

  function Exprs(xs: seq<RegularExpression>): (r: seq<Node>)
    ensures |r| == |xs| && forall i :: 0 <= i < |xs| ==> r[i] == Expression(xs[i])
  {
    seq(|xs|, i requires 0 <= i < |xs| => Expression(xs[i]))
  }

  lemma {:induction false} UnionScanExprs(base: seq<Node>, xs: seq<RegularExpression>,
                                          rset: seq<RegularExpression>, neg: seq<RegularExpression>)
    ensures UnionScan(base + Exprs(xs), rset, neg) == UnionScan(base, rset + Reverse(xs), neg)
    decreases |xs|
  {
    if |xs| == 0 {
      assert base + Exprs(xs) == base;
      assert rset + Reverse(xs) == rset;
    } else {
      var init := xs[..|xs| - 1];
      var last := xs[|xs| - 1];
      var st := base + Exprs(xs);
      assert st[..|st| - 1] == base + Exprs(init);
      assert st[|st| - 1] == Expression(last);
      UnionScanExpression(st, rset, neg);
      UnionScanExprs(base, init, rset + [last], neg);
      assert xs == init + [last];
      ReverseCons(init, last);
      assert rset + [last] + Reverse(init) == rset + Reverse(xs);
    }
  }

  /** An expression on top of the stack joins the alternatives collected so far. */
  lemma UnionScanExpression(stack: seq<Node>, rset: seq<RegularExpression>, neg: seq<RegularExpression>)
    requires |stack| > 0 && stack[|stack| - 1].Expression?
    ensures UnionScan(stack, rset, neg) == UnionScan(stack[..|stack| - 1], rset + [stack[|stack| - 1].e], neg)
  {
  }

  lemma ReverseCons<X>(init: seq<X>, last: X)
    ensures Reverse(init + [last]) == [last] + Reverse(init)
  {
  }

  lemma ReverseMembers<X>(xs: seq<X>)
    ensures forall x :: x in Reverse(xs) <==> x in xs
  {
    forall x | x in xs ensures x in Reverse(xs) {
      var i :| 0 <= i < |xs| && xs[i] == x;
      assert Reverse(xs)[|xs| - 1 - i] == x;
    }
  }

  lemma ReverseReverse<X>(xs: seq<X>)
    ensures Reverse(Reverse(xs)) == xs
  {
  }

  lemma {:induction false} WithoutSameMembers(xs: seq<RegularExpression>, ys: seq<RegularExpression>, zs: seq<RegularExpression>)
    requires forall x :: x in ys <==> x in zs
    ensures Without(xs, ys) == Without(xs, zs)
  {
    if |xs| > 0 {
      WithoutSameMembers(xs[1..], ys, zs);
    }
  }

  lemma {:induction false} WithoutNothing(xs: seq<RegularExpression>)
    ensures Without(xs, []) == xs
  {
    if |xs| > 0 {
      WithoutNothing(xs[1..]);
    }
  }

  lemma {:induction false} WithoutReverse(xs: seq<RegularExpression>, ys: seq<RegularExpression>)
    ensures Without(Reverse(xs), ys) == Reverse(Without(xs, ys))
  {
    if |xs| > 0 {
      WithoutReverse(xs[1..], ys);
      WithoutAppend(Reverse(xs[1..]), [xs[0]], ys);
      var w := Without(xs[1..], ys);
      if xs[0] in ys {
        assert Without(xs, ys) == w;
        assert Without([xs[0]], ys) == [];
      } else {
        assert Without(xs, ys) == [xs[0]] + w;
        assert Without([xs[0]], ys) == [xs[0]];
        assert Reverse([xs[0]] + w) == Reverse(w) + [xs[0]] by {
          assert ([xs[0]] + w)[1..] == w;
        }
      }
    }
  }

  lemma {:induction false} WithoutAppend(xs: seq<RegularExpression>, zs: seq<RegularExpression>, ys: seq<RegularExpression>)
    ensures Without(xs + zs, ys) == Without(xs, ys) + Without(zs, ys)
  {
    if |xs| > 0 {
      WithoutAppend(xs[1..], zs, ys);
      assert (xs + zs)[1..] == xs[1..] + zs;
    } else {
      assert xs + zs == zs;
    }
  }

  /** The union `]` or `)` builds from the sub-expressions `kept`, in push order. */
  function Closed(kept: seq<RegularExpression>): Option<RegularExpression>
  {
    if |kept| == 0 then None
    else if |kept| == 1 then Some(kept[0])
    else Some(Union(kept))
  }

  lemma CombineUnionReversed(kept: seq<RegularExpression>)
    ensures Combine(Reverse(kept), true) == Closed(kept)
  {
    ReverseReverse(kept);
    if |kept| == 1 {
      assert Reverse(kept) == kept;
    }
  }

  /**
   * Closing a group `[xs ^ ys]`: the atoms written after `^` are removed
   * from those written before it, and what remains becomes one union (or
   * the single survivor); nothing surviving is a panic.
   */
  lemma GroupNegation(base: seq<Node>, xs: seq<RegularExpression>, ys: seq<RegularExpression>)
    ensures CollectUnionSpec(base + [Group] + Exprs(xs) + [GroupNegate] + Exprs(ys))
         == match Closed(Without(xs, ys))
            case None => None
            case Some(e) => Some(base + [Expression(e)])
  {
    var lower := base + [Group] + Exprs(xs);
    UnionScanExprs(lower + [GroupNegate], ys, [], []);
    var st := lower + [GroupNegate];
    assert st[..|st| - 1] == lower;
    assert [] + Reverse(ys) == Reverse(ys);
    UnionScanExprs(base + [Group], xs, [], Reverse(ys));
    assert [] + Reverse(xs) == Reverse(xs);
    var g := base + [Group];
    assert g[..|g| - 1] == base;
    assert UnionScan(st + Exprs(ys), [], []) == (base, Reverse(xs), Reverse(ys));
    ReverseMembers(ys);
    WithoutSameMembers(Reverse(xs), Reverse(ys), ys);
    WithoutReverse(xs, ys);
    CombineUnionReversed(Without(xs, ys));
  }

  /** Closing a group with no `^`: every atom is kept. */
  lemma GroupPlain(base: seq<Node>, xs: seq<RegularExpression>)
    ensures CollectUnionSpec(base + [Group] + Exprs(xs))
         == match Closed(xs)
            case None => None
            case Some(e) => Some(base + [Expression(e)])
  {
    UnionScanExprs(base + [Group], xs, [], []);
    var g := base + [Group];
    assert g[..|g| - 1] == base;
    assert [] + Reverse(xs) == Reverse(xs);
    WithoutNothing(Reverse(xs));
    CombineUnionReversed(xs);
  }

  /** A stack holding exactly one expression finishes as that expression. */
  lemma FinishSingle(m: Machine, u: RegularExpression)
    requires m.stack == [Expression(u)]
    ensures Finish(m) == Parsed(u)
  {
    var one := [Expression(u)];
    assert one[..0] == [] && [] + [u] == [u];
    assert ConcatScan(one, []) == ConcatScan([], [u]);
    assert UnionScan(one, [], []) == UnionScan([], [u], []);
    assert Without([u], []) == [u];
    assert [] + one == one;
    assert CollectConcatSpec(one) == Some(one);
    assert CollectUnionSpec(one) == Some(one);
  }

  /** The machine `[a-` leaves behind: the group open, the low end pushed, a range pending. */
  function RangeOpened(a: char): Machine
  {
    Push(Push(Init, Group).(group := true), Expression(Atomic(a))).(range := true)
  }

  lemma RangeOpen(a: char, z: char, defs: Option<Definitions>)
    requires Ordinary(a) && a != '-' && a != '^'
    ensures Run(Init, ['[', a, '-', z, ']'], defs) == Run(RangeOpened(a), [z, ']'], defs)
  {
    var src := ['[', a, '-', z, ']'];
    var m1 := Push(Init, Group).(group := true);
    var m2 := Push(m1, Expression(Atomic(a)));
    assert src[3..] == [z, ']'];
    assert Run(m2, src[2..], defs) == Run(RangeOpened(a), src[3..], defs) by {
      assert src[2..][0] == '-' && src[2..][1..] == src[3..];
    }
    assert Run(m1, src[1..], defs) == Run(m2, src[2..], defs) by {
      assert src[1..][0] == a && src[1..][1..] == src[2..];
    }
  }

  /** The machine after the high end `z`: the group holds every atom from a to z. */
  function RangeSpanned(a: char, z: char): Machine
    requires (z as int) < 256
  {
    RangeOpened(a).(stack := [Group] + Exprs(Span(a as int, z as int)), range := false)
  }

  lemma RangeHigh(a: char, z: char, defs: Option<Definitions>)
    requires Ordinary(a) && a <= z && (z as int) < 255
    ensures Step(RangeOpened(a), z, defs) == Continue(RangeSpanned(a, z))
  {
    var st := RangeOpened(a).stack;
    assert st == [Group, Expression(Atomic(a))];
    assert st[..1] == [Group];
    var span := Span(a as int, z as int);
    assert ExpandRange(st, z) == Some([Group] + Exprs(span)) by {
      RangeAtomsSpan(a, z);
    }
  }

  lemma RangeBracket(a: char, z: char, defs: Option<Definitions>)
    requires a <= z && (z as int) < 255
    ensures Step(RangeSpanned(a, z), ']', defs)
         == Continue(Machine([Expression(Closed(Span(a as int, z as int)).value)], "", false, false, false, false))
  {
    var span := Span(a as int, z as int);
    GroupPlain([], span);
    assert [] + [Group] + Exprs(span) == [Group] + Exprs(span);
  }

  lemma RangeClose(a: char, z: char, defs: Option<Definitions>)
    requires Ordinary(a) && a <= z && (z as int) < 255
    ensures Run(RangeOpened(a), [z, ']'], defs)
         == Continue(Machine([Expression(Closed(Span(a as int, z as int)).value)], "", false, false, false, false))
  {
    RangeHigh(a, z, defs);
    RangeBracket(a, z, defs);
    assert [z, ']'][1..] == [']'] && [']'][1..] == [];
  }

  lemma RangeRun(a: char, z: char, defs: Option<Definitions>)
    requires Ordinary(a) && a != '-' && a != '^' && a <= z && (z as int) < 255
    ensures Run(Init, ['[', a, '-', z, ']'], defs)
         == Continue(Machine([Expression(Closed(Span(a as int, z as int)).value)], "", false, false, false, false))
  {
    RangeOpen(a, z, defs);
    RangeClose(a, z, defs);
  }

  /**
   * The whole expression `[a-z]`, both ends below 255, parses to the union of
   * every character from a to z (the single atom when a = z).
   */
  lemma ParseRange(a: char, z: char, defs: Option<Definitions>)
    requires Ordinary(a) && a != '-' && a != '^' && a <= z && (z as int) < 255
    ensures ParseSpec(['[', a, '-', z, ']'], defs) == Parsed(Closed(Span(a as int, z as int)).value)
  {
    RangeRun(a, z, defs);
    var u := Closed(Span(a as int, z as int)).value;
    FinishSingle(Machine([Expression(u)], "", false, false, false, false), u);
  }

  // ---------------------------------------------------------------------
  // Alias substitution

  predicate AliasFree(re: RegularExpression)
  {
    match re
    case Alias(_) => false
    case Union(ops) => forall i :: 0 <= i < |ops| ==> AliasFree(ops[i])
    case Concatenation(ops) => forall i :: 0 <= i < |ops| ==> AliasFree(ops[i])
    case Iteration(o) => AliasFree(o)
    case Match(o) => AliasFree(o)
    case _ => true
  }

  /** Every alias reachable by `apply_alias` is in the table (a missing one is a panic). */
  predicate AliasesDefined(re: RegularExpression, alias: Definitions)
  {
    match re
    case Alias(name) => name in alias
    case Union(ops) => forall i :: 0 <= i < |ops| ==> AliasesDefined(ops[i], alias)
    case Concatenation(ops) => forall i :: 0 <= i < |ops| ==> AliasesDefined(ops[i], alias)
    case Iteration(o) => AliasesDefined(o, alias)
    case Match(o) => AliasesDefined(o, alias)
    case _ => true
  }

  /**
   * `apply_alias`: replaces each `Alias` node by a copy of its definition,
   * descending through unions, concatenations, iterations and matches. The
   * copied definitions are not expanded again.
   */
  function ApplyAlias(re: RegularExpression, alias: Definitions): (r: RegularExpression)
    requires AliasesDefined(re, alias)
    ensures AliasFree(re) ==> r == re
  {
    match re
    case Alias(name) => alias[name]
    case Union(ops) => Union(seq(|ops|, i requires 0 <= i < |ops| => ApplyAlias(ops[i], alias)))
    case Concatenation(ops) => Concatenation(seq(|ops|, i requires 0 <= i < |ops| => ApplyAlias(ops[i], alias)))
    case Iteration(o) => Iteration(ApplyAlias(o, alias))
    case Match(o) => Match(ApplyAlias(o, alias))
    case _ => re
  }

  /**
   * With alias-free definitions the result is alias-free, and an
   * expression without aliases is left unchanged.
   */
  lemma {:induction false} ApplyAliasSpec(re: RegularExpression, alias: Definitions)
    requires AliasesDefined(re, alias)
    ensures (forall n :: n in alias ==> AliasFree(alias[n])) ==> AliasFree(ApplyAlias(re, alias))
    ensures AliasFree(re) ==> ApplyAlias(re, alias) == re
  {
    match re
    case Alias(name) =>
    case Union(ops) =>
      forall i | 0 <= i < |ops| {
        ApplyAliasSpec(ops[i], alias);
      }
    case Concatenation(ops) =>
      forall i | 0 <= i < |ops| {
        ApplyAliasSpec(ops[i], alias);
      }
    case Iteration(o) => ApplyAliasSpec(o, alias);
    case Match(o) => ApplyAliasSpec(o, alias);
    case _ =>
  }
}
