/**
 * The rule file of src/lexer.rs (`read_config`), once its text is read.
 *
 * The text is cut at every newline. Blank lines and lines starting with
 * `#` are skipped, and a line starting with `%` ends the alias section.
 * Every other line is a name followed by a regular expression, written as
 * whitespace-separated words. Before the `%` line the expression defines an
 * alias; after it, it is a lexical rule whose automaton `construct_dfa`
 * builds over the characters 0 to 254. A name ending in `?` makes a
 * non-greedy rule and a name starting with `-` an ignored one; both marks
 * are stripped from the name.
 */
module Config {
  import opened Wrappers
  import opened Utils
  import opened Automaton
  import Re
  import Followpos
  import Dfa
  import Lexer

  // ---------------------------------------------------------------------------
  // Lines and words
  // ---------------------------------------------------------------------------

  /** Rust's `char::is_whitespace`: the Unicode White_Space characters. */
  predicate IsSpace(c: char)
  {
    ('\t' <= c <= '\r') || c == ' ' || c == '\U{0085}' || c == '\U{00A0}' || c == '\U{1680}'
    || ('\U{2000}' <= c <= '\U{200A}') || c == '\U{2028}' || c == '\U{2029}' || c == '\U{202F}'
    || c == '\U{205F}' || c == '\U{3000}'
  }

  /** `s.trim().is_empty()`. */
  predicate Blank(s: string)
  {
    forall i :: 0 <= i < |s| ==> IsSpace(s[i])
  }

  /** A word of `split_whitespace`: non-empty and free of whitespace. */
  predicate Word(w: string)
  {
    |w| > 0 && forall i :: 0 <= i < |w| ==> !IsSpace(w[i])
  }

  /** `split('\n')`: the pieces between newlines, an empty piece included at either end. */
  function Lines(s: string): (ls: seq<string>)
    ensures |ls| > 0
    ensures forall k :: 0 <= k < |ls| ==> '\n' !in ls[k]
    decreases |s|
  {
    if |s| == 0 then [""]
    else
      var rest := Lines(s[1..]);
      if s[0] == '\n' then [""] + rest else [[s[0]] + rest[0]] + rest[1..]
  }

  /** The pieces joined back with newlines. */
  function Unlines(ls: seq<string>): string
    requires |ls| > 0
  {
    if |ls| == 1 then ls[0] else ls[0] + "\n" + Unlines(ls[1..])
  }

  /** Cutting at newlines and joining again gives back the text. */
  lemma {:induction false} UnlinesLines(s: string)
    ensures Unlines(Lines(s)) == s
    decreases |s|
  {
    if |s| > 0 {
      var rest := Lines(s[1..]);
      UnlinesLines(s[1..]);
      if s[0] == '\n' {
        assert Unlines(Lines(s)) == "" + "\n" + Unlines(rest);
      } else if |rest| == 1 {
        assert Lines(s) == [[s[0]] + rest[0]];
      } else {
        assert Lines(s)[1..] == rest[1..];
        assert Unlines(rest) == rest[0] + "\n" + Unlines(rest[1..]);
      }
      assert s == [s[0]] + s[1..];
    }
  }

  /** Joining newline-free pieces and cutting again gives back the pieces. */
  lemma {:induction false} LinesUnlines(ls: seq<string>)
    requires |ls| > 0 && forall k :: 0 <= k < |ls| ==> '\n' !in ls[k]
    ensures Lines(Unlines(ls)) == ls
    decreases |ls|, |ls[0]|
  {
    if |ls[0]| > 0 {
      var c, ls' := ls[0][0], [ls[0][1..]] + ls[1..];
      assert [c] + ls'[0] == ls[0];
      assert ls'[1..] == ls[1..];
      assert ls == [[c] + ls'[0]] + ls'[1..];
      LinesUnlines(ls');
      UnlinesCons(c, ls', ls);
      LinesCons(c, Unlines(ls'));
    } else if |ls| > 1 {
      LinesUnlines(ls[1..]);
      LinesNewline(Unlines(ls[1..]));
      assert Unlines(ls) == "\n" + Unlines(ls[1..]);
      assert ls == [""] + ls[1..];
    }
  }

  /** A character in front of the first piece is a character in front of the text. */
  lemma UnlinesCons(c: char, ls': seq<string>, ls: seq<string>)
    requires |ls'| > 0 && ls == [[c] + ls'[0]] + ls'[1..]
    ensures Unlines(ls) == [c] + Unlines(ls')
  {
    if |ls'| > 1 {
      assert ls[1..] == ls'[1..];
    }
  }

  /** A character other than a newline joins the first piece. */
  lemma LinesCons(c: char, s: string)
    requires c != '\n'
    ensures Lines([c] + s) == [[c] + Lines(s)[0]] + Lines(s)[1..]
  {
    assert ([c] + s)[1..] == s;
  }

  /** A newline in front starts with an empty piece. */
  lemma LinesNewline(s: string)
    ensures Lines("\n" + s) == [""] + Lines(s)
  {
    assert ("\n" + s)[1..] == s;
  }

  /** The words of `s`, given the word `cur` already started before it. */
  function Split(s: string, cur: string): (ws: seq<string>)
    requires cur == [] || Word(cur)
    ensures forall k :: 0 <= k < |ws| ==> Word(ws[k])
    ensures ws == [] <==> cur == [] && Blank(s)
    decreases |s|
  {
    if |s| == 0 then (if cur == [] then [] else [cur])
    else if IsSpace(s[0]) then
      var rest := Split(s[1..], []);
      if cur == [] then rest else [cur] + rest
    else
      var ws := Split(s[1..], cur + [s[0]]);
      assert !Blank(s);
      ws
  }

  /** `split_whitespace`: the maximal runs of non-whitespace characters, in order. */
  function Words(s: string): (ws: seq<string>)
    ensures forall k :: 0 <= k < |ws| ==> Word(ws[k])
    ensures ws == [] <==> Blank(s)
  {
    Split(s, [])
  }

  /** `join(" ")`. */
  function Join(ws: seq<string>): string
  {
    if |ws| == 0 then "" else if |ws| == 1 then ws[0] else ws[0] + " " + Join(ws[1..])
  }

  /** A word continues the word being read. */
  lemma {:induction false} SplitWord(w: string, rest: string, cur: string)
    requires cur == [] || Word(cur)
    requires forall i :: 0 <= i < |w| ==> !IsSpace(w[i])
    ensures cur + w == [] || Word(cur + w)
    ensures Split(w + rest, cur) == Split(rest, cur + w)
    decreases |w|
  {
    if |w| > 0 {
      assert (w + rest)[1..] == w[1..] + rest;
      SplitWord(w[1..], rest, cur + [w[0]]);
      assert cur + [w[0]] + w[1..] == cur + w;
    } else {
      assert w + rest == rest && cur + w == cur;
    }
  }

  /** Splitting words joined by single spaces gives back the words. */
  lemma {:induction false} WordsJoin(ws: seq<string>)
    requires forall k :: 0 <= k < |ws| ==> Word(ws[k])
    ensures Words(Join(ws)) == ws
    decreases |ws|
  {
    if |ws| == 1 {
      SplitWord(ws[0], "", []);
      assert ws[0] + "" == ws[0] && [] + ws[0] == ws[0];
      assert Join(ws) == ws[0];
      assert Split("", ws[0]) == [ws[0]];
    } else if |ws| > 1 {
      WordsJoin(ws[1..]);
      var tail := " " + Join(ws[1..]);
      SplitWord(ws[0], tail, []);
      assert Join(ws) == ws[0] + tail;
      assert tail[1..] == Join(ws[1..]);
      assert [] + ws[0] == ws[0];
      assert ws == [ws[0]] + ws[1..];
    }
  }

  // ---------------------------------------------------------------------------
  // One line
  // ---------------------------------------------------------------------------

  /** The name with its marks: `-` in front when ignored, `?` behind when not greedy. */
  function Decorated(name: string, greedy: bool, ignore: bool): string
  {
    (if ignore then "-" else "") + name + (if greedy then "" else "?")
  }

  /**
   * The two flags of a rule name: a trailing `?` is stripped first and
   * makes the rule non-greedy, then a leading `-` is stripped and makes it
   * ignored.
   */
  function Flags(ty: string): (r: (string, bool, bool))
    ensures Decorated(r.0, r.1, r.2) == ty
    ensures !r.1 <==> |ty| > 0 && ty[|ty| - 1] == '?'
    ensures r.2 <==> |ty| > (if r.1 then 0 else 1) && ty[0] == '-'
  {
    var (t, greedy) := if |ty| > 0 && ty[|ty| - 1] == '?' then (ty[..|ty| - 1], false) else (ty, true);
    assert ty == t + (if greedy then "" else "?");
    if |t| > 0 && t[0] == '-' then
      assert t == "-" + t[1..];
      (t[1..], greedy, true)
    else
      assert t == "" + t + "";
      (t, greedy, false)
  }

  /** A name that carries no marks of its own reads back with the flags it was written with. */
  lemma FlagsDecorated(name: string, greedy: bool, ignore: bool)
    requires |name| > 0 ==> name[0] != '-' && name[|name| - 1] != '?'
    ensures Flags(Decorated(name, greedy, ignore)) == (name, greedy, ignore)
  {
    var ty := Decorated(name, greedy, ignore);
    var t := (if ignore then "-" else "") + name;
    assert ty == t + (if greedy then "" else "?");
    if greedy {
      assert ty == t;
      assert |ty| > 0 ==> ty[|ty| - 1] == (if |name| > 0 then name[|name| - 1] else '-');
    } else {
      assert ty[..|ty| - 1] == t;
    }
    if ignore {
      assert t[1..] == name;
    } else {
      assert t == name;
    }
  }

  datatype Line = Skip | Switch | Entry(name: string, greedy: bool, ignore: bool, body: string)

  /**
   * One line of the loop: blank or `#` lines are skipped and `%` switches
   * sections (both checked against the line as written); otherwise the first word
   * is the flagged name and the other words, joined by single spaces, the
   * expression.
   */
  function Classify(line: string): (l: Line)
    ensures l.Skip? <==> Blank(line) || line[0] == '#'
    ensures l.Switch? <==> !Blank(line) && line[0] == '%'
    ensures l.Entry? ==> Words(line) != [] && Decorated(l.name, l.greedy, l.ignore) == Words(line)[0]
                         && l.body == Join(Words(line)[1..])
  {
    if Blank(line) || line[0] == '#' then Skip
    else if line[0] == '%' then Switch
    else
      var ws := Words(line);
      var (name, greedy, ignore) := Flags(ws[0]);
      Entry(name, greedy, ignore, Join(ws[1..]))
  }

  // ---------------------------------------------------------------------------
  // The loop over the lines
  // ---------------------------------------------------------------------------

  /** A rule as the loop records it, before its automaton is built. */
  datatype Spec = Spec(name: string, greedy: bool, ignore: bool, re: Re.RegularExpression)

  /** What the loop carries from line to line: past the `%` line or not, the aliases, the rules so far. */
  datatype Progress = Progress(rules: bool, alias: Re.Definitions, acc: seq<Spec>)

  /** The characters 0 to 254 the automata are built over. */
  const Charmap: seq<char> := seq(255, i requires 0 <= i < 255 => i as char)

  /** `acc'` is `acc`, or `acc` and one rule read from `line`, ready for `downward`. */
  predicate Adds(line: string, acc: seq<Spec>, acc': seq<Spec>)
  {
    || acc' == acc
    || (&& Classify(line).Entry? && |acc'| == |acc| + 1 && acc'[..|acc|] == acc
        && Followpos.DfaReady(acc'[|acc|].re)
        && Words(line)[0] == Decorated(acc'[|acc|].name, acc'[|acc|].greedy, acc'[|acc|].ignore))
  }

  /**
   * One line of the loop. `None` is a panic: an expression that does not
   * parse (`expect`), or a rule expression `downward` cannot number.
   */
  function LineStep(line: string, p: Progress): (r: Option<Progress>)
    ensures r.Some? ==> Adds(line, p.acc, r.value.acc)
    ensures r.Some? && !Classify(line).Switch? ==> r.value.rules == p.rules
    ensures r.Some? && !p.rules ==> r.value.acc == p.acc
  {
    match Classify(line)
    case Skip => Some(p)
    case Switch => Some(p.(rules := true))
    case Entry(name, greedy, ignore, body) =>
      match Re.ParseSpec(body, Some(p.alias))
      case Parsed(re) =>
        if !p.rules then Some(p.(alias := p.alias[name := re]))
        else if Followpos.DfaReady(re) then
          var acc := p.acc + [Spec(name, greedy, ignore, re)];
          assert acc[..|p.acc|] == p.acc;
          Some(p.(acc := acc))
        else None
      case _ => None
  }

  /** `out` starts with `acc`, and every rule after it is ready for `downward`. */
  predicate ReadyAfter(acc: seq<Spec>, out: seq<Spec>)
  {
    |acc| <= |out| && out[..|acc|] == acc && forall k :: |acc| <= k < |out| ==> Followpos.DfaReady(out[k].re)
  }

  /** A line that adds at most one ready rule keeps `ReadyAfter` for the earlier list. */
  lemma ReadyAfterAdds(line: string, acc: seq<Spec>, acc': seq<Spec>, out: seq<Spec>)
    requires Adds(line, acc, acc') && ReadyAfter(acc', out)
    ensures ReadyAfter(acc, out)
  {
    if acc' != acc {
      assert out[..|acc|] == out[..|acc'|][..|acc|];
      assert out[|acc|] == acc'[|acc|];
    }
  }

  /** The loop as a function: the rules recorded after the last line, or `None` on a panic. */
  function Load(lines: seq<string>, p: Progress): (r: Option<seq<Spec>>)
    ensures r.Some? ==> ReadyAfter(p.acc, r.value)
    decreases |lines|
  {
    if |lines| == 0 then Some(p.acc)
    else
      match LineStep(lines[0], p)
      case None => None
      case Some(q) =>
        var r := Load(lines[1..], q);
        if r.Some? then ReadyAfterAdds(lines[0], p.acc, q.acc, r.value); r else r
  }

  /** Lines before the `%` line only define aliases: without a `%` line no rule is recorded. */
  lemma {:induction false} NoSwitchNoRules(lines: seq<string>, p: Progress)
    requires !p.rules && forall k :: 0 <= k < |lines| ==> !Classify(lines[k]).Switch?
    ensures Load(lines, p) in {None, Some(p.acc)}
    decreases |lines|
  {
    if |lines| > 0 {
      match LineStep(lines[0], p)
      case None =>
      case Some(q) => NoSwitchNoRules(lines[1..], q);
    }
  }

  /**
   * The rules in `out` past the first |acc| come from lines of the file:
   * each is `downward`-ready, and its name, written with its flags, is the
   * first word of an entry line. The first |acc| rules are `acc`.
   */
  ghost predicate FromLines(lines: seq<string>, acc: seq<Spec>, out: seq<Spec>)
  {
    && |out| >= |acc| && out[..|acc|] == acc
    && forall k :: |acc| <= k < |out| ==>
         && Followpos.DfaReady(out[k].re)
         && exists j :: 0 <= j < |lines| && Classify(lines[j]).Entry?
                        && Words(lines[j])[0] == Decorated(out[k].name, out[k].greedy, out[k].ignore)
  }

  /** Every rule the loop records comes from an entry line of the file, in order. */
  lemma {:induction false} LoadFromLines(lines: seq<string>, p: Progress)
    requires Load(lines, p).Some?
    ensures FromLines(lines, p.acc, Load(lines, p).value)
    decreases |lines|
  {
    if |lines| == 0 {
      assert p.acc[..|p.acc|] == p.acc;
    } else {
      var q := LineStep(lines[0], p).value;
      LoadFromLines(lines[1..], q);
      Shift(lines, Load(lines, p).value, p.acc, q.acc);
    }
  }

  /** Rules recorded for the first line, then rules from the later lines, all come from the lines. */
  lemma Shift(lines: seq<string>, out: seq<Spec>, acc: seq<Spec>, acc': seq<Spec>)
    requires |lines| > 0 && Adds(lines[0], acc, acc')
    requires FromLines(lines[1..], acc', out)
    ensures FromLines(lines, acc, out)
  {
    assert out[..|acc|] == out[..|acc'|][..|acc|];
    forall k | |acc| <= k < |out|
      ensures exists j :: 0 <= j < |lines| && Classify(lines[j]).Entry?
                          && Words(lines[j])[0] == Decorated(out[k].name, out[k].greedy, out[k].ignore)
    {
      if k >= |acc'| {
        var j :| 0 <= j < |lines[1..]| && Classify(lines[1..][j]).Entry?
                 && Words(lines[1..][j])[0] == Decorated(out[k].name, out[k].greedy, out[k].ignore);
        assert lines[1..][j] == lines[j + 1];
      } else {
        assert out[k] == out[..|acc'|][k] == acc'[|acc|];
        assert Classify(lines[0]).Entry? && Words(lines[0])[0] == Decorated(out[k].name, out[k].greedy, out[k].ignore);
      }
    }
  }

  /** The automaton `construct_dfa` builds for a recorded rule's expression. */
  ghost predicate Built(g: StateTransferGraph<(), char>, sets: seq<VertexSet>, re: Re.RegularExpression)
    reads g
  {
    && Followpos.DfaReady(re)
    && var p := Dfa.Annotated(re).0;
       Dfa.SubsetDfa(g, sets, |p.followpos|, |p.followpos| - 1, Charmap, Dfa.FollowStep(p))
       && sets[0] == Dfa.Annotated(re).1.first
  }

  /** A built rule: the recorded name and flags, and the automaton of the recorded expression. */
  ghost predicate RuleOf(rule: Lexer.RegularRule<()>, spec: Spec, sets: seq<VertexSet>)
    reads rule.expr
  {
    rule.name == spec.name && rule.greedy == spec.greedy && rule.ignore == spec.ignore
    && Built(rule.expr, sets, spec.re)
  }

  /** The rules built so far match the recorded entries one for one. */
  ghost predicate Loaded(rules: seq<Lexer.RegularRule<()>>, specs: seq<Spec>, sets: seq<seq<VertexSet>>)
    reads set k | 0 <= k < |rules| :: rules[k].expr
  {
    |rules| == |specs| == |sets| && forall k :: 0 <= k < |specs| ==> RuleOf(rules[k], specs[k], sets[k])
  }

  /** One more built rule keeps the rules matched to the entries. */
  lemma LoadedSnoc(rules: seq<Lexer.RegularRule<()>>, specs: seq<Spec>, sets: seq<seq<VertexSet>>,
                   rule: Lexer.RegularRule<()>, spec: Spec, s: seq<VertexSet>)
    requires Loaded(rules, specs, sets) && RuleOf(rule, spec, s)
    ensures Loaded(rules + [rule], specs + [spec], sets + [s])
  {
    var rs, ss, ts := rules + [rule], specs + [spec], sets + [s];
    forall k | 0 <= k < |ss|
      ensures RuleOf(rs[k], ss[k], ts[k])
    {
      if k < |specs| {
        assert rs[k] == rules[k] && ss[k] == specs[k] && ts[k] == sets[k];
      }
    }
  }

  /**
   * One iteration of the loop of `read_config`: `ok` is false on a panic;
   * otherwise the new flag and alias table, and the rule the line adds,
   * with its automaton.
   */
  method ReadLine(config: string, flag: bool, alias: Re.Definitions, ghost specs: seq<Spec>)
    returns (ok: bool, flag': bool, alias': Re.Definitions, rule: Option<Lexer.RegularRule<()>>,
             ghost spec: Spec, ghost s: seq<VertexSet>)
    ensures var r := LineStep(config, Progress(flag, alias, specs));
            && ok == r.Some?
            && (ok ==> flag' == r.value.rules && alias' == r.value.alias)
            && (ok && rule.None? ==> r.value.acc == specs)
            && (ok && rule.Some? ==> r.value.acc == specs + [spec] && fresh(rule.value.expr) && RuleOf(rule.value, spec, s))
  {
    ok, flag', alias', rule := true, flag, alias, None;
    spec, s := Spec("", true, false, Re.Epsilon), [];
    var line := Classify(config);
    if line.Switch? {
      flag' := true;
    } else if line.Entry? {
      var parsed := Re.Parse(line.body, Some(alias));
      if !parsed.Parsed? {
        ok := false;
        return;
      }
      var re := parsed.re;
      if !flag {
        alias' := alias[line.name := re];
      } else if !Followpos.DfaReady(re) {
        ok := false;
      } else {
        spec := Spec(line.name, line.greedy, line.ignore, re);
        var g;
        g, s := Dfa.ConstructDfa(re, Charmap);
        rule := Some(Lexer.RegularRule(line.name, g, line.greedy, line.ignore));
      }
    }
  }

  /**
   * `read_config` after the file is read: `None` when a line panics,
   * otherwise one rule per recorded entry, in order, with its name, flags
   * and the automaton built from its expression.
   */
  method ReadConfig(text: string) returns (r: Option<seq<Lexer.RegularRule<()>>>, ghost sets: seq<seq<VertexSet>>)
    ensures r.None? <==> Load(Lines(text), Progress(false, map[], [])).None?
    ensures r.Some? ==> Loaded(r.value, Load(Lines(text), Progress(false, map[], [])).value, sets)
  {
    var configs := Lines(text);
    var rules: seq<Lexer.RegularRule<()>> := [];
    ghost var specs: seq<Spec> := [];
    sets := [];
    var alias: Re.Definitions := map[];
    var flag := false;
    for i := 0 to |configs|
      invariant Load(configs, Progress(false, map[], [])) == Load(configs[i..], Progress(flag, alias, specs))
      invariant Loaded(rules, specs, sets)
    {
      assert configs[i..][0] == configs[i] && configs[i..][1..] == configs[i + 1..];
      var ok, rule;
      ghost var spec, s;
      ok, flag, alias, rule, spec, s := ReadLine(configs[i], flag, alias, specs);
      if !ok {
        return None, sets;
      }
      if rule.Some? {
        LoadedSnoc(rules, specs, sets, rule.value, spec, s);
        rules, specs, sets := rules + [rule.value], specs + [spec], sets + [s];
      }
    }
    assert configs[|configs|..] == [];
    r := Some(rules);
  }
}
