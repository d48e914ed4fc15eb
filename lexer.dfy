/**
 * The tokenizer of src/lexer.rs.
 *
 * `tokenize` appends a NUL sentinel to the input and reads it one character
 * at a time into `buffer`. For every rule it keeps a `MatchProcess`: the
 * offset of the last character at which the rule's automaton accepted the
 * buffer, and whether the rule can still match. While some rule is still
 * valid the scan goes on. When none is, the rule with the furthest recorded
 * offset wins (ties go to the rule declared first), its text is emitted and
 * the scan resumes just after it; with no recorded offset the buffer
 * becomes an ERROR token.
 *
 * The loop is specified by `LexStep`, one iteration on a value-level view of
 * the rules, and `Lex`, the whole scan.
 */
module Lexer {
  import opened Wrappers
  import opened Graph
  import opened Automaton
  import Dfa

  datatype Token = Token(type_: string, value: string, line: nat)

  /** A lexical rule: a name, an automaton over characters, and the two flags of its config line. */
  datatype RegularRule<D> = RegularRule(name: string, expr: StateTransferGraph<D, char>, greedy: bool, ignore: bool)

  /** What `tokenize` reads of a rule: its name, flags, and its automaton's edges, start and accepting states. */
  datatype Rule = Rule(name: string, edges: seq<Edge<char>>, start: nat, ends: seq<nat>, greedy: bool, ignore: bool)

  function Views<D>(rules: seq<RegularRule<D>>): (r: seq<Rule>)
    reads set x | x in rules :: x.expr
    ensures |r| == |rules|
    ensures forall k :: 0 <= k < |rules| ==>
              r[k] == Rule(rules[k].name, rules[k].expr.edges, rules[k].expr.start, rules[k].expr.ends,
                           rules[k].greedy, rules[k].ignore)
  {
    if |rules| == 0 then []
    else
      var x := rules[|rules| - 1];
      Views(rules[..|rules| - 1]) + [Rule(x.name, x.expr.edges, x.expr.start, x.expr.ends, x.greedy, x.ignore)]
  }

  /** What `match_dfa` answers for the rule's automaton on w. */
  function Outcome(rule: Rule, w: string): Dfa.MatchResult
  {
    Dfa.MatchDfaSpec(rule.edges, rule.start, rule.ends, w)
  }

  /** The rule accepts src[b..q+1], the text from b up to and including offset q. */
  predicate Matched(rule: Rule, src: string, b: nat, q: nat)
    requires b <= q < |src|
  {
    Outcome(rule, src[b..q + 1]).Ok?
  }

  /** The rule's automaton has no run on w, so it rejects w and every extension of it. */
  predicate Dead(rule: Rule, w: string)
  {
    Dfa.DfaRun(rule.edges, rule.start, w).None?
  }

  lemma {:induction false} DeadExtends(rule: Rule, w: string, v: string)
    requires Dead(rule, w)
    ensures Dead(rule, w + v)
  {
    Dfa.DfaRunAppend(rule.edges, rule.start, w, v);
  }

  // ---------------------------------------------------------------------------
  // One rule's progress
  // ---------------------------------------------------------------------------

  datatype MatchProcess = MatchProcess(rule: nat, pos: Option<nat>, valid: bool)

  function Reset(n: nat): (r: seq<MatchProcess>)
    ensures |r| == n && forall k :: 0 <= k < n ==> r[k] == MatchProcess(k, None, true)
  {
    seq(n, k requires 0 <= k => MatchProcess(k, None, true))
  }

  /**
   * The progress of one rule once the buffer has grown to `buffer`, whose
   * last character is at offset i: an invalid rule stays as it is; a
   * non-greedy rule that has matched is frozen; otherwise the automaton
   * decides.
   */
  function Advance(rule: Rule, p: MatchProcess, buffer: string, i: nat): (r: MatchProcess)
    ensures r.rule == p.rule
    ensures r.pos == p.pos || (r.pos == Some(i) && Outcome(rule, buffer).Ok?)
    ensures r.valid ==> p.valid
  {
    if !p.valid then p
    else if !rule.greedy && p.pos != None then p.(valid := false)
    else
      var o := Outcome(rule, buffer);
      if o.Err? then p.(valid := false)
      else if o.Ok? then p.(pos := Some(i))
      else p
  }

  function AdvanceAll(rules: seq<Rule>, last: seq<MatchProcess>, buffer: string, i: nat): (r: seq<MatchProcess>)
    requires forall k :: 0 <= k < |last| ==> last[k].rule < |rules|
    ensures |r| == |last|
    ensures forall k :: 0 <= k < |last| ==> r[k] == Advance(rules[last[k].rule], last[k], buffer, i)
  {
    if |last| == 0 then []
    else
      var k := |last| - 1;
      AdvanceAll(rules, last[..k], buffer, i) + [Advance(rules[last[k].rule], last[k], buffer, i)]
  }

  // ---------------------------------------------------------------------------
  // Choosing the winner
  // ---------------------------------------------------------------------------

  /** x beats y: a further offset, or the same offset and an earlier rule. */
  predicate Beats(x: MatchProcess, y: MatchProcess)
    requires x.pos.Some? && y.pos.Some?
  {
    x.pos.value > y.pos.value || (x.pos.value == y.pos.value && x.rule < y.rule)
  }

  /**
   * The `max_by` over the processes that recorded an offset: the furthest
   * offset wins and, at equal offsets, the lower rule index.
   */
  function Best(last: seq<MatchProcess>): (r: Option<MatchProcess>)
    ensures r.None? <==> forall k :: 0 <= k < |last| ==> last[k].pos.None?
    ensures r.Some? ==> r.value in last && r.value.pos.Some?
    ensures r.Some? ==> forall k :: 0 <= k < |last| && last[k].pos.Some? ==>
              last[k].pos.value < r.value.pos.value
              || (last[k].pos.value == r.value.pos.value && r.value.rule <= last[k].rule)
  {
    if |last| == 0 then None
    else
      var sofar := Best(last[..|last| - 1]);
      var x := last[|last| - 1];
      if x.pos.None? then sofar
      else if sofar.None? then Some(x)
      else if Beats(sofar.value, x) then sofar
      else Some(x)
  }

  // ---------------------------------------------------------------------------
  // The scan
  // ---------------------------------------------------------------------------

  /** The loop variables of `tokenize`. */
  datatype Scan = Scan(i: nat, line: nat, tokens: seq<Token>, buffer: string, finish: bool, last: seq<MatchProcess>)

  /** Where the buffered text starts in the input. */
  function Begin(s: Scan): int
  {
    s.i - |s.buffer|
  }

  /**
   * The loop's invariant: the buffer is the input just before offset i; it
   * is empty exactly after a token was finished; there is one process per
   * rule, in order, and every recorded offset lies inside the buffer.
   */
  predicate Wf(rules: seq<Rule>, src: string, s: Scan)
  {
    s.i <= |src| && |s.buffer| <= s.i && s.buffer == src[s.i - |s.buffer|..s.i]
    && (s.finish <==> s.buffer == [])
    && |s.last| == |rules|
    && forall k :: 0 <= k < |s.last| ==>
         s.last[k].rule == k && (s.last[k].pos.Some? ==> s.i - |s.buffer| <= s.last[k].pos.value < s.i)
  }

  function Start(n: nat): Scan
  {
    Scan(0, 1, [], [], true, Reset(n))
  }

  predicate SomeValid(ps: seq<MatchProcess>)
  {
    exists k :: 0 <= k < |ps| && ps[k].valid
  }

  /**
   * One iteration of the loop. It reads src[i] into the buffer and advances
   * every rule. Then:
   * - while some rule is valid, it moves on;
   * - otherwise, if some rule recorded an offset, the best one is emitted
   *   (unless its rule is ignored) and the scan resumes after it;
   * - otherwise the buffer becomes an ERROR token, and the character just
   *   read is kept for the next token unless the buffer held only it.
   * The line counter moves only on a step that reads '\n'.
   */
  function LexStep(rules: seq<Rule>, src: string, s: Scan): (r: Scan)
    requires Wf(rules, src, s) && s.i < |src|
    ensures Wf(rules, src, r) && Advances(src, s, r)
  {
    var c := src[s.i];
    var buffer := s.buffer + [c];
    var matched := AdvanceAll(rules, s.last, buffer, s.i);
    if SomeValid(matched) then
      ContinueWf(rules, src, s);
      Scan(s.i + 1, if c == '\n' then s.line + 1 else s.line, s.tokens, buffer, false, matched)
    else
      match Best(s.last)
      case Some(m) =>
        BestInRange(rules, src, s, m);
        EmittedWf(rules, src, s, buffer, rules[m.rule].name, rules[m.rule].ignore, m.pos.value);
        Emitted(s, buffer, rules[m.rule].name, rules[m.rule].ignore, m.pos.value, |rules|)
      case None =>
        FailedWf(rules, src, s);
        Failed(s, c, |rules|)
  }

  /**
   * A step moves the scan on: the start of the current token moves
   * forward, or stays while the offset moves forward; the line counter
   * moves by one exactly on a '\n' that was read; at most one token is
   * appended and the earlier ones are kept.
   */
  predicate Advances(src: string, s: Scan, r: Scan)
    requires s.i < |src|
  {
    && (Begin(s) < Begin(r) || (Begin(s) == Begin(r) && s.i < r.i))
    && (r.line == s.line || (r.line == s.line + 1 && src[s.i] == '\n'))
    && |s.tokens| <= |r.tokens| <= |s.tokens| + 1 && r.tokens[..|s.tokens|] == s.tokens
  }

  /**
   * The match branch: the text up to and including offset p is emitted
   * under the rule's name unless the rule is ignored, and the scan resumes
   * at p + 1 with an empty buffer.
   */
  function Emitted(s: Scan, buffer: string, name: string, ignore: bool, p: nat, n: nat): Scan
    requires |buffer| == |s.buffer| + 1 && s.i - |s.buffer| <= p < s.i
  {
    var token := Token(name, buffer[..|buffer| + p - s.i], s.line);
    Scan(p + 1, s.line, if ignore then s.tokens else s.tokens + [token], [], true, Reset(n))
  }

  /**
   * The error branch: the buffer becomes an ERROR token (unless it is just
   * the sentinel), without the character just read when that character
   * will be read again.
   */
  function Failed(s: Scan, c: char, n: nat): Scan
  {
    var line := if c == '\n' then s.line + 1 else s.line;
    var rest := if s.finish then s.buffer + [c] else s.buffer;
    var tokens := if rest != "\0" then s.tokens + [Token("ERROR", rest, line)] else s.tokens;
    Scan(if s.finish then s.i + 1 else s.i, line, tokens, [], true, Reset(n))
  }

  lemma {:induction false} ContinueWf(rules: seq<Rule>, src: string, s: Scan)
    requires Wf(rules, src, s) && s.i < |src|
    ensures var buffer := s.buffer + [src[s.i]];
            var r := Scan(s.i + 1, if src[s.i] == '\n' then s.line + 1 else s.line, s.tokens, buffer, false,
                          AdvanceAll(rules, s.last, buffer, s.i));
            Wf(rules, src, r) && Advances(src, s, r)
  {
    BufferNext(rules, src, s);
  }

  lemma {:induction false} EmittedWf(rules: seq<Rule>, src: string, s: Scan, buffer: string, name: string, ignore: bool, p: nat)
    requires Wf(rules, src, s) && s.i < |src| && buffer == s.buffer + [src[s.i]] && Begin(s) <= p < s.i
    ensures var r := Emitted(s, buffer, name, ignore, p, |rules|);
            Wf(rules, src, r) && Advances(src, s, r) && r.line == s.line
  {
  }

  /** `LexStep` when some rule can still go on. */
  lemma {:induction false} LexStepContinue(rules: seq<Rule>, src: string, s: Scan, buffer: string, matched: seq<MatchProcess>)
    requires Wf(rules, src, s) && s.i < |src| && buffer == s.buffer + [src[s.i]]
    requires matched == AdvanceAll(rules, s.last, buffer, s.i) && SomeValid(matched)
    ensures LexStep(rules, src, s)
         == Scan(s.i + 1, if src[s.i] == '\n' then s.line + 1 else s.line, s.tokens, buffer, false, matched)
  {
  }

  /** `LexStep` when every rule has stopped and some rule has matched. */
  lemma {:induction false} LexStepEmit(rules: seq<Rule>, src: string, s: Scan, buffer: string, m: MatchProcess)
    requires Wf(rules, src, s) && s.i < |src| && buffer == s.buffer + [src[s.i]]
    requires !SomeValid(AdvanceAll(rules, s.last, buffer, s.i)) && Best(s.last) == Some(m)
    ensures m.rule < |rules|
    ensures LexStep(rules, src, s) == Emitted(s, buffer, rules[m.rule].name, rules[m.rule].ignore, m.pos.value, |rules|)
  {
    BestInRange(rules, src, s, m);
  }

  /** `LexStep` when every rule has stopped and none has matched. */
  lemma {:induction false} LexStepFail(rules: seq<Rule>, src: string, s: Scan, buffer: string)
    requires Wf(rules, src, s) && s.i < |src| && buffer == s.buffer + [src[s.i]]
    requires !SomeValid(AdvanceAll(rules, s.last, buffer, s.i)) && Best(s.last).None?
    ensures LexStep(rules, src, s) == Failed(s, src[s.i], |rules|)
  {
  }

  /** The winner is one of the processes: its rule is in range and its offset lies in the buffer. */
  lemma {:induction false} BestInRange(rules: seq<Rule>, src: string, s: Scan, m: MatchProcess)
    requires Wf(rules, src, s) && Best(s.last) == Some(m)
    ensures m.rule < |rules| && m.pos.Some? && Begin(s) <= m.pos.value < s.i
  {
    var k :| 0 <= k < |s.last| && s.last[k] == m;
  }

  lemma {:induction false} FailedWf(rules: seq<Rule>, src: string, s: Scan)
    requires Wf(rules, src, s) && s.i < |src|
    ensures var r := Failed(s, src[s.i], |rules|);
            Wf(rules, src, r) && Advances(src, s, r)
  {
  }

  /** The scan from s to the end of the input. */
  function Lex(rules: seq<Rule>, src: string, s: Scan): (r: Scan)
    requires Wf(rules, src, s)
    ensures Wf(rules, src, r) && r.i == |src|
    ensures s.line <= r.line
    decreases |src| - Begin(s), |src| - s.i
  {
    if s.i >= |src| then s else Lex(rules, src, LexStep(rules, src, s))
  }

  // ---------------------------------------------------------------------------
  // Longest match
  // ---------------------------------------------------------------------------

  /**
   * What a rule's process knows about the text src[b..i] read so far: a
   * recorded offset is one where the rule accepted; a greedy rule has
   * recorded the last offset where it accepted; a greedy rule that gave up
   * has no run on the text read.
   */
  ghost predicate RecordedAt(rule: Rule, src: string, b: nat, i: nat, p: MatchProcess)
    requires b <= i <= |src|
  {
    (p.pos.Some? ==> b <= p.pos.value < i && Matched(rule, src, b, p.pos.value))
    && (rule.greedy ==> forall q :: b <= q < i && Matched(rule, src, b, q) ==> p.pos.Some? && q <= p.pos.value)
    && (rule.greedy && !p.valid ==> Dead(rule, src[b..i]))
  }

  ghost predicate Recorded(rules: seq<Rule>, src: string, s: Scan)
    requires Wf(rules, src, s)
  {
    forall k :: 0 <= k < |rules| ==> RecordedAt(rules[k], src, Begin(s), s.i, s.last[k])
  }

  /** Reading offset i keeps what each process knows. */
  lemma {:induction false} AdvanceRecorded(rule: Rule, src: string, b: nat, i: nat, p: MatchProcess)
    requires b <= i < |src| && RecordedAt(rule, src, b, i, p)
    ensures RecordedAt(rule, src, b, i + 1, Advance(rule, p, src[b..i + 1], i))
  {
    var w := src[b..i + 1];
    assert w == src[b..i] + [src[i]];
    var o := Outcome(rule, w);
    if rule.greedy && !p.valid {
      DeadExtends(rule, src[b..i], [src[i]]);
    }
  }

  /**
   * A token of rule r covering src[b..p+1] is a longest match: rule r
   * accepts it, no greedy rule accepts any longer text from b, and no
   * greedy rule declared before r accepts the same text.
   */
  ghost predicate Longest(rules: seq<Rule>, src: string, b: nat, p: nat, r: nat)
    requires b <= p < |src| && r < |rules|
  {
    Matched(rules[r], src, b, p)
    && (forall k, q :: 0 <= k < |rules| && rules[k].greedy && p < q < |src| ==> !Matched(rules[k], src, b, q))
    && (forall k :: 0 <= k < r && rules[k].greedy ==> !Matched(rules[k], src, b, p))
  }

  /** An emitted token is an ERROR token for a non-empty stretch of input, or a longest match of a rule that is not ignored. */
  ghost predicate Sound(rules: seq<Rule>, src: string, t: Token)
  {
    (t.type_ == "ERROR" && exists b: nat, e: nat :: b < e <= |src| && t.value == src[b..e])
    || exists b: nat, p: nat, r: nat :: b <= p < |src| && r < |rules| && Longest(rules, src, b, p, r)
         && !rules[r].ignore && t.type_ == rules[r].name && t.value == src[b..p + 1]
  }

  lemma {:induction false} DeadNotMatched(rule: Rule, src: string, b: nat, i: nat, q: nat)
    requires b <= i <= q + 1 && q < |src| && Dead(rule, src[b..i])
    ensures !Matched(rule, src, b, q)
  {
    assert src[b..q + 1] == src[b..i] + src[i..q + 1];
    DeadExtends(rule, src[b..i], src[i..q + 1]);
  }

  /**
   * A greedy rule that stopped on reading offset i accepts no text from b
   * ending at i or later.
   */
  lemma {:induction false} StoppedRejects(rule: Rule, src: string, b: nat, i: nat, p: MatchProcess, q: nat)
    requires b <= i <= q < |src| && rule.greedy && RecordedAt(rule, src, b, i, p)
    requires !Advance(rule, p, src[b..i + 1], i).valid
    ensures !Matched(rule, src, b, q)
  {
    assert Dead(rule, src[b..i + 1]) by {
      if p.valid {
        assert Outcome(rule, src[b..i + 1]).Err?;
      } else {
        DeadExtends(rule, src[b..i], [src[i]]);
        assert src[b..i] + [src[i]] == src[b..i + 1];
      }
    }
    DeadNotMatched(rule, src, b, i + 1, q);
  }

  /**
   * The winner chosen when every rule has stopped reading src[b..i+1] is a
   * longest match.
   */
  /** One process per rule, in order, each knowing what `RecordedAt` says about src[b..i]. */
  ghost predicate Knows(rules: seq<Rule>, src: string, b: nat, i: nat, last: seq<MatchProcess>)
  {
    b <= i < |src| && |last| == |rules|
    && (forall k :: 0 <= k < |last| ==> last[k].rule == k)
    && forall k :: 0 <= k < |rules| ==> RecordedAt(rules[k], src, b, i, last[k])
  }

  lemma {:induction false} WinnerLongest(rules: seq<Rule>, src: string, b: nat, i: nat, last: seq<MatchProcess>,
                                         buffer: string, m: MatchProcess)
    requires Knows(rules, src, b, i, last) && buffer == src[b..i + 1]
    requires !SomeValid(AdvanceAll(rules, last, buffer, i))
    requires Best(last) == Some(m)
    ensures b <= m.pos.value < i && m.rule < |rules|
    ensures Longest(rules, src, b, m.pos.value, m.rule)
  {
    var p := m.pos.value;
    var j :| 0 <= j < |last| && last[j] == m;
    forall k, q | 0 <= k < |rules| && rules[k].greedy && p < q < |src|
      ensures !Matched(rules[k], src, b, q)
    {
      if q >= i {
        assert !AdvanceAll(rules, last, buffer, i)[k].valid;
        StoppedRejects(rules[k], src, b, i, last[k], q);
      } else {
        assert RecordedAt(rules[k], src, b, i, last[k]);
      }
    }
    forall k | 0 <= k < m.rule && rules[k].greedy
      ensures !Matched(rules[k], src, b, p)
    {
      assert RecordedAt(rules[k], src, b, i, last[k]);
    }
  }

  /** Reading src[i] extends the buffer to the text from its start up to and including offset i. */
  lemma {:induction false} BufferNext(rules: seq<Rule>, src: string, s: Scan)
    requires Wf(rules, src, s) && s.i < |src|
    ensures s.buffer + [src[s.i]] == src[Begin(s)..s.i + 1]
  {
    assert src[Begin(s)..s.i + 1] == src[Begin(s)..s.i] + [src[s.i]];
  }

  /** What `Wf` and `Recorded` say about a scan, spelled out for `WinnerLongest`. */
  lemma {:induction false} RecordedUnfold(rules: seq<Rule>, src: string, s: Scan)
    requires Wf(rules, src, s) && Recorded(rules, src, s) && s.i < |src|
    ensures Begin(s) >= 0 && Knows(rules, src, Begin(s), s.i, s.last)
    ensures s.buffer + [src[s.i]] == src[Begin(s)..s.i + 1]
  {
    BufferNext(rules, src, s);
  }

  /** Step `s` to `r` keeps the invariant, and adds only sound tokens. */
  ghost predicate Kept(rules: seq<Rule>, src: string, s: Scan, r: Scan)
  {
    Wf(rules, src, r) && Recorded(rules, src, r)
    && forall t :: t in r.tokens ==> t in s.tokens || Sound(rules, src, t)
  }

  /** With the buffer empty and every process reset, the processes know nothing yet, and that is all they claim. */
  lemma {:induction false} ResetRecorded(rules: seq<Rule>, src: string, s: Scan)
    requires Wf(rules, src, s) && s.buffer == [] && s.last == Reset(|rules|)
    ensures Recorded(rules, src, s)
  {
    forall k | 0 <= k < |rules| ensures RecordedAt(rules[k], src, Begin(s), s.i, s.last[k]) {
      assert s.last[k] == MatchProcess(k, None, true);
    }
  }

  /** While some rule is still valid, reading the next character keeps what every process knows. */
  lemma {:induction false} ContinueRecorded(rules: seq<Rule>, src: string, s: Scan)
    requires Wf(rules, src, s) && Recorded(rules, src, s) && s.i < |src|
    ensures forall k :: 0 <= k < |rules| ==>
              RecordedAt(rules[k], src, Begin(s), s.i + 1, AdvanceAll(rules, s.last, s.buffer + [src[s.i]], s.i)[k])
  {
    var b, i := Begin(s), s.i;
    var buffer := s.buffer + [src[i]];
    BufferNext(rules, src, s);
    forall k | 0 <= k < |rules|
      ensures RecordedAt(rules[k], src, b, i + 1, AdvanceAll(rules, s.last, buffer, i)[k])
    {
      assert RecordedAt(rules[k], src, b, i, s.last[k]);
      AdvanceRecorded(rules[k], src, b, i, s.last[k]);
    }
  }

  /** Emitting a longest match keeps the invariant and emits a sound token, if any. */
  lemma {:induction false} EmittedSound(rules: seq<Rule>, src: string, s: Scan, buffer: string, p: nat, r: nat)
    requires Wf(rules, src, s) && s.i < |src| && buffer == src[Begin(s)..s.i + 1]
    requires Begin(s) <= p < s.i && r < |rules| && Longest(rules, src, Begin(s), p, r)
    ensures var e := Emitted(s, buffer, rules[r].name, rules[r].ignore, p, |rules|);
            Kept(rules, src, s, e)
  {
    var e := Emitted(s, buffer, rules[r].name, rules[r].ignore, p, |rules|);
    ResetRecorded(rules, src, e);
    assert buffer[..|buffer| + p - s.i] == src[Begin(s)..p + 1];
    if !rules[r].ignore {
      assert Sound(rules, src, e.tokens[|s.tokens|]);
    }
  }

  /** The match branch emits a longest match, and resets what the processes know. */
  lemma {:induction false} EmitSound(rules: seq<Rule>, src: string, s: Scan, m: MatchProcess)
    requires Wf(rules, src, s) && Recorded(rules, src, s) && s.i < |src|
    requires !SomeValid(AdvanceAll(rules, s.last, s.buffer + [src[s.i]], s.i))
    requires Best(s.last) == Some(m)
    ensures m.rule < |rules|
    ensures var r := Emitted(s, s.buffer + [src[s.i]], rules[m.rule].name, rules[m.rule].ignore, m.pos.value, |rules|);
            Kept(rules, src, s, r)
  {
    var buffer := s.buffer + [src[s.i]];
    BestLongest(rules, src, s, m);
    BufferNext(rules, src, s);
    EmittedSound(rules, src, s, buffer, m.pos.value, m.rule);
  }

  /** When every rule has stopped, the winner of `Best` is a longest match of the current token. */
  lemma {:induction false} BestLongest(rules: seq<Rule>, src: string, s: Scan, m: MatchProcess)
    requires Wf(rules, src, s) && Recorded(rules, src, s) && s.i < |src|
    requires !SomeValid(AdvanceAll(rules, s.last, s.buffer + [src[s.i]], s.i))
    requires Best(s.last) == Some(m)
    ensures Begin(s) <= m.pos.value < s.i && m.rule < |rules|
    ensures Longest(rules, src, Begin(s), m.pos.value, m.rule)
  {
    RecordedUnfold(rules, src, s);
    WinnerLongest(rules, src, Begin(s), s.i, s.last, s.buffer + [src[s.i]], m);
  }

  /** The error branch emits a non-empty stretch of the input, and resets what the processes know. */
  lemma {:induction false} FailSound(rules: seq<Rule>, src: string, s: Scan)
    requires Wf(rules, src, s) && s.i < |src|
    ensures var r := Failed(s, src[s.i], |rules|);
            Kept(rules, src, s, r)
  {
    var b, i := Begin(s), s.i;
    var r := Failed(s, src[i], |rules|);
    ResetRecorded(rules, src, r);
    if s.finish {
      assert s.buffer + [src[i]] == src[i..i + 1];
    } else {
      assert s.buffer == src[b..i];
    }
  }

  /** While some rule is still valid the step emits nothing and keeps what the processes know. */
  lemma {:induction false} ContinueSound(rules: seq<Rule>, src: string, s: Scan)
    requires Wf(rules, src, s) && Recorded(rules, src, s) && s.i < |src|
    ensures var buffer := s.buffer + [src[s.i]];
            var r := Scan(s.i + 1, if src[s.i] == '\n' then s.line + 1 else s.line, s.tokens, buffer, false,
                          AdvanceAll(rules, s.last, buffer, s.i));
            Kept(rules, src, s, r)
  {
    BufferNext(rules, src, s);
    ContinueRecorded(rules, src, s);
  }

  /** Every step keeps what the processes know, and emits only sound tokens. */
  lemma {:induction false} LexStepSound(rules: seq<Rule>, src: string, s: Scan)
    requires Wf(rules, src, s) && Recorded(rules, src, s) && s.i < |src|
    ensures Kept(rules, src, s, LexStep(rules, src, s))
  {
    var buffer := s.buffer + [src[s.i]];
    var matched := AdvanceAll(rules, s.last, buffer, s.i);
    if SomeValid(matched) {
      LexStepContinue(rules, src, s, buffer, matched);
      ContinueSound(rules, src, s);
    } else {
      match Best(s.last)
      case Some(m) =>
        LexStepEmit(rules, src, s, buffer, m);
        EmitSound(rules, src, s, m);
      case None =>
        LexStepFail(rules, src, s, buffer);
        FailSound(rules, src, s);
    }
  }

  /** The whole scan emits only sound tokens. */
  lemma {:induction false} LexSound(rules: seq<Rule>, src: string, s: Scan)
    requires Wf(rules, src, s) && Recorded(rules, src, s)
    requires forall t :: t in s.tokens ==> Sound(rules, src, t)
    ensures forall t :: t in Lex(rules, src, s).tokens ==> Sound(rules, src, t)
    decreases |src| - Begin(s), |src| - s.i
  {
    if s.i < |src| {
      LexStepSound(rules, src, s);
      LexSound(rules, src, LexStep(rules, src, s));
    }
  }

  /**
   * Every token `tokenize` returns for `src` is an ERROR token for a
   * stretch of the input, or a longest match as `Longest` states it.
   */
  lemma {:induction false} TokensSound(rules: seq<Rule>, src: string)
    ensures forall t :: t in Lex(rules, src + "\0", Start(|rules|)).tokens ==> Sound(rules, src + "\0", t)
  {
    ResetRecorded(rules, src + "\0", Start(|rules|));
    LexSound(rules, src + "\0", Start(|rules|));
  }

  // ---------------------------------------------------------------------------
  // The method
  // ---------------------------------------------------------------------------

  ghost predicate Ready<D>(rules: seq<RegularRule<D>>)
    reads set x | x in rules :: x.expr
  {
    forall k :: 0 <= k < |rules| ==> rules[k].expr.Valid() && rules[k].expr.start < |rules[k].expr.vertices|
  }

  /** The `map` over `last_matched`: each valid rule re-runs `match_dfa` on the whole buffer. */
  method AdvanceRules<D>(rules: seq<RegularRule<D>>, last: seq<MatchProcess>, buffer: string, i: nat)
    returns (matched: seq<MatchProcess>)
    requires Ready(rules) && |buffer| > 0
    requires forall k :: 0 <= k < |last| ==> last[k].rule < |rules|
    ensures matched == AdvanceAll(Views(rules), last, buffer, i)
  {
    ghost var views := Views(rules);
    matched := [];
    for k := 0 to |last|
      invariant |matched| == k
      invariant forall j :: 0 <= j < k ==> matched[j] == Advance(views[last[j].rule], last[j], buffer, i)
    {
      var p := last[k];
      var rule := rules[p.rule];
      var next := p;
      if !p.valid {
      } else if !rule.greedy && p.pos != None {
        next := p.(valid := false);
      } else {
        var ret := Dfa.MatchDfa(rule.expr, buffer);
        if ret == Dfa.MatchResult.Err {
          next := p.(valid := false);
        } else if ret == Dfa.MatchResult.Ok {
          next := p.(pos := Some(i));
        }
      }
      matched := matched + [next];
    }
  }

  /** The `max_by` of the match branch, as a loop. */
  method BestOf(last: seq<MatchProcess>) returns (r: Option<MatchProcess>)
    ensures r == Best(last)
  {
    r := None;
    for k := 0 to |last|
      invariant r == Best(last[..k])
    {
      assert last[..k + 1][..k] == last[..k];
      var x := last[k];
      if x.pos.Some? {
        if r.None? || !Beats(r.value, x) {
          r := Some(x);
        }
      }
    }
    assert last[..|last|] == last;
  }

  /** One iteration of `tokenize`'s loop, on its loop variables. */
  method ScanStep<D>(rules: seq<RegularRule<D>>, ghost views: seq<Rule>, text: string, s: Scan) returns (r: Scan)
    requires Ready(rules) && views == Views(rules) && Wf(views, text, s) && s.i < |text|
    ensures r == LexStep(views, text, s)
  {
    var c := text[s.i];
    var buffer := s.buffer + [c];
    var matched := AdvanceRules(rules, s.last, buffer, s.i);
    if SomeValid(matched) {
      LexStepContinue(views, text, s, buffer, matched);
      var line := if c == '\n' then s.line + 1 else s.line;
      r := Scan(s.i + 1, line, s.tokens, buffer, false, matched);
    } else {
      var best := BestOf(s.last);
      if best.Some? {
        LexStepEmit(views, text, s, buffer, best.value);
        BestInRange(views, text, s, best.value);
        var rule := rules[best.value.rule];
        assert views[best.value.rule].name == rule.name && views[best.value.rule].ignore == rule.ignore;
        r := Emit(s, buffer, rule.name, rule.ignore, best.value.pos.value, |rules|);
      } else {
        LexStepFail(views, text, s, buffer);
        r := Fail(s, c, |rules|);
      }
    }
  }

  /** The match branch of the loop body. */
  method Emit(s: Scan, buffer: string, name: string, ignore: bool, p: nat, n: nat) returns (r: Scan)
    requires |buffer| == |s.buffer| + 1 && s.i - |s.buffer| <= p < s.i
    ensures r == Emitted(s, buffer, name, ignore, p, n)
  {
    var tokens := s.tokens;
    var token := Token(name, buffer[..|buffer| + p - s.i], s.line);
    if !ignore { tokens := tokens + [token]; }
    r := Scan(p + 1, s.line, tokens, [], true, Reset(n));
  }

  /** The error branch of the loop body. */
  method Fail(s: Scan, c: char, n: nat) returns (r: Scan)
    ensures r == Failed(s, c, n)
  {
    var line, i, tokens := s.line, s.i, s.tokens;
    var buffer := s.buffer + [c];
    if c == '\n' { line := line + 1; }
    if s.finish {
      i := i + 1;
    } else {
      buffer := buffer[..|buffer| - 1];
    }
    if buffer != "\0" {
      tokens := tokens + [Token("ERROR", buffer, line)];
    }
    r := Scan(i, line, tokens, [], true, Reset(n));
  }

  /** The loop of `tokenize`, from the loop variables s to the end of the text. */
  method ScanAll<D>(rules: seq<RegularRule<D>>, ghost views: seq<Rule>, text: string, s0: Scan) returns (s: Scan)
    requires Ready(rules) && views == Views(rules) && Wf(views, text, s0)
    ensures s == Lex(views, text, s0)
  {
    s := s0;
    while s.i < |text|
      invariant Wf(views, text, s)
      invariant Lex(views, text, s) == Lex(views, text, s0)
      decreases |text| - Begin(s), |text| - s.i
    {
      s := ScanStep(rules, views, text, s);
    }
  }

  /**
   * `tokenize`: the scan of `src` followed by the NUL sentinel; it always
   * returns `Ok`.
   */
  method Tokenize<D>(src: string, rules: seq<RegularRule<D>>) returns (r: Result<seq<Token>, ()>)
    requires Ready(rules)
    ensures var views := Views(rules); r == Ok(Lex(views, src + "\0", Start(|views|)).tokens)
  {
    ghost var views := Views(rules);
    var s := ScanAll(rules, views, src + "\0", Start(|rules|));
    r := Ok(s.tokens);
  }
}
