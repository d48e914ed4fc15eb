# CompilerTools in Dafny

A verified model of the core of CompilerTools, a Rust toolkit for building
compilers: a regular-expression front end with two automaton back ends, a
longest-match tokenizer, an EBNF grammar layer with its transforms, and four
parsing engines (LL(1), backtracking recursive descent, LR(0)/LALR(1) and
GLR), plus the small self-contained pieces of its two consumer languages
(Scheme rationals, scope chain and reader; the COOL class table and type
environment).

One Dafny module per source file:

| module | source |
|---|---|
| `Wrappers`, `Utils`, `Text` | option/result types; `src/utils.rs` bit-set macros; decimal text of `usize` |
| `Graph`, `Automaton`, `Re` | `src/lexer/graph.rs`; `StateTransferGraph` and the regex parser of `src/lexer/re.rs` |
| `Nfa`, `Followpos`, `Dfa`, `Minimize` | `src/lexer/nfa.rs`; `src/lexer/dfa.rs` (followpos, subset construction, minimisation, matcher) |
| `Lexer`, `Config` | `tokenize` and the rule-line parsing of `read_config` in `src/lexer.rs` |
| `Tree`, `ParseTree` | the zipper of `src/utils/tree.rs`; `NodeType`/`NonTerminal` of `src/parser.rs` |
| `Grammar`, `Transform`, `Retrieve` | `src/parser/grammar.rs`; `src/parser/transform.rs` |
| `LLParser`, `LLParse`, `RdParser` | `src/parser/llparser.rs` (table generation, driver); `src/parser/rdparser.rs` |
| `LRItems`, `LRBuild`, `LRTable`, `LRParse`, `LRGraph` | `src/parser/lrparser.rs` |
| `GLRParser`, `Derivations`, `Functor` | `src/parser/glrparser.rs`, `src/parser/derivations.rs`, `src/parser/functor.rs` |
| `SchemeNumber`, `SchemeEnv`, `SchemeParser` | `src/scheme/number.rs`, `src/scheme/env.rs`, `src/scheme/parser.rs` |
| `CoolBeam` | the class table and type environment of `src/cool/beam.rs` |

Where the source works by changing state step by step (the graph arena, the
worklists of the automaton and item-set constructions, the parsing loops,
the scope chain, the COOL environment) the model is a class or a method with
loops, proved equal to a specification function; the properties are lemmas
about those functions. Hash-map iteration order, which decides several
outcomes in the source, is a parameter (`orders`), and every property is
proved for every order. Panics are either preconditions (where the source's
callers must avoid them) or a distinct `Panic` outcome (where the input
decides them).

Where the source is evidently wrong (see "## Findings") the model keeps a
member that does what the code does and a corrected member that the rest of
the model uses. The entry points `LLParse.Parse`, `RdParser.Parse`,
`LRGraph.ParseWithGraph` and `GLRParser.ParseWithGraph`, and the readers
`SchemeParser.Parse`, `SchemeNumber.Add`/`Sub`/`Div`, run the corrected
versions; their as-written counterparts are `LLParse.ParseAsWritten`,
`RdParser.ParseAsWritten`, `LRGraph.RunGraphAsWritten`, `Derivations.Build`,
`SchemeParser.ParseAsWritten`, `SchemeNumber.AddAsWritten`/`SubAsWritten`/`DivAsWritten`.
Two behaviours that look unintended are modelled as written and not
corrected: `minimize_dfa` (src/lexer/dfa.rs:252-296) splits a group when
target *states* differ, not target groups, so it merges only states with
identical rows; and it marks start and end groups inside its per-token loop,
so with an empty character map nothing is marked. Likewise `tokenize` (src/lexer.rs:104-139)
bumps the line counter on every step that reads `'\n'`, including a step
whose character is read again afterwards (after an error that keeps the
character, or after a match that rewinds to just past its end), so a
newline can be counted twice; the model counts as the source does.

## Model

| member | source | states |
|---|---|---|
| Utils.MarkersDistinct | src/utils.rs:90-91 | `EPSILON_TOKEN` is the one-character string NUL and `FINISH_TOKEN` is `$`, so the two markers differ |
| Utils.Bits | src/utils.rs:18 | a `VertexSet` flag vector denotes exactly the indices whose flag is set |
| Utils.NewSet | src/utils.rs:20-26 | `new_set!(n)` has exactly n flags and none of them is set |
| Utils.CupSet | src/utils.rs:28-34 | `cup_set!` needs \|rhs\| <= \|lhs\|; it sets `lhs[i]` wherever `rhs[i]` is set, leaves every other flag of lhs unchanged, and equals the value `Cup` |
| Utils.CupBits | src/utils.rs:28-34 | the flags of `Cup(lhs, rhs)` are the union of the flags of lhs and rhs, and its length is \|lhs\| |
| Utils.PushSets | src/utils.rs:36-45 | `push_sets!` appends one clear flag to every row, adds an all-clear row of length n+1, keeps a square matrix square, and evaluates to n+1 |
| Utils.PushedSpec | src/utils.rs:36-45 | growing the matrix keeps every existing row's set of flags, the new row is empty, and an n x n matrix becomes (n+1) x (n+1) |
| Utils.SetOf | src/utils.rs:56-66 | `set!(k1, .., kn)` contains exactly the listed keys |
| Utils.MapOf | src/utils.rs:68-78 | `map!(k1 => v1, ..)` has exactly the listed keys, and each key maps to the value of its last listing |
| Utils.CountSet | src/utils.rs:18 | setting a clear flag raises the number of set flags by one (the bound behind the subset-construction loops) |
| Text.NatToString | src/parser/grammar.rs:156 | `usize::to_string` yields a non-empty string of decimal digits without a leading zero |
| Text.ParseUsize | src/parser/grammar.rs:147 | `str::parse::<usize>` accepts an optional `+` and at least one digit, and only values that fit in 64 bits |
| Text.ParseToString | src/parser/grammar.rs:147 | parsing the decimal text of any `usize` gives the number back |
| Text.NatToStringInjective | src/parser/transform.rs:109-116 | different indices have different decimal texts, so the synthesized names are distinct |
| Graph.NewVertex | src/lexer/graph.rs:17-23 | `Vertex::new` starts with empty `in_edges` and `out_edges` and stores the data unchanged |
| Graph.NewEdge | src/lexer/graph.rs:40-46 | `Edge::new` stores `in_vertex`, `out_vertex` and `cost` exactly as given |
| Automaton.OutsSpec | src/lexer/re.rs:273-279 | the out-edge list that `add_transfer` builds for a vertex holds exactly the edges leaving it, each once, in ascending order |
| Automaton.InsSpec | src/lexer/re.rs:273-279 | the in-edge list holds exactly the edges entering the vertex |
| Automaton.FirstTargetSpec | src/lexer/re.rs:303-310 | the scan of an out-list returns the target of the earliest edge with the token's label, or nothing when no edge carries it |
| Automaton.StepSpec | src/lexer/re.rs:303-310 | a transition fails iff no edge leaves the state with that label; otherwise it follows such an edge |
| Automaton.StepAppend | src/lexer/re.rs:273-310 | appending an edge changes only the transition from its source on its label, and only when that transition was missing |
| Automaton.MarkEndSpec | src/lexer/re.rs:285-290 | `mark_as_end` adds exactly the marked state, keeps `ends` free of duplicates and is idempotent |
| Automaton.ImageSpec | src/lexer/re.rs:292-301 | `extend` gives every spliced vertex except the merged start a distinct fresh index above the old vertex count |
| Automaton.StateTransferGraph.constructor | src/lexer/re.rs:247-255 | `new` has no vertices, edges or end states, and start and end are 0 |
| Automaton.StateTransferGraph.AddStateWithData | src/lexer/re.rs:262-265 | appends one vertex with the given data and returns the old vertex count; nothing else changes and the graph stays valid |
| Automaton.StateTransferGraph.AddState | src/lexer/re.rs:257-260 | appends one vertex with the default payload and returns its index |
| Automaton.StateTransferGraph.AddTransfer | src/lexer/re.rs:273-279 | appends one edge, returns its index, adds that index to the source's out-list and the target's in-list and changes nothing else, so every listed index stays in range |
| Automaton.StateTransferGraph.AddStateAfter | src/lexer/re.rs:267-271 | a fresh state reached from `prev` by one edge with the given label |
| Automaton.StateTransferGraph.MarkAsStart | src/lexer/re.rs:281-283 | sets `start` and nothing else |
| Automaton.StateTransferGraph.MarkAsEnd | src/lexer/re.rs:285-290 | sets `end` and adds the state to `ends` only when it is absent |
| Automaton.StateTransferGraph.Extend | src/lexer/re.rs:292-301 | maps `rhs.start` onto `cross_state`, gives every other rhs vertex a fresh state, copies every rhs edge under that mapping in order and returns the image of `rhs.end` |
| Automaton.StateTransferGraph.AddImages | src/lexer/re.rs:294-296 | the first loop of `extend`: one fresh default vertex per spliced vertex except the start |
| Automaton.StateTransferGraph.CopyEdges | src/lexer/re.rs:297-299 | the second loop of `extend`: every spliced edge, renamed, appended in order |
| Automaton.StateTransferGraph.GetTransition | src/lexer/re.rs:303-310 | returns the target of the first out-edge labelled with the token, or `None` (the value `Step`) |
| Re.Combine | src/lexer/re.rs:66-95 | a collected set of sub-expressions yields nothing (the panic) iff it is empty, the expression itself when it is alone, and otherwise a union or concatenation |
| Re.CollectConcat | src/lexer/re.rs:75-96 | `collect_concat` pops expressions down to the nearest `Tuple` or `UnionOp`, which stays in place, and pushes their concatenation in written order; nothing collected is a panic (equals `CollectConcatSpec`) |
| Re.CollectUnion | src/lexer/re.rs:48-73 | `collect_union` pops down to and including the nearest `Tuple` or `Group`, drops the alternatives listed after `GroupNegate` from those before it, and pushes their union in written order; nothing left is a panic (equals `CollectUnionSpec`) |
| Re.ExpandRangeLoop | src/lexer/re.rs:113-125 | the range arm pops the top entry; only an atom is expanded into the counted characters up to the current one, and anything else is dropped (equals `ExpandRange`) |
| Re.CountRange | src/lexer/re.rs:115-119 | the counting loop pushes one atom per counter value up to the high end, and fails exactly when the `u8` increment overflows |
| Re.RangeAtomsSpan | src/lexer/re.rs:113-119 | below 255, `a-z` expands to every character from a to z inclusive, and to nothing when z precedes a |
| Re.Parse | src/lexer/re.rs:39-190 | `RegularExpression::parse` runs the stack machine character by character and then closes the concatenation and the union; it equals `ParseSpec` (the per-character `Step` folded over the input, then `Finish`) |
| Re.StarWrapsTop | src/lexer/re.rs:136-141 | `*` wraps the most recently pushed expression in `Iteration` |
| Re.StarWithoutOperandPanics | src/lexer/re.rs:136-141 | `*` with no expression on top of the stack panics |
| Re.BarAndPlusAgree | src/lexer/re.rs:142-145 | `\|` and `+` act identically: both close the pending concatenation and push the alternation separator |
| Re.NestedGroupRejected | src/lexer/re.rs:154-155 | a `[` inside a group returns `Err` |
| Re.ParseNestedGroup | src/lexer/re.rs:154-158 | any input that starts with `[[` parses to `Err` |
| Re.EscapeSequences | src/lexer/re.rs:100-112 | after a backslash, `0` is `Epsilon`, `t`, `n`, `r` are tab, newline and carriage return, and any other character stands for itself |
| Re.WhitespaceIgnored | src/lexer/re.rs:135 | unescaped blanks, tabs, newlines and carriage returns leave the machine unchanged |
| Re.AliasReplaced | src/lexer/re.rs:126-134 | `{name}` pushes the definition of name; an unknown name, or no table at all, panics |
| Re.GroupNegation | src/lexer/re.rs:53-65 | closing `[xs ^ ys]` removes the atoms written after `^` from those before it and leaves one union, or the single survivor; nothing surviving panics |
| Re.GroupPlain | src/lexer/re.rs:48-73 | closing a group without `^` keeps every atom in written order |
| Re.FinishSingle | src/lexer/re.rs:181-189 | a stack holding exactly one expression finishes as `Ok` of that expression |
| Re.ParseRange | src/lexer/re.rs:113-125 | the whole input `[a-z]` parses to the union of every character from a to z |
| Re.ApplyAliasSpec | src/lexer/re.rs:193-222 | `apply_alias` replaces each alias by its definition and descends through unions, concatenations, iterations and matches; with alias-free definitions the result is alias-free, and an alias-free expression is unchanged |
| Re.ApplyAlias | src/lexer/re.rs:193-222 | an expression without aliases comes back unchanged |
| Nfa.Splice | src/lexer/re.rs:292-301 | `extend` on an automaton value: the state count grows by the operand's size minus one, the old edges stay a prefix, and the result stays well formed |
| Nfa.ThompsonShape | src/lexer/nfa.rs:5-72 | every automaton of Thompson's construction has a start state no edge enters and an end state no edge leaves, which is what lets `extend` merge an operand's start into the previous end |
| Nfa.Thompson | src/lexer/nfa.rs:5-72 | Thompson's construction gives an automaton with at least one state, its end among them and every edge between its states |
| Nfa.ConstructNfa | src/lexer/nfa.rs:5-72 | `construct_nfa` needs an input without `Alias` or `Match` (those panic); it builds, through the graph operations, exactly the automaton `Thompson(re)`, with start 0 and `ends == [end]`; `Epsilon` gives one state that is start and end, `Atomic(c)` two states joined by one c-edge |
| Nfa.ConstructConcatenation | src/lexer/nfa.rs:25-36 | the concatenation arm splices the operand automata in sequence, each start merged into the previous end |
| Nfa.ConstructUnion | src/lexer/nfa.rs:7-24 | the union arm gives a fresh start an ε-edge into each operand's copy and an ε-edge from each copy's end to one shared end |
| Nfa.RejoinEnds | src/lexer/nfa.rs:18-21 | the union arm's second loop appends, in order, one ε-edge from each operand end to the shared end |
| Nfa.CopyOperand | src/lexer/nfa.rs:14-17 | one pass of the union arm's first loop: a fresh ε-successor of the start with the operand spliced in behind it |
| Nfa.ConstructIteration | src/lexer/nfa.rs:37-50 | the iteration arm adds ε into the operand, ε out to a fresh end, a back edge from the inner end to the inner start and a bypass edge from start to end |
| Nfa.StarShape | src/lexer/nfa.rs:37-50 | the automaton for `a*` has exactly the five edges start→inner start (ε), inner start→inner end (a), inner end→end (ε), the back edge and the bypass edge |
| Nfa.EpsClosureSpec | src/lexer/nfa.rs:82-103 | the ε-closure contains the set, is closed under ε-edges and lies inside every ε-closed superset |
| Nfa.EpsilonClosure | src/lexer/nfa.rs:82-103 | the `epsilon_closure` sweep, repeated until a full pass adds nothing, yields exactly the least ε-closed superset |
| Nfa.ClosurePass | src/lexer/nfa.rs:86-101 | one sweep only adds states inside the closure, and reports a change iff it added one |
| Nfa.ClosureFrom | src/lexer/nfa.rs:91-99 | the ε-successors of one member are added, and a change is reported iff one was new |
| Nfa.MoveStep | src/lexer/nfa.rs:106-119 | `move_step` yields exactly the targets of the edges labelled with the token that leave the set |
| Nfa.MatchNfa | src/lexer/nfa.rs:80-133 | `match_nfa` as written: starts from the ε-closure of the start, returns `Err` as soon as a move set is empty, takes no closure after a move, and returns `Ok` iff the final set meets `ends`, else `Unfinished` (equals `MatchNfaSpec`) |
| Nfa.MatchNfaClosed | src/lexer/nfa.rs:121-132 | the corrected matcher: the same loop with the ε-closure taken after every move (equals `MatchClosedSpec`) |
| Nfa.StarCounterexample | src/lexer/nfa.rs:126-132 | for `a*` and input "a", `match_nfa` as written answers `Unfinished`, while the run with closures answers `Ok` |
| Followpos.Downward | src/lexer/dfa.rs:10-104 | `downward` (which needs an input without `Alias`/`Match` and without an empty concatenation) grows the followpos matrix and the position map and returns nullable, firstpos and lastpos exactly as the walk `Down` does |
| Followpos.CombineUnion | src/lexer/dfa.rs:32-41 | the union's combining loop: nullable if any operand is, firstpos and lastpos joined |
| Followpos.FollowConcat | src/lexer/dfa.rs:53-68 | the concatenation's followpos loops over operands 0 .. n-2 and their lastpos flags |
| Followpos.Chain | src/lexer/dfa.rs:58-66 | the `flag_null` loop adds to row j the firstpos of operands k, k+1, … up to and including the first non-nullable one |
| Followpos.FirstLoop | src/lexer/dfa.rs:70-75 | the concatenation's firstpos loop, stopping after the first non-nullable operand |
| Followpos.LastLoop | src/lexer/dfa.rs:78-84 | the concatenation's lastpos loop over the reversed operands, stopping after the first non-nullable one |
| Followpos.StarLoop | src/lexer/dfa.rs:91-98 | the iteration's loop gives every lastpos row of the operand the operand's whole firstpos |
| Followpos.ChainFromSpec | src/lexer/dfa.rs:58-66 | the `flag_null` loop adds to row j exactly the firstpos reached from operand k through nullable operands, and touches no other row |
| Followpos.RowsFromSpec | src/lexer/dfa.rs:56-67 | row x gains the firstpos reached after operand i exactly when x is in operand i's lastpos |
| Followpos.ConcatFollowSpec | src/lexer/dfa.rs:54-68 | the concatenation's loops add to row x exactly the firstpos of every operand reached, through nullable operands, from an operand whose lastpos holds x |
| Followpos.FirstScanSpec | src/lexer/dfa.rs:70-75 | the firstpos loop: the concatenation is nullable iff every operand is, and its firstpos is what the nullable prefix reaches |
| Followpos.LastScanSpec | src/lexer/dfa.rs:78-84 | the lastpos loop collects the lastpos of the nullable suffix and of the operand that ends it |
| Followpos.StarFollowSpec | src/lexer/dfa.rs:91-98 | every lastpos row gains the whole firstpos, and no other row changes |
| Followpos.UnionSummarySpec | src/lexer/dfa.rs:32-41 | the union is nullable iff some operand is, and its firstpos and lastpos are the unions of the operands' |
| Followpos.DownAtomic | src/lexer/dfa.rs:17-25 | an `Atomic` leaf allocates exactly one new position, growing the matrix by a row and a column and the position map by its character, and returns not-nullable with firstpos = lastpos = {new} |
| Followpos.DownUnion | src/lexer/dfa.rs:26-42 | a union is nullable iff some operand is; its firstpos and lastpos are the operands' unions |
| Followpos.DownConcat | src/lexer/dfa.rs:43-87 | a concatenation links every lastpos of operand i to the firstpos of operands i+1, … up to and including the first non-nullable one; it is nullable iff every operand is; firstpos and lastpos accumulate over the nullable prefix and suffix |
| Followpos.DownIteration | src/lexer/dfa.rs:88-101 | an iteration is always nullable and adds followpos from every lastpos to every firstpos of its operand |
| Followpos.DownShape | src/lexer/dfa.rs:10-104 | `downward` numbers the `Atomic` leaves left to right, agrees with the reference `Nullable`, returns firstpos and lastpos among the positions it created, and adds followpos only between those positions |
| Dfa.Advance | src/lexer/dfa.rs:131-135 | the `ahead` loop of `construct_dfa` yields exactly the flag vector of the union of the followpos rows of the positions of S labelled with the token |
| Dfa.Marked | src/lexer/dfa.rs:113 | `construct_dfa` works on `re` followed by the end marker `$`, which keeps an input fit for the construction fit for it |
| Dfa.Annotated | src/lexer/dfa.rs:115 | `downward` on `re$` leaves a square followpos table with one position per leaf of `re` plus the last position, labelled `$` |
| Dfa.StartWorklist | src/lexer/dfa.rs:121-125 | the start of both constructions: state 0 is the start set, it accepts exactly when that set holds the marker, and the stack holds the start set alone |
| Dfa.ConstructDfa | src/lexer/dfa.rs:109-154 | `construct_dfa` delivers a subset automaton: state 0 is the firstpos of `re$`; the states are distinct position sets; a state accepts exactly when its set holds the position of `$`; on every character of `charmap` a state goes to the state of its followpos union when that union is non-empty and has no edge otherwise; no other edges; a charmap without repeats gives at most one edge per state and label |
| Dfa.ExploreFollow | src/lexer/dfa.rs:118-152 | the worklist loop of `construct_dfa` terminates (there are finitely many flag vectors) and leaves every numbered set with all its transitions |
| Dfa.ExpandFollow | src/lexer/dfa.rs:127-151 | one pop: the popped set gets its transition on each character of `charmap` in turn, new target sets being numbered, marked accepting when they hold the marker, and pushed |
| Dfa.NfaToDfa | src/lexer/dfa.rs:157-243 | `nfa_to_dfa` delivers a subset automaton: state 0 is the ε-closure of the NFA's start; a state accepts exactly when its set holds the NFA's `end`; on each character of `charmap` a state goes to the ε-closure of its move when that is non-empty and has no edge otherwise |
| Dfa.ExpandClosure | src/lexer/dfa.rs:214-240 | one pop of `nfa_to_dfa`: each character's target is the ε-closure of the move of the popped set, linked in as in `construct_dfa` |
| Dfa.MatchDfa | src/lexer/dfa.rs:305-319 | `match_dfa` follows, token by token, the first out-edge labelled with the token; it answers `Err` when some token has no such edge, and otherwise `Ok` or `Unfinished` as the last state is accepting or not |
| Dfa.DfaRunAppend | src/lexer/dfa.rs:307-317 | running the automaton on u + v is running it on u and then on v from where u stopped |
| Dfa.SubsetRun | src/lexer/dfa.rs:127-152 | in an automaton built by either construction, the run from a state tracks the run on sets from that state's set, state for set |
| Dfa.SubsetMatch | src/lexer/dfa.rs:305-319 | `match_dfa` on an automaton built by either construction gives what the run on sets gives from the start set: `Ok` exactly when the last set holds the marker |
| Dfa.ClosureRunAgree | src/lexer/dfa.rs:219-225 | over the characters of `charmap`, the set run of the subset construction is the NFA's run with an ε-closure after every move |
| Dfa.NfaToDfaAgrees | src/lexer/dfa.rs:157-243 | on every word over `charmap`, `match_dfa` on what `nfa_to_dfa` builds answers what the NFA with ε-closures answers |
| Minimize.InitialGroups | src/lexer/dfa.rs:249-255 | before any split a state is in group 1 exactly when it is accepting, and in group 0 otherwise |
| Minimize.SplitGroup | src/lexer/dfa.rs:259-275 | one token's split: every member of group i whose transition differs from the first member's moves to the one new group `groups + 1`; every other state keeps its group; the group count grows by one exactly when some member moved |
| Minimize.SplitKeeps | src/lexer/dfa.rs:258-278 | a split keeps the refinement invariant: groups never mix accepting and other states, members of a finished group agree on all of `charmap`, and states in different groups have different rows |
| Minimize.Refine | src/lexer/dfa.rs:249-278 | the splitting loop terminates, and afterwards two states share a group exactly when they have the same row: both accepting or both not, and the same target state on every token of `charmap` |
| Minimize.BuildGroup | src/lexer/dfa.rs:284-295 | group i of the quotient is marked start when the original start is in it and accepting when an accepting state is in it, and gets one edge per token, to the group of the target of its first member that has a transition on that token |
| Minimize.BuildQuotient | src/lexer/dfa.rs:280-296 | the quotient has one state per group; its edges are the groups' edges in group order; its start is the start's group and its accepting states are the groups holding an accepting state (both only when `charmap` is non-empty, since the marking sits inside the token loop) |
| Minimize.QuotientStep | src/lexer/dfa.rs:283-295 | a group of the quotient moves on a token of `charmap` to the group of its first member's target, and has no other transitions |
| Minimize.QuotientRun | src/lexer/dfa.rs:283-295 | running the quotient from a state's group follows the original run, group for state |
| Minimize.QuotientMatches | src/lexer/dfa.rs:247-298 | on every word over `charmap`, the quotient answers `Ok`, `Unfinished` or `Err` exactly as the original automaton does |
| Minimize.MinimizeDfa | src/lexer/dfa.rs:247-298 | `minimize_dfa` merges exactly the states with the same row, builds the quotient, and on every word over a non-empty `charmap` matches as the original |
| Lexer.Views | src/lexer.rs:28-34 | the value view of the rules keeps, rule for rule, the name, the automaton's edges, start and accepting states, and the two flags |
| Lexer.DeadExtends | src/lexer/dfa.rs:305-319 | once a rule's automaton has no run on the buffer it has none on any longer buffer, which is why a stopped rule need not be re-run |
| Lexer.Reset | src/lexer.rs:54-58 | `reset` gives one fresh process per rule, in rule order, with no recorded offset and still valid |
| Lexer.Advance | src/lexer.rs:67-100 | one process after the buffer grows: its rule is kept; its recorded offset stays or becomes the current offset, and only when the automaton accepts the buffer; a stopped process never becomes valid again |
| Lexer.AdvanceAll | src/lexer.rs:67-100 | the `map` over the processes advances each of them by its own rule |
| Lexer.Best | src/lexer.rs:109 | the `max_by` over the processes with a recorded offset: none exactly when no process recorded one; otherwise a process of the list with the furthest offset, the lowest rule winning a tie |
| Lexer.LexStep | src/lexer.rs:62-142 | one loop iteration keeps the loop invariant (the buffer is the input just before the offset; it is empty exactly after a token; one process per rule with recorded offsets inside the buffer) and makes progress: the token start moves forward, or stays while the offset moves forward; the line counter moves only on a newline read; at most one token is appended and earlier tokens are kept |
| Lexer.LexStepContinue | src/lexer.rs:104-108 | while some process is still valid the step only reads the character: the offset moves on, the buffer grows, no token is emitted |
| Lexer.LexStepEmit | src/lexer.rs:109-120 | when every process has stopped and one recorded an offset, the step emits the buffered text up to that offset under the winning rule's name (nothing for an ignored rule) and resumes just after it |
| Lexer.LexStepFail | src/lexer.rs:121-139 | when every process has stopped and none recorded an offset, the buffer becomes an ERROR token, except for the lone sentinel, and the character just read is read again unless the buffer held only it |
| Lexer.BestInRange | src/lexer.rs:109-119 | the winner names a rule and its offset lies inside the buffer, so the slice that becomes the token is well defined |
| Lexer.Lex | src/lexer.rs:61-143 | the loop ends, with the whole input read, the loop invariant kept and the line counter never decreased |
| Lexer.AdvanceRecorded | src/lexer.rs:67-100 | reading one more character keeps what a process knows: a recorded offset is one where its rule accepts; a greedy rule has recorded the last such offset; a greedy rule that stopped has no run on the text read |
| Lexer.StoppedRejects | src/lexer.rs:67-100 | a greedy rule that stopped accepts no text from the token's start ending at the offset it stopped on or later |
| Lexer.WinnerLongest | src/lexer.rs:109-119 | the text emitted when every rule has stopped is a longest match: its rule accepts it, no greedy rule accepts any longer text from the same start, and no greedy rule declared earlier accepts the same text |
| Lexer.LexStepSound | src/lexer.rs:62-142 | each iteration keeps what the processes know and appends only sound tokens |
| Lexer.LexSound | src/lexer.rs:61-143 | the rest of the scan appends only sound tokens |
| Lexer.TokensSound | src/lexer.rs:37-146 | every token `tokenize` returns is an ERROR token for a non-empty stretch of the input, or the longest match of a rule that is not ignored, under that rule's name |
| Lexer.AdvanceRules | src/lexer.rs:67-100 | the loop over the processes computes exactly the value `AdvanceAll`, re-running `match_dfa` on the whole buffer for each valid rule |
| Lexer.BestOf | src/lexer.rs:109 | the loop computes exactly the winner `Best` |
| Lexer.ScanStep | src/lexer.rs:62-142 | one iteration of the loop on its variables computes exactly `LexStep` |
| Lexer.Emit | src/lexer.rs:112-120 | the match branch computes exactly `Emitted` |
| Lexer.Fail | src/lexer.rs:122-139 | the error branch computes exactly `Failed` |
| Lexer.ScanAll | src/lexer.rs:61-143 | the loop computes exactly `Lex` |
| Lexer.Tokenize | src/lexer.rs:37-146 | `tokenize` appends the NUL sentinel, runs the scan and always returns `Ok` with the tokens of `Lex` |
| Config.Lines | src/lexer.rs:151 | `split('\n')` gives at least one piece and no piece holds a newline |
| Config.UnlinesLines | src/lexer.rs:151 | cutting the text at newlines loses nothing: joining the pieces back with newlines gives the text |
| Config.LinesUnlines | src/lexer.rs:151 | pieces without newlines, joined and cut again, come back unchanged |
| Config.Words | src/lexer.rs:165 | `split_whitespace` gives non-empty words free of whitespace, and none exactly when the line is blank |
| Config.WordsJoin | src/lexer.rs:175 | words joined by single spaces split back into the same words, so the expression text handed to the parser keeps its words |
| Config.Flags | src/lexer.rs:165-173 | the rule name's marks: the rule is non-greedy exactly when the name ends in `?`, ignored exactly when what is left starts with `-`, and writing the stripped name with its marks again gives the name read |
| Config.FlagsDecorated | src/lexer.rs:165-173 | a name without marks of its own reads back with exactly the flags it was written with |
| Config.Classify | src/lexer.rs:160-175 | a line is skipped exactly when it is blank or starts with `#`, switches sections exactly when it is not blank and starts with `%`, and otherwise is an entry whose first word is the marked name and whose body is the other words joined by single spaces |
| Config.LineStep | src/lexer.rs:158-194 | one line: it records at most one rule, and only after the `%` line; a rule recorded is ready for `construct_dfa` and is named by the line's first word; only a `%` line changes the section; a parse failure (the `expect`) is `None` |
| Config.Load | src/lexer.rs:158-195 | the loop over the lines keeps the rules recorded before it, in order, and every rule it adds is ready for `construct_dfa` |
| Config.NoSwitchNoRules | src/lexer.rs:161-164 | without a `%` line no rule is recorded: lines before it only define aliases |
| Config.LoadFromLines | src/lexer.rs:158-195 | every rule the loop records comes from an entry line of the file, in order, and is ready for `construct_dfa` |
| Config.ReadLine | src/lexer.rs:158-194 | one iteration of the loop computes what `LineStep` says, building the rule's automaton with `construct_dfa` over the characters 0 to 254 |
| Config.ReadConfig | src/lexer.rs:148-196 | `read_config` on the file's text panics exactly when the line loop does, and otherwise returns one rule per recorded entry, in order, with its name, its flags and the automaton `construct_dfa` builds for its expression |
| Tree.NewNode | src/utils/tree.rs:81-87 | `Node::new` holds the value, no children and index 0 |
| Tree.Get | src/utils/tree.rs:105-107 | `get(i)` is `Some` exactly when i is below `len()`, and then it is child i |
| Tree.PushChild | src/utils/tree.rs:121-123 | `push` appends the node after the existing children, which keep their order, and changes nothing else |
| Tree.SwapChildren | src/utils/tree.rs:125-127 | `swap(a, b)` exchanges children a and b, leaves every other child in place and keeps the multiset of children |
| Tree.RemoveChild | src/utils/tree.rs:113-115 | `remove(i)` returns child i and keeps the other children in order |
| Tree.SwapRemove | src/utils/tree.rs:117-119 | `swap_remove(i)` returns child i and moves the last child into slot i, leaving the others in place |
| Tree.SwapRemoveKeeps | src/utils/tree.rs:117-119 | `swap_remove` loses no child: the remaining children and the removed one are the old children, as a multiset |
| Tree.Start | src/utils/tree.rs:13-15 | `zipper()` focuses on the node itself, with no parent frame and slot 0 |
| Tree.Child | src/utils/tree.rs:27-35 | `child(i)` focuses on child i, remembers slot i, and keeps the old zipper, without that child, as the parent frame |
| Tree.Parent | src/utils/tree.rs:41-62 | `parent()` puts the focus back into slot i of its parent, which grows by one child, and restores the parent's own frame and slot; the depth shrinks by one |
| Tree.ParentChild | src/utils/tree.rs:27-62 | going down to child i and back up gives back exactly the zipper before, children in their old order |
| Tree.PushFocus | src/utils/tree.rs:27-35 | pushing a node and descending into the last slot focuses on that node with the old zipper, unchanged, as its parent frame |
| Tree.ParentLast | src/utils/tree.rs:41-62 | climbing from the last slot appends the focus to the parent's children |
| Tree.ChildClimbable | src/utils/tree.rs:27-35 | descending keeps every frame of the chain climbable |
| Tree.ParentClimbable | src/utils/tree.rs:41-62 | climbing keeps every frame of the chain climbable |
| Tree.RootChild | src/utils/tree.rs:27-69 | descending to a child does not change the tree `finish` returns |
| Tree.Finish | src/utils/tree.rs:64-69 | `finish` climbs until no parent frame is left and returns the root the chain denotes; a zipper without a parent returns its own node |
| Tree.FinishStart | src/utils/tree.rs:13-15 | `zipper(n).finish()` is n |
| ParseTree.FromProduction | src/parser.rs:32-39 | the nonterminal made from a production has the production's name as its type, its label as its value, and a copy of the production |
| ParseTree.ConsistentFrom | src/parser.rs:32-39 | every nonterminal whose type and value agree with its recorded production is the one that production gives |
| Grammar.TermEqSpec | src/parser/grammar.rs:397-413 | `Term == Term` on formal terms is equality of what they stand for (a nonterminal's name, a terminal's type and value), ignores the `unwrap` flag, and is reflexive, symmetric and transitive |
| Grammar.EqualHash | src/parser/grammar.rs:418-432 | equal terms hash alike (name or type, then the kind's tag), as a `HashMap` keyed by terms needs |
| Grammar.ValueNotHashed | src/parser/grammar.rs:405-428 | two terminals that differ only in their value are unequal and still hash alike |
| Grammar.IsUnwrap | src/parser/grammar.rs:344-362 | `is_unwrap` is the term's flag for every kind except terminals, which are never unwrapped |
| Grammar.MatchToken | src/parser/grammar.rs:385-389 | `match_token` asks a terminal only (anything else panics); a match needs the same type; a terminal equal to the token's term matches; a terminal with a value matches exactly when it equals the token's term |
| Grammar.FromToken | src/parser/grammar.rs:434-450 | the term made from a token is a terminal with the token's type and value |
| Grammar.NewNonTerminal | src/parser/grammar.rs:364-369 | `Term::nonterminal` stands for the named nonterminal and is not unwrapped |
| Grammar.NewTerminal | src/parser/grammar.rs:371-376 | `Term::terminal` stands for the terminal type with no value and is not unwrapped |
| Grammar.Dedup | src/parser/grammar.rs:91-113 | the first-occurrence list holds every element of the input, nothing else, and no element twice |
| Grammar.DedupOrder | src/parser/grammar.rs:91-113 | it lists elements in the order of their first occurrences |
| Grammar.NonTerminals | src/parser/grammar.rs:91-99 | `non_terminals` lists every production name once, in order of first appearance |
| Grammar.TerminalTerms | src/parser/grammar.rs:103-105 | a term is walked by `terminals` exactly when it is a terminal in the body of some production |
| Grammar.TerminalsOf | src/parser/grammar.rs:101-113 | `terminals` lists every distinct terminal of the bodies once, in order of first appearance |
| Grammar.Contains | src/parser/grammar.rs:106 | `contains` on a list of terminals, comparing with `Term == Term`, is membership |
| Grammar.Symbols | src/parser/grammar.rs:115-122 | `symbols` is the terminals followed by every nonterminal name as a term without `unwrap` |
| Grammar.GetProductions | src/parser/grammar.rs:124-126 | `get_productions(nt)` holds exactly the productions named nt, and no more than the grammar has |
| Grammar.GetProductionsFilter | src/parser/grammar.rs:124-126 | `get_productions(nt)` is the `filter` of the productions by their name: the ones named nt, in grammar order, repeats kept |
| Grammar.GetProductionsIndices | src/parser/grammar.rs:124-126 | the k-th production returned is the production at a strictly increasing position of the grammar, named nt, and every position holding a production named nt is among them |
| Grammar.Step | src/parser/grammar.rs:59-75 | `parse_step!` succeeds exactly when the token at the cursor has the expected type; it then gives that token's value and moves the cursor by one, and otherwise fails at the cursor without moving it |
| Grammar.TermAt | src/parser/grammar.rs:291-342 | `Term::parse_inner` never moves the cursor backwards or past the end, and consumes at least one token when it succeeds |
| Grammar.ExprAt | src/parser/grammar.rs:236-246 | `Expression::parse_inner` gives at least one term when it succeeds, consumes at least one token, and puts the cursor back after the last term that parsed |
| Grammar.AltAt | src/parser/grammar.rs:139-163 | one alternative carries the rule's name and a non-empty label; a malformed precedence is a panic |
| Grammar.ParseTerm | src/parser/grammar.rs:291-342 | the reader's statements for a term compute exactly `TermAt`, cursor included |
| Grammar.ParseBracket | src/parser/grammar.rs:312-335 | a bracketed term computes exactly `BracketAt`: an expression, the closer, and `>` when `<` opened it, with the stored flag the negation of that `<` |
| Grammar.ParseExpression | src/parser/grammar.rs:236-246 | the expression loop computes exactly `ExprAt`, cursor included |
| Grammar.ParseAlternative | src/parser/grammar.rs:139-190 | one alternative as the statements read it computes exactly `AltAt`: optional label, optional precedence, optional label again (the later wins), a body that is empty when none parses, and `#i` when unlabelled |
| Grammar.ParseGrammar | src/parser/grammar.rs:132-196 | `Grammar::parse` computes exactly `ParseSpec`: rules until no production name follows, an error where `Assign` or `Terminator` is missing, and a panic when there is no production at all |
| Grammar.RulesSpec | src/parser/grammar.rs:132-196 | a parsed grammar has at least one production, every production has a non-empty label, and the start symbol is the first production's name |
| Grammar.AltsLabels | src/parser/grammar.rs:165-191 | every alternative after a `|` carries the rule's name and a non-empty label |
| Grammar.UnlabelledAlt | src/parser/grammar.rs:156 | an alternative without a label token, or with empty ones only, is labelled `#` followed by its number within the rule |
| Transform.NewSubstitution | src/parser/transform.rs:29-42 | `Substitution::new` needs pos inside the source's body (`remove` panics otherwise); the target keeps the source's name, precedence and associativity, its label is the source's label, `#`, the rule's name, `#` and the rule's label, and its body is the source's with term pos replaced by the rule's whole body, the terms before and after kept in order |
| Transform.ApplyToGrammar | src/parser/transform.rs:44-47 | `apply_to_grammar` replaces every production equal to the source by the target and keeps every other production, the grammar's order and its other fields |
| Transform.ProductionEqSpec | src/parser/grammar.rs:21-29 | the derived production equality, which compares terms with `Term ==`, is reflexive, symmetric and transitive on formal productions |
| Transform.ApplyReplaces | src/parser/transform.rs:44-47 | after the substitution no production equals the source (when the target does not), and each production is the target or the production that stood there |
| Transform.Replaced | src/parser/transform.rs:105-191 | a term of a body is replaced by a formal term: a group, optional or repetition by an unwrapped nonterminal, anything formal by itself |
| Transform.Pushed | src/parser/transform.rs:105-191 | a term pushes productions exactly when it is a bracket: one for a group, three for an optional (body, `epsilon`, `main` naming the body), three for a repetition (body, `epsilon`, `main` naming the body then itself) |
| Transform.Formalize | src/parser/transform.rs:102-194 | one pop of the worklist gives a formal production with the popped one's name, label, precedence and associativity |
| Transform.FormalizeFormal | src/parser/transform.rs:191 | a formal production is kept as it is and pushes nothing |
| Transform.FormalizeTerms | src/parser/transform.rs:105-192 | the `map` over a body computes exactly `Formalize`: the replaced terms and, in order, everything pushed |
| Transform.PopWeight | src/parser/transform.rs:102-196 | each pop makes the worklist lighter, so the loop of `convert_to_formal_grammar` terminates |
| Transform.ConvertToFormalGrammar | src/parser/transform.rs:99-198 | `convert_to_formal_grammar` runs the worklist whose top is the first production and keeps every field but the productions |
| Transform.ConvertFormal | src/parser/transform.rs:99-198 | every production it outputs holds only nonterminals and terminals |
| Transform.ConvertKeeps | src/parser/transform.rs:99-198 | every input production is in the output with its brackets replaced |
| Transform.ConvertPushes | src/parser/transform.rs:105-190 | every production a bracket stands for is in the output, its own brackets replaced |
| Transform.ConvertAttrs | src/parser/transform.rs:112-184 | no output production has a precedence and associativity that no input production has |
| Transform.ConvertFormalUnchanged | src/parser/transform.rs:99-198 | a grammar that is already formal comes out unchanged, order included |
| Transform.OptionalAlternatives | src/parser/transform.rs:120-153 | an optional term leaves in the output an `epsilon` alternative with an empty body and a `main` alternative naming its body |
| Transform.MinPrecedence | src/parser/transform.rs:244 | the least precedence among nt's productions: none exactly when nt has no production, otherwise one of theirs and no greater than any of them |
| Transform.PushTail | src/parser/transform.rs:266-271 | the `iter_mut` loop appends the tail nonterminal to every production and changes nothing else |
| Transform.Split | src/parser/transform.rs:242-260 | the inner loop splits nt's productions into the left-recursive ones (moved to `nt##` without their first term) and the others, and finds their least precedence |
| Transform.EliminateOne | src/parser/transform.rs:237-283 | what one nonterminal contributes: its productions as they are when none is left recursive; otherwise A → β A##, A## → α A## and A## → ε |
| Transform.EliminateFor | src/parser/transform.rs:237-283 | each production of the nonterminal gives one production, plus the empty tail alternative when some production is left recursive |
| Transform.ElimateLeftRecursion | src/parser/transform.rs:234-288 | `elimate_left_recursion` handles the nonterminals in order of first appearance and concatenates their contributions |
| Transform.SplitCount | src/parser/transform.rs:242-260 | the two parts together are as many as nt's productions, and with no left recursion the second part is all of them, in order |
| Transform.SplitShape | src/parser/transform.rs:242-260 | the kept productions belong to nt and are not left recursive; the moved ones belong to `nt##` |
| Transform.EliminateUnchanged | src/parser/transform.rs:261-264 | a nonterminal none of whose productions starts with itself keeps its productions, unchanged and in grammar order |
| Transform.EliminateNames | src/parser/transform.rs:237-283 | after elimination nothing that nt contributes is left recursive in nt; every such production belongs to nt or to `nt##` |
| Transform.EliminateAllShape | src/parser/transform.rs:234-288 | every production of the result belongs to one of the nonterminals handled, either without direct left recursion under its name or to its tail |
| Transform.EliminateTails | src/parser/transform.rs:266-283 | a left-recursive nonterminal gains exactly one production, the empty `epsilon` alternative of `nt##`, whose precedence is the least of nt's; every other production it contributes ends with `nt##` |
| Transform.GroupsOf | src/parser/transform.rs:371-386 | the grouping of `left_factor` has one map per production name; every group is a non-empty run of that name's productions whose first terms share the group's key; every non-empty production is filed in its group |
| Transform.NewGroups | src/parser/transform.rs:373-375 | the first loop gives every nonterminal an empty map |
| Transform.FileProductions | src/parser/transform.rs:376-386 | the filing loop sets the empty productions aside, in order, and files every other one under its name and first term |
| Transform.FactorName | src/parser/transform.rs:389-410 | one nonterminal's groups, in the map's iteration order: a lone production is kept, a larger group becomes the head `n → t n$#i` and the members' suffixes under `n$#i` |
| Transform.FactorAll | src/parser/transform.rs:388-411 | the outer loop appends each nonterminal's groups, in the map's iteration order |
| Transform.LeftFactor | src/parser/transform.rs:370-413 | `left_factor`, for any iteration order of its hash maps, outputs the empty productions first, then each nonterminal's groups |
| Transform.GroupMembers | src/parser/transform.rs:381-385 | a production's group holds exactly the productions of the grammar with its name whose first term equals its own, and the group's term carries that key |
| Transform.LeftFactorCovers | src/parser/transform.rs:388-410 | a non-empty production alone in its group is output as it is; a group of two or more is output as its head and one suffix per member |
| Transform.LeftFactorOnly | src/parser/transform.rs:388-410 | nothing else is output: every factored production is a lone production, or the head or a member's suffix of a group of two or more |
| Retrieve.Splice | src/parser/transform.rs:439-446 | the `zip` and `flat_map` over a node's children and its production's terms: with no unwrapped term every child is kept, in order, cut to the number of terms |
| Retrieve.RetrieveUnwrap | src/parser/transform.rs:416-453 | `retrieve_unwrap` keeps every node's value and index and splices in the children of unwrapped nonterminals |
| Retrieve.SpliceFringe | src/parser/transform.rs:439-446 | splicing keeps the tokens, in order, when no child is cut off and no token stands for an unwrapped nonterminal |
| Retrieve.RetrieveUnwrapFringe | src/parser/transform.rs:416-453 | on a tree of the parsers' shape `retrieve_unwrap` keeps the tokens of the tree, in order |
| Retrieve.RetrieveUnwrapPlain | src/parser/transform.rs:416-453 | a tree with no unwrapped nonterminal comes back unchanged |
| Retrieve.DropLast | src/parser/transform.rs:319-324 | the `flag_epsilon` branch pops the last child (and the last term of the node's production) and keeps the other children |
| Retrieve.RotateMeasure | src/parser/transform.rs:325-341 | a rotation keeps the number of nodes and shortens the chain of tail nodes, so the loop of `retrieve_left_recursion` terminates |
| Retrieve.RotateWellFormed | src/parser/transform.rs:325-341 | a rotation keeps every nonterminal node's production consistent with its type |
| Retrieve.RotateFringe | src/parser/transform.rs:325-341 | a rotation (the tail child, renamed, takes the node as its first child) keeps the tokens of the tree, in order |
| Retrieve.RetrieveLeftRecursion | src/parser/transform.rs:293-360 | every nonterminal node of the result still records a production consistent with its type |
| Retrieve.RetrieveLeftRecursionFringe | src/parser/transform.rs:293-360 | `retrieve_left_recursion` keeps the tokens of a well-formed tree, in order |
| Retrieve.RetrieveLeftRecursionNoTails | src/parser/transform.rs:293-360 | a tree with no tail node comes back unchanged |
| LLParser.Push | src/parser/llparser.rs:29-36 | `push` leaves x in the set: the set unchanged when x was there, x appended at the end otherwise |
| LLParser.Union | src/parser/llparser.rs:18-27 | `append` keeps the set's items as a prefix of the result |
| LLParser.UnionSpec | src/parser/llparser.rs:18-27 | `append` holds exactly the items of either set, keeps a set without repetitions free of them, and leaves it unchanged iff every item of rhs was in it, iff its length does not change |
| LLParser.RemoveEpsilonSpec | src/parser/llparser.rs:42-49 | `remove_epsilon` leaves exactly the items other than epsilon, still without repetitions |
| LLParser.TerminalSet.constructor | src/parser/llparser.rs:8-11 | the `Default` terminal set is empty |
| LLParser.TerminalSet.Len | src/parser/llparser.rs:14-16 | `len` is the number of items |
| LLParser.TerminalSet.Append | src/parser/llparser.rs:18-27 | the `append` loop pushes each new item of rhs in order and returns true iff some item of rhs was missing |
| LLParser.TerminalSet.PushItem | src/parser/llparser.rs:29-36 | `push` appends x unless it is there and returns true iff it was missing |
| LLParser.TerminalSet.AppendEpsilon | src/parser/llparser.rs:38-40 | `append_epsilon` pushes the epsilon terminal and returns true iff it was missing |
| LLParser.TerminalSet.RemoveEpsilonItem | src/parser/llparser.rs:42-49 | `remove_epsilon` removes the epsilon terminal and returns true iff it was there |
| LLParser.TerminalSet.ContainsEpsilon | src/parser/llparser.rs:51-53 | `contains_epsilon` is true iff epsilon is an item |
| LLParser.FirstOfTerm | src/parser/llparser.rs:79-83 | what `first` holds for a terminal is the terminal alone |
| LLParser.FirstFromMembers | src/parser/llparser.rs:62-75 | `get_first` of a suffix holds, without repetitions, exactly the symbols of FIRST of that suffix: the non-epsilon symbols of each term's set up to the first term that is not nullable, and epsilon iff every term is nullable |
| LLParser.GetFirst | src/parser/llparser.rs:62-75 | the `get_first` closure's loop, with its `break` and its `flag`, computes FIRST of the suffix of the body from position `from` |
| LLParser.AppendAt | src/parser/llparser.rs:95 | appending to a nonterminal's entry grows only that entry, and reports growth iff some symbol was new, iff the entry got longer |
| LLParser.FirstPass | src/parser/llparser.rs:92-96 | one pass over the productions: the sets only grow, strictly when `flag_move` is set; with no move the sets satisfy every FIRST inclusion; the pass never leaves the least solution |
| LLParser.FirstSets | src/parser/llparser.rs:77-98 | the FIRST loop terminates with the least sets satisfying every production's FIRST inclusion |
| LLParser.FollowStepFacts | src/parser/llparser.rs:110-118 | one position of the FOLLOW loop only grows the sets; when it changes nothing the position's FOLLOW inclusions hold; it never leaves the least solution |
| LLParser.FollowAt | src/parser/llparser.rs:110-118 | the body of the inner loop computes that step and reports whether it moved |
| LLParser.FollowProduction | src/parser/llparser.rs:109-120 | the loop over a production's positions only grows the sets; with no move every position's FOLLOW inclusions hold; it never leaves the least solution |
| LLParser.FollowPass | src/parser/llparser.rs:108-121 | one pass over the productions: the same three facts for the whole grammar |
| LLParser.FollowInitLeast | src/parser/llparser.rs:101-104 | the starting FOLLOW sets (all empty, the end marker for the start symbol) lie below every solution |
| LLParser.FollowSets | src/parser/llparser.rs:100-123 | the FOLLOW loop terminates with the least sets that put the end marker after the start symbol and satisfy every FOLLOW inclusion |
| LLParser.Lookup | src/parser/llparser.rs:188-189 | a table lookup finds a production iff the row and the lookahead's entry exist |
| LLParser.ChosenNone | src/parser/llparser.rs:131-149 | the entry for (A, t) is empty iff no production of A is predicted on t |
| LLParser.ChosenLast | src/parser/llparser.rs:131-149 | a filled entry is the last production of A predicted on t, since a later `insert` overwrites an earlier one |
| LLParser.ChosenUnique | src/parser/llparser.rs:131-149 | when only one production of A is predicted on t (an LL(1) grammar) the entry is that production |
| LLParser.Insert | src/parser/llparser.rs:135 | `insert` sets one entry of one row and leaves every other entry and the rows as they were |
| LLParser.InsertAll | src/parser/llparser.rs:134-140 | the inner loop maps every FOLLOW symbol of the production's name to the production |
| LLParser.InsertProduction | src/parser/llparser.rs:132-148 | one production's loop maps exactly the lookaheads on which it is predicted to it: the non-epsilon symbols of FIRST of its body, and FOLLOW of its name when the body is nullable |
| LLParser.BuildTable | src/parser/llparser.rs:127-149 | the table has a row per nonterminal and each entry is the last production predicted on its lookahead |
| LLParser.GenerateTable | src/parser/llparser.rs:58-160 | `generate_table` panics exactly when a production mentions an undefined nonterminal or the start symbol has no production; otherwise it returns the table built from the least FIRST and FOLLOW sets |
| LLParse.Init | src/parser/llparser.rs:172-183 | the loop starts with `$` under the start symbol on the stack, at token 0, with no errors and a zipper at an empty `InnerNode` root |
| LLParse.Climb | src/parser/llparser.rs:204-213 | the `while f` loop climbs past full nonterminal nodes: it stops at a node that is not full, in the same tree, and fails (the source's panic) only when it would climb past the root |
| LLParse.Predict | src/parser/llparser.rs:188-189 | the lookup tries the token with its value, then its type alone, and `$` at the end of the input |
| LLParse.Descend | src/parser/llparser.rs:190-202 | the new node is pushed as the last child and the zipper moves to it |
| LLParse.Graft | src/parser/llparser.rs:228-234 | a leaf is pushed as the last child and nothing else changes |
| LLParse.Step | src/parser/llparser.rs:184-256 | one turn of the loop keeps the token index within the input and the zipper climbable, and never drops an error |
| LLParse.StepAsWritten | src/parser/llparser.rs:224-227 | as written, a terminal other than `$` at the end of the input indexes past the tokens |
| LLParse.Run | src/parser/llparser.rs:184-256 | a loop that stops has an empty stack, an index within the input and every earlier error |
| LLParse.RunAsWritten | src/parser/llparser.rs:184-256 | the body follows the source as written (the step that indexes past the tokens); a loop that stops has an empty stack, an index within the input and a climbable zipper |
| LLParse.Conclude | src/parser/llparser.rs:257-267 | after the loop the result is an error list iff tokens are left or errors were met; it starts with the errors met, and is "Program Too Long" alone when tokens are left and nothing else went wrong |
| LLParse.ParseWith | src/parser/llparser.rs:170-267 | the loop from the start symbol, then the final match: an error result always carries at least one error |
| LLParse.ParseAsWritten | src/parser/llparser.rs:170-267 | the body follows the source as written; an error result always carries at least one error |
| LLParse.ClimbFull | src/parser/llparser.rs:208-213 | the climbing loop computes `Climb` |
| LLParse.Drive | src/parser/llparser.rs:177-267 | the stack loop and the final match compute `ParseWith` |
| LLParse.IsTableOk | src/parser/llparser.rs:127-149 | the table `generate_table` builds has a row per nonterminal and holds only productions of the grammar, each in its own name's row |
| LLParse.StepSafe | src/parser/llparser.rs:184-256 | with such a table a turn never panics and keeps every stacked term one of the grammar's |
| LLParse.RunSafe | src/parser/llparser.rs:184-256 | with such a table the loop never panics |
| LLParse.StepGood | src/parser/llparser.rs:184-256 | a turn without errors keeps the tree a partial derivation whose pending terms are the stack and whose leaves are the tokens read |
| LLParse.ParseSound | src/parser/llparser.rs:170-267 | with the table of the grammar the loop never panics, nor does `parse` when `$` is used by neither the grammar nor the tokens; a tree it returns derives the tokens, in order, from the start symbol |
| LLParse.FinishedTree | src/parser/llparser.rs:257-258 | a finished run without errors leaves the root with one child, a derivation of the input from the start symbol, so `remove(0)` does not panic |
| LLParse.Parse | src/parser/llparser.rs:170-267 | `parse` panics when the table cannot be built and (with `$` unused) only then; otherwise it is the loop over the grammar's table, and a tree it returns derives the tokens from the start symbol |
| LLParse.ShortEnd | src/parser/llparser.rs:224-227 | on `S = a b ;` and the input `a`, the step as written indexes past the tokens while the corrected step reports `b` as expected |
| LLParse.EndOfInputCounterexample | src/parser/llparser.rs:224-227 | on that input `parse` as written panics and the corrected one returns the error `Expected b` at token 1 |
| RdParser.Gather | src/parser/rdparser.rs:137-141 | a bracket takes the children of an `InnerNode` or the node itself, and with them exactly the node's tokens |
| RdParser.Relabel | src/parser/rdparser.rs:52-58 | the expression's `InnerNode` becomes the production's nonterminal node, children and index kept |
| RdParser.ParseTerm | src/parser/rdparser.rs:92-178 | a term's parse moves the cursor forward within the input and never lowers `err`; a terminal matches iff the next token exists and matches, and then is a leaf and moves one token, otherwise it fails at the cursor without moving it; a nonterminal's node records a production of the grammar with its name; a failed nonterminal fails at `err`; an optional part or a repetition never fails |
| RdParser.TryRules | src/parser/rdparser.rs:95-113 | each production with the nonterminal's name is tried from the same start; a match is a node for one of them; when all fail the result fails at the largest failure index seen |
| RdParser.ParseExpr | src/parser/rdparser.rs:67-89 | an expression that matches yields an `InnerNode` at its start index |
| RdParser.ParseTerms | src/parser/rdparser.rs:73-83 | the term loop stops at the first failure and otherwise gathers the nodes under an `InnerNode` at the start index |
| RdParser.Repeat | src/parser/rdparser.rs:159-176 | a repetition never fails: it yields a `List` node at its start index and leaves the cursor after the last turn that matched |
| RdParser.ParseWith | src/parser/rdparser.rs:25-46 | `Parser for Production` yields the production's node at token 0, or a failure index within the input |
| RdParser.ParseAsWritten | src/parser/rdparser.rs:25-46 | the body follows the source as written, the cursor left where a failed optional part stopped (rdparser.rs:150); a match is still the production's node at token 0, and a failure index stays within the input |
| RdParser.Parse | src/parser/rdparser.rs:25-46 | the corrected parser, with the cursor put back after a failed optional part: a match is the production's node at token 0, a failure index stays within the input |
| RdParser.ParseExpression | src/parser/rdparser.rs:67-89 | the `for term` loop computes `ParseExpr` |
| RdParser.ParseNonTerminal | src/parser/rdparser.rs:95-113 | the `for r in &grammar.productions` loop computes the nonterminal's `ParseTerm` |
| RdParser.ParseRepetition | src/parser/rdparser.rs:159-176 | the `while let Ok(n)` loop computes the repetition's `ParseTerm` |
| RdParser.TermReads | src/parser/rdparser.rs:92-178 | with the cursor put back after a failed optional part, a term that matches has exactly the tokens it read as leaves |
| RdParser.ExprReads | src/parser/rdparser.rs:67-89 | so has an expression that matches |
| RdParser.ParseSound | src/parser/rdparser.rs:25-46 | a production that matches yields its node whose leaves are a prefix of the input, in order |
| RdParser.OptionalSkipsTokens | src/parser/rdparser.rs:150 | on `S = [a b] c ;` and the input `a c` the parser as written matches with `c` as the only leaf, `a` read but in no node; with the cursor put back the input is rejected at token 0 |
| LRItems.NextTerm | src/parser/lrparser.rs:161-162 | an item has a next term iff its dot is before the end of the body, and then it is the term after the dot |
| LRItems.Extend | src/parser/lrparser.rs:71-79 | `extend` adds the lookaheads to the item's set (a new item gets them as its set), leaves every other item alone, and returns true iff the item was new or the set grew |
| LRItems.Push | src/parser/lrparser.rs:63-69 | `push` adds one lookahead in the same way and returns true iff the item was new or the lookahead was not in its set |
| LRItems.MergeSpec | src/parser/lrparser.rs:81-87 | `extend_all` gives the least item set holding both, with the keys of both; it leaves the set unchanged iff nothing grows |
| LRItems.ExtendAll | src/parser/lrparser.rs:81-87 | the `extend_all` loop, in any order of the map, computes that merge and returns true iff something grew |
| LRItems.SameCoreSpec | src/parser/lrparser.rs:96-100 | the `PartialEq` of item sets, which compares keys only, is an equivalence, and a merge keeps it iff it adds no item |
| LRTable.RowFromInv | src/parser/lrparser.rs:638-667 | the item loop keeps the row invariant: an entry for exactly the symbols the visited items propose, each entry a visited item's proposal with the lowest precedence among them; the `expect` panics only when an item's symbol has no transition |
| LRTable.RowSpec | src/parser/lrparser.rs:636-668 | for every order of the items, a row exists when every item's symbol has a transition, has an entry for exactly the proposed symbols, each a shift to the automaton's target or a reduce by a completed rule on one of its lookaheads, of lowest precedence among the proposals |
| LRTable.ReduceAll | src/parser/lrparser.rs:654-665 | the lookahead loop of a completed item computes `ReduceInto` |
| LRTable.ConstructRow | src/parser/lrparser.rs:637-668 | the loop over one state's items computes `RowOf` |
| LRTable.Datas | src/parser/lrparser.rs:638 | the states' item sets, one per vertex in order |
| LRTable.TableFromSpec | src/parser/lrparser.rs:635-669 | the state loop succeeds iff every state's row does, and then row s is state s's row |
| LRTable.ConstructTable | src/parser/lrparser.rs:633-678 | `construct_table` computes `TableFrom` over the vertices |
| LRTable.TableSpec | src/parser/lrparser.rs:633-678 | the table of an automaton whose items all have transitions exists, has one row per state, and each entry is an action some item of that state proposes |
| LRParse.Consumed | src/parser/lrparser.rs:557-561 | the first n lookaheads, in order, a `$` token past the end of the input |
| LRParse.Lookup | src/parser/lrparser.rs:567 | an action exists iff the row has an entry for the token or for its type; the entry for the token itself comes first |
| LRParse.Popped | src/parser/lrparser.rs:593-596 | n pairs are popped; a pop from an empty stack does nothing |
| LRParse.Init | src/parser/lrparser.rs:550-555 | the loop starts with state 0 alone on the stack, no subtree and the first token next |
| LRParse.StepTable | src/parser/lrparser.rs:556-626 | one turn moves the input on by at most one token (a shift) and never back; a failure is reported at the current token |
| LRParse.RunTable | src/parser/lrparser.rs:556-626 | after at most fuel turns the input has moved on by at most one token per turn and never back, and a failure index lies in that range |
| LRParse.PopRule | src/parser/lrparser.rs:593-600 | the popping loop succeeds iff there are as many subtrees as the rule has terms; it pops that many pairs and puts the last subtrees, in order, under the rule's node, indexed like the first of them |
| LRParse.TurnTable | src/parser/lrparser.rs:556-626 | one turn of the loop computes `StepTable`: shift the token, reduce and follow the goto entry, accept on `$` back in state 0, or fail at the token |
| LRParse.ParseWithTable | src/parser/lrparser.rs:543-630 | `parse_with_table` is the loop from state 0 followed by `childs.remove(0)` on the accepted node |
| LRParse.ReduceGood | src/parser/lrparser.rs:584-605 | a reduce with enough subtrees does not panic, exposes one of the states, builds the rule's node over the last subtrees and keeps the leaves of the subtrees, left to right, the tokens read |
| LRParse.StepGood | src/parser/lrparser.rs:556-626 | on a table whose shifts stay inside it and never return to state 0, a turn keeps the invariant, panics only on a reduce with too few subtrees, and accepts only with every subtree under the `$` node |
| LRParse.RunGood | src/parser/lrparser.rs:556-626 | the loop keeps that invariant for any number of turns |
| LRParse.ParseSound | src/parser/lrparser.rs:543-630 | when the loop accepts, the `$` node's subtrees read exactly the tokens consumed, in order, and a `$` rule of one term yields a tree whose leaves are those tokens |
| LRGraph.MinShiftSpec | src/parser/lrparser.rs:445-450 | the shift precedence is the least precedence of the items that shift on the token, in any order, and there is none iff no item does |
| LRGraph.ChoiceSpec | src/parser/lrparser.rs:484-496 | the reduce loop finds an item iff some completed item admits the token; the one found has least precedence, and no earlier item in the order with that precedence admits the token |
| LRGraph.ShiftPrecedence | src/parser/lrparser.rs:445-450 | the loop computes the least shift precedence |
| LRGraph.FindConflict | src/parser/lrparser.rs:453-464 | the conflict loop reports true iff a completed item that admits the token has lower precedence than the shift, or equal precedence and left associativity |
| LRGraph.ChooseReduce | src/parser/lrparser.rs:484-496 | the loop computes the chosen item |
| LRGraph.StepGraph | src/parser/lrparser.rs:432-536 | one turn never fails with an index (no action is a panic), moves the input on by at most one token and never back |
| LRGraph.StepGraphAsWritten | src/parser/lrparser.rs:446-447 | the body follows the source as written: `match_token` on a nonterminal after the dot panics; a turn that does not panic is the corrected turn |
| LRGraph.RunGraph | src/parser/lrparser.rs:432-536 | after at most fuel turns the input has moved on by at most one token per turn and never back, and the loop never fails with an index |
| LRGraph.RunGraphAsWritten | src/parser/lrparser.rs:432-536 | the body follows the source as written; a run that does not panic ends exactly as the corrected run |
| LRGraph.TurnReduce | src/parser/lrparser.rs:498-535 | the reduce branch computes `ReduceTurn`: pop and build, accept on `$` from the start state, follow the goto edge, and panic without an item or an edge |
| LRGraph.TurnGraph | src/parser/lrparser.rs:432-536 | one turn of the loop computes `StepGraph` |
| LRGraph.ParseWithGraph | src/parser/lrparser.rs:419-540 | `parse_with_graph` is the loop from the start state followed by `childs.remove(0)` on the accepted node |
| LRGraph.StepGraphGood | src/parser/lrparser.rs:432-536 | on an automaton whose edges stay inside it and never return to the start, a turn keeps the invariant and accepts only with every subtree under the `$` node |
| LRGraph.RunGraphGood | src/parser/lrparser.rs:432-536 | the loop keeps that invariant for any number of turns |
| LRGraph.GraphSound | src/parser/lrparser.rs:419-540 | when the loop accepts, the `$` node's subtrees read exactly the tokens consumed, in order |
| LRGraph.StepAgrees | src/parser/lrparser.rs:446-447 | where no item has a nonterminal after its dot, a turn as written is the corrected turn |
| LRGraph.MatchTokenCounterexample | src/parser/lrparser.rs:446-447 | on S → a and the input `a`, the loop as written panics (`match_token` on the start item's nonterminal) while the corrected one accepts the tree S(a) |
| LRBuild.StartRule | src/parser/lrparser.rs:191-205 | both constructions start from the production named `$` whose body is the start symbol alone, marked unwrap |
| LRBuild.Closure0Unique | src/parser/lrparser.rs:155-177 | the LR(0) closure of an item set, the least closed set above it, is unique |
| LRBuild.Closure0 | src/parser/lrparser.rs:155-177 | the `closure` loop of `construct_lr_0` returns exactly the least set of items above its input that holds the dot-0 item of every production of a nonterminal standing after a dot; the input's lookaheads are kept |
| LRBuild.Goto0 | src/parser/lrparser.rs:179-189 | `goto` of `construct_lr_0` is the closure of the kernel (the items with the dot before the symbol, moved over it), with empty lookaheads, and is empty iff that kernel is empty |
| LRBuild.StatesBound | src/parser/lrparser.rs:210-231 | states with distinct cores drawn from a finite set of items number at most two to the power of its size: why the state loop ends |
| LRBuild.Position | src/parser/lrparser.rs:223 | `position(\|x\| x.data == g)` finds a state iff one has the same core as g, and the one it finds has that core |
| LRBuild.DeterministicAppend | src/parser/lrparser.rs:224-226 | adding a transition only when `get_transition` finds none keeps at most one transition per state and symbol |
| LRBuild.MarkAccepting | src/parser/lrparser.rs:212-219 | a state is marked as an end state iff it holds a completed item of a production of the given name; nothing else changes |
| LRBuild.Lr0Visit | src/parser/lrparser.rs:220-228 | one symbol of the state loop keeps the construction invariant (start state, distinct cores, transitions are gotos, deterministic) and completes the state for that symbol; earlier states are unchanged |
| LRBuild.Lr0State | src/parser/lrparser.rs:211-231 | one turn of the state loop marks the state if it accepts and leaves it with a transition for every symbol whose goto is not empty |
| LRBuild.Lr0Start | src/parser/lrparser.rs:191-209 | the graph starts with one state, the closure of the start item, marked as start |
| LRBuild.ConstructLR0 | src/parser/lrparser.rs:153-233 | `construct_lr_0` gives the LR(0) automaton: state 0 is the closure of the start item, no two states share a core, each transition leads to the goto of its state on its symbol, there is exactly one transition per state and symbol whose goto is not empty, and the end states are, in order, those with a completed start-symbol item |
| LRBuild.TermOf | src/parser/lrparser.rs:322-324 | a lookahead symbol stands for a formal term of the same key |
| LRBuild.Rest | src/parser/lrparser.rs:321-325 | the sequence whose FIRST is taken is the body after the nonterminal, then the lookahead, and it is formal |
| LRBuild.Closure1 | src/parser/lrparser.rs:311-341 | the `closure` of `construct_lalr_1` returns the least item set above its input that, for every item with a nonterminal after the dot and every lookahead a, holds the dot-0 items of that nonterminal with FIRST(rest a) |
| LRBuild.Closure1Union | src/parser/lrparser.rs:343-351 | the closure of a union is the union of the closures: why `goto` may close item by item and join |
| LRBuild.Closure1Empty | src/parser/lrparser.rs:343-351 | a closure is empty iff its input is |
| LRBuild.KernelMap | src/parser/lrparser.rs:345-347 | the kernel of a state on a symbol has the moved items as keys, each with the lookaheads of the item it came from |
| LRBuild.Goto1 | src/parser/lrparser.rs:343-351 | `goto` of `construct_lalr_1` is the closure of the kernel with its lookaheads, and it is empty iff the kernel is empty |
| LRBuild.ClosureCore | src/parser/lrparser.rs:311-341 | when every nonterminal has a terminal in FIRST, the core of the LALR(1) closure is the LR(0) closure of the core and every item has a lookahead |
| LRBuild.GotoFacts | src/parser/lrparser.rs:384 | a goto of a state of the grammar is a closed item set of the grammar above the kernel, whose core is the LR(0) goto when every nonterminal has a terminal in FIRST |
| LRBuild.StartMap | src/parser/lrparser.rs:353-366 | the start item of `construct_lalr_1` carries the end marker as its lookahead |
| LRBuild.MergeInto | src/parser/lrparser.rs:387 | `extend_all` in place on a state sets its items to the merge with the goto and returns true iff they grew; no other state, transition or mark changes |
| LRBuild.LalrJoin | src/parser/lrparser.rs:386-388 | a goto whose core a state has is merged into that state, which is pushed when it grew and is not on the stack |
| LRBuild.LalrAdd | src/parser/lrparser.rs:389-392 | a goto whose core no state has becomes a new state, pushed on the stack |
| LRBuild.LalrTarget | src/parser/lrparser.rs:386-393 | the target of a goto is the state with its core, grown, or a new one; the construction invariant is kept |
| LRBuild.Lalr1Visit | src/parser/lrparser.rs:383-397 | one symbol of the worklist turn keeps the construction invariant and brings the state up to date for that symbol, or puts it back on the stack |
| LRBuild.Lalr1Link | src/parser/lrparser.rs:385-396 | with a goto that is not empty, the transition is added only when the state has none on the symbol, to the state that now holds the goto |
| LRBuild.Lalr1State | src/parser/lrparser.rs:375-398 | one popped state is marked as an end state iff it holds a completed `$` item, and every symbol is visited |
| LRBuild.LalrStart | src/parser/lrparser.rs:353-372 | the graph starts with one state, the closure of the start item with the end marker, marked as start, and the stack holds it |
| LRBuild.LalrLoop | src/parser/lrparser.rs:371-400 | the worklist loop ends with every state up to date and the end states exactly those with a completed `$` item |
| LRBuild.LalrDone | src/parser/lrparser.rs:374-400 | once the stack is empty there is a transition exactly for each state and symbol whose kernel is not empty, and its target holds the kernel with all its lookaheads |
| LRBuild.ConstructLALR1 | src/parser/lrparser.rs:236-403 | `construct_lalr_1` gives the LALR(1) automaton: FIRST is the least solution; states are closed, have distinct cores and the start state lies above the start item with the end marker; a transition exists exactly where the kernel is not empty and leads to a state holding it with its lookaheads (the LR(0) goto's core when every nonterminal has a terminal in FIRST); the end states are those with a completed `$` item |
| LRBuild.LalrTableClosed | src/parser/lrparser.rs:633-678 | the table of that automaton, when built, has every shift and goto inside its rows and none back to state 0 |
| LRBuild.LalrGraphClosed | src/parser/lrparser.rs:419-440 | every transition of that automaton stays among its states and none leads back to state 0 |
| LRBuild.ListItems | src/parser/lrparser.rs:638 | the walk of a state's items lists each item once, in some order |
| LRBuild.Parse | src/parser/lrparser.rs:412-416 | `parse` builds the LALR(1) automaton and its table (a panic when that fails) and runs it; a tree it returns reads, leaf by leaf, a prefix of the tokens it consumed |
| GLRParser.Shifts | src/parser/glrparser.rs:44-54 | the shift pass keeps, in order, only the branches with a transition on the token, so it never lengthens the list; a branch without a state on top panics |
| GLRParser.Popped | src/parser/glrparser.rs:91-94 | popping `pos` pairs leaves a prefix of the stack, never a longer one |
| GLRParser.ReduceItem | src/parser/glrparser.rs:81-119 | one reduction never drops a listed branch; when it lists a new one, exactly one is appended, whose derivations are the branch's with the rule added; acceptance keeps the list as it was |
| GLRParser.ReduceItems | src/parser/glrparser.rs:81-120 | the reductions of one branch's items never shorten the list |
| GLRParser.ReduceItemsExtends | src/parser/glrparser.rs:81-120 | the reductions of one branch's items never drop or reorder a listed branch: the list only grows at its end |
| GLRParser.ReduceFrom | src/parser/glrparser.rs:74-122 | the worklist loop never shortens the list |
| GLRParser.ReduceFromExtends | src/parser/glrparser.rs:74-122 | the worklist loop never drops or reorders a listed branch: the list only grows at its end |
| GLRParser.ShiftAll | src/parser/glrparser.rs:44-54 | the shift loop computes the shift pass |
| GLRParser.ShiftsAt | src/parser/glrparser.rs:44-54 | the pass at a branch with a usable top state is that branch, shifted if it has a transition, in front of the pass over the rest |
| GLRParser.ShiftsStuck | src/parser/glrparser.rs:45 | a branch without a state on top, or with one outside the automaton, makes the pass panic |
| GLRParser.ReduceBranch | src/parser/glrparser.rs:81-120 | the item loop over one branch's top state, in the order the state lists its items, computes the reductions of those items in turn |
| GLRParser.ReduceOne | src/parser/glrparser.rs:82-118 | the loop body computes one reduction |
| GLRParser.ReduceAll | src/parser/glrparser.rs:74-122 | the worklist loop, over a list that grows as it goes, computes the reductions of every branch in turn |
| GLRParser.RoundStep | src/parser/glrparser.rs:35-122 | one round shifts the token at the index, moves on one token unless at the end, and reduces with the token there as lookahead |
| GLRParser.Conclude | src/parser/glrparser.rs:132-135 | after acceptance the tree is built rightmost from the last branch's derivations, newest first, its leaves then filled left to right (the correction of the derivations.rs finding) |
| GLRParser.Round | src/parser/glrparser.rs:35-122 | a round that goes on or accepts passed the shift pass without a panic, and its list is at least as long as the shifted list |
| GLRParser.RoundExtends | src/parser/glrparser.rs:35-122 | a round that goes on or accepts lists the shifted branches first, in order, the reductions after them |
| GLRParser.Rounds | src/parser/glrparser.rs:34-131 | the `'outer` loop never stops with a tree (only acceptance leads to one); "All cases failed" is reported at an index past the one the loop was entered at, or at that index when it is already the end of the input, and never beyond the input |
| GLRParser.RunGLR | src/parser/glrparser.rs:34-135 | the loop followed by the build of the accepting branches: a failure index obeys the loop's bounds |
| GLRParser.Loop | src/parser/glrparser.rs:34-131 | the `'outer` loop from the start state alone, at index 0, computes `Rounds` |
| GLRParser.ParseWithGraph | src/parser/glrparser.rs:20-136 | `parse_with_graph` is the loop followed, on acceptance, by the build of the last branch's derivations: it computes `RunGLR` from the start state alone at index 0 |
| GLRParser.ShapedTop | src/parser/glrparser.rs:45 | a stack of states at the even places and symbols between them has a state of the automaton on top |
| GLRParser.ShiftsSound | src/parser/glrparser.rs:44-54 | on branches of that shape with distinct stacks, the shift pass never panics, gives branches of the same kind, and holds exactly the old branches that have a transition on the token, each shifted with its derivations unchanged |
| GLRParser.ReduceItemSound | src/parser/glrparser.rs:88-114 | a reduction keeps the branches shaped and their stacks distinct: a stack already listed is not listed again |
| GLRParser.ReduceItemsSound | src/parser/glrparser.rs:81-120 | the reductions of one branch keep the list sound and never drop a listed branch |
| GLRParser.ReduceFromSound | src/parser/glrparser.rs:74-122 | the worklist keeps the list sound, and on acceptance the list is longer than the index reached |
| GLRParser.ReduceItemNoCrash | src/parser/glrparser.rs:96 | on a shaped stack the panic "Reduce: State not on top of stack" happens only when the rule has more symbols than the stack holds pairs |
| GLRParser.ReduceItemsNoCrash | src/parser/glrparser.rs:81-120 | a panic in one branch's reductions comes from some completed item longer than its stack |
| GLRParser.InitialSound | src/parser/glrparser.rs:30-31 | the driver starts from a sound list |
| GLRParser.RoundSound | src/parser/glrparser.rs:34-131 | a round keeps the branches sound, and an accepting round has a last branch for `pop().unwrap()` to take |
| GLRParser.FinishSound | src/parser/glrparser.rs:132-135 | the tree built from the accepting branches reads, leaf by leaf, the first tokens of the input |
| GLRParser.RunSound | src/parser/glrparser.rs:20-136 | a tree the driver returns reads, leaf by leaf, the first tokens of the input |
| GLRParser.HoldsIndex | src/parser/glrparser.rs:114 | the `any` test on the listed stacks holds exactly when some listed branch has the stack |
| Derivations.Sprout | src/parser/derivations.rs:14-26 | the children of one expansion: defined iff every term is a terminal or a nonterminal and the tokens last; one child per term, a terminal taking the token after those of the earlier terminals, a nonterminal a blank node of its name; the counter moves on by the number of terminals |
| Derivations.Expand | src/parser/derivations.rs:10-26 | one derivation succeeds iff the focus is a nonterminal of the production's name and its terms expand; the focus then records the production and label and keeps its old children, followed by the new ones, in the same place of its parent |
| Derivations.RightTurn | src/parser/derivations.rs:34-47 | one turn of `build_leftmost`'s `while` climbs and steps right to the next slot if there is one, keeping the tree; it moves to a later slot at the same depth or climbs |
| Derivations.LeftTurn | src/parser/derivations.rs:87-100 | one turn of `build_rightmost`'s `while` climbs and steps left, moving to an earlier slot at the same depth or climbing |
| Derivations.SeekRight | src/parser/derivations.rs:34-47 | the leftmost `while` ends at a node that is not a terminal, or at the root, and never changes the tree |
| Derivations.SeekLeft | src/parser/derivations.rs:87-100 | the rightmost `while` ends in the same way |
| Derivations.Move | src/parser/derivations.rs:28-47 | after an expansion the focus moves within the same tree |
| Derivations.Run | src/parser/derivations.rs:8-51 | the loop over the derivations, when no step panics, takes exactly as many tokens as the productions hold terminals |
| Derivations.Build | src/parser/derivations.rs:5-54 | both builders panic on an empty list and use no more tokens than there are |
| Derivations.TurnRight | src/parser/derivations.rs:35-46 | the loop body of `build_leftmost` on a zipper computes one right turn |
| Derivations.TurnLeft | src/parser/derivations.rs:88-99 | the loop body of `build_rightmost` computes one left turn |
| Derivations.MoveRight | src/parser/derivations.rs:28-47 | the zipper moves of `build_leftmost` compute the leftmost move |
| Derivations.MoveLeft | src/parser/derivations.rs:80-100 | the zipper moves of `build_rightmost` compute the rightmost move |
| Derivations.BuildLeftmost | src/parser/derivations.rs:5-54 | `build_leftmost` computes the leftmost build |
| Derivations.BuildRightmost | src/parser/derivations.rs:57-107 | `build_rightmost` computes the rightmost build |
| Derivations.RootValue | src/parser/derivations.rs:53 | `finish` climbs without changing values: the root has the outermost frame's value |
| Derivations.BuildRoot | src/parser/derivations.rs:6 | the built tree's root is a nonterminal named by the first derivation, recording a production of that name |
| Derivations.Fill | src/parser/derivations.rs:14-26 | handing tokens to the leaves left to right succeeds iff there are enough tokens, uses exactly one per leaf and changes nothing else of the tree |
| Derivations.FillFringe | src/parser/derivations.rs:14-26 | the filled tree's leaves read the tokens handed out, in order |
| Derivations.BuildInOrder | src/parser/derivations.rs:57-107 | the corrected builder has the shape the source builds, with the tokens in left-to-right order |
| Derivations.InOrderFringe | src/parser/derivations.rs:57-107 | the corrected builder's leaves are the first tokens of the input, in order |
| Derivations.BuildsPair | src/parser/derivations.rs:5-107 | on `S = B c`, `B = b`, both builders as written return the same tree |
| Derivations.TokenOrderCounterexample | src/parser/derivations.rs:66-69 | that tree's leaves read `c b` where the input is `b c`: tokens are handed out in expansion order, not in input order |
| Derivations.InOrderPair | src/parser/derivations.rs:66-69 | on the same derivations the corrected builder's leaves read `b c` |
| Functor.ParseChar | src/parser/functor.rs:16-29 | `parse_char` fails (an `unwrap` panic) iff the text is empty or a lone backslash; otherwise a plain first character is itself |
| Functor.EscapeAgrees | src/parser/functor.rs:16-29 | an escaped character reads as the escape of the regex syntax (`t`, `n`, `r`), and `\0` as the empty word |
| Functor.PlainChar | src/parser/functor.rs:49-54 | a terminal with a plain character other than backslash and NUL is that atom |
| Functor.RemoveFirst | src/parser/functor.rs:114-116 | `set.remove(position)` takes out exactly one occurrence of the character, if there is one |
| Functor.Bounds | src/parser/functor.rs:120-121 | the ends of a `charset` member are read from its first and third children; a failure there is a panic or `Err`, never a result |
| Functor.GroupStep | src/parser/functor.rs:109-146 | one child of a `chargroup` leaves a stopped loop stopped and never clears the negation flag |
| Functor.CollectStopped | src/parser/functor.rs:109-147 | once a child stops the loop (`return Err` or a panic), the rest of the children change nothing |
| Functor.Range | src/parser/functor.rs:122-125 | the inner `while curr <= end` loop computes the atoms of the range, panicking when the `u8` counter passes 255 |
| Functor.RangeStep | src/parser/functor.rs:122-125 | one turn of the range loop pushes the counter and goes on from the next character |
| Functor.RangeFirst | src/parser/functor.rs:134-138 | a range starts with its first character |
| Functor.CharGroup | src/parser/functor.rs:106-152 | the `chargroup` loop over the children computes the fold of the group steps from an empty set, not negated |
| Functor.Kids | src/parser/functor.rs:59-62 | the `filter_map` keeps only nonterminal children, in order |
| Functor.Operands | src/parser/functor.rs:58-64 | the operands of a union or concatenation exist iff every nonterminal child parses, and are those children parsed, in order |
| Functor.Parse | src/parser/functor.rs:47-87 | a `RegularExpression` node that parses is a union, an `Alternative` node a concatenation, and a `Kleen` node with more than one child an iteration |
| Functor.ParseTerm | src/parser/functor.rs:87-160 | a `match` term that parses is a match, an `alias` term an alias named by its token without the first and last characters, and a `chargroup` term a union of atoms |
| Functor.Render | src/parser/functor.rs:47-161 | a regular expression is rendered as a tree of the shape the regex grammar gives |
| Functor.ParseRender | src/parser/functor.rs:47-161 | `parse` of the tree rendered from a regular expression without NUL atoms gives that expression back |
| Functor.ParseRenderAll | src/parser/functor.rs:57-76 | each rendered operand reads back as itself |
| Functor.KidsRendered | src/parser/functor.rs:59-62 | the separators are the only terminal children of a rendered union, so the operands are exactly the rendered ones |
| Functor.OperandsRendered | src/parser/functor.rs:57-76 | a rendered union or concatenation has the operands it was rendered from |
| Functor.CharTerm | src/parser/functor.rs:103-105 | a `char` term is its first child, and a panic when it has none |
| Functor.TerminalsSkipped | src/parser/functor.rs:61 | terminal children are not operands |
| Functor.UnknownRejected | src/parser/functor.rs:153-160 | a node that is neither a terminal nor one of the known nonterminals and tags is `Err(())` |
| Functor.RangeAtomsAtoms | src/parser/functor.rs:136-139 | a range gives atoms only |
| Functor.WithoutKeeps | src/parser/functor.rs:126 | the `filter` after a negated range keeps exactly the elements not in the range |
| Functor.CollectAtoms | src/parser/functor.rs:109-147 | the loop's set only ever holds atoms |
| Functor.ChargroupUnion | src/parser/functor.rs:148-151 | a `chargroup` term is a union of atoms |
| Functor.RangeAdded | src/parser/functor.rs:133-139 | before `CharNeg`, a range below 255 adds every character from its start to its end, in order |
| Functor.RangeRemoved | src/parser/functor.rs:118-127 | after `CharNeg`, a range below 255 leaves exactly the atoms outside it |
| Functor.CharToggled | src/parser/functor.rs:111-132 | a `char` member adds one occurrence of its atom, or after `CharNeg` removes one |
| Functor.NegationSticks | src/parser/functor.rs:142-146 | once `CharNeg` is seen, the group stays negated to the end |
| SchemeNumber.GcdDivides | src/scheme/number.rs:22-31 | Euclid's gcd divides both arguments |
| SchemeNumber.GcdGreatest | src/scheme/number.rs:22-31 | every common divisor divides the gcd |
| SchemeNumber.GcdZero | src/scheme/number.rs:22-31 | the gcd is zero only when both arguments are |
| SchemeNumber.GcdSwap | src/scheme/number.rs:24 | putting the larger argument first does not change the gcd |
| SchemeNumber.Gcd | src/scheme/number.rs:22-31 | `Rational::gcd`'s loop on the absolute values, larger first, returns Euclid's gcd of them |
| SchemeNumber.GcdFacts | src/scheme/number.rs:22-31 | for a pair not both zero the gcd is positive and divides both |
| SchemeNumber.New | src/scheme/number.rs:14-20 | `Rational::new(a, b)` (a division by zero when both are zero) stands for a/b, is reduced, and keeps a positive denominator positive and a nonzero one nonzero; a negative divisor leaves the denominator negative |
| SchemeNumber.FromInt | src/scheme/number.rs:54-70 | an integer n becomes n/1 |
| SchemeNumber.Cmp | src/scheme/number.rs:34-45 | the comparison of cross-products says equal iff `PartialEq` does |
| SchemeNumber.EqTrans | src/scheme/number.rs:41-45 | equality by cross-products is transitive through a value with a nonzero denominator |
| SchemeNumber.LessTrans | src/scheme/number.rs:34-38 | with positive denominators "less" is transitive |
| SchemeNumber.CmpRespectsEq | src/scheme/number.rs:34-45 | with positive denominators equal values compare alike |
| SchemeNumber.AddCounterexample | src/scheme/number.rs:77-88 | as written, `1/2 + 1/2` is `3/2` and `1/2 - 1/2` is `1/2`: the division by the gcd binds to the second product only |
| SchemeNumber.AddAsWritten | src/scheme/number.rs:72-81 | the body follows the source as written; on whole numbers (denominators 1) the sum is still right |
| SchemeNumber.SubAsWritten | src/scheme/number.rs:83-92 | the body follows the source as written; on whole numbers (denominators 1) the difference is still right |
| SchemeNumber.AddSub | src/scheme/number.rs:72-92 | the sum or difference with the whole cross-sum divided by the gcd of the denominators stands for n1/d1 ± n2/d2 and keeps denominators positive |
| SchemeNumber.Add | src/scheme/number.rs:72-81 | the corrected `Add` stands for the sum and keeps denominators positive |
| SchemeNumber.Sub | src/scheme/number.rs:83-92 | the corrected `Sub` stands for the difference and keeps denominators positive |
| SchemeNumber.Times | src/scheme/number.rs:94-103 | `Mul` (a panic when both products are zero) stands for the product, is reduced and keeps denominators positive |
| SchemeNumber.DivAsWritten | src/scheme/number.rs:105-114 | `Div` as written stands for the quotient and is reduced, but its denominator takes the divisor's sign |
| SchemeNumber.DivCounterexample | src/scheme/number.rs:105-114 | `1 / -1` as written is `1/-1`, equal to -1, yet the comparison puts it above 0 while it puts -1 below 0 |
| SchemeNumber.Div | src/scheme/number.rs:105-114 | the corrected `Div` stands for the quotient, is reduced and keeps denominators positive for a nonzero divisor |
| SchemeNumber.IntegerQuotient | src/scheme/number.rs:14-20 | `Rational::new(a, b)`, which `Integer / Integer` calls, is the as-written division of a/1 by b/1, so a negative divisor leaves a negative denominator; the corrected division keeps it positive and stands for a/b |
| SchemeNumber.FromIntHomomorphic | src/scheme/number.rs:54-81 | integers embed faithfully: the corrected sum and the comparison of their rationals are those of the integers |
| SchemeEnv.Lookup | src/scheme/env.rs:85-95 | `find` fails only with the message "No variable named" and the name |
| SchemeEnv.Nearest | src/scheme/env.rs:85-95 | `find` succeeds iff some frame before the first one without a data map binds the name, and gives the binding of the nearest such frame |
| SchemeEnv.Enviroment.constructor | src/scheme/env.rs:38-57 | a new environment has the ten builtins in its frame and, as parent, a default environment with neither data map nor parent |
| SchemeEnv.Enviroment.Find | src/scheme/env.rs:85-95 | `find` succeeds iff a nearest binding exists, and returns its value |
| SchemeEnv.Enviroment.Put | src/scheme/env.rs:67-69 | `put` binds the name in the current frame only (a panic when it has no data map) |
| SchemeEnv.Enviroment.Set | src/scheme/env.rs:71-83 | `set` returns what `find` would, the old value or the error, and overwrites the nearest binding only; nothing changes when there is none |
| SchemeEnv.Enviroment.Forward | src/scheme/env.rs:97-104 | `forward` puts an empty frame in front of the chain |
| SchemeEnv.Enviroment.Downward | src/scheme/env.rs:106-111 | `downward` drops the current frame (a panic without a parent data map or a grandparent) |
| SchemeEnv.NewFinds | src/scheme/env.rs:38-57 | a new environment finds exactly the builtins |
| SchemeEnv.EnterFinds | src/scheme/env.rs:97-104 | after `forward` every name is found as before |
| SchemeEnv.PutFinds | src/scheme/env.rs:67-69 | after `put` the name is found with the new value and every other name as before |
| SchemeEnv.ScopeDiscarded | src/scheme/env.rs:8-15 | `enter_env!`: `forward`, bindings in the new frame, then `downward` give back the chain as it was |
| SchemeEnv.SetFinds | src/scheme/env.rs:71-83 | after `set` of a bound name it is found with the new value and every other name as before |
| SchemeEnv.SetKeepsNames | src/scheme/env.rs:71-83 | `set` never creates a binding, and a `set` that fails changes nothing |
| SchemeParser.FormName | src/scheme/parser.rs:46-60 | each special form has a token type that `parse_datum` reads back as that form |
| SchemeParser.PrefixName | src/scheme/parser.rs:67-70 | each abbreviation prefix has a token type read back as that prefix |
| SchemeParser.ParseDatum | src/scheme/parser.rs:44-73 | a group node that reads gives a list or vector with one datum per child |
| SchemeParser.ParseAll | src/scheme/parser.rs:65-66 | a group's children read iff each of them does, and give their data in order |
| SchemeParser.Act | src/scheme/parser.rs:20-37 | a group or prefix token becomes the new last child and the focus; `RGroup` climbs, a panic at the root; any other token becomes a leaf |
| SchemeParser.CloseOnce | src/scheme/parser.rs:12-19 | the check at the head of a round climbs out of one complete abbreviation and keeps the zipper well formed |
| SchemeParser.Settle | src/scheme/parser.rs:12-19 | the corrected check climbs until the focus is not a complete abbreviation |
| SchemeParser.Step | src/scheme/parser.rs:10-38 | one round, as written or corrected, keeps the zipper well formed |
| SchemeParser.Feed | src/scheme/parser.rs:10-38 | the loop over the tokens keeps the zipper well formed |
| SchemeParser.FeedStops | src/scheme/parser.rs:10-38 | once the loop has panicked, reading more tokens changes nothing |
| SchemeParser.Parse | src/scheme/parser.rs:8-42 | the reader's loop, with the corrected check, then `finish` and `parse_datum`, computes the corrected reader, an empty token list included (the panic at `src[0]`) |
| SchemeParser.ParseAsWritten | src/scheme/parser.rs:8-42 | the body follows the source as written (the check at the head of a round closes one abbreviation); an empty token list panics at `src[0]` |
| SchemeParser.ParseSpec | src/scheme/parser.rs:8-42 | the corrected reader, which closes every complete abbreviation; an empty token list panics at `src[0]` |
| SchemeParser.CloseAll | src/scheme/parser.rs:12-19 | the corrected check, as a loop, computes the settling |
| SchemeParser.Read | src/scheme/parser.rs:39-41 | the end of `parse`: the first datum of the root list, `Err(())` when the root is not a list, a panic when it is empty or does not read |
| SchemeParser.Print | src/scheme/parser.rs:8-73 | every datum prints as at least one token |
| SchemeParser.ReadShape | src/scheme/parser.rs:44-73 | `parse_datum` reads every datum back from its tree |
| SchemeParser.ReadAtom | src/scheme/parser.rs:46-64 | a one-token tree reads back as its atom |
| SchemeParser.ReadGroup | src/scheme/parser.rs:65-66 | a group's tree reads back as the group once each item's does |
| SchemeParser.FeedConcat | src/scheme/parser.rs:10-38 | reading a + b is reading a, then b |
| SchemeParser.FeedSettle | src/scheme/parser.rs:12-19 | the corrected loop closes abbreviations before each token, so only the settled zipper matters |
| SchemeParser.FeedPrint | src/scheme/parser.rs:10-38 | reading a datum's tokens with the corrected loop pushes that datum's tree, once settled; exactly that tree for a list or vector |
| SchemeParser.FeedGroup | src/scheme/parser.rs:21-33 | a group's tokens open its node, fill it with the items' trees and climb back out |
| SchemeParser.ReadPrinted | src/scheme/parser.rs:8-42 | the corrected reader gives back every program list it is given as tokens |
| SchemeParser.Conclusion | src/scheme/parser.rs:39-41 | a root `LGroup` holding one child that reads as d gives d |
| SchemeParser.NestedQuoteCounterexample | src/scheme/parser.rs:12-19 | as written, `(''a b)` reads as `(''a)`: the outer quote is still the focus when `b` arrives, so `b` becomes its second child, which `parse_datum` ignores; the corrected reader gives `(''a b)` |
| SchemeParser.FeedQuotedPair | src/scheme/parser.rs:10-38 | the loop as written on `(''a b)` puts `b` under the outer quote |
| SchemeParser.StepClosesOnce | src/scheme/parser.rs:12-19 | as written, a complete abbreviation is closed once and the token goes to its parent |
| CoolBeam.Features | src/cool/beam.rs:332-340 | the kept children are exactly the `feature` children with the given tag, in order |
| CoolBeam.ParseClass | src/cool/beam.rs:319-342 | a class node parses iff its second, third and (after `INHERITS`) fourth children exist; the name is the second child's token, the parent the fourth child's after `INHERITS` and `Object` otherwise, the position the node's index, and the attribute and method lists hold exactly the children with those tags |
| CoolBeam.FeaturesSplit | src/cool/beam.rs:332-340 | every attribute or method child lands in exactly one of the two lists |
| CoolBeam.ParseClasses | src/cool/beam.rs:355-361 | the `class` children parse iff each of them does, and the result holds exactly their classes |
| CoolBeam.ParseFile | src/cool/beam.rs:350-366 | a `program` node gives the classes of its `class` children (none when one of them fails); any other node gives an empty file |
| CoolBeam.InsertOk | src/cool/beam.rs:375-383 | `add_file` succeeds iff no class name of the file is already in the table and no two classes of the file share a name |
| CoolBeam.Insert | src/cool/beam.rs:375-383 | the insertion keeps every name of the table; when no name clashes, every earlier class is kept and each new class is stored under its name |
| CoolBeam.InsertAll | src/cool/beam.rs:376-382 | a successful `add_file` keeps every earlier class, maps each new class's name to it, and adds nothing else |
| CoolBeam.InsertClash | src/cool/beam.rs:378-379 | a failed `add_file` names a class whose name the table or an earlier class of the file already held, and that class has replaced the earlier one |
| CoolBeam.CoolProgram.constructor | src/cool/beam.rs:369-372 | a new program has no classes |
| CoolBeam.CoolProgram.AddFile | src/cool/beam.rs:375-383 | the loop leaves the table and the error that inserting the file's classes one by one gives, stopping at the first name already present |
| CoolBeam.Lineage | src/cool/beam.rs:492-498 | the walk up the inheritance map starts at the class itself |
| CoolBeam.GroundedStops | src/cool/beam.rs:492-498 | in a map without cycles every walk up from any class stops within as many steps as the map has entries |
| CoolBeam.LineageFuel | src/cool/beam.rs:492-498 | once a walk up has stopped, allowing more steps changes neither its stopping nor the classes it meets |
| CoolBeam.LineageFrom | src/cool/beam.rs:492-498 | the walk from any class met on a walk is the rest of that walk |
| CoolBeam.AncestryDistinct | src/cool/beam.rs:492-498 | in a map without cycles a walk up never meets a class twice |
| CoolBeam.AncestryInside | src/cool/beam.rs:492-498 | every ancestor of an ancestor of a class is an ancestor of that class |
| CoolBeam.ConformsRefl | src/cool/beam.rs:490 | every type conforms to itself |
| CoolBeam.ConformsTrans | src/cool/beam.rs:487-500 | conformance through a static middle type is transitive |
| CoolBeam.ConformsAntisym | src/cool/beam.rs:487-500 | in a map without cycles two classes that are each other's ancestors are the same class |
| CoolBeam.FirstIn | src/cool/beam.rs:518-525 | the search finds a class iff some class of the walk is among those collected, and what it finds is on both |
| CoolBeam.FirstInIndex | src/cool/beam.rs:518-525 | the class found is the first of the walk that was collected: every class before it was not |
| CoolBeam.JoinUpper | src/cool/beam.rs:502-527 | both types conform to their join |
| CoolBeam.Join | src/cool/beam.rs:502-527 | for two named types the join, when defined, lies on both walks up to `Object` |
| CoolBeam.JoinLeast | src/cool/beam.rs:502-527 | every common ancestor of the two types is an ancestor of their join, so the join is the least upper bound |
| CoolBeam.JoinDefined | src/cool/beam.rs:510-525 | the join does not panic when both walks reach `Object` |
| CoolBeam.JoinSymmetric | src/cool/beam.rs:502-527 | in a map without cycles the join does not depend on the order of its two types |
| CoolBeam.LookupNearest | src/cool/beam.rs:454-469 | `get_method` succeeds iff some class on the walk up declares the method and every class before it has a method table without it, and it returns the signature from the nearest such class |
| CoolBeam.Lookup | src/cool/beam.rs:454-469 | a found signature is one a method table lists for the method, and the search stops only at a class without a table or without the method |
| CoolBeam.CoolEnvironment.constructor | src/cool/beam.rs:404-410 | a new environment has no objects, no current class, and the given method tables and inheritance map |
| CoolBeam.CoolEnvironment.GetObject | src/cool/beam.rs:446-452 | an object's type is found iff it was recorded, and the error names the object |
| CoolBeam.CoolEnvironment.GetInherited | src/cool/beam.rs:471-477 | a class's parent is found iff it was recorded, and the error names the class |
| CoolBeam.CoolEnvironment.SetObject | src/cool/beam.rs:483-485 | afterwards the object has the new type, every other object keeps its type, and nothing else changes |
| CoolBeam.CoolEnvironment.IsType | src/cool/beam.rs:487-500 | the loop answers whether the first type (with `SELF_TYPE` resolved) is the dynamic type or has the second type on its walk up |
| CoolBeam.CoolEnvironment.GetMethod | src/cool/beam.rs:454-469 | the loop returns the nearest-declaration lookup of the method, from the current class when asked for `SELF_TYPE` |
| CoolBeam.CoolEnvironment.JoinType | src/cool/beam.rs:502-527 | the method returns the join of the two types: the other type when one is empty, otherwise the first class on the second type's walk that the first type's walk meets, or the panic |
| CoolBeam.CoolEnvironment.Climb | src/cool/beam.rs:507-516 | the first loop collects the whole walk up from the first type when it reaches `Object`, and panics otherwise |
| CoolBeam.CoolEnvironment.Meet | src/cool/beam.rs:517-525 | the second loop returns the first class on the walk up from the second type that was collected |

## Left out

- Input and output: reading grammar, lexer and program files, `read_config`'s file handling (only its per-line parsing is modelled, in `Config`), `read_config_external` and `REParser::parse_from_str` (src/parser/functor.rs:31-45: environment variables, file reads and YAML), serde persistence, and all `DEBUG!`/`VERBOSE!` printing (taken as switched off).
- Error message texts: errors carry their kind and index (or the offending name), not the formatted message.
- `tokenize` slices its input by bytes (src/lexer.rs:63) and would panic at the first multi-byte character; the model works on characters, which agrees with the source on ASCII input only.
- Fuel: the LL(1) driver (`LLParse.Drive`/`Parse`), the recursive-descent parser (`RdParser.Parse` and its methods), the LR drivers (`LRParse.ParseWithTable`, `LRGraph.ParseWithGraph`, `LRBuild.Parse`) and the GLR driver (`GLRParser.ParseWithGraph`) take a `fuel` bound that the source does not have; a run that exhausts it is reported as such and is not a property of the source.
- Retrieve.RetrieveLeftRecursion: the explicit `in_stack`/`out_stack` loops of `retrieve_unwrap` and `retrieve_left_recursion` (src/parser/transform.rs:300-450) are modelled as recursion over tree values, which visits the nodes in the same order but does not model the in-place child edits.
- Re.ApplyAlias: `apply_alias` rewrites the expression in place; the model computes the rewritten expression as a value.
- `elimate_epsilon` (src/parser/transform.rs:455-473) is not modelled: its loop has no exit.
- `elimate_undirect_left_recursion`, `Substitution::apply_to_grammar_inverse` and `Substitution::apply_to_parser_tree` with its inverse are not modelled: no driver uses them.
- Hash-map iteration order is a parameter wherever it decides an outcome (`left_factor`'s `$#i` numbering, `construct_table`'s conflict order, the reduce choice of `parse_with_graph`, the LALR(1) closure and worklist); nothing is proved that depends on a particular order.
- `LRItems` and `construct_table` compare productions structurally, whereas the source's `Term` equality ignores `unwrap`; two items that differ only in an `unwrap` flag are distinct in the model.
- Followpos.Downward: nothing proves that `construct_dfa` accepts exactly the language of the regular expression, or the same words as `nfa_to_dfa` on the Thompson automaton; the model has no reference semantics for `RegularExpression`. What is proved is the subset construction's shape and that `match_dfa` on it follows the run on position sets (`Dfa.SubsetMatch`), and that `nfa_to_dfa` agrees with the NFA run with ε-closures (`Dfa.NfaToDfaAgrees`).
- LRParse.ParseSound: on acceptance it states that the tree's leaves are exactly the tokens consumed, in order, not that the tree is a derivation in the grammar.
- LRGraph.GraphSound: the same, for the graph-driven LR loop.
- GLRParser.RunSound: the same, for the GLR driver: the leaves are the first tokens of the input, in order.
- Derivations.InOrderFringe: the in-order builder is not proved to succeed whenever the source's builder does (that needs the leaf count to match the derivations).
- SchemeNumber: the `Real`, `Complex` and `Number` tower (src/scheme/number.rs:118-728) is floating point and is not modelled; the `Rational` arithmetic uses unbounded integers, so `i64` overflow is not modelled.
- SchemeParser.ParseDatum: a `Number` datum keeps its literal text; the numeric parse at src/scheme/parser.rs:61 delegates to library number parsing and is not modelled.
- SchemeEnv.Enviroment.Put and SchemeEnv.Enviroment.Downward require the frame that the source's `expect` would otherwise panic on.
- CoolBeam.CoolEnvironment.IsType, GetMethod and JoinType require an inheritance map without cycles (`Grounded`); on a cycle the source loops forever.
- The COOL expression, attribute, parameter and method builders (src/cool/beam.rs:65-295) are not modelled: `CoolClass` keeps its feature nodes as parse-tree nodes.
- src/scheme/engine.rs, src/scheme/core.rs, src/scheme/symbol.rs and the datatype declarations of src/scheme/beam.rs are not part of this model (floating point, printing, calls into host functions, and types defined elsewhere).

## Findings

| source | as written | input that shows it | evidently intended | confidence | as-written member | corrected member |
|---|---|---|---|---|---|---|
| src/lexer/nfa.rs:121-132 | `match_nfa` takes the ε-closure of the start state only; after each move it keeps the bare move set | `a*` on the input `a`: the move reaches the inner end state, whose ε-edge to the final state is never followed, so the answer is `Unfinished` | take the ε-closure after every move, as `nfa_to_dfa` does | high, not executed | Nfa.StarCounterexample | Nfa.MatchNfaClosed |
| src/parser/llparser.rs:224-227 | a terminal other than `$` popped at the end of the input indexes `src[next]` with `next == src.len()` and panics | `S = a b ;` on the input `a` | record "expected `b`" at the end of the input, as the surrounding error code prepares | high, not executed | LLParse.EndOfInputCounterexample | LLParse.Parse |
| src/parser/rdparser.rs:144-158 | a failed `Optional` attempt does not put the cursor back, so the tokens it read are skipped | `S = [a b] c ;` on the input `a c`: the parse succeeds with `c` alone | reset the cursor on failure, as the `NonTerminal` alternatives do | high, not executed | RdParser.OptionalSkipsTokens | RdParser.Parse |
| src/parser/lrparser.rs:446-447 | `match_token` is called on the symbol after the dot even when it is a nonterminal, and the start state always holds `$ → . S`, so every shift from the start state panics | `S → a` on the input `a` | match only terminal symbols after the dot | high, not executed | LRGraph.MatchTokenCounterexample | LRGraph.ParseWithGraph |
| src/parser/derivations.rs:66-69 | tokens are handed to terminal leaves in expansion order, so `build_rightmost` (used by the GLR driver, src/parser/glrparser.rs:135) fills leaves right to left | `S = B c ; B = b ;` with the input `b c`: the leaves read `c b` | the leaves read the input left to right | high, not executed | Derivations.TokenOrderCounterexample | Derivations.InOrderFringe |
| src/scheme/number.rs:77, 88 | `n1·d2 ± d1·n2 / g`: the division binds to the second product only | `1/2 + 1/2` gives `3/2`, `1/2 - 1/2` gives `1/2` | `(n1·d2 ± d1·n2) / g` over `d1·d2 / g` | high, not executed | SchemeNumber.AddCounterexample | SchemeNumber.Add |
| src/scheme/number.rs:105-114 | `div` keeps a negative denominator, which the cross-multiplying comparison misorders; `Integer / Integer` (number.rs:566) goes through `Rational::new`, which does the same (`SchemeNumber.IntegerQuotient`) | `1 / -1` gives `1/-1`, which compares above `0` | move the sign to the numerator | high, not executed | SchemeNumber.DivCounterexample | SchemeNumber.Div |
| src/scheme/parser.rs:12-19 | before each token only one completed abbreviation is closed, so a nested one stays the focus | `(''a b)` reads as `(''a)`: `b` becomes a second child of the outer quote and is dropped | close every completed abbreviation before the next token | high, not executed | SchemeParser.NestedQuoteCounterexample | SchemeParser.ReadPrinted |
