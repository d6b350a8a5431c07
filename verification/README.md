# Verification models of the xju / hcp / mypy-plugin engines

The repository holds a C++ utility library (`xju`), a C++ splitter with its own
parser (`hcp`), JSON codecs in Python and TypeScript (`xju/json_codec.*`) and a
mypy plugin. This project models the engines whose invariants are hard to see
in the code, and proves what the code and its comments promise of them.

- **Definite assignment** (`PyAst`, `PyRun`, `DefiniteAssignment`,
  `DefiniteAssignmentProofs`, `ValidVars`, `PyReach`, `PyWitness`,
  `ExactReports`). Python statements and expressions as
  trees; what they do to the set of assigned locals, as runs driven by choices
  (which way a test goes, whether an operation raises, how often a loop turns),
  so that every prefix of every run is covered, while operands that Python always
  evaluates are evaluated on every run, in order; and the analysis of the mypy
  plugin. Main results: every reported name is assigned on every run that
  reaches the target, and a list called an unconditional raise never completes,
  but for the constructs the analysis treats too generously (`del`, `except E as
  e`, bare annotations, `:=` inside `a if c else b`, context managers that
  swallow exceptions). For these `PyReach` says by recursion over the syntax tree
  whether a variable may be missing; it is proved to find all that runs do
  (`SeesS`) and nothing else (`DriveS`), and so gives, for every expression,
  statement and target, the exact condition under which the report is right.
- **Packrat parsing** (`Peg`, `Packrat`, `Lossless`, `Flattening`,
  `BalancedText`, `LeftRecursion`). A grammar is a graph of parser objects;
  `Peg.Eval` says what each yields with nothing cached, `Packrat.Engine` is the
  imperative engine with its shared cache. Main results: the cache never changes
  an answer, successes tile their text, `+` and `|` may be regrouped, a choice
  reports its furthest failure, balanced text is scanned exactly, and the ranks
  that make parsing terminate exist exactly for grammars without left recursion
  whose repeated bodies never succeed on no text.
- **Escapes and string literals** (`CEscape`, `StringLiteral`). `cEscapeString`
  is injective and its quoted result is one literal to the parser of C++ string
  literals, built here from the same combinators.
- **Rings and events** (`RingTheory`, `RingLinks`, `Notification`,
  `NotificationProofs`, `Invocation`, `EventRing`). Doubly linked rings on the
  heap under all aliasing; the notification loop that moves a marker through the
  ring its observers are changing. `EventRing.Event` works on the heap and is
  proved to take exactly the steps of the ring-of-members model, about which
  the calling guarantees are proved.
- **Shared ownership** (`SharedOwnership`, `SharedRing`, `SharedProgram`). The smart pointer that
  finds out whether it is the last by asking whether its ring link is alone,
  proved to do what counting holders would do, over all runs.
- **Offset maps** (`OffsetMap`, `OffsetMapFile`). From writing a file made of
  copied and generated text to looking a byte up in the map read back.
- **Generated comparisons** (`Comparisons`).
- **JSON codecs** (`CodecTree`, `CodecRoundTrip`, `CodecLoops`), the
  **TypeScript validators** (`Validators`, `ValidatorLoops`,
  `ValidatorDefaults`, `ValidatorConformance`) and the **namespace order**
  (`Namespaces`).
- **Paths** (`Path`).

`Wrappers` and `Decimals` are shared helpers. Lemmas carry
`{:induction false}` wherever Dafny would otherwise add an induction of its own:
every induction is spelled out. Classes, `modifies` clauses and
loops stand where the source has objects and loops; each such method is tied to
a function, about which the properties are proved.

Clocks, files and the process environment do not occur; what the code reads
from them (the working directory, the text of a file, the source text, how a
JSON number rounds to a float) is a parameter.

## Where code and documentation disagree

- The mypy plugin: names a handler's `except E as e` deletes afterwards, `del`,
  `x: int` without a value and `:=` inside `a if c else b` are reported too
  generously, and a `raise` that a context manager may swallow is taken as
  unconditional; `ExactReports` says exactly when the report is right all the
  same.
- `xju/Event.hh` says an observer added while an observer is called is not
  called. That holds for one attached through `observers()`; one copied from a
  pending `Observer` is called, and two such can keep the loop going for as
  long as they please (`Invocation.CopiedObserverIsCalledExactly`,
  `Invocation.CopyingObserversLoop`). The comment of `xju/EventP.hh` is the
  right one.
- `xju/Ring.hh` describes `swapWithNext` through `next().next()`, which is
  wrong for rings of two; `RingTheory.SwapCommentExactly`
  says so, `RingTheory.SwapExchangesNeighbours` and `RingTheory.SwapOfOne` hold
  for all.
- `xju/format.hh` calls `cEscapeString` the C string literal of its argument.
  The codes that need octal are written `\0ddd`, of which C reads three digits:
  `CEscape.EscapeDenotesExactly`.
- `xju/path.hh` says `str(RelativePath)` is never empty; it is just for the empty
  relative path and for the path of one empty name, such as `splitdir` makes of
  `/` (`Path.EmptyRelativeExactly`).
- The paired validators of `xju/json_codec.ts` differ on objects with an own
  property `hasOwnProperty`, whose is-functions may throw where the as-functions
  succeed (`Validators.UnionsMayDiffer`), and on dicts whose keys are array or
  object literals, which the generator emits for enumerators with `bytes` values:
  `isKeyOfLiteral` compares with `===` and refuses every such key,
  `asKeyOfLiteral` compares structurally (`Validators.ListKeysDiffer`).
  `Validators.AgreeOnValueExactly` has the exact condition for all schemas,
  `Validators.ScalarKeysAgreeExactly` for those without such keys.

## Model

| member | source | states |
|---|---|---|
| `DefiniteAssignment.CollectFromStatements` | mypy-plugins/xn_mypy_plugin.py:779-794 | the loop over a statement list, rebinding vars_so_far and stopping at the first statement that finds the target or surely raises, computes CollectB, the function the soundness theorems are about |
| `DefiniteAssignment.CollectE` | mypy-plugins/xn_mypy_plugin.py:372-419 | the walk over an expression never claims an unconditional raise: it finds the target or says what is assigned so far |
| `DefiniteAssignmentProofs.FoundS` | mypy-plugins/xn_mypy_plugin.py:372-777 | the target is only reported as found, or said to sit where the analysis never looks, in a statement it really occurs in |
| `DefiniteAssignmentProofs.FoundE` | mypy-plugins/xn_mypy_plugin.py:372-419 | the same for expressions |
| `DefiniteAssignmentProofs.RaisesS` | mypy-plugins/xn_mypy_plugin.py:717-728 | a statement classed as an unconditional raise completes normally on no run, for all nestings, if no context manager swallows exceptions |
| `DefiniteAssignmentProofs.RaisesB` | mypy-plugins/xn_mypy_plugin.py:779-794 | the same for statement lists |
| `DefiniteAssignmentProofs.GrowS` | mypy-plugins/xn_mypy_plugin.py:372-777 | on every run a statement loses none of the assigned names but those of del, except-as and the other constructs listed as unsure; the record of visits only grows |
| `DefiniteAssignmentProofs.SoundE` | mypy-plugins/xn_mypy_plugin.py:641-662 | an expression keeps the invariant: every visit of the target so far had all reported names assigned, and on normal completion the names called so-far are assigned |
| `DefiniteAssignmentProofs.SoundOp` | mypy-plugins/xn_mypy_plugin.py:641-662 | for and/or the left operand's names hold in the right operand, whose own hold only where it is evaluated |
| `DefiniteAssignmentProofs.SoundCond` | mypy-plugins/xn_mypy_plugin.py:693-716 | a conditional expression keeps the invariant up to the names its branches assign by := (see CondReportHoldsExactly) |
| `DefiniteAssignmentProofs.SoundIf` | mypy-plugins/xn_mypy_plugin.py:420-459 | both branches of if keep the invariant, and what is reported after it holds whichever branch completed |
| `DefiniteAssignmentProofs.SoundRepeat` | mypy-plugins/xn_mypy_plugin.py:603-634 | while keeps it for every number of turns, with break, continue, return and raise leaving from anywhere, and for the else branch |
| `DefiniteAssignmentProofs.SoundFor` | mypy-plugins/xn_mypy_plugin.py:572-602 | for keeps it, the index being assigned in the body and in the else branch only as the analysis says |
| `DefiniteAssignmentProofs.SoundIterate` | mypy-plugins/xn_mypy_plugin.py:572-602 | the turns of a for loop keep it and lose no name that held before the loop |
| `DefiniteAssignmentProofs.SoundTry` | mypy-plugins/xn_mypy_plugin.py:485-527 | try/except/else/finally keeps it, finally starting from any point the body, a handler or else was left at |
| `DefiniteAssignmentProofs.SoundHandle` | mypy-plugins/xn_mypy_plugin.py:485-527 | so do the handlers, which start with the names assigned before the body |
| `DefiniteAssignmentProofs.SoundWith` | mypy-plugins/xn_mypy_plugin.py:528-545 | with keeps it: the names of its targets hold in the body |
| `DefiniteAssignmentProofs.SoundMatch` | mypy-plugins/xn_mypy_plugin.py:729-767 | match keeps it, including the run on which no case matches |
| `DefiniteAssignmentProofs.SoundS` | mypy-plugins/xn_mypy_plugin.py:372-777 | every statement keeps the invariant between what the analysis has collected and what the run has assigned |
| `DefiniteAssignmentProofs.SoundB` | mypy-plugins/xn_mypy_plugin.py:779-794 | every statement list keeps it |
| `ValidVars.ReportedVarsAreAssigned` | mypy-plugins/xn_mypy_plugin.py:372-794 | soundness over whole functions: at every visit of the target on every run all reported names and the arguments are assigned, except names occurring in the constructs the analysis does not treat precisely; and a run only visits a target that was found, or that sits where the analysis never looks, such as a callee |
| `ValidVars.UnreachableIsNeverReached` | mypy-plugins/xn_mypy_plugin.py:779-794 | a target that the analysis does not find, calling it unreachable or not seeing it, is visited by no run, unless it sits where the analysis never looks |
| `ValidVars.ValidVarsAt` | mypy-plugins/xn_mypy_plugin.py:313-370 | over nested scopes, innermost first: the result is valid exactly when the target is found in every scope, a name is in it exactly when some scope reports it, each name comes from the innermost scope that reports it, and otherwise the first scope that fails decides which failure is reported |
| `PyReach.SeesS` | mypy-plugins/xn_mypy_plugin.py:372-777 | whatever a run of a statement comes to (an end, or a node reached, with a variable assigned or not) the recursion over the syntax tree allows, for all nestings |
| `PyReach.SeesB` | mypy-plugins/xn_mypy_plugin.py:779-794 | the same for statement lists |
| `PyReach.SeesE` | mypy-plugins/xn_mypy_plugin.py:641-662 | the same for expressions |
| `PyWitness.DriveS` | mypy-plugins/xn_mypy_plugin.py:372-777 | conversely, whatever the recursion allows some choices make a run do, from every state with that status of the variable |
| `PyWitness.DriveB` | mypy-plugins/xn_mypy_plugin.py:779-794 | the same for statement lists |
| `PyWitness.DriveE` | mypy-plugins/xn_mypy_plugin.py:693-716 | the same for expressions |
| `ExactReports.EndsExactly` | mypy-plugins/xn_mypy_plugin.py:779-794 | a list may end normally, by raise, break, continue or return, with a variable assigned or not, exactly when some run does |
| `ExactReports.VisitsExactly` | mypy-plugins/xn_mypy_plugin.py:779-794 | a node may be reached without a variable exactly when some run does so |
| `ExactReports.TargetReportHoldsExactly` | mypy-plugins/xn_mypy_plugin.py:313-370 | for every function body: the names reported at the target are assigned on every visit of every run exactly when none of them may be missing there, the place of the target and the operands that are always evaluated taken into account |
| `ExactReports.StmtReportHoldsExactly` | mypy-plugins/xn_mypy_plugin.py:372-777 | after every statement the report is right exactly when no reported name may be missing where it completes; an unconditional raise, exactly when it may not complete |
| `ExactReports.RaiseReportHoldsExactly` | mypy-plugins/xn_mypy_plugin.py:717-728 | a list classed as an unconditional raise, context managers that swallow exceptions included, never completes exactly when the recursion finds no way to complete it |
| `ExactReports.MustExactly` | mypy-plugins/xn_mypy_plugin.py:641-716 | the set of names an expression must assign, by := in the operands of comparisons, displays and arithmetic too, and in both branches of nested conditionals, is just what no completing run goes without |
| `ExactReports.ExprReportHoldsExactly` | mypy-plugins/xn_mypy_plugin.py:641-716 | after every expression the report is right exactly when it claims no more than was assigned before or the expression must assign |
| `ExactReports.CondReportHoldsExactly` | mypy-plugins/xn_mypy_plugin.py:693-716 | for a if c else b: exactly when what is claimed was reported before, or must be assigned by c, or by both a and b |
| `ExactReports.TestAssigns` | mypy-plugins/xn_mypy_plugin.py:420-459 | what the test of an if must assign, as in if (x := f()) > 0, is assigned wherever control gets to in its branches |
| `ExactReports.DelReportHoldsExactly` | mypy-plugins/xn_mypy_plugin.py:386-387 | after del the report is right exactly when no deleted name was reported |
| `ExactReports.AnnotationReportHoldsExactly` | mypy-plugins/xn_mypy_plugin.py:549-560 | after a bare annotation the report is right exactly when its names were reported already |
| `ExactReports.ExceptReportHoldsExactly` | mypy-plugins/xn_mypy_plugin.py:485-527 | after try with any handlers the report is right exactly when no reported name is bound by "as" in a handler that can be entered and completed, unless the finally block must assign it again |
| `ExactReports.ExceptNameHoldsExactly` | mypy-plugins/xn_mypy_plugin.py:485-527 | without a finally block: exactly when no name assigned before is bound so |
| `ExactReports.ExceptNameIsReported` | mypy-plugins/xn_mypy_plugin.py:485-527 | a witness: after except E as e, with e assigned before, the analysis reports e, yet a run reaches the target without it |
| `ExactReports.SwallowedRaiseCompletes` | mypy-plugins/xn_mypy_plugin.py:528-545 | a witness: raise inside a context manager that swallows exceptions is classed as an unconditional raise, yet the list completes |
| `Peg.Eval` | hcp/parser.cc:81-262 | every combinator terminates on every text, no end or failure lies before the start or beyond the text, and success on no text happens only where the grammar says it may |
| `Peg.EvalMany` | hcp/parser.cc:139-154 | repetition never fails and terminates |
| `Peg.EvalAnd` | hcp/parser.cc:185-209 | a sequence stays within bounds, and consumes nothing only if each term may |
| `Peg.EvalOr` | hcp/parser.cc:241-262 | a choice stays within bounds and consumes nothing only if an alternative may (which failure it reports is FurthestFailure's row) |
| `Peg.EvalUntil` | hcp/parser.cc:737-752 | parseUntil stays within bounds and terminates |
| `Peg.EvalSpecificUntil` | hcp/parser.cc:791-811 | the same where an item is parsed between the looks for the end |
| `Peg.EvalList` | hcp/parser.cc:1446-1471 | a list of x while the more-indicator matches stays within bounds, and consumes nothing only if x may |
| `Peg.EvalNToM` | hcp/parser.cc:1617-1640 | between n and m times stays within bounds |
| `Peg.MatchLength` | hcp/parser.cc:853-880 | a literal is compared up to the first difference or the end of the text, where its failure is reported |
| `Peg.DelimiterEnd` | hcp/parser.cc:1073-1130 | the delimiter of a raw string ends at the first '(' and has at most 16 characters, as section 2.14.5 of ISO/IEC 14882:2011 has it |
| `Peg.RawStringRest` | hcp/parser.cc:1073-1130 | a raw string literal that is accepted consumes something and stays in the text |
| `Peg.Scan` | hcp/parser.cc:1199-1320 | the balanced scanner ends where until, or the closer of the bracket it is inside, matches; scanner and brackets call each other on less and less text |
| `Packrat.Engine.constructor` | hcp/parser.hh:242-246 | a new cache is empty and valid |
| `Packrat.Engine.Parse` | hcp/parser.cc:1401-1434 | with any valid cache, parse returns what cache-free evaluation returns, leaves the cache valid (each entry is the uncached result) and with an entry for this call, and forgets none |
| `Packrat.Engine.ParseAll` | hcp/parser.cc:1401-1434 | any sequence of calls sharing one cache gives the cache-free results |
| `Packrat.Engine.ParseNode` | hcp/parser.cc:81-262 | the parse_ method of every kind of parser, calling others through the cache, returns the cache-free result |
| `Packrat.Engine.ParseZeroOrMore` | hcp/parser.cc:139-154 | the loop appending items and moving end on is cache-free repetition |
| `Packrat.Engine.ParseAnd` | hcp/parser.cc:185-209 | the loop over terms is cache-free sequencing |
| `Packrat.Engine.ParseOr` | hcp/parser.cc:241-262 | the loop keeping the furthest failure is cache-free choice |
| `Packrat.Engine.ParseUntil` | hcp/parser.cc:737-752 | the scanning loop is the cache-free one |
| `Packrat.Engine.ParseSpecificUntil` | hcp/parser.cc:791-811 | the same where an item is parsed at each turn |
| `Packrat.Engine.ParseNonEmptyListOf` | hcp/parser.cc:1446-1471 | the loop of x and more-indicator is the cache-free one |
| `Packrat.Engine.ParseNToM` | hcp/parser.cc:1617-1640 | the counting loop is the cache-free one |
| `Packrat.Engine.ParseBalanced` | hcp/parser.cc:1199-1320 | the scanner, with its temporaries evaluated afresh and everything else cached, yields the cache-free scan |
| `Packrat.Engine.ScanStep` | hcp/parser.cc:1225-1318 | the switch on the next character moves on, or fails, as one cache-free step does |
| `Lossless.ParseTiles` | hcp/parser.hh:386-407 | every combinator: the items of a success lie end to end from its start to its end, and so do the children at every level of the tree |
| `Lossless.ManyTiles` | hcp/parser.cc:139-154 | repetition keeps the items tiled |
| `Lossless.AndTiles` | hcp/parser.cc:185-209 | so does a sequence |
| `Lossless.SpecificUntilTiles` | hcp/parser.cc:791-811 | so does parseUntil with an item |
| `Lossless.ListTiles` | hcp/parser.cc:1446-1471 | so does a list |
| `Lossless.NToMTiles` | hcp/parser.cc:1617-1640 | so does counted repetition |
| `Lossless.ReconstructAll` | hcp/ast.cc:24-30 | reconstruct over a list of tiling items is the text they span |
| `Lossless.LeavesWhole` | hcp/ast.hh:121-128 | the leaves of a tree, read left to right, are the text of its root |
| `Lossless.ParseString` | hcp/parser.cc:3460-3479 | parseString succeeds exactly when the parser consumes the whole text; the root's reconstruct, and its leaves, are then the input |
| `Flattening.PlusIsSequence` | hcp/parser.cc:1536-1558 | the flattened a+b does what a then b do: same items, end and failure, whatever a and b are built of |
| `Flattening.PlusIsAssociative` | hcp/parser.cc:1536-1558 | (a+b)+d and a+(b+d) are the same parser |
| `Flattening.EvalOfAnd` | hcp/parser.cc:185-209 | ParseAnd's loop over terms is the terms parsed one after the other |
| `Flattening.SequenceAppend` | hcp/parser.cc:1536-1558 | parsing two lists of terms appended is parsing one and then the other |
| `Flattening.EitherIsChoice` | hcp/parser.cc:1560-1580 | the flattened choice of a and b is a, else b, else the further of their failures, ties to b |
| `Flattening.EitherIsAssociative` | hcp/parser.cc:1560-1580 | choosing between (a or b) and d, or between a and (b or d), is the same parser, failure position included |
| `Flattening.EvalOfOr` | hcp/parser.cc:241-262 | ParseOr's loop over alternatives is ordered choice |
| `Flattening.FurthestFailure` | hcp/parser.cc:241-262 | a failing choice reports the failure of an alternative such that none fails further and none behind it as far |
| `BalancedText.BalancedExactly` | hcp/parser.cc:1199-1320 | the scan succeeds with end e exactly when the text up to e cuts into plain characters, literals, comments and bracketed groups, each closed by its own closer, such that until matches at e and at no cut before |
| `BalancedText.ScanCuts` | hcp/parser.cc:1199-1320 | what a successful scan passed over is cut so |
| `BalancedText.CutsScan` | hcp/parser.cc:1199-1320 | conversely a text so cut is scanned to its end, with that one cutting |
| `BalancedText.BracketsMatch` | hcp/parser.cc:1199-1320 | the brackets of the groups the scanner opens, read against a stack, match: (, [, { and, when enabled, <; a closer with no opener is plain text to the scanner and not among them |
| `BalancedText.OpenersAreClosed` | hcp/parser.cc:1199-1320 | every (, [, { and, when enabled, < of the region that lies in no literal or comment is closed by its own closer before the region ends, with balanced text between |
| `BalancedText.TokenBracketsMatch` | hcp/parser.cc:1225-1318 | the brackets of one step match |
| `LeftRecursion.RanksExistExactly` | hcp/parser.cc:3170-3240 | a grammar, recursion through SelfParser and ParseClass included, can be ranked, so that parsing terminates, exactly when no parser reaches itself without consuming and the bodies of repetitions never succeed on no text |
| `LeftRecursion.RanksDoNotMatter` | hcp/parser.cc:1401-1434 | what a parser yields does not depend on how the grammar was ranked |
| `LeftRecursion.NodeOkIsShape` | hcp/parser.cc:139-154 | being well ranked is being well shaped, with every parser called before anything is consumed ranked lower |
| `LeftRecursion.RankFalls` | hcp/parser.cc:3170-3190 | along a chain of calls that consumes nothing the rank falls |
| `LeftRecursion.ReachShrinks` | hcp/parser.cc:3170-3190 | without left recursion, what a callee reaches without consuming is strictly less than what its caller does |
| `CEscape.AsOctal` | xju/format.cc:187-197 | the loop taking three bits at a time and reversing yields the octal digits, one for every three bits or part of them |
| `CEscape.OctalIsValue` | xju/format.cc:187-197 | those digits denote the number |
| `CEscape.EscapeString` | xju/format.cc:439-447 | the loop over the characters yields each one's escape in turn |
| `CEscape.OctalEscape` | xju/format.cc:395-418 | a character without a name and not printable becomes backslash, 0 and three octal digits that denote it |
| `CEscape.UnescapeInverts` | xju/format.cc:395-448 | an unescaper that knows this form gives back every byte string |
| `CEscape.EscapeIsInjective` | xju/format.cc:395-448 | different byte strings have different escapes |
| `CEscape.DenotesOne` | xju/format.cc:395-418 | to a C compiler every other escape denotes its character |
| `CEscape.DenotesLength` | xju/format.cc:395-448 | what a C compiler makes of an escape is longer by one character for each octal escape in it |
| `CEscape.EscapeDenotesExactly` | xju/format.cc:395-448 | so the escape denotes its string in C, with trigraphs off, exactly when no character needs octal |
| `StringLiteral.GraphIsWellFormed` | hcp/parser.cc:1930-1947 | the grammar of string literals, with whitespace and comments after them, has no left recursion and no repetition of nothing |
| `StringLiteral.QuotedEscapeIsOneLiteral` | hcp/parser.cc:1930-1947 | for every byte string, its quoted escape is consumed whole by stringLiteral as one literal: quote, characters, quote |
| `StringLiteral.UpToQuote` | hcp/parser.cc:1930-1937 | s_chars goes from the first character of an escape to the quote after it and no further |
| `StringLiteral.OneEscape` | hcp/parser.cc:1379-1393 | s_char passes each character's escape in one go, or for octal in two |
| `StringLiteral.NoWhite` | hcp/parser.cc:1866-1875 | eatWhite at the end of the text succeeds on nothing |
| `RingLinks.Ring.constructor` | xju/RingLink.hh:185-189 | a new link is on its own |
| `RingLinks.Ring.Splice` | xju/Ring.hh:310-317 | under all aliasing, prev and next stay mutually inverse over all links, and next changes by exchanging the successors of this and of ring.prev(), whatever rings they are in |
| `RingLinks.Ring.Cut` | xju/Ring.hh:320-337 | the same for cutting this..to, which exchanges the successors of this.prev() and to |
| `RingLinks.Ring.SwapWithNext` | xju/Ring.hh:340-346 | cut and splice together move this behind its neighbour, all links staying linked |
| `RingLinks.LinkedIsLinked` | xju/Ring.hh:310-346 | links that point back and forth at each other have a one-to-one next within themselves |
| `RingTheory.ExchangeSplitsOrMerges` | xju/Ring.hh:310-337 | exchanging the successors of two links: in one ring it falls in two, in two rings they become one, and nothing else can be |
| `RingTheory.ExchangeSplits` | xju/Ring.hh:320-337 | the two rings a ring falls into are the stretches up to each of the two links |
| `RingTheory.ExchangeMerges` | xju/Ring.hh:310-317 | two rings become one, the second put in behind the first link |
| `RingTheory.ExchangeElsewhere` | xju/Ring.hh:310-337 | a ring with neither link is untouched |
| `RingTheory.ExchangeKeepsLinked` | xju/Ring.hh:310-337 | the links are conserved and next stays one-to-one |
| `RingTheory.RingThrough` | xju/Ring.hh:310-346 | every link is in a ring, whatever splices and cuts came before |
| `RingTheory.TakeOut` | xju/Ring.hh:320-337 | cutting one link leaves its ring without it and the link on its own |
| `RingTheory.InsertBehind` | xju/Ring.hh:310-317 | splicing a single link puts it behind the one it was spliced to |
| `RingTheory.SwapExchangesNeighbours` | xju/Ring.hh:340-346 | swapWithNext exchanges a link and its successor and leaves the order of all others, also in rings of two |
| `RingTheory.SwapOfOne` | xju/Ring.hh:340-346 | and does nothing in a ring of one |
| `RingTheory.SwapCommentExactly` | xju/Ring.hh:184-194 | after swapWithNext next() is the former next().next(), as its comment says, exactly in those of more than two links, of the rings of two and more |
| `NotificationProofs.ApplyInv` | xju/Observer.hh:49-96 | whatever an observer does (attach, copy, detach, delete the event), markers stay in pairs, start before end, each member once |
| `NotificationProofs.EnterInv` | xju/Event.hh:150-154 | so does putting in the markers of an invocation |
| `NotificationProofs.SwapInv` | xju/Event.hh:158-158 | so does moving a start marker on |
| `NotificationProofs.ExitInv` | xju/Event.hh:150-151 | so does the destruction of the markers |
| `NotificationProofs.ApplyLaw` | xju/Observer.hh:49-96 | an act makes pending, or no longer pending, only the observer it is about, and says when |
| `NotificationProofs.SwapLaw` | xju/Event.hh:156-160 | moving a start past its neighbour makes just that observer, in just that invocation, no longer pending |
| `NotificationProofs.EnterLaw` | xju/Event.hh:150-154 | a nested invocation beginning changes no outer one's pending observers |
| `NotificationProofs.ExitLaw` | xju/Event.hh:150-151 | nor does it when it ends |
| `Invocation.LoopRuns` | xju/Event.hh:156-160 | every loop ends, for observers whose callbacks do, with its start and end side by side, every step having been lawful |
| `Invocation.AllArePending` | xju/Event.hh:150-154 | when the loop starts, pending is exactly every observer in the ring |
| `Invocation.CallsAreAccountedFor` | xju/Event.hh:141-161 | for every observer: calls by this invocation + times it left while pending == (1 if attached at the start) + times it became pending since |
| `Invocation.CalledExactlyOnce` | xju/Event.hh:44-58 | if observers attach only through observers(), an observer is called exactly once if it was attached at the start and did not leave before its turn, and otherwise not at all |
| `Invocation.LoopIsBounded` | xju/Event.hh:156-160 | then an invocation makes no more calls than the ring had members |
| `Invocation.SplitIsKept` | xju/Event.hh:141-161 | a nested invocation leaves every outer invocation's called and remaining observers as they are, but for acts about the observer itself |
| `Invocation.CopiedObserverIsCalledExactly` | xju/Observer.hh:75-96 | an observer copied from another is pending exactly where the other is |
| `Invocation.CopyingObserversLoop` | xju/Observer.hh:88-96 | two observers that keep copying each other make one invocation call as often as one likes |
| `EventRing.CallsOnRecord` | xju/Event.hh:156-160 | the calls the heap event records are the calls counted above |
| `EventRing.DoNotify` | xju/EventP.hh:148-168 | an invocation is: markers in, the loop, markers out |
| `EventRing.InvokeDoes` | xju/Event.hh:141-161 | so the splices, the loop on the heap and the destructors together do what an invocation does |
| `EventRing.Event.constructor` | xju/Event.hh:111-114 | a new event's ring holds its own link only |
| `EventRing.Event.CutLink` | xju/Ring.hh:320-337 | on the heap, cutting a member's link takes it out of the event's ring |
| `EventRing.Event.SpliceAfter` | xju/Ring.hh:310-317 | and splicing a single link puts it behind its host, if that is in the event's ring |
| `EventRing.Event.MoveToHead` | xju/EventClient.hh:79-85 | attaching cuts the observer's link and puts it right behind the event's own |
| `EventRing.Event.MoveBehind` | xju/Observer.hh:88-96 | copying puts it behind the other observer's, wherever that is |
| `EventRing.Event.ApplyAct` | xju/Observer.hh:49-96 | every act on the heap changes the ring as the model of acts says and moves no marker's link |
| `EventRing.Event.PutMarkers` | xju/Event.hh:150-154 | the two splices put start right behind the event's own link and end at the far end |
| `EventRing.Event.TakeMarkers` | xju/Event.hh:150-151 | the destructors take both out, also when the event is gone |
| `EventRing.Event.MoveOn` | xju/Event.hh:158-158 | swapWithNext moves start past one member, which start.prev() then is |
| `EventRing.Event.Turn` | xju/Event.hh:158-159 | one turn of the loop is one turn of the model, and the loop has less left to do after it |
| `EventRing.Event.Turns` | xju/Event.hh:156-160 | the loop on the heap terminates and makes the model's steps and calls, for all observer behaviour and nesting |
| `EventRing.Event.RunActs` | xju/EventClient.hh:72-85 | so do the acts of one callback |
| `EventRing.Event.DoAct` | xju/Event.hh:141-161 | and one act, nested invocations included |
| `EventRing.Event.Invoke` | xju/Event.hh:141-161 | operator() on the heap, at any depth of nesting, ends with the ring and the record of calls that the model's invocation gives |
| `SharedOwnership.PerformDeletesLast` | xju/Shared.hh:235-251 | an operation deletes an object exactly when it takes away its last holder, and then once |
| `SharedOwnership.PerformSound` | xju/Shared.hh:282-322 | no operation leaves a deleted object held, or deletes one again |
| `SharedOwnership.PerformHolds` | xju/Shared.hh:268-322 | an object comes to be held only by being given as a raw pointer, and then by one that was not held or deleted |
| `SharedOwnership.RunAccounts` | xju/Shared.hh:235-322 | over any run: deletions + (1 if held) changes by exactly the number of times the object was given |
| `SharedOwnership.AdoptedOnce` | xju/Shared.hh:268-279 | in a permitted run no raw pointer is given twice |
| `SharedOwnership.DeletedExactlyOnce` | xju/Shared.hh:235-322 | after any run from nothing, an object has been deleted once if it was ever given and is held no more, and otherwise not at all |
| `SharedRing.AloneIsLast` | xju/RingLink.hh:179-182 | atomic() is true exactly when no other Shared holds the object |
| `SharedRing.LeaveRing` | xju/Shared.hh:246-250 | a holder among several that is cut leaves the others in exactly one ring, and itself alone |
| `SharedRing.LeaveLast` | xju/Shared.hh:237-245 | the last holder letting go leaves every other object its one ring |
| `SharedRing.Join` | xju/Shared.hh:34-43 | a new holder spliced in makes the ring of holders one longer and leaves the other rings |
| `SharedRing.TakeOver` | xju/Shared.hh:268-272 | a raw pointer taken over has a ring of one |
| `SharedRing.Heap.Release` | xju/Shared.hh:235-251 | release on the heap, deciding by the link alone, is the release of the counting model, and keeps one ring per object held |
| `SharedRing.Heap.HoldSame` | xju/Shared.hh:34-43 | constructShared on the heap: the target comes to hold what the source holds, in the source's ring |
| `SharedRing.Heap.HoldFirst` | xju/Shared.hh:268-272 | an unheld raw pointer comes to be held by one |
| `SharedRing.Heap.Make` | xju/Shared.hh:254-258 | a default Shared holds nothing |
| `SharedRing.Heap.Own` | xju/Shared.hh:268-279 | construction from a raw or unique pointer does what the counting model does |
| `SharedRing.Heap.Copy` | xju/Shared.hh:282-295 | so does copy construction |
| `SharedRing.Heap.Assign` | xju/Shared.hh:298-312 | so does assignment, self-assignment and assignment between holders of one object included |
| `SharedRing.Heap.Reset` | xju/Shared.hh:315-322 | so does assignment of a raw pointer |
| `SharedRing.Heap.Destroy` | xju/Shared.hh:261-265 | so does destruction |
| `SharedProgram.Program.constructor` | xju/Shared.hh:254-258 | a program begins with nothing held and an empty record |
| `SharedProgram.Program.Make` | xju/Shared.hh:254-258 | a call makes a new Shared and keeps the record: what the recorded operations come to by counting is what the heap holds |
| `SharedProgram.Program.Own` | xju/Shared.hh:268-279 | so does this one |
| `SharedProgram.Program.Copy` | xju/Shared.hh:282-295 | so does this one |
| `SharedProgram.Program.Assign` | xju/Shared.hh:298-312 | so does this one |
| `SharedProgram.Program.Reset` | xju/Shared.hh:315-322 | so does this one |
| `SharedProgram.Program.Destroy` | xju/Shared.hh:261-265 | so does this one |
| `SharedProgram.DeletedOnceInProgram` | xju/Shared.hh:235-322 | on the heap, after any sequence of calls: an object has been deleted once if it was ever given and no live Shared holds it, and otherwise not at all |
| `SharedProgram.RenamedPerform` | xju/Shared.hh:235-322 | what an operation does, deletions included, does not depend on which Shared the names stand for |
| `SharedProgram.Program.Step` | xju/Shared.hh:235-322 | any permitted operation, on named Shared, does on the heap what it does by counting, touching nothing but the program's own Shared |
| `SharedProgram.Replay` | xju/Shared.hh:235-322 | every permitted list of operations can be run on the heap from nothing, ends with each Shared holding what the counting says, and has deleted an object once if it was given and is held no more, and otherwise not at all |
| `OffsetMap.UpperBoundIs` | hcp/hcp-split.cc:101-108 | in a sorted map upper_bound is found by looking at its two neighbours |
| `OffsetMap.LookupInserted` | hcp/hcp-split.cc:64-71 | an entry added at the end maps from there on and leaves earlier offsets alone |
| `OffsetMap.LookupAlong` | hcp/hcp-split.cc:101-108 | after the last entry offsets run along with it |
| `OffsetMap.EmptyCopyBlocks` | hcp/hcp-split.cc:64-71 | once an entry is at the output offset, std::map::insert keeps it: a second copy from elsewhere before any output has no effect on the map |
| `OffsetMap.OStream.constructor` | hcp/hcp-split.cc:46-50 | a new stream has written nothing and maps nothing |
| `OffsetMap.OStream.Write` | hcp/hcp-split.cc:51-63 | generated text is appended and the map still gives the origin of every copied byte |
| `OffsetMap.OStream.Copy` | hcp/hcp-split.cc:64-71 | the internal assertion fails exactly when an entry is already at the output offset and the map leads elsewhere; otherwise the text is appended and every byte copied so far maps to its origin; after a non-empty copy the next one cannot fail |
| `OffsetMap.OStream.Map` | hcp/hcp-split.cc:66-69 | inserting an entry keeps the map right for every byte so far, and leads to the new origin unless an entry was there already |
| `OffsetMap.OStream.CopyItems` | hcp/hcp-split.cc:72-79 | copying a list of non-empty items never aborts and appends their texts' origins in order |
| `OffsetMap.OStream.CopyExcluding` | hcp/hcp-split.cc:80-92 | copying without the excluded types copies exactly the leaves outside them, in order, and for non-empty leaves never aborts |
| `OffsetMap.OStream.Replay` | hcp/hcp-split.cc:42-109 | any interleaving of generated text and non-empty copies: no copy aborts, and every byte written maps to its origin |
| `OffsetMapFile.WriteOffsetMap` | hcp/hcp-split.cc:755-762 | the loop writes the name's line and a line for each entry in order |
| `OffsetMapFile.FillMap` | hcp/hcp-map-to-source.cc:176-191 | the loop fills the map from its sentinel on, or fails at the first number that does not fit an unsigned int; an entry stands before every offset |
| `OffsetMapFile.SourceOffset` | hcp/hcp-map-to-source.cc:198-201 | stepping back from upper_bound never leaves the map and gives the offset's image |
| `OffsetMapFile.MapToSource` | hcp/hcp-map-to-source.cc:147-203 | the tool answers the name and image for a map it can read, and reports an error for any other |
| `OffsetMapFile.MapIsReadBackExactly` | hcp/hcp-map-to-source.cc:153-191 | a map file is read back as the name and the map with its sentinel exactly when the name has no newline and all offsets fit an unsigned int |
| `OffsetMapFile.SentinelIsIdentity` | hcp/hcp-map-to-source.cc:177-177 | with (-1,-1) the reader's lookup agrees with the writer's, offsets before any entry included |
| `OffsetMapFile.WhereFrom` | hcp/hcp-map-to-source.cc:176-201 | writer and reader together: for every output byte copied from source offset s, writing the map, reading it and looking the byte up answers s, where the source has that byte |
| `OffsetMapFile.Trace` | hcp/hcp-map-to-source.cc:176-201 | for any such interleaving, written, read back and looked up: the answer for every copied byte is the source offset it was copied from |
| `Comparisons.GenerateLess` | hcp/hcp-split.cc:403-410 | the loop emits two tests for each member, in order, and the closing return |
| `Comparisons.LessIsLexicographic` | hcp/hcp-split.cc:403-410 | the emitted operator< is the lexicographic order of the members, for any number of them |
| `Comparisons.LessIsStrictWeakOrderExactly` | hcp/hcp-split.cc:479-486 | it is a strict weak order exactly when each member's < is |
| `Comparisons.CompanionsAgree` | hcp/hcp-split.cc:412-435 | == is an equivalence that < and > respect, != its negation, <= and >= are < or == and > or ==, and <= is transitive |
| `Comparisons.EqIsMemberwise` | hcp/hcp-split.cc:422-425 | == holds exactly when every member is equivalent |
| `CodecTree.ParseIntText` | xju/json_codec.py:861-907 | an integer's text is read as that integer |
| `CodecRoundTrip.ComesBack` | xju/json_codec.py:435-446 | the round trip for every codec tree, recursive classes through back-references included: what encode accepts, written and read as JSON or passed on as it is, decodes to an equal value, given distinct names and keys and unions whose chosen alternative no earlier one shadows |
| `CodecRoundTrip.ComesBackDirectly` | xju/json_codec.py:139-145 | and decode of encode alone, with no JSON text in between and keys that are not strings decoded as they are |
| `CodecRoundTrip.AtomComesBack` | xju/json_codec.py:279-293 | the codecs of plain values |
| `CodecRoundTrip.NewComesBackExactly` | xju/json_codec.py:1030-1043 | NewInt, NewFloat and NewStr encode any wrapper of the base type; the value comes back exactly when it is the codec's own type |
| `CodecRoundTrip.EnumComesBack` | xju/json_codec.py:2336-2364 | an enumerator comes back unless an earlier one has an equal value |
| `CodecRoundTrip.BytesComeBack` | xju/json_codec.py:1554-1565 | bytes are encoded as a list of ints and come back |
| `CodecRoundTrip.SetComesBack` | xju/json_codec.py:509-523 | a set comes back |
| `CodecRoundTrip.TupleComesBack` | xju/json_codec.py:684-718 | a tuple comes back, item by item |
| `CodecRoundTrip.FirstComesBack` | xju/json_codec.py:761-795 | a union's value comes back through the alternative that encoded it |
| `CodecRoundTrip.DictComesBack` | xju/json_codec.py:861-907 | a dict comes back, its keys having been JSON strings in between |
| `CodecRoundTrip.KeyComesBack` | xju/json_codec.py:861-907 | each key is decoded to an equal key, from its text or, undumped, as it is |
| `CodecRoundTrip.TextIsReadBack` | xju/json_codec.py:861-907 | int, bool and None keys survive as the texts json.dumps makes of them |
| `CodecRoundTrip.EncodedKeysDistinct` | xju/json_codec.py:861-907 | different keys stay different, encoded and as text, so no entry overwrites another |
| `CodecRoundTrip.StrOrIntKeyExactly` | xju/json_codec.py:861-907 | a str key of a str-or-int dict comes back exactly when, read as JSON, it is not an int, nor a string other than itself |
| `CodecRoundTrip.IntegerTextIsLost` | xju/json_codec.py:861-907 | so a key that is an integer's text does not |
| `CodecRoundTrip.ObjectComesBack` | xju/json_codec.py:2017-2060 | an object comes back: every attribute is encoded under its encoded name and decoded to an equal value |
| `CodecRoundTrip.MissingTakeDefaultsExactly` | xju/json_codec.py:2038-2060 | decoding an object whose JSON lacks some attributes succeeds exactly when each of them has a default, and gives those defaults and the other attributes as in the round trip |
| `CodecRoundTrip.AttrsComeBack` | xju/json_codec.py:2017-2060 | so do its attributes, one by one |
| `CodecRoundTrip.BackRefIsItsCodec` | xju/json_codec.py:2641-2649 | a back-reference encodes and decodes as the codec it was resolved to |
| `CodecRoundTrip.LevelDoesNotMatter` | xju/json_codec.py:2641-2697 | the number that bounds unfolding of back-references does not change results |
| `CodecLoops.UnionEncode` | xju/json_codec.py:761-795 | the loop over alternatives encodes with the first that accepts |
| `CodecLoops.UnionDecode` | xju/json_codec.py:761-795 | and decodes with the first that accepts |
| `CodecLoops.DictEncode` | xju/json_codec.py:861-907 | the loop builds the encoded dict, or fails at the first entry that does |
| `CodecLoops.ClassEncode` | xju/json_codec.py:2021-2036 | the loop stores every attribute's encoding under its encoded name, or fails at the first attribute that is missing or is not accepted |
| `CodecLoops.ClassDecode` | xju/json_codec.py:2017-2060 | decoding all attributes first and constructing afterwards, with defaults for the missing ones, comes to decoding attribute by attribute |
| `CodecLoops.FinishIsDecode` | xju/json_codec.py:2017-2060 | the two orders fail on the same inputs and give the same attributes |
| `Namespaces.Walk` | xju/json_codec.py:2943-2959 | the depth-first walk lists the unseen namespaces reachable from a node, each once, closed under dependencies but for those seen before; without cycles each stands behind what it depends on; it fails only on reaching a missing one |
| `Namespaces.Roots` | xju/json_codec.py:2922-2940 | the roots are the namespaces no other depends on |
| `Namespaces.SortNamespaces` | xju/json_codec.py:2922-2940 | fails exactly when a missing namespace is reached from a root; otherwise the result is distinct; for graphs closed under their keys it lists every namespace with none depending on a later one exactly when the graph is acyclic but for self-dependencies |
| `Namespaces.SortedExactly` | xju/json_codec.py:2922-2959 | that equivalence for any list the walk may give: a cycle makes it incomplete or out of order |
| `Validators.PrimsAgree` | xju/json_codec.ts:65-313 | is and as agree on every plain type |
| `Validators.KeysAgree` | xju/json_codec.ts:65-313 | what is takes for a key as takes too, and they agree if no literal in it is an array or object, or the name is not the JSON text of one |
| `Validators.LiteralKeysDifferExactly` | xju/json_codec.ts:265-311 | for a literal key they differ exactly on the texts that JSON.parse reads as an array or object equal to it, which as takes and is refuses |
| `Validators.ValidatorsAgree` | xju/json_codec.ts:328-727 | for every schema and value: is throws only on values with an own property hasOwnProperty somewhere; what is accepts as accepts; and if no literal key is an array or object, or no property is named by the text of one, then where is answers as gives the same deferred writes or throws |
| `Validators.Separated` | xju/json_codec.ts:328-539 | for every value with such an object, however deep, there is a schema, without array or object literals as keys, whose as accepts every value while its is throws on this one |
| `Validators.AgreeOnValueExactly` | xju/json_codec.ts:328-727 | the exact condition on a value: for all schemas is succeeds if and only if as does not throw, exactly when no object in it has an own property hasOwnProperty, or a property named by the JSON text of an array or object |
| `Validators.ScalarKeysAgreeExactly` | xju/json_codec.ts:328-727 | the same for schemas whose literal keys are no arrays or objects: exactly when no object has an own property hasOwnProperty |
| `Validators.Refused` | xju/json_codec.ts:265-311 | for every value with a property so named, however deep, there is a schema whose as accepts every value that hides nothing while its is does not accept this one |
| `Validators.ListKeysDiffer` | xju/json_codec.ts:265-311 | a witness: for a dict keyed by the literal [] and an object with the property "[]", is says no and as succeeds |
| `Validators.ThrowsAlike` | xju/json_codec.ts:424-480 | the condition on a schema: if unions look into objects in their last alternative only, as throws wherever is throws |
| `Validators.AgreeOnSchema` | xju/json_codec.ts:328-727 | for such schemas, those without unions among them, whose literal keys are no arrays or objects, is succeeds if and only if as does not throw, on every value |
| `Validators.UnionsMayDiffer` | xju/json_codec.ts:424-480 | a witness: with such an object a union's is throws where its as succeeds |
| `ValidatorLoops.IsList` | xju/json_codec.ts:328-344 | the loop pushing defaulters is the recursive answer, for lists and tuples |
| `ValidatorLoops.AsList` | xju/json_codec.ts:345-370 | the same for as |
| `ValidatorLoops.IsDict` | xju/json_codec.ts:483-508 | the same for dicts |
| `ValidatorLoops.AsDict` | xju/json_codec.ts:509-539 | the same for as |
| `ValidatorLoops.IsClass` | xju/json_codec.ts:647-683 | the same for classes, with a default for each missing property that has one |
| `ValidatorLoops.AsClass` | xju/json_codec.ts:684-727 | the same for as |
| `ValidatorLoops.IsUnion` | xju/json_codec.ts:424-445 | the loop over alternatives is the first that says yes |
| `ValidatorLoops.AsUnion` | xju/json_codec.ts:446-480 | the first that does not throw, or all their errors |
| `ValidatorDefaults.Document.IsInstance` | xju/json_codec.py:2103-2108 | validation writes nothing until it has succeeded; a failed or throwing one leaves the value as it was |
| `ValidatorDefaults.Document.AsInstance` | xju/json_codec.py:2097-2102 | the same for as |
| `ValidatorDefaults.Document.ApplyDefaults` | xju/json_codec.ts:338-342 | the deferred writes are made in the order they were pushed |
| `ValidatorDefaults.DefaultsFill` | xju/json_codec.ts:328-727 | the deferred writes, made one after the other at paths into the value, fill it as a recursive walk along the schema would |
| `ValidatorConformance.FilledExtends` | xju/json_codec.ts:647-727 | filling only adds properties that objects lack, and changes nothing that was there |
| `ValidatorConformance.FilledConforms` | xju/json_codec.ts:328-727 | a value that validates still validates when filled, given conforming defaults, if it has no own property hasOwnProperty or the schema's unions look into objects last |
| `ValidatorConformance.FilledMayThrow` | xju/json_codec.ts:424-480 | a witness that one of the two is needed: a value filled for a later alternative makes the is of an earlier one throw |
| `Path.SplitString` | xju/path.cc:29-42 | the loop over slashes yields the split of the string |
| `Path.Normalise` | xju/path.cc:44-74 | the loop over a growing and shrinking vector yields the normal form, or the component at which ".." leads above the root |
| `Path.NormaliseIsNormal` | xju/path.cc:44-74 | a normalised path has no "", "." or ".." |
| `Path.NormaliseOfNormal` | xju/path.cc:44-74 | and normalising it again, also behind others, changes nothing |
| `Path.NormaliseInParts` | xju/path.cc:145-161 | normalise(normalise(a)+b) is normalise(a+b), failures included |
| `Path.NormaliseFailsExactly` | xju/path.cc:44-74 | it fails exactly when some beginning of the path has more ".." than names |
| `Path.SplitOfJoin` | xju/path.cc:29-42 | splitting joined slash-free non-empty names gives them back |
| `Path.SplitIsSlashFree` | xju/path.cc:29-42 | no part of a split string holds a slash |
| `Path.AbsoluteRoundTripExactly` | xju/path.cc:96-113 | a normal path's string is read back as the path exactly when no component has a slash |
| `Path.RelativeRoundTripExactly` | xju/path.cc:77-94 | a relative path's exactly when no component has a slash or is empty |
| `Path.EmptyRelativeExactly` | xju/path.cc:115-124 | str of a relative path, whatever its names, is empty exactly for the empty path, which "" is read as, and for the path of one empty name |
| `Path.SplitDirIsAbsolutePath` | xju/path.cc:336-373 | splitdir(x) is AbsolutePath(x) for every absolute x, failures included |
| `Path.SplitDirIsFromWorkingDir` | xju/path.cc:336-373 | and for every other x the normal form of x behind the working directory |
| `Path.FileRoundTripExactly` | xju/path.cc:192-195 | str of a directory and file name splits into them exactly when no component nor the name has a slash and the name is not empty, unless the directory is the root |
| `Path.DirnameAndBasename` | xju/path.cc:381-387 | dirname and basename of a path other than the root join to the path |

## Left out

Definite assignment:

- ValidVars.ReportedVarsAreAssigned: requires that no context manager swallows exceptions and excepts the names of del, except-as, bare annotations and := inside the first part of a conditional expression, wherever they stand in the body; ExactReports.TargetReportHoldsExactly has neither restriction.
- ExactReports.TargetReportHoldsExactly: a test may go either way and any operation may raise, whatever its operands are, so that `if True:` and `case _:` are taken to fail too; the patterns of a match bind all their captures or none.
- ExactReports.ExceptReportHoldsExactly: for try statements whose parts do not unbind names by themselves; StmtReportHoldsExactly is for all.
- Names made global or nonlocal, class bodies run inside a function, the cause in `raise ... from`, and pattern nodes taken as statements, which no body contains; mypy's own node classes and the messages of the plugin.

Parsing:

- Packrat.Engine.Parse: parser objects have identities that live as long as the cache; a temporary parser whose address is used again is not modelled, and temporaries are evaluated uncached.
- CEscape.EscapeDenotesExactly: with trigraphs off, as compilers have them by default and as the literal parser of hcp reads text; `?` is never escaped, so a compiler told to replace trigraphs reads a string such as `??=` differently.
- StringLiteral.QuotedEscapeIsOneLiteral: the string characters are codes 0 to 255 without the sign that a C++ char may have.
- The diagnostics collected at the end of the text, exception contexts and messages, tracing, and constructors that throw; the C++ grammar beyond string literals and the text around them; line and column, but for the column test of preprocessor lines; getContextAt and findChildrenOfType, which are plain tree walks.

Rings, events, shared pointers:

- EventRing.Event.Invoke: one event's ring; what a callback does elsewhere (other events, its own data) matters only through the acts it brings back. Attaching to an event that has been deleted does nothing.
- SharedRing.Heap.Assign: no object owns the Shared it is assigned from, so deleting one destroys no other Shared meanwhile.
- SharedRing.Heap.Own: a raw pointer is given to one Shared only, and addresses are not used again.
- ConstShared, conversions between element types and comparisons of pointers, which only add easy members.

Offset map and comparisons:

- OffsetMapFile.MapToSource: the map file's grammar is a function that reads line by line, not a grammar for the packrat engine; finding the file on the HPATH and printing are left out.
- OffsetMap.OStream.Copy: the order of copies that aborts is kept, with its exact condition, rather than excluded.
- Comparisons.GenerateLess: the emitted C++ text is a list of statements; guard names and template headers are left out.

Codecs:

- CodecRoundTrip.ComesBack: how a number too large or too precise for a float rounds is a parameter, and floats are real numbers, so that NaN (which is not equal to itself when it comes back) and the infinities do not occur; set elements stand in iteration order, and a frozenset is a set.
- CodecRoundTrip.KeyComesBack: key codecs are those of plain values, and unions of these.
- CodecTree.ParseIntText: of the texts json.loads accepts, integers and the words are modelled, all others being a parameter.
- Any, generic and custom-class codecs, Timestamp, aliases, literal enums, attributes that are not encoded, and subclasses of the expected classes; the text generators for TypeScript, Rust and JSON schema.
- Generic-class resolution in _explodeSchema: codec trees are taken as resolved, with a table for back-references.

Validators:

- ValidatorDefaults.DefaultsFill: for values whose properties have distinct names and schemas without a property named twice; properties called `__proto__`, sparse arrays, and two places sharing one default object are left out.
- ValidatorConformance.FilledConforms: for conforming defaults.
- Validators.AgreeOnValueExactly: schemas are finite trees; back-references among them are left out. JSON.parse is a parameter that gives objects with distinct names.

Paths:

- Path.SplitDirIsFromWorkingDir: the working directory is a parameter.
- The base name and extension of a file name, and environment lookups.
