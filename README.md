# A verified model of a small backtracking regex engine

This project models the core of a small Rust regex engine, which works in three stages:

1. A recursive-descent parser (`src/parser.rs`) turns a pattern into an abstract syntax tree (`src/ast.rs`).
2. A compiler (`src/compiler.rs`) lowers the tree into a flat list of instructions. It emits placeholders, back-patches them into `Split`, `Jump` and lookaround markers, and ends with one `Match`.
3. A backtracking virtual machine (`src/vm.rs`) runs the program at each start position of the input and reports the leftmost match with its captures.

The Dafny modules follow the stages:

- `Ast`: the tree datatypes, plus the ASCII character predicates the engine uses.
- `Grammar` and `Parser`:
  - `Grammar` is the parser written as functions of the parser state: pattern, cursor and group counter.
  - `Parser.Parser` is a class with the source's `pos` and `group_count` fields. Each of its methods is proved to leave exactly the state, and return exactly the outcome, of the matching `Grammar` function.
  - `GrammarFacts` proves what the parser promises.
- `Compiler` and `CompilerFacts`:
  - `Code(node, base)` is the code `emit` appends for a node when the instruction list already holds `base` instructions. Targets are absolute, so the code depends on where it starts.
  - The `Emit*` methods push onto a sequence and back-patch `Nop` placeholders as the source does. Each is proved to append exactly `Code`.
  - `CompilerFacts` proves that the compiled program is well formed.
- `Vm`, `VmFacts` and `QuantifierFacts`:
  - `Run` is the meaning of `exec`; `Exec`, `ExecSub`, `Lookbehind`, `CharClassMatches` and `Search` are the loops of the source, each proved to compute its specification.
  - `exec` itself need not terminate on a zero-width loop body. Greedy `(?:)*` recurses at its `Split` until the stack overflows. Lazy `(?:)*?x` loops in place for ever when the `x` fails. So each instruction on one path of a run costs one unit of `fuel`, and each branch of a `Split` gets the fuel that is left. A run that needs more fuel answers `OutOfFuel`.
  - `VmFacts` proves:
    - more fuel never changes a decided answer;
    - matches lie within the input;
    - `search` reports the leftmost match;
    - the two compiler hints are necessary conditions.
  - `QuantifierFacts` proves what a compiled quantifier over a single-character atom matches.
- `Pipeline` joins the three stages: the parser's group count bounds the tree's group indices, so the program compiled from any pattern `compile` accepts fits the capture vector `search` allocates.

Rust panics are modelled as follows:

- `{n,m}` with m < n would underflow at `src/compiler.rs:273`. The parser accepts it (`Pipeline.ParsedReversedRange` shows `a{5,3}` parsing), so such a pattern panics in `compile` before any search. The `Emit*` methods require `RangesOrdered`, that is no `{n,m}` with m < n, and so do the `Pipeline` lemmas about a parsed pattern's program.
- The VM's panics are outcomes. A run ends with status `Panicked` in three cases:
  - a `Save` past the capture vector (`src/vm.rs:111`);
  - a `Backref` whose slots lie past it (`src/vm.rs:144-146`), as for the dangling `a\1`;
  - a backreference whose end slot is older than its start slot, which underflows at `src/vm.rs:148` (for example `(?:(a\1?)x)*` on `axax`).
- A panic inside a `Split` branch, a lookaround body or a lookbehind start ends the whole run. `search` then reports `Aborted`.
- `Pipeline.ParsedProgramFits` proves that no `Save` panics in the program of a parsed pattern that compiles.
- `Pipeline.ParsedSearchNoPanic` proves that a parsed pattern that compiles and has no backreferences never aborts a search.

## Model

| member | source | states |
|---|---|---|
| Grammar.Expect | src/parser.rs:49-55 | consumes one character if there is one; succeeds exactly when it is the expected one; never touches the group counter |
| Grammar.ParseAll | src/parser.rs:21-30 | a successful parse leaves the cursor at the end of the pattern |
| Grammar.ParseAlternation | src/parser.rs:58-69 | the cursor and the group counter never move backwards |
| Grammar.AltLoop | src/parser.rs:61-68 | the `|` loop: cursor and counter never move backwards |
| Grammar.ParseConcat | src/parser.rs:72-85 | cursor and counter never move backwards |
| Grammar.ConcatLoop | src/parser.rs:74-84 | the loop up to `)`, `|` or the end: cursor and counter never move backwards |
| Grammar.ParseQuantified | src/parser.rs:88-118 | a successful quantified atom consumes at least one character |
| Grammar.ParseBraceQuantifier | src/parser.rs:121-138 | always succeeds, never moves the cursor before the `{`, and leaves the counter alone |
| Grammar.TryBraceContents | src/parser.rs:140-161 | cursor moves forward only; the counter is untouched |
| Grammar.DigitsEnd | src/parser.rs:163-177 | the run of ASCII digits starting at `pos` ends at the result, and the character there is not a digit |
| Grammar.ParseNumber | src/parser.rs:163-177 | succeeds exactly when an ASCII digit is at the cursor |
| Grammar.ParseAtom | src/parser.rs:180-203 | a successful atom consumes at least one character |
| Grammar.ParseEscape | src/parser.rs:206-231 | always consumes the `\`; on success also the escaped character |
| Grammar.Enclosed | src/parser.rs:296-297 | a group body followed by `)`: a success consumes at least the `)`, and the last character it consumed is that `)` |
| Grammar.ParseGroup | src/parser.rs:234-303 | a successful group consumes at least `(` and `)`, ending on the `)`; the counter only grows |
| Grammar.ParseCharClass | src/parser.rs:306-372 | a successful class consumes at least `[` and `]`; the counter is untouched |
| Grammar.ClassLoop | src/parser.rs:322-367 | either moves forward, or fails at the end of the pattern |
| Parser.Parser.constructor | src/parser.rs:12-18 | a fresh parser is at position 0 with no groups |
| Parser.Parser.GroupCount | src/parser.rs:33-35 | the number of capturing groups opened so far |
| Parser.Parser.Peek | src/parser.rs:37-39 | the character at the cursor, if any |
| Parser.Parser.Advance | src/parser.rs:41-47 | returns the character at the cursor and moves past it; at the end returns none and stays |
| Parser.Parser.Expect | src/parser.rs:49-55 | leaves the state and returns the outcome of `Grammar.Expect` |
| Parser.Parser.Parse | src/parser.rs:21-30 | leaves the state and returns the outcome of `Grammar.ParseAll` |
| Parser.Parser.ParseAlternation | src/parser.rs:58-69 | leaves the state and returns the outcome of `Grammar.ParseAlternation` |
| Parser.Parser.ParseConcat | src/parser.rs:72-85 | leaves the state and returns the outcome of `Grammar.ParseConcat` |
| Parser.Parser.ParseQuantified | src/parser.rs:88-118 | leaves the state and returns the outcome of `Grammar.ParseQuantified` |
| Parser.Parser.ParseBraceQuantifier | src/parser.rs:121-138 | leaves the state and returns the outcome of `Grammar.ParseBraceQuantifier`, including the rewind to the `{` |
| Parser.Parser.TryParseBraceContents | src/parser.rs:140-161 | leaves the state and returns the outcome of `Grammar.TryBraceContents` |
| Parser.Parser.ParseNumber | src/parser.rs:163-177 | leaves the state and returns the outcome of `Grammar.ParseNumber` |
| Parser.Parser.ParseAtom | src/parser.rs:180-203 | leaves the state and returns the outcome of `Grammar.ParseAtom` |
| Parser.Parser.ParseEscape | src/parser.rs:206-231 | leaves the state and returns the outcome of `Grammar.ParseEscape` |
| Parser.Parser.Enclosed | src/parser.rs:296-297 | leaves the state and returns the outcome of `Grammar.Enclosed` |
| Parser.Parser.ParseGroup | src/parser.rs:234-303 | leaves the state and returns the outcome of `Grammar.ParseGroup` |
| Parser.Parser.ParseCharClass | src/parser.rs:306-372 | leaves the state and returns the outcome of `Grammar.ParseCharClass` |
| Parser.Parser.ParseClassItems | src/parser.rs:322-367 | the item loop: leaves the state and returns the outcome of `Grammar.ClassLoop` |
| GrammarFacts.ParseNumbersGroups | src/parser.rs:293-301 | parsing a whole pattern numbers its capturing groups 1, 2, ..., n in the order of their `(` (an enclosing group before the groups inside it), and the group counter ends at n |
| GrammarFacts.AlternationNumbers | src/parser.rs:58-69 | the groups of an alternation are numbered consecutively from the counter it starts with to the counter it leaves |
| GrammarFacts.AltLoopNumbers | src/parser.rs:61-68 | numbering stays consecutive across the branches |
| GrammarFacts.ConcatNumbers | src/parser.rs:72-85 | the groups of a concatenation are numbered consecutively |
| GrammarFacts.ConcatLoopNumbers | src/parser.rs:74-84 | numbering stays consecutive across the elements |
| GrammarFacts.QuantifiedNumbers | src/parser.rs:88-118 | a quantifier keeps its atom's numbering |
| GrammarFacts.AtomNumbers | src/parser.rs:180-203 | only a group atom takes indices; others take none |
| GrammarFacts.EnclosedNumbers | src/parser.rs:296-297 | a group body is numbered consecutively |
| GrammarFacts.GroupNumbers | src/parser.rs:292-301 | a capturing group takes the next index before the groups inside it; other group kinds take none |
| GrammarFacts.ConcatLoopStops | src/parser.rs:74-79 | a concatenation stops only at `)`, `|` or the end |
| GrammarFacts.AltLoopStops | src/parser.rs:61-68 | an alternation stops only at `)` or the end |
| GrammarFacts.ParseWhole | src/parser.rs:21-30 | `parse` succeeds exactly when the top-level alternation consumes the whole pattern; otherwise what is left starts with `)`, reported as an unexpected character at that position |
| GrammarFacts.BraceContentsOk | src/parser.rs:140-177 | brace contents parse exactly when they are `n}`, `n,}` or `n,m}` |
| GrammarFacts.BraceFallback | src/parser.rs:121-138 | after a malformed brace, the atom stays unquantified, the cursor is back on the `{`, and the next atom is the literal `{` |
| GrammarFacts.EscapedDigit | src/parser.rs:218-229 | `\1`-`\9` is a backreference from one digit only and consumes two characters, so `\10` is group 1 then `0`; `\0` is a literal |
| GrammarFacts.ClassLoopCloses | src/parser.rs:322-367 | a class succeeds only by consuming a `]`, with the items so far kept in front; with no `]` left it fails |
| GrammarFacts.LeadingBracket | src/parser.rs:316-320 | a `]` right after `[` or `[^` is the first literal item |
| GrammarFacts.AlternationStops | src/parser.rs:58-85 | a successful alternation stops only at a `)` or at the end of the pattern |
| GrammarFacts.EnclosedCloses | src/parser.rs:296-297 | a group body succeeds exactly when its alternation succeeds short of the end (so on a `)`); one that runs to the end is the error "expected `)`, found the end" |
| GrammarFacts.GroupForms | src/parser.rs:234-303 | `(?:`, `(?=`, `(?!`, `(?<=`, `(?<!` give the non-capturing, lookahead and lookbehind kinds; `(?<` followed by anything else is `InvalidLookbehind`; `(?` followed by none of `:`, `=`, `!`, `<` (or by nothing) is `InvalidGroupSyntax`; a plain `(` is capturing group number counter + 1 |
| GrammarFacts.AltLoopShape | src/parser.rs:58-69 | an alternation of one branch is that branch itself; otherwise an `Alternation` of at least two branches, in order |
| GrammarFacts.ConcatLoopShape | src/parser.rs:72-85 | a concatenation of one node is that node itself; otherwise a `Concat` of at least two nodes, in order |
| GrammarFacts.SuffixQuantifier | src/parser.rs:88-118 | `*`, `+` or `?` after an atom quantifies that atom; a further `?` makes it lazy and is consumed too |
| GrammarFacts.ClassDash | src/parser.rs:322-366 | inside a class, `c-x` is the range from c to x when x is not `]`; `c-]` is the literal `c`, the literal `-`, and the closing `]` |
| Compiler.CodeLength | src/compiler.rs:87-207 | the code of a node has `Size(node)` instructions |
| Compiler.ConcatCodeLength | src/compiler.rs:95-99 | concatenated code has the summed size |
| Compiler.AltBranchesLength | src/compiler.rs:116-127 | each non-last branch adds its size plus its Split and its exit |
| Compiler.AltCodeLength | src/compiler.rs:100-134 | an alternation of k branches has their summed size plus 2(k-1) |
| Compiler.QuantCodeLength | src/compiler.rs:209-278 | size of each quantifier's code |
| Compiler.AtLeastCodeLength | src/compiler.rs:260-266 | `{n,}` is n copies plus a star |
| Compiler.RangeCodeLength | src/compiler.rs:267-276 | `{n,m}` is n copies plus m-n optional units |
| Compiler.CopiesLength | src/compiler.rs:255-259 | n copies have n times the size |
| Compiler.OptionalsLength | src/compiler.rs:273-275 | each optional unit is the body plus one Split |
| Compiler.Compile | src/compiler.rs:63-70 | builds the program from the emitted code, one trailing `Match`, and the two hints |
| Compiler.Emit | src/compiler.rs:87-207 | appends exactly `Code(node, |insts|)` and leaves what was there untouched |
| Compiler.EmitConcat | src/compiler.rs:95-99 | appends the children's code in order |
| Compiler.EmitGroup | src/compiler.rs:159-165 | appends `Save(2i)`, the body, then `Save(2i+1)` |
| Compiler.EmitLookaround | src/compiler.rs:172-200 | appends the marker (back-patched to `(p+1, q)`), the body, and its `Match` at q-1 |
| Compiler.EmitAlternation | src/compiler.rs:100-134 | appends the alternation's code; no branch means no code, and one branch means that branch's code |
| Compiler.EmitBranchesThenLast | src/compiler.rs:116-133 | the non-last branches with every exit patched to `Jump(end)`, then the last branch |
| Compiler.EmitBranches | src/compiler.rs:116-127 | the loop over non-last branches: `Split(branch, next)` into each branch, placeholders at the exits, and the list of their positions |
| Compiler.EmitBranch | src/compiler.rs:118-126 | one branch segment with its Split back-patched and its exit still a placeholder |
| Compiler.BranchSegmentOf | src/compiler.rs:118-126 | the segment one loop round appends is the i-th segment of the alternation |
| Compiler.PatchExits | src/compiler.rs:130-133 | turns every recorded exit placeholder into `Jump(end)` and changes nothing else |
| Compiler.EmitQuantifier | src/compiler.rs:209-278 | appends exactly `QuantCode` for the kind |
| Compiler.EmitStar | src/compiler.rs:211-226 | `Split(body, exit)` (lazy: swapped), the body, `Jump` back to the Split |
| Compiler.EmitPlus | src/compiler.rs:227-239 | the body, then `Split(body, exit)` (lazy: swapped) |
| Compiler.EmitQuestion | src/compiler.rs:240-254 | `Split(body, exit)` (lazy: swapped), then the body |
| Compiler.EmitCopies | src/compiler.rs:255-259 | n copies of the body |
| Compiler.EmitAtLeast | src/compiler.rs:260-266 | n copies of the body, then its star |
| Compiler.EmitRange | src/compiler.rs:267-276 | n copies of the body, then m-n optional units |
| Compiler.EmitOptionals | src/compiler.rs:273-275 | the loop of optional units |
| CompilerFacts.CompiledWellFormed | src/compiler.rs:63-70 | the program ends in `Match` and is well formed: no `Nop` left; every Jump and Split target is an instruction; every lookaround at p holds `(p+1, q)` with its `Match` at q-1; every Save slot is below 2(g+1), where g is the larger of the group count and the largest group index of the tree; every Backref group is below the largest backreference of the tree plus one |
| CompilerFacts.CodeWellFormed | src/compiler.rs:87-207 | the code of every node is well formed with its targets inside itself |
| CompilerFacts.AltBranchesWellFormed | src/compiler.rs:116-133 | patched branch segments are well formed and jump no further than the alternation's end |
| CompilerFacts.AltWellFormed | src/compiler.rs:100-134 | an alternation's code is well formed |
| CompilerFacts.QuantWellFormed | src/compiler.rs:209-278 | a quantifier's code is well formed |
| CompilerFacts.StarWellFormed | src/compiler.rs:211-226 | star code is well formed |
| CompilerFacts.PlusWellFormed | src/compiler.rs:227-239 | plus code is well formed |
| CompilerFacts.QuestionWellFormed | src/compiler.rs:240-254 | question code is well formed |
| CompilerFacts.CopiesWellFormed | src/compiler.rs:255-259 | n copies are well formed |
| CompilerFacts.AtLeastWellFormed | src/compiler.rs:260-266 | `{n,}` code is well formed |
| CompilerFacts.RangeWellFormed | src/compiler.rs:267-276 | `{n,m}` code is well formed |
| CompilerFacts.OptionalsWellFormed | src/compiler.rs:273-275 | optional units are well formed |
| CompilerFacts.ConcatWellFormed | src/compiler.rs:95-99 | concatenated code is well formed |
| CompilerFacts.GroupWellFormed | src/compiler.rs:159-165 | a group's Save slots are 2i and 2i+1, within the capture vector |
| CompilerFacts.LookaroundWellFormed | src/compiler.rs:172-200 | a lookaround marker points just past itself and just past its body's `Match` |
| Vm.Run | src/vm.rs:42-229 | the meaning of `exec`, including its panics (a `Save` or `Backref` past the capture vector, a backreference that ends before it starts), which propagate out of every branch: whatever path it takes, a run hands back a capture vector as long as the one it was given |
| Vm.RunSub | src/vm.rs:233-251 | `exec_sub` hands back a capture vector as long as the one it was given |
| Vm.CharClassMatches | src/vm.rs:259-284 | the loop answers "some item matches, xor negated" |
| Vm.Exec | src/vm.rs:42-229 | the instruction loop computes `Run`: status and the capture vector it leaves |
| Vm.ExecSub | src/vm.rs:233-251 | computes `RunSub` |
| Vm.Lookbehind | src/vm.rs:182-223 | the loop over starts pos, pos-1, ..., 0 computes `Behind` |
| VmFacts.ShorthandComplements | src/vm.rs:287-296 | `\D`, `\W`, `\S` accept exactly what `\d`, `\w`, `\s` reject; `\d` is `0`-`9`; `\w` is `is_word_char` |
| VmFacts.WordBoundaryEdges | src/vm.rs:299-315 | a boundary lies between a word and a non-word character; at either end of the input it is there exactly when the neighbouring character is a word character; the empty input has none |
| VmFacts.SubEndRedundant | src/vm.rs:254-256 | `find_sub_end` reads slot 1, so the lookbehind test holds exactly when slot 1 is the current position |
| VmFacts.BehindMatches | src/vm.rs:182-223 | a lookbehind's `Matched` names the nearest earlier start whose body run matched and ended exactly at the current position, with every nearer start failed or ending elsewhere; `Failed` means every start failed or ended elsewhere |
| VmFacts.RunNoPanic | src/vm.rs:42-229 | with every `Save` slot inside the capture vector and no `Backref`, no run panics |
| VmFacts.LookNoPanic | src/vm.rs:161-223 | the same for a lookaround's verdict |
| VmFacts.BehindNoPanic | src/vm.rs:182-223 | the same for the lookbehind loop |
| VmFacts.SearchNoPanic | src/vm.rs:19-38 | so `search` over such a program never aborts |
| Vm.Search | src/vm.rs:19-38 | for any program and input, the loop over start positions computes `SearchFrom`; a panicking attempt ends it with `Aborted` |
| VmFacts.RunFuel | src/vm.rs:42-229 | a run that matched or failed gives the same outcome with any larger fuel |
| VmFacts.StepFuel | src/vm.rs:62-160 | the same for runs that start on a consuming, assertion, Save, Backref, Jump, Match or Nop instruction |
| VmFacts.SplitFuel | src/vm.rs:97-108 | the same for runs that start on a Split |
| VmFacts.LookaroundFuel | src/vm.rs:161-223 | the same for runs that start on a lookaround |
| VmFacts.LookFuel | src/vm.rs:161-223 | a decided lookaround verdict does not change with more fuel |
| VmFacts.RunSubFuel | src/vm.rs:233-251 | the same for `exec_sub` |
| VmFacts.BehindFuel | src/vm.rs:182-223 | the same for the lookbehind loop |
| VmFacts.MatchEnd | src/vm.rs:57-61 | a matching run sets the end slot to a position between its start and the end of the input |
| VmFacts.MatchEndCaptures | src/vm.rs:109-160 | the same for runs that start on Save, Backref or Match |
| VmFacts.MatchEndStep | src/vm.rs:62-141 | the same for runs that start on other instructions |
| VmFacts.SearchLeftmost | src/vm.rs:19-38 | `search` reports the first start whose attempt matched, and every earlier start failed; it finds none exactly when every start fails; it aborts only on a panicking start after failing ones |
| VmFacts.SearchSpan | src/vm.rs:27-34 | a reported match has start <= end <= input length, the full capture vector, and its end in slot 1 |
| VmFacts.SearchFuel | src/vm.rs:19-38 | a decided search answer does not change with more fuel |
| VmFacts.CompiledSavesFit | src/compiler.rs:159-165 | when no group index of the tree exceeds the group count, every `Save` of the compiled program writes one of the (group count + 1) * 2 slots `search` allocates |
| VmFacts.FirstCharNecessary | src/compiler.rs:67-85 | the meaning of `extract_first_char`: when the first-character hint is c, a match can only start where the input holds c |
| VmFacts.AnchoredNecessary | src/compiler.rs:68 | an anchored program can only match from position 0 |
| VmFacts.SearchAgreesWithHints | src/vm.rs:19-38 | so the match `search` finds without looking at the hints agrees with both of them |
| Pipeline.ParsedGroupsBounded | src/parser.rs:292-301 | no capturing group of a parsed tree has an index above the parser's group count |
| Pipeline.ParsedReversedRange | src/parser.rs:140-161 | the parser does not order `{n,m}`: `a{5,3}` parses to `Quantifier(Literal('a'), Range(5, 3), true)`, a tree that is not `RangesOrdered`, which `compile` would underflow on |
| Pipeline.ParsedProgramFits | src/compiler.rs:63-70 | the program compiled from a parsed pattern without `{n,m}` where m < n (the patterns `compile` accepts), with the parser's group count, is well formed with g = the group count, and every `Save` of it writes a slot `search` allocates |
| Pipeline.CompiledNoBackrefs | src/compiler.rs:169-171 | a tree without backreferences compiles to a program without `Backref` |
| Pipeline.ParsedSearchNoPanic | src/vm.rs:19-38 | searching with the program of a parsed pattern that compiles (no `{n,m}` with m < n) and has no backreference never aborts |
| QuantifierFacts.QuantifierCounts | src/ast.rs:60-72 | for a single-character atom, a match of the compiled `atom{k}` (greedy or lazy) consumes a count of characters that k allows, each one accepted by the atom |
| QuantifierFacts.CountSound | src/vm.rs:62-108 | along any matching run of such a program, the count consumed stays one the current instruction allows |
| QuantifierFacts.CountSplit | src/vm.rs:97-108 | the same through a Split, whichever branch matched |
| QuantifierFacts.CountUnit | src/vm.rs:62-93 | the same through the atom's instruction, which consumes exactly one accepted character |
| QuantifierFacts.CompiledLayout | src/compiler.rs:209-278 | the compiled `atom{k}` is the layout given by `Expected` |
| QuantifierFacts.StarLayout | src/compiler.rs:211-226 | `a*` is `Split`, the atom, a `Jump` back, then `Match` |
| QuantifierFacts.PlusLayout | src/compiler.rs:227-239 | `a+` is the atom, a `Split` back, then `Match` |
| QuantifierFacts.QuestionLayout | src/compiler.rs:240-254 | `a?` is `Split`, the atom, then `Match` |
| QuantifierFacts.AtLeastLayout | src/compiler.rs:260-266 | `a{n,}` is n atoms, then the star layout |
| QuantifierFacts.RangeLayout | src/compiler.rs:267-276 | `a{n,m}` is n atoms, then m-n pairs of Split and atom |
| QuantifierFacts.CopiesUnits | src/compiler.rs:255-259 | n copies of a one-instruction atom are n equal instructions |
| QuantifierFacts.OptionalsUnits | src/compiler.rs:273-275 | optional units alternate between a Split to the next unit and the atom |

## Left out

- `src/main.rs`: argument handling and printing, which is input and output.
- Case-insensitivity and inline flags: `InlineFlags`, `RegexFlags`, the `CaseInsensitiveOn`/`CaseInsensitiveOff` instructions, and the compiler arm at `src/compiler.rs:201-205`. That arm names a node the tree type does not define, the VM has no arm for the two instructions, and the parser rejects `(?i`. Consequently no parse produces an inline-flags node.
- The text of error messages. An error is a datatype value carrying the offending character or position.
- `usize` overflow in `parse_number` and elsewhere: counts and positions are unbounded naturals.
- Non-termination and stack depth: a run stops with `OutOfFuel` after `fuel` instructions on any one path.
- The cost of cloning the capture vector at each `Split` and lookaround: captures are a value.
- The start-position pruning the hints would allow. `search` does not use them, and neither does `Vm.Search`. Their computation and what they imply are modelled.
- The unused `_sub_end` argument of `exec_sub`.
- Unicode beyond comparing code points.
- QuantifierFacts.QuantifierCounts: covers atoms that compile to one instruction. It states that matched counts are allowed, not that every allowed count can be matched, because a run reports only the first alternative that succeeds.
- Compiler.Compile: requires that no `{n,m}` has m < n, where the source would underflow; `Code` itself emits no optional units in that case.
- Vm.Run: the panic on a backreference whose end slot lies before its start slot is the one a build with overflow checks raises; a release build would wrap instead.
- The helper predicates `Vm.IsWordChar`, `Vm.ShorthandMatches`, `Vm.IsWordBoundary` and `Vm.FindSubEnd` have no contract of their own. `VmFacts.ShorthandComplements`, `VmFacts.WordBoundaryEdges` and `VmFacts.SubEndRedundant` state what they mean.
- Compiler.ExtractFirstChar: has no contract of its own. Its meaning is stated by `VmFacts.FirstCharNecessary`.
