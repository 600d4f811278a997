# JSF syntax highlighter and VecType, in Dafny

This project models the JSF syntax highlighter of the DOSBox ad-hoc
programming editor (`jsf.hh`) and the growable array it is built on
(`vecbase.hh`).

A JSF definition file is read line by line:

- `=name colour...` declares a named colour. The colour expression is
  evaluated into a packed attribute.
- `:name colour` starts a state.
- An indented line adds an option to the state declared last. An option has
  a byte selector (`*` or a quoted class with ranges and escapes), a target
  state name, modifier words (`noeat`, `buffer`, `mark`, `markend`,
  `strings`, `istrings`, `recolormark`, `recolor=N`), and, after `strings`
  or `istrings`, a keyword table read from the following lines up to `done`.

Binding (`BindStates`) then does two things:

- It turns every target name into a state, using a sorted cache of the state
  names.
- It compresses chains of zero-width (`noeat`) options slot by slot.

`Apply` drives the bound automaton over a byte stream. It emits `Recolor`
calls, and it can buffer bytes to look them up as keywords.

The modules:

| module (file) | what it holds |
|---|---|
| `Base` (base.dfy) | bytes, C strings, `strtol`/`atoi`, blank skipping |
| `LineCleanup` (cleanup.dfy) | `cleanup`: the comment cut and the trailing strip |
| `Table`, `TableCases` (table.dfy) | `table_item` tables, `sort`, and the binary searches `findstate`/`findstate_i` |
| `Color`, `ColorWords` (color.dfy, color_words.dfy) | the colour evaluator and colour declarations; each colour word of the vocabulary |
| `Directives` (directives.dfy) | option lines: selectors, target names, the keyword hash, keyword tables |
| `Automaton` (states.dfy) | `state` and `option` records, `Remap`, and what binding may do to them |
| `Engine` (engine.dfy) | `ApplyState` as a value, one step of `Apply`, and runs |
| `Jsf` (jsf.dfy) | class `Highlighter` (the `JSF` object: parsing, binding, `ApplyInit`, `Apply`) and class `ApplyState` |
| `Vector` (vec.dfy) | class `Vec` (`VecType`) over an `array` with `len <= cap == data.Length` |

Representation choices:

- Text is a sequence of bytes. A byte read past the end of a line reads as NUL.
- States and options live in two arenas. A slot, a target or a keyword entry
  holds an index into an arena. The `next` of state i is state i - 1, and
  `head` stands for the `states` pointer.
- A dereference of a null pointer, or a loop that would not stop, becomes a
  fault value (`ParseFault`, `Engine.Fault`) instead of undefined behaviour.
- `ComposeEditorChar` and `MakeJSFerrorColor` belong to the editor. They are
  passed in as `compose` and `errorAttr`.
- The input stream of `Apply` is a byte sequence. The `Recolor` calls it
  makes are returned as events.

## Model

| member | source | states |
|---|---|---|
| Base.CString | jsf.hh:41 | what C sees of a line buffer is its prefix before the first NUL, which holds no NUL |
| Base.Lower | jsf.hh:508 | case folding of `strnicmp` keeps the length and folds every byte with `tolower` |
| Base.SkipBlanks | jsf.hh:298 | stops at the first byte that is neither space nor tab, having skipped only blanks, never past the end |
| Base.WordEnd | jsf.hh:300 | stops at the first space, tab or end, having passed only non-blank bytes |
| Base.Strtol | jsf.hh:237 | `strtol` either converts nothing (end stays at the start) or ends inside the line, after the start |
| Base.Atoi | jsf.hh:420 | defines `atoi`: leading white space, an optional sign, then decimal digits |
| LineCleanup.Cleanup | jsf.hh:461-477 | the cleaned line is a prefix of the buffer, ends in no CR/LF/space/tab, and only such bytes were stripped between it and the comment cut |
| LineCleanup.CommentEnd | jsf.hh:464-470 | the scan loop returns `CommentCut` from the start: the first `#` the scan visits outside double quotes (a backslash skipping the byte after it), or the end of the line when there is none |
| LineCleanup.CommentCut | jsf.hh:464-470 | the scan from i stops inside the line at a `#` (outside quotes if it is the byte scanned first), or at the end; that it is the first comment-starting `#` is `CommentCutIsFirst` |
| LineCleanup.CutIsFirstFrom | jsf.hh:464-470 | from any position the scan visits, with the quote state the scan has there, the scan stops at the first `#` after it that is visited and outside quotes, or at the end |
| LineCleanup.CommentCutIsFirst | jsf.hh:464-470 | the comment of a line starts at its first `#` that the scan visits (a backslash makes it skip the next byte) with an even number of visited double quotes before it; with none, nothing is cut |
| LineCleanup.Cleaned | jsf.hh:461-477 | defines the cleaned line: the part before the comment cut without its trailing CR, LF, space and tab |
| LineCleanup.StripTrailing | jsf.hh:471-476 | the result is a prefix, does not end in a trailing byte, and everything removed is trailing |
| LineCleanup.CutAtFirstHash | jsf.hh:464-470 | on a line without quotes or backslashes the comment starts at the first `#` |
| LineCleanup.CutOfPrefix | jsf.hh:464-470 | re-scanning the part before the cut finds no comment in it |
| LineCleanup.CleanedNoNul | jsf.hh:461-477 | cleaning a C string gives a NUL-free prefix of it |
| LineCleanup.CleanedIdempotent | jsf.hh:461-477 | cleaning a cleaned line changes nothing |
| Table.LexTotal | jsf.hh:614-619 | `strcmp` order is total |
| Table.LexAntisymmetric | jsf.hh:614-619 | two strings each `<=` the other are equal |
| Table.LexTransitive | jsf.hh:614-619 | `strcmp` order is transitive |
| Table.Insert | jsf.hh:608-627 | inserting into a sorted table keeps it sorted and adds exactly that entry |
| Table.Sort | jsf.hh:608-627 | `sort` leaves the table sorted by `strcmp` of the tokens and a permutation of its entries |
| Table.LowerTail | jsf.hh:508 | folding commutes with dropping the first byte |
| Table.ProbeSign | jsf.hh:490-497 | with unsigned bytes one probe is zero exactly on a match, and negative exactly when the entry sorts before the key |
| Table.LookupBetween | jsf.hh:482-520 | on a sorted window the search finds an entry equal to the key, and misses only when no entry in the window equals it |
| Table.LookupCorrect | jsf.hh:482-520 | on a table sorted in its search order, `findstate`/`findstate_i` return the payload of an entry equal to the key (ignoring case for `findstate_i`), and null exactly when there is none; this covers the empty table |
| Table.Search | jsf.hh:482-520 | the search loop computes the lookup; any hit is a payload of the table, and on a sorted table it is found exactly when an equal entry exists |
| Table.LookupStep | jsf.hh:488-497 | one probe of the search: a match ends it, a probe below the key moves to the upper half, one above to the lower half |
| Table.LookupFound | jsf.hh:482-520 | whatever the search returns is the payload of an entry the probe called equal |
| Table.Lookup | jsf.hh:482-520 | defines the binary search of `findstate` (and of `findstate_i` when folding) on the window [begin, end), with signed or unsigned `char` |
| Table.Probe | jsf.hh:490-496 | defines one probe: `strncmp`/`strnicmp` over the key's length, then the entry's next byte when they agree, read as signed or unsigned `char` |
| TableCases.SignedCharMissesEntry | jsf.hh:490-497 | with signed `char`, the key "ab" is missed in the sorted table ("ab", "ab\xE9") |
| TableCases.CaseSensitiveOrderMissesFoldedKey | jsf.hh:608-627 | `findstate_i` on a table sorted case-sensitively can miss a key that an entry matches ignoring case: "z" in ("Z", "_") |
| TableCases.KeywordCase | jsf.hh:482-520 | "IF" is not found by `findstate` in ("for", "if"), and is found by `findstate_i` |
| Color.TokenStep | jsf.hh:233-277 | each token moves the scan forward, staying inside the line |
| Color.HexPairSetsNibbles | jsf.hh:237-243 | a two-digit hex token sets fg to its low digit and bg to its high digit |
| Color.HexTokenOverrides | jsf.hh:237-243 | a later hex token overrides fg and bg: what came before makes no difference to the result |
| Color.ApplyCodeKeepsFlags | jsf.hh:274-276 | an action code only ever adds a style flag |
| Color.TokenKeepsFlags | jsf.hh:233-277 | one token keeps every flag set before it |
| Color.FlagsOnlyAccumulate | jsf.hh:226-282 | style flags are only OR-ed in over the whole expression |
| Color.CubeToken | jsf.hh:244-251 | `bg_123` selects cube colour 67 as background |
| Color.GreyToken | jsf.hh:244-251 | `fg_239` selects grey 215 as foreground, wrapping at 256 |
| Color.EvalColor | jsf.hh:226-282 | the evaluator's packed attribute is never zero and is the packing of the fields the tokens accumulate |
| Color.ScanToken | jsf.hh:233-277 | the loop body computes one token's step |
| Color.ParseColorDeclaration | jsf.hh:283-295 | a colour declaration appends `DeclaredColor`, (first word, evaluated rest of line), to the colour table; its attribute is non-zero |
| Color.HashFrom | jsf.hh:261-262 | defines the word hash: c += 90 * byte + i and i += 28 per byte up to a blank or the end, both 16 bits wide |
| Color.WordCode | jsf.hh:261-271 | defines a word's action code: the `actions` entry at ((c + 22) / 26) % 46 of its hash |
| Color.ApplyCode | jsf.hh:272-274 | defines an action code's effect: codes 0-15 set fg, 16-31 set bg, others OR in flag bit code & 15 |
| Color.FieldsFrom | jsf.hh:231-275 | defines the fields that the tokens from i on accumulate, starting from the given ones |
| Color.Pack | jsf.hh:277-280 | the attribute is never zero: the editor's composition of the fields, or the dummy bit 31 when that is zero |
| ColorWords.Black | jsf.hh:252-276 | `black` hashes to action code 0 (foreground 0) |
| ColorWords.Red | jsf.hh:252-276 | `red` hashes to foreground 1 |
| ColorWords.Green | jsf.hh:252-276 | `green` hashes to foreground 2 |
| ColorWords.Yellow | jsf.hh:252-276 | `yellow` hashes to foreground 3 |
| ColorWords.Blue | jsf.hh:252-276 | `blue` hashes to foreground 4 |
| ColorWords.Magenta | jsf.hh:252-276 | `magenta` hashes to foreground 5 |
| ColorWords.Cyan | jsf.hh:252-276 | `cyan` hashes to foreground 6 |
| ColorWords.White | jsf.hh:252-276 | `white` hashes to foreground 7 |
| ColorWords.BrightBlack | jsf.hh:252-276 | `BLACK` hashes to foreground 8 |
| ColorWords.BrightRed | jsf.hh:252-276 | `RED` hashes to foreground 9 |
| ColorWords.BrightGreen | jsf.hh:252-276 | `GREEN` hashes to foreground 10 |
| ColorWords.BrightYellow | jsf.hh:252-276 | `YELLOW` hashes to foreground 11 |
| ColorWords.BrightBlue | jsf.hh:252-276 | `BLUE` hashes to foreground 12 |
| ColorWords.BrightMagenta | jsf.hh:252-276 | `MAGENTA` hashes to foreground 13 |
| ColorWords.BrightCyan | jsf.hh:252-276 | `CYAN` hashes to foreground 14 |
| ColorWords.BrightWhite | jsf.hh:252-276 | `WHITE` hashes to foreground 15 |
| ColorWords.BgBlack | jsf.hh:252-276 | `bg_black` hashes to background 0 (code 16) |
| ColorWords.BgRed | jsf.hh:252-276 | `bg_red` hashes to background 1 |
| ColorWords.BgGreen | jsf.hh:252-276 | `bg_green` hashes to background 2 |
| ColorWords.BgYellow | jsf.hh:252-276 | `bg_yellow` hashes to background 3 |
| ColorWords.BgBlue | jsf.hh:252-276 | `bg_blue` hashes to background 4 |
| ColorWords.BgMagenta | jsf.hh:252-276 | `bg_magenta` hashes to background 5 |
| ColorWords.BgCyan | jsf.hh:252-276 | `bg_cyan` hashes to background 6 |
| ColorWords.BgWhite | jsf.hh:252-276 | `bg_white` hashes to background 7 |
| ColorWords.BrightBgBlack | jsf.hh:252-276 | `BG_BLACK` hashes to background 8 |
| ColorWords.BrightBgRed | jsf.hh:252-276 | `BG_RED` hashes to background 9 |
| ColorWords.BrightBgGreen | jsf.hh:252-276 | `BG_GREEN` hashes to background 10 |
| ColorWords.BrightBgYellow | jsf.hh:252-276 | `BG_YELLOW` hashes to background 11 |
| ColorWords.BrightBgBlue | jsf.hh:252-276 | `BG_BLUE` hashes to background 12 |
| ColorWords.BrightBgMagenta | jsf.hh:252-276 | `BG_MAGENTA` hashes to background 13 |
| ColorWords.BrightBgCyan | jsf.hh:252-276 | `BG_CYAN` hashes to background 14 |
| ColorWords.BrightBgWhite | jsf.hh:252-276 | `BG_WHITE` hashes to background 15 |
| ColorWords.Underline | jsf.hh:252-276 | `underline` hashes to flag code 32 (flag bit 0) |
| ColorWords.Dim | jsf.hh:252-276 | `dim` hashes to flag code 33 |
| ColorWords.Italic | jsf.hh:252-276 | `italic` hashes to flag code 34 |
| ColorWords.Bold | jsf.hh:252-276 | `bold` hashes to flag code 35 |
| ColorWords.Inverse | jsf.hh:252-276 | `inverse` hashes to flag code 36 |
| ColorWords.Blink | jsf.hh:252-276 | `blink` hashes to flag code 37 |
| Directives.WalkMembers | jsf.hh:366-367 | a range `x-y` selects x through y, wrapping through 255 and 0 when x > y |
| Directives.ClassEntry | jsf.hh:346-370 | each class entry moves the scan forward |
| Directives.ClassFrom | jsf.hh:344-372 | a quoted class ends at its closing quote or at the end of the line |
| Directives.Select | jsf.hh:335-373 | the selector keeps 256 slots |
| Directives.PointRange | jsf.hh:366-367 | a range points exactly the slots of its walk at the option and leaves the others alone |
| Directives.ApplySelector | jsf.hh:335-373 | the selector loop writes exactly the slots the selector picks, reports whether it wrote any, and resumes after it |
| Directives.SelectAll | jsf.hh:336-341 | `*` points all 256 slots at the option |
| Directives.SelectNone | jsf.hh:335-373 | a line without a selector writes no slot |
| Directives.SelectClass | jsf.hh:342-373 | a quoted class writes exactly the bytes it lists |
| Directives.PointRangeOrByte | jsf.hh:346-370 | one class entry points exactly its byte or range at the option |
| Directives.WordAt | jsf.hh:374-379 | the target word of a C string holds no NUL |
| Directives.SelectorOf | jsf.hh:335-373 | defines what the selector picks (all bytes, a class, or nothing) and where the scan resumes |
| Directives.TargetOf | jsf.hh:374-382 | defines the target name after the selector and where the modifiers start |
| Directives.RecolorArgument | jsf.hh:418-421 | defines the `recolor=N` argument: `atoi` of the text after the `=` |
| Directives.ApplyKeyword | jsf.hh:400-421 | one modifier word never changes the target or the table, never clears `buffer`, and sets `strings` only to 1 or 2 |
| Directives.TableLineOf | jsf.hh:428-455 | defines how one raw line of a keyword table reads: cut at NUL, cleaned, then `done`, an entry or nothing |
| Directives.KeywordHash | jsf.hh:400-406 | the keyword hash stops after the `=` or the NUL, past its start |
| Directives.Bucket | jsf.hh:408 | the switch case is one of eight |
| Directives.ApplyModifiers | jsf.hh:389-423 | modifier words never change the target name or the table, and `strings` stays 0, 1 or 2 |
| Directives.HashKeyword | jsf.hh:400-406 | the hash loop computes the keyword hash |
| Directives.ParseModifiers | jsf.hh:389-423 | the modifier loop applies every word in order |
| Directives.ParseKeyword | jsf.hh:391-421 | one word: its hash, then the switch on its bucket |
| Directives.RecolorSetsAbs | jsf.hh:418-421 | `recolor=N` sets recolor to \|N\| truncated to 8 bits |
| Directives.RecolorHash | jsf.hh:400-421 | a word starting `recolor=` hashes to bucket 2 and stops after the `=` |
| Directives.RecolorHashHead | jsf.hh:400-406 | the first four bytes of the `recolor=` hash |
| Directives.RecolorHashTail | jsf.hh:400-406 | the rest of the `recolor=` hash |
| Directives.HashStep | jsf.hh:401-406 | one ordinary byte of the keyword hash |
| Directives.RecolormarkKeyword | jsf.hh:410 | `recolormark` sets the recolormark flag and nothing else |
| Directives.RecolormarkHashHead | jsf.hh:400-406 | first half of the `recolormark` hash |
| Directives.RecolormarkHashTail | jsf.hh:400-406 | second half of the `recolormark` hash |
| Directives.NoeatKeyword | jsf.hh:411 | `noeat` sets noeat and nothing else |
| Directives.NoeatHashHead | jsf.hh:400-406 | first half of the `noeat` hash |
| Directives.NoeatHashTail | jsf.hh:400-406 | second half of the `noeat` hash |
| Directives.MarkKeyword | jsf.hh:412 | `mark` sets mark and nothing else |
| Directives.MarkHashHead | jsf.hh:400-406 | first half of the `mark` hash |
| Directives.MarkHashTail | jsf.hh:400-406 | second half of the `mark` hash |
| Directives.StringsKeyword | jsf.hh:413 | `strings` sets strings to 1 and nothing else |
| Directives.StringsHashHead | jsf.hh:400-406 | first half of the `strings` hash |
| Directives.StringsHashTail | jsf.hh:400-406 | second half of the `strings` hash |
| Directives.MarkendKeyword | jsf.hh:414 | `markend` sets markend and nothing else |
| Directives.MarkendHashHead | jsf.hh:400-406 | first half of the `markend` hash |
| Directives.MarkendHashTail | jsf.hh:400-406 | second half of the `markend` hash |
| Directives.IstringsKeyword | jsf.hh:415 | `istrings` sets strings to 2 and nothing else |
| Directives.IstringsHashHead | jsf.hh:400-406 | first half of the `istrings` hash |
| Directives.IstringsHashTail | jsf.hh:400-406 | second half of the `istrings` hash |
| Directives.BufferKeyword | jsf.hh:416 | `buffer` sets buffer and nothing else |
| Directives.BufferHashHead | jsf.hh:400-406 | first half of the `buffer` hash |
| Directives.BufferHashTail | jsf.hh:400-406 | second half of the `buffer` hash |
| Directives.BareRecolorKeyword | jsf.hh:400-415 | `recolor` without `=` falls into the `istrings` case and sets strings to 2 |
| Directives.BareRecolorHashHead | jsf.hh:400-406 | first half of the bare `recolor` hash |
| Directives.BareRecolorHashTail | jsf.hh:400-406 | second half of the bare `recolor` hash |
| Directives.QuoteEnd | jsf.hh:438-439 | the key ends at the first quote or the end of the line |
| Directives.TableLineWellFormed | jsf.hh:430-455 | a keyword-table line is `done`, skipped, or an entry with a non-empty key and value |
| Directives.LineEntry | jsf.hh:432-455 | an entry's key and value are non-empty and hold no NUL |
| Directives.KindAt | jsf.hh:426-456 | each line is classified on its own |
| Directives.KindsOk | jsf.hh:426-456 | every entry read from lines has a non-empty, NUL-free key and target name |
| Directives.TableFrom | jsf.hh:426-456 | the table loop ends at or before the end of the input |
| Directives.TableEntriesWellFormed | jsf.hh:448-455 | only entries with a non-empty key and target name are pushed |
| Directives.TableEndsAtDone | jsf.hh:426-456 | the table ends just after the first `done` line, or at the end of input, and holds at most one entry per line consumed |
| Directives.ReadTable | jsf.hh:426-456 | the keyword-table loop reads the table and the first line not consumed |
| Directives.ReadTableLine | jsf.hh:428-455 | one line of the keyword table read as a table line: `done`, an entry, or a line that adds nothing |
| Directives.TableStep | jsf.hh:426-456 | `done` ends the table; a skipped line adds nothing; an entry line adds its (key, name) in front |
| Automaton.NewOpt | jsf.hh:222-224 | a new option has no flags, recolor 0, no table, and names its target |
| Automaton.NewState | jsf.hh:302-308 | a new state has 256 null slots |
| Automaton.ZeroWidth | jsf.hh:579 | defines the compression test: noeat, recolor at most 1, and no buffer, strings, mark, markend or recolormark |
| Automaton.Settled | jsf.hh:572-592 | defines what binding leaves in a slot: a mapped option that is not zero width |
| Automaton.CacheEntries | jsf.hh:557-564 | the state cache holds one (name, state) entry per state, from the head of the chain down |
| Automaton.Resolve | jsf.hh:527-528 | a lookup yields a state or null, never a name |
| Automaton.ResolveCorrect | jsf.hh:527-528 | a name resolves to a state carrying that name, and to null exactly when no state is so called |
| Automaton.CacheItem | jsf.hh:557-564 | every entry of the sorted cache is some state's name paired with that state |
| Automaton.CacheHas | jsf.hh:557-564 | every state has its name/state entry in the sorted cache |
| Automaton.Remapped | jsf.hh:523-553 | `Remap` marks the option mapped; a mapped option is unchanged; an unmapped one gets its target and every table entry looked up, with tokens kept |
| Automaton.RemapOnce | jsf.hh:525 | a second `Remap` changes nothing |
| Automaton.EvolvedKeeps | jsf.hh:572-592 | binding keeps the zero-width test, mapped targets and tables, and settledness |
| Automaton.EvolvedTrans | jsf.hh:572-592 | successive binding steps compose |
| Automaton.ResolveInRange | jsf.hh:556-565 | a resolved state is one of those cached |
| Automaton.RemappedOk | jsf.hh:523-553 | remapping with the full cache keeps every target inside the state arena |
| Automaton.EvolvedRemap | jsf.hh:578 | remapping is a binding step |
| Automaton.EvolvedBump | jsf.hh:588-591 | raising recolor from 0 to 1 is a binding step |
| Automaton.SlotsSettledKept | jsf.hh:569-593 | settled slots stay settled while they stay put and options only evolve |
| Automaton.KeptSettled | jsf.hh:569-593 | binding one slot keeps earlier work settled and settles that slot |
| Automaton.CacheSameShape | jsf.hh:557-564 | the state cache depends on the names only |
| Automaton.BoundFromTrans | jsf.hh:567-597 | binding steps compose over the whole arena |
| Automaton.EvolvedTarget | jsf.hh:578 | a mapped option that binding produced has the target that remapping the original gives |
| Automaton.ChainJoin | jsf.hh:581-591 | n hops along a slot to an option, then k more, are n + k hops |
| Automaton.ReachesHop | jsf.hh:581-591 | what one hop reaches from an option that is itself reached is reached |
| Automaton.TracedRefl | jsf.hh:569-593 | before binding, every slot trivially holds an option reached from itself |
| Automaton.CompressTraced | jsf.hh:581-591 | a hop of the compression keeps every populated slot on the chain, in the arena before binding, from its original option |
| Automaton.SlotsSettledSkip | jsf.hh:574-578 | an empty slot needs no binding |
| Automaton.KeptRefl | jsf.hh:572-592 | binding a slot may do nothing |
| Automaton.KeptTrans | jsf.hh:572-592 | steps on one slot compose |
| Automaton.KeptSetSlot | jsf.hh:585 | `o = o->state->options[a]` rewrites only that slot |
| Automaton.KeptRemap | jsf.hh:586 | remapping rewrites only that option |
| Automaton.KeptBump | jsf.hh:588-591 | the recolor bump rewrites only that option |
| Automaton.HeadersKeptTrans | jsf.hh:41-60 | parsing steps compose: every earlier state keeps its name and its colour |
| Automaton.AppendStateOk | jsf.hh:302-329 | a new state with null slots keeps the arenas well formed |
| Automaton.AppendStateKeeps | jsf.hh:302-329 | a new state with a C-string name and null slots keeps the arenas well formed, every name a C string, and every earlier name and colour |
| Automaton.AppendOptionOk | jsf.hh:333 | a new option naming its target keeps the arenas well formed |
| Automaton.SetSlotsOk | jsf.hh:335-373 | slots pointed at existing options keep the arenas well formed |
| Engine.InitCursor | jsf.hh:78-84 | a fresh run has an empty buffer, no flags, zero counts, c = '?', starts at `states`, and keeps recolormark |
| Engine.Step | jsf.hh:100-156 | defines one iteration of the loop: the end of input, a fault after the calls made so far, or a move to the new run state and read position with the calls made |
| Engine.Run | jsf.hh:100-156 | defines the loop: steps until the input ends, a fault or the step bound, collecting the calls |
| Engine.Emitted | jsf.hh:117-125 | defines the recolour calls of an iteration: the owed bytes if any, then the marked span under `recolormark` |
| Engine.TakeOption | jsf.hh:127-155 | defines the second half of an iteration: flags and target copied, the lookup or buffering, the marks |
| Engine.KeywordJump | jsf.hh:132-148 | defines the keyword lookup: a hit moves to its state and recolours the word plus this byte; the buffer is dropped |
| Engine.LookedUp | jsf.hh:132-150 | defines the choice between the keyword lookup and appending the byte to the buffer |
| Engine.Marked | jsf.hh:151-155 | defines the buffer restart and the mark resets |
| Engine.Advance | jsf.hh:103-116 | the input is exhausted exactly when no noeat is pending and the position is at the end |
| Engine.StepKeepsCursorOk | jsf.hh:100-156 | a step keeps the cursor invariant and reads forward, never past the end |
| Engine.AdvanceOk | jsf.hh:103-116 | the first half of a step keeps the counts non-negative |
| Engine.TakeOptionOk | jsf.hh:127-155 | taking a well-formed option keeps the cursor invariant |
| Engine.EndsOnlyAtEndOfInput | jsf.hh:103-111 | the loop ends exactly when no noeat is pending and the input is exhausted |
| Engine.NoeatReadsNothing | jsf.hh:103-120 | a pending noeat reads nothing and recolours at least one byte in the current colour |
| Engine.EatReadsOneByte | jsf.hh:108-155 | otherwise one byte is read and selects the slot (null faults); the calls are exactly the owed bytes plus this one, then the marked span one byte further back under `recolormark`; each mark moves on by one unless the option resets it |
| Engine.StepTakesOption | jsf.hh:127-131 | the step adopts the option of the byte's slot: recolor, noeat, recolormark and target |
| Engine.KeywordHitJumps | jsf.hh:132-148 | a keyword found moves to its state, recolours the word plus this byte, and drops the buffer |
| Engine.KeywordMissStays | jsf.hh:132-148 | a keyword missed keeps the option's target and recolor, and drops the buffer |
| Engine.BufferingAppends | jsf.hh:149-150 | while buffering, an eaten byte is appended |
| Engine.RunStep | jsf.hh:100-156 | a run is its first step followed by the run from where that step left off |
| Engine.RunProperties | jsf.hh:100-156 | a run keeps the cursor invariant, reads forward only, and finishes exactly at the end of the input with no noeat pending |
| Engine.RunFuelMonotone | jsf.hh:100-156 | a run that stopped by itself is the same with more steps allowed |
| Engine.MarkSpanCanBeNegative | jsf.hh:121-125 | the recolormark call gets a negative count when `mark` came after `markend` |
| Jsf.ApplyState.constructor | jsf.hh:68-77 | a new run state is the reset cursor with no state |
| Jsf.ReadOption | jsf.hh:374-458 | the option gets the line's target name and modifiers and, for strings/istrings, the keyword table read from the next lines, sorted |
| Jsf.ReadTarget | jsf.hh:374-382 | the scan yields the target name after the selector and where the modifiers start |
| Jsf.ReadKeywords | jsf.hh:424-457 | the keyword table is the entries read from the following lines, sorted and as a multiset unchanged, each naming a state still to be looked up; the first line not consumed is the one after `done` |
| Jsf.StateHeader | jsf.hh:298-302 | the state name is the first word and holds no NUL; the colour name is the rest after blanks |
| Jsf.Highlighter.constructor | jsf.hh:19-21 | a new highlighter has no states and no options |
| Jsf.Highlighter.ParseStateStart | jsf.hh:297-330 | the `StartedState` of the line is appended: named by its first word, coloured by what the rest finds in the colour table (or the error colour), with null slots, at the head of the chain |
| Jsf.Highlighter.ParseStateLine | jsf.hh:331-459 | it faults exactly when a selector writes slots with no state; otherwise one option is added, the head state's selected slots point at it, and the following lines of its keyword table are consumed |
| Jsf.Highlighter.AddOption | jsf.hh:374-458 | the option read from the line is appended, the options before it unchanged, and the head state (if any) takes the selected slots |
| Jsf.Highlighter.Remap | jsf.hh:523-553 | the option becomes its `Remapped` form; nothing else changes |
| Jsf.Highlighter.RemapOption | jsf.hh:527-551 | the lookups on an unmapped option give its `Remapped` form: target and every keyword-table entry resolved |
| Jsf.Highlighter.BindSlot | jsf.hh:572-592 | the outcome, both arenas and the fuel left are exactly `SlotBound` (remap, then the compression loop with every recolor bump); besides, only this slot and options change, the slot's option stays on its chain along slot a from the option it held before binding, and on success that option is settled, else a null target, null slot or over-long chain |
| Jsf.SlotBound | jsf.hh:572-592 | binding one slot keeps the number of states and the slot count |
| Jsf.SlotsBound | jsf.hh:569-593 | the slot loop keeps the number of states |
| Jsf.SlotsBoundStep | jsf.hh:569-593 | the slot loop from a is slot a then the loop from a + 1: an empty slot is skipped, a failure ends the loop |
| Jsf.DownBoundStep | jsf.hh:566-597 | the state loop from s is state s then the loop from s - 1, a failure ending it |
| Jsf.Highlighter.Compress | jsf.hh:581-591 | one hop is exactly `CompressOf`: the slot takes its target's same slot, that option is remapped and, when the hop skipped a recolor or changed colour, the option after it gets recolor 1; the fault is a null target or a null slot |
| Jsf.CompressOk | jsf.hh:581-591 | a hop keeps the arenas well formed, the state shape and the cache; slot a holds the next option, which is the old one or the hop from it, and on success is that hop and mapped |
| Jsf.SetSlotKeeps | jsf.hh:585 | pointing slot a at an existing option keeps the arenas well formed, the shape and the cache |
| Jsf.ChainOf | jsf.hh:579-592 | the compression loop on values keeps the number of states and the slot count of state s |
| Jsf.ChainOfHop | jsf.hh:579-591 | a zero-width option with hops left takes exactly one `CompressOf` hop: a fault ends the loop there, otherwise the loop goes on from the next option with one hop fewer |
| Jsf.Highlighter.ChainStep | jsf.hh:579-591 | one turn of the loop is one `ChainOf` step: a hop of fuel is spent, a fault is a null target or null slot, and the rest of the loop is `ChainOf` from the new arenas and option |
| Jsf.Highlighter.Settle | jsf.hh:586-591 | the fault and the whole new option arena are exactly `SettleOf` |
| Jsf.SettleBumps | jsf.hh:586-591 | after a hop to o, o has `Remapped`'s target and table; only o and the option f in slot a of o's target change; f's recolor is at least 1 exactly when it was already or the hop skipped a recolor or changed colour, and it only ever rises from 0 to 1; every option only evolves; a missing f is a null target or null slot |
| Jsf.SettleOk | jsf.hh:586-591 | settling keeps the arenas well formed and o mapped, and succeeds exactly when the hop from o exists |
| Jsf.RemappedArenaOk | jsf.hh:586 | remapping one option with the full cache keeps the arenas well formed and its target inside the state arena |
| Jsf.RecolorOk | jsf.hh:590 | changing an option's recolor keeps the arenas well formed |
| Jsf.Highlighter.Hop | jsf.hh:585 | the slot takes the new option; nothing else changes |
| Jsf.Highlighter.Bump | jsf.hh:588-591 | the option's recolor becomes 1; nothing else changes |
| Jsf.Highlighter.BindStates | jsf.hh:554-598 | the cache is every state, sorted; binding with no state faults; otherwise the outcome and both arenas are exactly `DownBound` from the last state declared, states keep their shape, options only evolve, every populated slot holds an option its original option reaches by hops along that slot, `states` ends at the first state declared, and on success every populated slot is settled |
| Jsf.Highlighter.CacheOf | jsf.hh:557-564 | the cache holds every state's name, from the head down |
| Jsf.Highlighter.BindState | jsf.hh:569-593 | the outcome, both arenas and the fuel left are exactly `SlotsBound` from slot 0; on success every populated slot of this state and the later ones is settled |
| Jsf.Highlighter.BindSlotAt | jsf.hh:570-592 | one slot of a state bound: the slot loop from a is this turn then the loop from a + 1 (`SlotsBound`); an empty slot is settled as is; otherwise the slot is bound and, on success, settled with every earlier slot |
| Jsf.Highlighter.BindDown | jsf.hh:566-597 | the outcome and both arenas are exactly `DownBound` from the head; on success the head is the first state and every state is settled; a failure is a null target, a null slot or a chain that ran out of fuel |
| Jsf.Highlighter.Parse | jsf.hh:34-65 | the states are those before, names and colours kept, plus one per ':' line of `LineWalk`, in order, each named by its first word and coloured by a colour declared before it under the name it asks for, or the error colour; it faults for an option line with no state exactly when the walk does; on success `states` is the first state with every populated slot settled; it fails for want of states exactly when there are none |
| Jsf.Highlighter.ReadLines | jsf.hh:38-60 | the loop declares exactly the states of `LineWalk`, in order, each coloured as declared (`DeclaredFrom`), stops with a fault exactly where the walk faults, and ends with a colour table holding exactly the colours the walk declared, sorted exactly when the walk says so |
| Jsf.Highlighter.NextLine | jsf.hh:38-59 | one line cut at NUL and cleaned advances the walk: the states of its `LineEffect` are appended, coloured as declared, and the rest of the walk starts from the new position, colour table and sorted flag |
| Jsf.Highlighter.ParseLine | jsf.hh:41-59 | `LineHandled`: `=` appends `DeclaredColor` and marks the table unsorted; `:` sorts the table unless sorted and appends `StartedState`; a blank/tab line faults exactly when it writes slots with no state, and otherwise adds its option (`OptionLineDone`); any other line changes nothing |
| Jsf.HandledEffect | jsf.hh:41-59 | a handled line has the effect `LineEffect` predicts: the same fault and next line, the colours and sorted flag it threads on, and its declared state coloured as declared |
| Jsf.StartedColoured | jsf.hh:297-330 | the state a ':' line starts is coloured by one of the colours declared under the name it asks for, or the error colour exactly when there is none |
| Jsf.ColoursForMatches | jsf.hh:316-326 | the colours declared under a name are exactly the payloads of the table entries carrying it |
| Jsf.DeclaredKept | jsf.hh:38-60 | states declared earlier keep their declaration while states are added and slots rewritten |
| Jsf.Highlighter.StateLine | jsf.hh:48-56 | the colour table is sorted (a permutation, unchanged if already sorted), then exactly the `StartedState` of the line under that table is appended |
| Jsf.OptionLineHeaders | jsf.hh:331-459 | an option line adds no state, keeps every state's name and colour, and reads on to `OptionEnd` |
| Jsf.OptionEnd | jsf.hh:424-457 | an option line reads forward, never past the end of the file |
| Jsf.LineEffect | jsf.hh:41-59 | a line's handling reads forward, never past the end of the file |
| Jsf.Highlighter.ApplyInit | jsf.hh:78-84 | the run state is reset to start at `states`, keeping recolormark |
| Jsf.Highlighter.ApplyStep | jsf.hh:100-156 | one iteration of the loop is one `Step`, leaving the run state where it moved |
| Jsf.Highlighter.ApplyAdvance | jsf.hh:103-116 | the first half of an iteration is `Advance` |
| Jsf.Highlighter.ApplyOption | jsf.hh:127-155 | the second half of an iteration is `TakeOption` |
| Jsf.Highlighter.ApplyLookup | jsf.hh:132-150 | the keyword lookup or buffering |
| Jsf.Highlighter.ApplyMarks | jsf.hh:151-155 | the buffer restart and mark resets |
| Jsf.Highlighter.Apply | jsf.hh:85-157 | the recolour calls, bytes read and final run state are those of `Run` |
| Jsf.Highlighter.ApplyRunStep | jsf.hh:100-156 | one step of the apply loop agrees with the first step of `Run`: end, fault, or a move to the run from the new cursor with one less step |
| Vector.Grown | vecbase.hh:203 | growth doubles the capacity or starts at the default size, always growing |
| Vector.EraseUndoesInsert | vecbase.hh:211-443 | erasing what was inserted gives back the contents |
| Vector.InsertUndoesErase | vecbase.hh:211-443 | inserting back what was erased gives back the contents |
| Vector.InsertedAt | vecbase.hh:268-427 | where each element after an insertion comes from |
| Vector.ErasedAt | vecbase.hh:429-443 | where each element after an erasure comes from |
| Vector.ResizedKeeps | vecbase.hh:464-522 | resize keeps the prefix, pads with the value, and is a no-op at the same length |
| Vector.ResizeTwice | vecbase.hh:464-522 | shrinking then growing gives the prefix padded |
| Vector.AssignedAsWritten | vecbase.hh:100-116 | `operator=` as written yields b's length, and b's contents when lengths differ |
| Vector.AssignEqualLengthKeepsOld | vecbase.hh:103-114 | assigning [1] to [0] leaves [0] |
| Vector.CopyIn | vecbase.hh:627-655 | `copy_construct`/`copy_assign` write src at `at` and leave the rest |
| Vector.MoveForward | vecbase.hh:588-626 | `move_assign`/`move_construct` copy `count` elements front to back |
| Vector.MoveUp | vecbase.hh:600-611 | `move_assign_backwards` copies `count` elements up, back to front |
| Vector.Fill | vecbase.hh:549-574 | `construct` writes `count` copies of the value |
| Vector.Vec.constructor | vecbase.hh:69 | a new vector is empty with no buffer |
| Vector.Vec.Reserve | vecbase.hh:445-457 | the capacity grows to at least the request; contents unchanged |
| Vector.Vec.PushBack | vecbase.hh:200-209 | the value is appended; a full buffer grows to double capacity |
| Vector.Vec.Insert | vecbase.hh:211-266 | the value is inserted before p and p returned; a full buffer grows |
| Vector.Vec.InsertShift | vecbase.hh:214-233 | the in-place single insert shifts the tail up |
| Vector.Vec.ShiftUpOne | vecbase.hh:227-228 | data[p..len) moves up one place; nothing else changes |
| Vector.Vec.InsertRange | vecbase.hh:268-427 | the range is inserted before p; with no room the capacity becomes (cap + count) * 2 |
| Vector.Vec.InsertShuffle | vecbase.hh:281-395 | the in-place range insert leaves the inserted contents |
| Vector.Vec.MoveTailUp | vecbase.hh:292-351 | the tail data[p..len) lands count places up; nothing else changes |
| Vector.Vec.CopyRangeIn | vecbase.hh:352-395 | the range is written at p, over the gap and past the old end; nothing else changes |
| Vector.Vec.Relocate | vecbase.hh:409-421 | a fresh buffer of the new capacity holds the contents with the range inserted at p |
| Vector.Vec.Erase | vecbase.hh:429-434 | the element at p is removed; capacity unchanged |
| Vector.Vec.EraseRange | vecbase.hh:435-443 | the elements in the range are removed |
| Vector.Vec.PopBack | vecbase.hh:459-462 | the last element is dropped |
| Vector.Vec.Clear | vecbase.hh:536-544 | the buffer is released and the vector is empty |
| Vector.Vec.ResizeWith | vecbase.hh:494-522 | the contents are cut or padded with the value; capacity grows to n only when needed |
| Vector.Vec.Resize | vecbase.hh:464-492 | as ResizeWith, padding with `T()` |
| Vector.Vec.Assign | vecbase.hh:125-148 | the contents become the range |
| Vector.Vec.AssignFill | vecbase.hh:150-178 | the contents become n copies of the value |
| Vector.Vec.Swap | vecbase.hh:524-533 | the two vectors exchange buffers, lengths, capacities and contents |
| Vector.Vec.CopyFromAsWritten | vecbase.hh:100-116 | `operator=` as written: b's contents when lengths differ, the old ones when equal |
| Vector.Vec.CopyFrom | vecbase.hh:100-116 | `operator=` as intended: the contents become b's, b unchanged |

## Left out

- File I/O: `Parse(const char*)` and `fopen` are not modelled. The file reaches `Parse` as its sequence of lines.
- fgets line splitting: lines longer than 511 bytes are not split as `fgets` would split them.
- Diagnostics: every `fprintf`/`perror` diagnostic is left out. Only its effect (null, the error colour, a skipped slot) is kept.
- Allocation failures: `new`, `strdup` and `malloc` are taken to succeed.
- Memory: freeing (`free`, `Clear`, the destructors) is not modelled, and neither is freeing the colour-table tokens at the end of `Parse`. Values are not freed in Dafny.
- Reads past the end: bytes read past the terminating NUL of a line buffer read as NUL (stale buffer bytes are not modelled). This includes a backslash at the end of a line in `cleanup` and the selector scan.
- Base.Strtol: overflow to `LONG_MAX`/`LONG_MIN` is not modelled, because numbers in definition files are short.
- Base.Atoi: overflow is not modelled, for the same reason.
- Table.Sort: the algorithm is not modelled. `std::sort`/`qsort` are modelled by their result: a sorted permutation. The relative order of duplicate tokens is not fixed.
- Table.Search: every lookup the highlighter makes (`ParseStateStart`, `RemapOption`, `ApplyLookup`) runs with unsigned `char`, the comparison that the `strcmp` sort assumes. The signed-`char` probe of the code as written is modelled by `Lookup` with `signedChar` true, and its miss is shown by `TableCases.SignedCharMissesEntry` (see Findings).
- Table.Search: the `n == 0` argument (meaning `strlen`) is modelled by passing the whole key. A lookup of an empty buffer is the fault `EmptyLookup`, because `&buffer[0]` of an empty vector is not a string.
- Engine.Emitted: `Recolor` receives its arguments as unsigned. The model keeps them as integers, and the conversion of a negative count is shown by `MarkSpanCanBeNegative`.
- Overflow of counts: the counters `recolor`, `markbegin` and `markend` are `int` in the source and unbounded here, so wrap-around after 2^31 bytes is not modelled.
- EditorCharType: the width of the attribute is the editor's and is not modelled. The attribute is a `nat` produced by `compose`.
- Jsf.Highlighter.Apply: it takes a `fuel` bound on the number of iterations, because the source loop has no bound of its own on a stream that never ends. A run that uses up its fuel halts as `OutOfFuel`.
- Jsf.Highlighter.BindStates: it takes a `fuel` bound on the total number of compression hops over the whole binding, handed from slot to slot and state to state. A cycle of zero-width options, where the source loops forever, faults as `ChainTooLong`.
- Jsf.Highlighter.ReadLines: over the whole loop it states the states declared, their colours, the colour table and the fault; the options added and the slots they write are stated line by line (`ParseLine`, `OptionLineDone`) and not composed over the loop.
- Jsf.Highlighter.Parse: which colour a state gets when several colours are declared under the name it asks for is not fixed, since the table is sorted by an unstable sort; it is one of them.
- Parse called twice: a second `Parse` on a bound highlighter (options already mapped) is not modelled. `Parse` requires the chain invariant that holds before binding.
- Unmapped options: reading the name through an option that `Remap` never reached (a state pointer read as a name) is the fault `Unbound`.
- std::vector: the branches for compilers with `std::vector` and `<algorithm>` (C++ 1997 and later) are not modelled, except that `sort` is modelled by its result either way.
- Vec constructors and moves: the copy and range constructors, the move constructor and the move `operator=` of `VecType` (vecbase.hh:71-98, 118-123) are not modelled. They are compositions of `Resize`, `Assign`, `CopyFrom` and `Swap`.
- Vector.Vec.CopyFrom and Vector.Vec.CopyFromAsWritten: both require that a distinct vector owns a distinct buffer. The source guarantees this by allocation, and the model does not track ownership.
- Vector.Vec.Resize: the element default `T()` is passed to the constructor as `zero`.
- Colour tokens: only lower-case `fg_NNN`/`bg_NNN` (`?g_` with `b` or `f` first) are recognised, as in the code. Upper-case `FG_`/`BG_` tokens are hashed as words.
- Apply (sink): the `Applier` interface (`Get`, `Recolor`) is replaced by the input sequence and the returned events.

## Findings

| source | as written | input that shows it | evidently intended | confidence | as-written member | corrected member |
|---|---|---|---|---|---|---|
| jsf.hh:490-497 | `c = m.token[n]` reads a signed `char` where `char` is signed, so a token byte of 0x80 or more sends the search right past an entry that sorts after the key | table ("ab", "ab\xE9") sorted by `strcmp`, key "ab": the only probe lands on "ab\xE9", gets c < 0 and the search ends without finding "ab" | compare the byte as `unsigned char`, as `strcmp` does when sorting | not executed | TableCases.SignedCharMissesEntry | Table.LookupCorrect |
| vecbase.hh:100-116 | `operator=` copies only in the `len < b.len` and `len > b.len` branches | a = [0], b = [1]: `a = b` leaves a holding [0] | the elements are copied when the lengths are equal too | not executed | Vector.AssignEqualLengthKeepsOld | Vector.Vec.CopyFrom |
