# Battle Palace assistant: the pure core in Dafny

This project models the computational core of the Battle Palace assistant. The assistant is a browser tool that predicts how the Battle Palace AI picks moves. The model covers two files.

From `logic.js`:

- **the Palace probability engine** (`calcPalaceProbs`). It classifies each move slot through the move-class table and counts the ATK, DEF and SPT slots. It then gates the nature's weights by which categories are present. Finally it hands the weight of every absent category to the random buckets `r_atk`, `r_def` and `r_nomove`, following the code's asymmetric decision table. It does this once for each HP tier.
- **the speed formula** (`calcSpeed`). The IV is fixed at 31, the EV is clamped to 0..252, and the formula uses nested floors and a nature modifier of 1.1, 0.9 or 1.
- **the Smogon set-text parser** (`parseSmogon`):
  - it reads the header line `Species @ Item` and strips the `(M)`/`(F)` markers;
  - it reads `<word> Nature` lines and `EVs:` lines, where the last `Spe` token wins;
  - it reads `-`/`*` move lines, keeping the first four and padding to four.
- **the alarm predicates** (`getAlarms`, `hasAlarm`) over the fixed sets `ALARM_MOVES` and `ALARM_ITEMS`.

From `app.js`:

- **`moveCat`**, the category label shown for a raw move class.
- **the derived lookups** `byName` and `bySpecies`, and the sorted species list.
- **`buildSuggestions`**, the search autocomplete. It shows saved custom sets, then set names starting with the query, then species groups, then set names merely containing the query. A `seen` set removes duplicates, and the list is cut at 16.
- **the move autocomplete** of the custom-set form. It shows moves starting with the query, then moves containing it, cut at 10.

The data tables are not part of this model. They are `NATURE_TABLE`, `MOVE_CLASS`, `BASE_SPEEDS`, `PALACE_DATA`, the saved sets and `ALL_MOVES` (the sorted keys of `MOVE_CLASS`). Every operation takes them as immutable maps and sequences instead. JavaScript's `null` and `undefined` become `Option.None`. Strings are `seq<char>`.

The modules are:

| module | file | models |
|---|---|---|
| Wrappers | wrappers.dfy | the `Option` type |
| Text | text.dfy | `trim`, `split`, ASCII case mapping, `startsWith`, `includes`, `\s`, `\d` and `\w` |
| Sequences | sequences.dfy | `slice(0, n)`, "last one wins", distinctness, multiset cancellation |
| Palace | palace.dfy | `calcPalaceProbs` |
| Speed | speed.dfy | `calcSpeed`, `NATURE_SPD_MOD` |
| Smogon | smogon.dfy | `parseSmogon` |
| Alarms | alarms.dfy | `getAlarms`, `hasAlarm`, `ALARM_MOVES`, `ALARM_ITEMS` |
| MoveCategory | move_category.dfy | `moveCat` |
| Lookup | lookup.dfy | `byName`, `bySpecies`, `Object.keys(...).sort()` |
| Search | search.dfy | `buildSuggestions` and the move autocomplete |

Where the source's own comments and its code differ, the model follows the code:

- The JSDoc of `calcPalaceProbs` (logic.js:57) documents `cats` as `'ATK'|'DEF'|'SPT'|null`. The code keeps the table's raw class string, or `null`, in `cats`, and only the exact strings `ATK`, `DEF` and `SPT` are counted. `Palace.CalcPalaceProbs` keeps the raw string.
- The same JSDoc (logic.js:49) asks for exactly 4 move names. The code maps any number of moves, and so does the model.

## Model

| member | source | states |
|---|---|---|
| Palace.Tier | logic.js:73-119 | Each AI probability is the tier's weight for its category when that category occurs, and 0 otherwise. When at least one category occurs, the six outputs add up to the tier's total weight. With all three categories present the random buckets are 0. With none present every output is 0. `r_atk` is non-zero only if ATK occurs, and `r_def` only if DEF occurs. An ATK/DEF tie splits the SPT weight 1/4, 1/4, 1/2. ATK facing SPT always gets half the DEF weight, and DEF facing SPT always gets half the ATK weight. |
| Palace.TierFollowsShareRule | logic.js:85-119 | On every input, the decision table equals an independent share rule. Half the missing weight goes to "no move". The other half is split equally among the heirs: ATK or DEF when present and not out-counted by the other. SPT never inherits. |
| Palace.Classify | logic.js:64 | A slot gets no class exactly when it is empty, the `---` placeholder, a move missing from the table or a move the table maps to "". Any other slot gets the table's class, which is never empty. |
| Palace.Count | logic.js:65-67 | The count of a class is its multiplicity in the multiset of slot classes. |
| Palace.CalcPalaceProbs | logic.js:60-129 | The result is absent exactly when the nature is not a table key. Otherwise `cats` has one entry per move, in slot order: absent for an empty slot, `---`, a move missing from the table or an empty class, and the raw class otherwise. The counts are multiset multiplicities. Both tiers conserve their total weight when some category occurs. Each tier is the decision table `Palace.Tier` applied to the nature's row for that tier and the three counts. |
| Palace.ClassifyPermutation | logic.js:64 | Any two arrangements of the same moves classify to the same multiset of classes. |
| Palace.PermutationInvariant | logic.js:64-71 | Permuting the moves leaves the counts, all twelve probabilities and the multiset of `cats` unchanged. |
| Palace.TieExample | logic.js:94-96 | An SPT weight of 0.3 with one ATK and one DEF move gives 0.075, 0.075 and 0.15. |
| Speed.Modifier | logic.js:7-10 | The modifier is the nature's NATURE_SPD_MOD entry, and 1.0 for a nature outside it. It is 1.1 exactly for Hasty, Jolly, Naive and Timid, and 0.9 exactly for Brave, Quiet, Relaxed and Sassy. |
| Speed.ClampEv | logic.js:36 | The clamped EV lies in 0..252. It is unchanged inside that range, 252 above it and 0 below it. |
| Speed.CalcSpeed | logic.js:32-40 | The result is absent exactly when the species has no base speed. An unknown nature leaves the neutral value unchanged. For a nature in NATURE_SPD_MOD the value is exact: a raising nature adds a tenth of the neutral value rounded down, and a lowering nature takes away a tenth rounded up, which is `Math.floor(neutral * mod)`. At a non-negative level a raising nature never lowers the neutral value and a lowering nature never raises it. |
| Speed.ClampAbove | logic.js:36 | Any EV of 252 or more gives the result of 252. |
| Speed.ClampBelow | logic.js:36 | Any EV of 0 or less gives the result of 0. |
| Speed.Neutral | logic.js:38 | The floor of the real quotient equals whole-number division by 100, plus 5. It is at least 5 when the stat and the level are not negative. |
| Speed.NeutralMonotone | logic.js:38 | At a non-negative level, the neutral speed does not decrease as the EV grows. |
| Speed.MonotoneInEv | logic.js:36-39 | At a non-negative level, for a known species and any nature, the speed does not decrease as the EV grows. |
| Speed.SnorlaxExample | logic.js:32-40 | Base 30, Brave, 252 EVs at level 50 gives 73. |
| Smogon.KeepNonBlank | logic.js:151 | The kept lines are non-empty. There are none exactly when every piece is blank. |
| Smogon.KeepNonBlankFilter | logic.js:151 | The kept lines are exactly the trimmed pieces that are not empty, in order, each as often as it occurs. |
| Smogon.NonBlankLines | logic.js:151-152 | The lines are non-empty. There are none exactly when the text is all white space. |
| Smogon.NonBlankLinesFilter | logic.js:151 | The lines are exactly the non-empty pieces of the trimmed text split at line feeds and then trimmed, in order. |
| Smogon.NonBlankLinesOfJoin | logic.js:151 | Clean lines joined by line feeds give back the same lines. A clean line is non-empty, has no white space at either end and holds no line feed. |
| Smogon.StripGender | logic.js:160 | The global marker strip never lengthens the string and adds no character. A string without `(` is left unchanged. |
| Smogon.StripGenderExact | logic.js:160 | After a head with no `(` that does not end in white space, a `(M)` or `(F)` marker goes together with the white space before it, and the strip goes on through the rest of the string, so every later marker goes too. |
| Smogon.StripFirstParen | logic.js:184 | Removing the first `\s*\(.*?\)` match never lengthens the string and adds no character. A string without `(` is left unchanged. |
| Smogon.StripFirstParenExact | logic.js:184 | Take a head `a` with no `(` that does not end in white space, then white space, then a group `(b)` with no `)` or line terminator inside, then any tail `c`. The group and the white space before it go, and the result is exactly `a + c`, even when `c` holds further groups. |
| Smogon.MoveName | logic.js:181-185 | A move name never holds a `/`. It has no white space at either end. |
| Smogon.MoveNameExact | logic.js:181-185 | A line `- <name>` gives back exactly that name when the name has no white space at either end and holds neither `/` nor `(`. |
| Smogon.NatureWord | logic.js:168-169 | A captured nature word is a non-empty run of word characters at the start of the line. After it come white space and then the rest of the line, which is `nature` in any letter case. |
| Smogon.NatureWordExact | logic.js:168-169 | Every line made of a word, white space and `nature` in any letter case gives exactly that word. |
| Smogon.Header | logic.js:157-164 | Neither the species nor the item of the header line keeps an `@` or white space at either end. Without an `@` the item is empty. |
| Smogon.HeaderExact | logic.js:157-164 | `<species> @ <item>` gives back both halves, and `<species>` alone gives the species and an empty item. This holds when both halves are trimmed and non-empty, neither holds `@`, and the species holds no `(`. |
| Smogon.HeaderGender | logic.js:157-164 | A species followed by white space and a `(M)` or `(F)` marker reads back as the bare species, both with an item after `@` and without one. |
| Smogon.HeaderSecondAt | logic.js:159-161 | On a line with a second `@`, the item is the text between the first and the second `@`, trimmed; what follows the second `@` is dropped. |
| Smogon.ScanTokens | logic.js:173-176 | The speed EV after an `EVs:` line is the last `Spe` token's number. With no such token, the previous value is kept. |
| Smogon.SpeTokenExact | logic.js:173-175 | Every EV part made of digits, white space and `spe` in any letter case gives exactly the decimal value of those digits. |
| Smogon.SpeTokenShape | logic.js:174-175 | Conversely, an EV part gives a number only when, once trimmed, it is digits, then white space, then `spe` in any letter case. The number is the decimal value of those digits. |
| Smogon.Step | logic.js:167-187 | A line matching the nature pattern sets the nature and nothing else. The nature changes only to the line's captured word. The speed EV changes only on an `EVs:` line that is not a nature line. The moves change only on a `-`/`*` line that is neither a nature nor an EV line, only while fewer than four moves are held, and only by appending the line's move name. At most one field changes, and four moves are never exceeded. |
| Smogon.MoveLineReads | logic.js:181-187 | A line `- <name>`, with a trimmed name holding neither `/` nor `(`, adds exactly that name to the moves. It adds nothing to the nature or the speed EV. |
| Smogon.NatureLineReads | logic.js:168-169 | A line `<word><white space>nature` adds exactly that word to the nature readings. It adds no move and no speed EV. |
| Smogon.Scan | logic.js:166-188 | After the later lines: the moves are the first four move-line names in order, the nature is the last nature line's word, and the speed EV is the last `Spe` reading. Each is stated against its own line-by-line reference. |
| Smogon.Pad | logic.js:190 | Padding gives exactly four slots. The found moves stay in front and the rest are empty. |
| Smogon.ParseSmogon | logic.js:150-192 | The result is absent exactly when the text is all white space. Otherwise there are exactly four move slots, holding the first four move lines' names. The nature defaults to "" and otherwise comes from the last nature line. The speed EV defaults to 0 and otherwise comes from the last `Spe` token. Species and item are what the header reading gives for the first non-blank line, and the item is "" without an `@`. Species and item contain no `@` and have no white space at either end. |
| Smogon.ParseOfLines | logic.js:150-192 | Clean lines joined by line feeds parse to the record built from those same lines: the header from the first line, and the later lines read one by one. |
| Smogon.LaterMovesIgnored | logic.js:186 | Once four move lines have been read, further lines never change the moves. |
| Alarms.GetAlarms | logic.js:199-204 | The result has at most two labels. Each label is present exactly when its set is hit. "alarm move" comes before "alarm item". |
| Alarms.HasAlarm | logic.js:209-211 | It holds exactly when `getAlarms` returns a non-empty list. |
| Alarms.Examples | logic.js:199-211 | Swords Dance flags. BrightPowder flags. Tackle with Leftovers does not. |
| MoveCategory.MoveCat | app.js:40-47 | The result is one of ATK, DEF, SPT, NA. A missing class, "", "nan", "#N/A" and "---" give NA. ATK is given exactly when the upper-cased class contains ATK. DEF is given exactly when it contains DEF and not ATK. SPT is given exactly when it contains SPT and neither of the others. |
| MoveCategory.CaseInsensitive | app.js:41-46 | The label does not change when the class is lower-cased. |
| MoveCategory.AgreesWithEngine | app.js:40-47 | A slot the probability engine counts under a category gets that same label. |
| Lookup.ByName | app.js:11-12 | The keys are exactly the lower-cased names of the data. Each key holds a set of the data with that lower-cased name. |
| Lookup.ByNameLastWins | app.js:11-12 | The set stored under a name is the last set in the data with that lower-cased name. |
| Lookup.SetsOf | app.js:13-14 | A species' sets are exactly the data's sets of that species. |
| Lookup.BySpecies | app.js:11-15 | The keys are exactly the species that occur. Each species holds exactly its sets, in data order. |
| Lookup.SpeciesKeys | app.js:106 | `Object.keys(bySpecies)` lists each species exactly once. |
| Lookup.Insert | app.js:106 | Inserting into a sorted list keeps it sorted and adds exactly one copy of the new element. |
| Lookup.Sort | app.js:106 | The result is sorted by character code and is a permutation of the input. |
| Lookup.SortedUnique | app.js:106 | Two sorted lists with the same elements are equal. So the insertion order of `bySpecies` does not affect the species order. |
| Lookup.SortedSpecies | app.js:106 | The species list is sorted, has no repeats, and holds exactly the keys of `bySpecies`. |
| Search.Normalize | app.js:80-81 | The normalised query is empty exactly when the raw query is all white space. |
| Search.PushTracked | app.js:87-92 | Emitting an entry keeps `seen` equal to the tags of the output, with no tag twice. |
| Search.Sweep | app.js:85-119 | One stage appends only to the end of the list. What it appends comes from its candidates, passes its test, and was not seen before. Every candidate that passes is seen by the end of the stage. |
| Search.SweepOrder | app.js:85-119 | The entries a stage appends appear in the same order as its candidates. |
| Search.SweepFirstWins | app.js:85-119 | Each entry a stage appends is a candidate with no earlier candidate that passes the test under the same tag. Of two data sets with the same name, the first is shown, because `seen` is checked before every push. |
| Search.Collect | app.js:82-120 | At the end, `seen` holds exactly the tags of the emitted list, and no tag occurs twice in it. |
| Search.CollectLayout | app.js:82-120 | The emitted list is four consecutive stretches: custom sets, names starting with the query, species, then names merely containing it. Each stretch holds offered entries of its own rank, taken in the order of its stage's candidates. For a query with a digit the last two stretches are empty. |
| Search.CollectFacts | app.js:82-120 | The full list has no tag twice. Every entry is one the query offers. The order is custom sets, then names starting with the query, then species, then names merely containing it. Nothing that passes a stage's test is missing. |
| Search.BuildSuggestions | app.js:79-123 | A blank query gives []. Otherwise there are at most 16 entries and no two share a tag. Each entry is a matching saved set, a matching name, or a matching species with its set count. Groups and merely-containing names occur only for a query without digits. The entries come in rank order. When fewer than 16 come back, every entry that passes a stage's test is covered. |
| Search.BuildSuggestionsOrder | app.js:79-123 | The suggestions are the first entries of the emitted list, and all of it when fewer than 16 come back. Species entries come in sorted species order. Saved sets keep the order of the saved list. Two names of the same stage keep the order of the data. |
| Search.MovesWhere | app.js:346-347 | The filtered list holds exactly the moves that pass. It has no repeats when the list has none. |
| Search.MovesWhereFilter | app.js:346-347 | The filtered list is exactly the moves that pass, in list order, each as often as it occurs. |
| Search.MoveCandidatesSplit | app.js:345-347 | The candidates are a front part and a back part. The front is the moves starting with the query, in list order. The back is the moves that contain it without starting with it, in list order. |
| Search.MoveCandidates | app.js:345-348 | Every candidate comes from the move list and contains the query. Moves starting with the query come before the others. No move appears twice when the list has none twice. Every containing move is a candidate. |
| Search.MoveSuggestions | app.js:342-348 | A blank input gives []. Otherwise there are at most ten moves, each from the list and containing the query. Those starting with it come first. No move appears twice when the list has none twice. When fewer than ten come back, every containing move is among them. The moves shown are the first candidates, in candidate order. |
| Text.Trim | logic.js:151 | The result has no white space at either end. It is empty exactly when the input is all white space. A string already trimmed is left unchanged. |
| Text.TrimUnique | logic.js:151 | A slice with only white space before and after it, and no white space at its own ends, is the trimmed string. So the trim is the input with its leading and trailing white space runs removed. |
| Text.TrimAround | logic.js:151 | Trimming white space, then a trimmed non-empty string, then white space gives back that string. |
| Text.Split | logic.js:151 | There is at least one piece, and no piece contains the separator. Joining the pieces gives back the string. There is exactly one piece when the separator does not occur. |
| Text.SplitJoin | logic.js:151 | Splitting the join of one or more pieces that do not hold the separator gives back those pieces. |

## Left out

- DOM work is not modelled: rendering, event listeners, the HP toggles, `probBarsHTML`/`barRow` and sprites. It is presentation only.
- `localStorage` loading and saving and the `Date.now()` ids are not modelled. They are I/O and clock reads, so saved sets arrive as a parameter.
- `pct` and `pctF` formatting, `setTimeout` timing, and the "n set(s)" caption of a species entry are not modelled. A group entry carries the count itself.
- The contents of `NATURE_TABLE`, `MOVE_CLASS`, `BASE_SPEEDS` and `PALACE_DATA` are not part of this model. The files that define them are not part of this model either, so the tables are parameters.
- Floating point is not modelled. Weights are exact reals, and the engine only adds and multiplies by 0.5 and 0.25. The speed modifiers are the exact reals 1.1 and 0.9. Both floating-point constants lie a hair above those values, so for a non-negative neutral value the floors agree.
- Speed.CalcSpeed: at a negative level the neutral value can be negative, and there the floating-point product lies a hair below the exact one: base 35, Jolly, EV 36 at level -50 gives -56 in the source and -55 in the model. Every caller passes level 50 or 100.
- Speed.CalcSpeed: the EV is an integer. `parseInt` of arbitrary text and of non-integer numbers is not modelled (the source maps text that is not a number to 0).
- Smogon.ParseSmogon: the species and item are stated through Smogon.Header, which Smogon.HeaderExact, Smogon.HeaderGender and Smogon.HeaderSecondAt pin down for headers of those shapes. A species that holds a `(` other than a gender marker is not pinned down. The digits of a `Spe` token are read as an unbounded decimal; `parseInt`'s precision limit for very long digit runs is not modelled.
- Smogon.MoveName: states the absence of `/` and the trimmed ends for every line, and the exact name only for names without `/` or `(` (Smogon.MoveNameExact). It does not state which characters the parenthesis strip removes.
- Smogon.StripGenderExact: requires that the head have no `(` and not end in white space, for the same reason as Smogon.StripFirstParenExact: white space at the end of the head would be taken by `\s*`.
- Case mapping is ASCII only. This is exact for the `/i` regular expressions and the `spe` comparison. For `toUpperCase`/`toLowerCase` of arbitrary text in `moveCat` and the search, letters outside ASCII are left unchanged.
- Sorting compares whole characters. JavaScript compares UTF-16 code units, which differs only between astral characters and U+E000..U+FFFF.
- Keys inherited from `Object.prototype` are not modelled. Examples are a move or species named `constructor`, which the source's plain-object lookups would find.
- A round trip, re-serialising a parsed set and parsing it again, is not modelled, because the serialiser lives outside the core.
- There is no lemma that parses one concrete multi-line export, such as a literal Snorlax set. Evaluating the character-level scans on literal text costs the verifier more than it can afford. Smogon.ParseOfLines, Smogon.HeaderExact and the per-line lemmas (Smogon.MoveLineReads, Smogon.NatureLineReads, Smogon.SpeTokenExact) state the outcome for every export of that shape instead.
- Smogon.StripFirstParenExact: requires that the head not end in white space. A head that does end in white space loses that white space too, because `\s*` takes it, so `a + c` would be wrong there.
- Smogon.Step: the EV reading of one line is stated through ScanTokens and Smogon.SpeTokenExact. No lemma takes a literal `EVs:` line with several parts apart, for the same cost reason as the concrete export.
- The tags of different suggestion kinds share one `seen` set, as in the source. So a custom id, a set name and a species can shadow one another only when their tag strings coincide. The model keeps this behaviour.
