# Camelot mix planner — a Dafny model

This project models the harmonic-mixing core of the song key/BPM analyser in
`app.js`. The analyser labels each song with a position on the Camelot wheel,
12 numbers times two rings: "A" is minor and "B" is major. It then orders the
songs into a DJ mix. The model covers:

- **Wheel codes and key names** (`camelot.dfy`, `keynames.dfy`). The 24 codes are `Code(n, m)` with `n` in 1..12 and `m` in `A | B`, written as strings such as `"8A"`. The application has two tables, code → key name and key name → code. Before the lookup it rewrites five sharp spellings to flat ones. A name with no entry yields no code (`None`, JavaScript's `undefined`).
- **Compatibility rules** (`rules.dfy`): `perfect`, `energyBoost`, `energyDrop` and `moodChange`. The application writes these on code strings with `parseInt` and `slice` (`jstext.dfy`). The model states them on codes and proves that the string form agrees with them on every pair. Also covered is the single category shown for a transition: the first rule that holds, in priority order.
- **Greedy mix planner** (`energysort.dfy`, `planner.dfy`). Songs are stably sorted by energy, and the least energetic one opens the mix. From there the planner keeps choosing the remaining song with the highest score. A perfect match scores +10, an energy boost +8 and a mood change +6, plus a tempo bonus of 5/3/1/0. On a tie the earliest remaining song wins. Each choice is labelled and spliced out of the remaining list. The imperative loops (`FindBestNextSong`, `GenerateMixSequence`) are proved equal to functional references (`BestIndex`, `MixSequence`, built on `GreedyMix`). The properties are proved about those references.
- **Import filter** (`importer.dfy`). It keeps the records whose `name`, `camelotKey`, `bpm` and `key` are all truthy, in order. It fails when none is left, or when the list holds a `null` element, since reading a field of it throws. Otherwise it appends the kept records to the song list.

Some properties fall out of the proofs:
- A mood change is always also a perfect match, so "Mood Change" is never shown.
- "Energy Boost" is shown only for 12X→1X, and "Energy Drop" only for 1X→12X.
- The score lies in 0..23.
- The mix is a permutation of the input.

From 8A, both 8B (10 + 6 + 5) and 9A (10 + 8 + 3) score 21, because the mood-change points stack on the perfect-match points and 9A is both a perfect match and an energy boost. So 8B comes second only by the first-on-tie rule (`Planner.ThreeSongScenario`).

## Model

| member | source | states |
|---|---|---|
| Camelot.ParseFormat | app.js:17-42 | Every one of the 24 codes is spelled as a well-formed code string, and reading that string gives the code back |
| Camelot.FormatParse | app.js:17-42 | Every string accepted as a code is exactly the spelling of the code read from it, so strings and codes correspond one to one |
| Camelot.FormatInjective | app.js:17-42 | Distinct codes have distinct spellings |
| KeyNames.WheelKeysInverse | app.js:17-42 | The wheel table covers all 24 codes. The key-name table (app.js:514-539) maps each wheel name back to its code, and the wheel maps every table name back to that name |
| KeyNames.Normalize | app.js:542-548 | The rewrite sends each of the five sharp spellings to a name in the key table and leaves every other name unchanged |
| KeyNames.NormalizeKeepsTableNames | app.js:569 | Names already in the key table pass through the rewrite unchanged |
| KeyNames.LookupCode | app.js:570 | A name yields a code exactly when it is in the key table, and the wheel maps that code back to the same name |
| KeyNames.DetectKey | app.js:568-574 | The reported key is the joined "key scale" name after the sharp-to-flat rewrite. It gets a code iff it is in the table, and the code's wheel name is the reported key. Each of the five rewritten sharp spellings reports its flat name and always gets a code |
| KeyNames.UnmappedSpellings | app.js:542-570 | "C# minor" and "F# major" are rewritten by neither table and get no code, while "F# minor" becomes "Gb minor" with code 11A |
| Rules.TextRulesAgree | app.js:47-73 | On well-formed code strings, the `parseInt`/`slice` form of each of the four rules decides exactly what the rule on codes decides, for all 24×24 pairs |
| Rules.PerfectReflexiveSymmetric | app.js:47-53 | Perfect match is reflexive and symmetric and does not wrap, so 12X→1X is not perfect |
| Rules.BoostDropInverse | app.js:55-67 | Boost from a to b holds iff drop from b to a holds. Boost takes 12X to 1X and drop takes 1X to 12X |
| Rules.MoodImpliesPerfect | app.js:47-53 | Every mood change (same number, other ring) is also a perfect match |
| Rules.TransitionType | app.js:764-776 | The category is never "Opening Track" or "Mood Change". It is "Perfect Match" iff the numbers are equal or are ±1 apart on the same ring. It is "Energy Boost" iff the pair is 12X→1X and "Energy Drop" iff it is 1X→12X. Otherwise it is "Challenging Transition" |
| Rules.LabelInjective | app.js:766-774 | The six category labels are distinct strings |
| EnergySort.SortByEnergy | app.js:684 | The sorted list is in ascending energy order and is a permutation of the input |
| EnergySort.SortIsStable | app.js:684 | Songs of equal energy keep their input order. Together with sortedness and permutation, this is exactly a stable sort |
| EnergySort.SortedFirstIsLeast | app.js:684-687 | The first song after sorting has the least energy of all input songs |
| Planner.BpmBonus | app.js:751-754 | The tempo bonus is one of 0, 1, 3 or 5 |
| Planner.BpmBonusMonotone | app.js:751-754 | The bonus never increases as the tempo difference grows |
| Planner.KeyScoreTable | app.js:718-748 | The harmonic score is 10 for the same code and 16 for the relative key. It is 18 for the clockwise neighbour and 10 for the counter-clockwise neighbour on the same ring, 8 for 12X→1X, and 0 for everything else, including 1X→12X |
| Planner.Score | app.js:717-754 | A candidate's score is at least its tempo bonus and at most 23 |
| Planner.BestIndex | app.js:714-762 | On a non-empty list, the chosen position is in range, has the highest score, and no earlier candidate has that score |
| Planner.BestIndexUnique | app.js:756-758 | At most one position satisfies that choice rule, so the tie-break determines the result |
| Planner.FindBestNextSong | app.js:714-762 | Starting from position 0 with score 0 and moving only on a strictly higher score, the scan returns the highest-scoring, earliest position and its score. If every score is 0, position 0. The position is exactly the one `BestIndex` chooses |
| Planner.RemoveAt | app.js:708 | Splicing one entry out leaves one fewer song, with exactly that song removed from the multiset. The songs before the position stay where they are and the songs after it move up by one |
| Planner.RemoveAtSorted | app.js:708 | A remaining list in energy order stays in energy order after the splice |
| Planner.GreedyMix | app.js:695-709 | The greedy continuation visits each remaining song exactly once. Each entry is labelled with the transition type from the song before it. The first pick scores at least as high as every remaining candidate |
| Planner.GreedyMixStep | app.js:696-708 | Any position that meets the choice rule gives the greedy continuation: that candidate, labelled from the current song, followed by the continuation from it over the rest |
| Planner.MixSequence | app.js:682-711 | The mix has one entry per song and is a permutation of the input. It opens with a least-energy song labelled "Opening Track", and every later entry is labelled from its predecessor |
| Planner.MixLabels | app.js:693-709 | Every entry after the first has the transition type from the previous entry's code, and is never "Opening Track" or "Mood Change" |
| Planner.GenerateMixSequence | app.js:682-712 | The imperative loop computes exactly the functional mix, so its result has the same length and songs as the input and opens with "Opening Track" |
| Planner.ThreeSongScenario | app.js:682-762 | Songs in 8A/120, 8B/122 and 9A/128, given out of energy order, are mixed A, B, C. The labels are Opening, Perfect Match and Challenging Transition, and B wins a 21-21 tie by position |
| Planner.CreateOptimalMix | app.js:670-673 | With fewer than two songs no mix is made. Otherwise the mix is the one above and has one entry per song |
| Importer.ValidSongs | app.js:243-245 | A record survives the filter iff it has all four required fields truthy |
| Importer.ValidSongsConcat | app.js:243-245 | The filter distributes over concatenation, so survivors keep their original relative order |
| Importer.ImportSongs | app.js:238-270 | A missing or non-array song list fails as invalid format. A `null` element fails the whole import, because reading its fields throws inside the filter and the handler catches it. Otherwise the import fails with "no valid songs" iff no record has all four required fields. On success the current list is kept and exactly the filtered records are appended |
| Importer.NullFailsImport | app.js:243-270 | One `null` element anywhere in the list fails the import, whatever valid records surround it: the field read in the filter throws and the handler catches it |
| Importer.DropsFalsyRecord | app.js:243-249 | A record with BPM 0 or an empty name is dropped, and a valid record beside it is imported on its own |

## Left out

- Audio analysis: the WASM key and tempo estimators, down-mixing, resampling and the RMS energy (app.js:420-510, 551-567, 578-584). The estimators are a foreign library; the rest is floating-point signal processing. The detected key and scale strings are inputs to `KeyNames.DetectKey`. An analysed tempo is rounded to a whole number (app.js:505), which is why the model's BPM is an integer.
- File reading, decoding, `JSON.parse`, the per-file analysis loop, the manual-entry form, rendering, event wiring, auto-mix timers and export (app.js:92-237, 271-417, 586-668, 778-932). All of these are I/O, DOM or browser side effects. The list handling of the import at app.js:238-270 is modelled by `Importer.ImportSongs`. The length checks before the auto-mix (app.js:158-177) are covered in the `Planner.GenerateMixSequence` line below.
- `JsText.ParseInt` reads the leading decimal digits of a string and returns None when the first character is anything else, white space and signs included. JavaScript's `parseInt` skips leading white space, accepts a sign and reads `"0x1A"` as 26, where the model gives 0. These differences do not matter here, because no code string starts with white space, a sign or `0x`.
- JavaScript object lookups can also find inherited properties such as `toString`. The model's tables are plain maps. The looked-up name always contains a space, so no inherited property name can match.
- `Planner.GenerateMixSequence` requires at least one song. On an empty list the JavaScript returns one "Opening Track" entry with an undefined song. `performAutoMix` (app.js:165-167) does not check the length itself. Its callers check for at least two songs before they call it or schedule it (app.js:160, 263, 308, 372), and so does `createOptimalMix` (app.js:671). Three of those callers defer the call with a 500 ms timer (app.js:264, 309, 373), and `reset` (app.js:913-914) can empty the list before the timer fires. That timer race is not modelled.
- The planner takes songs with well-formed codes, integer BPM and a real energy. In JavaScript this does not always hold. An analysed song whose name has no table entry, such as "C# minor", is still added, with an undefined `camelotKey` (app.js:394-404, 570). Imported records are only checked for truthiness, so a malformed code string, a string BPM or a fractional BPM such as 120.5 can get in too. Energy is not among the checked fields, so an imported energy can be missing, `null`, a string or `Infinity` (a JSON number too large for a double). The sort comparator `a.energy - b.energy` (app.js:684) converts both operands to numbers. It returns NaN for a missing or non-numeric energy and for two `Infinity` energies, reads `null` and `""` as 0, reads a numeric string as its number, and sorts `Infinity` after every finite energy. JSON has no NaN, but an analysed song gets a NaN energy when its signal is empty (`calculateEnergy`, app.js:583). With at least two songs, every song is scored against another at the first step of the mix. An undefined code makes `perfect` (app.js:50) or `moodChange` (app.js:70) throw on `slice`, so no mix is produced at all. The model does not represent these songs.
- `Importer.ImportSongs` takes the already-parsed `songs` field and leaves out the file-type check and the status messages.
