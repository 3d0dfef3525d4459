# reverdle, modelled in Dafny

reverdle works backwards from a solved word puzzle. It takes the known answer
and the shared grid of coloured squares, one row per guess. It then lists the
dictionary words the player could have guessed. Green, yellow and grey tiles
become per-position letter constraints, and a filter keeps the dictionary
words that satisfy them. There are two solvers:

- The naive solver looks only at the first row.
- The recursive solver starts at the second-to-last row and works back to the
  first. For every candidate word of a row, it adds that word's letters to a
  set of "bad" letters and then searches the earlier row.

The whole core is `src/main.rs`. The Dafny modules follow its parts:

| file | module | models |
|---|---|---|
| `feedback.dfy` | `Feedback` | `Colour`, `Colour::from_char`, `Guess::from_emoji` |
| `answer.dfy` | `Answer` | `Input` and its helpers `letter`, `other_letters`, `all_letters` |
| `filter.dfy` | `Filter` | `PossibleLetters` and `find` |
| `builder.dfy` | `Builder` | the per-row constraint builders of `Naive` and `Recursive` |
| `search.dfy` | `Search` | `Naive::reverdle`, `Recursive::recurse`, `Recursive::reverdle` |
| `scenarios.dfy` | `Scenarios` | worked transcripts for the answer CRANE |

Modelling choices:

- The dictionary (`WORDS`) is a parameter `dict: seq<string>`.
- The recursive solver's `HashSet` result is a `set<string>`. At level 0 the
  source returns the filter's vector itself, and the model takes the set of
  its elements.
- Strings are `seq<char>`, where a `char` is a Unicode scalar value, as Rust's
  `chars()` yields.
- The three squares are U+1F7E9 (green), U+1F7E8 (yellow) and U+2B1B (black
  large square, the grey tile).
- `find` zips the constraints with the word's characters. Only the first
  `min(|constraints|, |word|)` positions are checked, and `ZipAll` models
  exactly that.
- Panics become preconditions:
  - `letter(idx)` unwraps `nth(idx)`, so `Letter` requires `idx` to be inside
    the answer. A row with a green tile past the end of the answer would
    panic, so the builders require `RowFits`.
  - Indexing `guesses[level]` requires `level < |guesses|`.
  - `guesses.len() - 2` is a `usize` subtraction, so `Reverdle` requires at
    least two rows. `NaiveReverdle` requires at least one row.

Three facts about the code are worth stating plainly:

- The recursive result is a subset of the naive result (`Search.Reverdle`,
  `Scenarios.RecursiveNarrowsNaive`).
- The recursion always starts at row `len - 2`.
- The filter does not require a word and its constraints to have equal
  lengths.

## Model

| member | source | states |
|---|---|---|
| Feedback.FromChar | src/main.rs:98-105 | succeeds exactly on the green, yellow and black squares; on success the colour's square is the input symbol; any other symbol gives `UnknownEmoji` naming that symbol |
| Feedback.FromEmoji | src/main.rs:80-87 | succeeds iff every symbol classifies; on success drawing the row gives back the input, one colour per symbol in order; on failure the error names the first symbol that does not classify, and every symbol before it classifies |
| Feedback.Symbol | src/main.rs:100-102 | the square each colour is read from; `FromChar` states that it is exactly the inverse of this table |
| Feedback.Render | src/main.rs:100-102 | the source has no drawing function: this is the inverse of the symbol table, defined so the round trip can be stated; it gives one square per colour, and each square classifies back to its colour |
| Feedback.RenderRoundTrip | src/main.rs:80-87 | reading a drawn row gives back the row |
| Answer.Letter | src/main.rs:54-57 | requires an index inside the answer; the letter is among all letters, and all letters are exactly the other letters plus this one |
| Answer.CharSet | src/main.rs:69-70 | `chars().collect()`; its membership is stated by `CharSetMembers` |
| Answer.OtherChars | src/main.rs:61-65 | the enumerate/filter_map collection; its membership is stated by `OtherCharsMembers` |
| Answer.AllLetters | src/main.rs:69-71 | `all_letters`; exactly the answer's characters, by `AllLettersMembers` |
| Answer.OtherLetters | src/main.rs:60-66 | `other_letters`; exactly the answer characters at positions other than `idx`, by `OtherLettersMembers` |
| Answer.CharSetMembers | src/main.rs:68-71 | a character is collected exactly when it occurs in the string |
| Answer.OtherCharsMembers | src/main.rs:59-66 | the enumerate/filter_map collection holds exactly the characters at positions other than `idx` |
| Answer.AllLettersMembers | src/main.rs:68-71 | all letters are exactly the characters at some position of the answer |
| Answer.OtherLettersMembers | src/main.rs:59-66 | other letters are the answer characters at positions other than `idx`; they are among all letters; an index past the end excludes nothing |
| Answer.LetterSets | src/main.rs:55-71 | for an index inside the answer, all letters split into the letter at the index and the other letters |
| Filter.Allows | src/main.rs:114-117 | the per-letter match of the four constraint kinds; each kind's meaning is spelled out in `FindPositions` |
| Filter.ZipAll | src/main.rs:113-118 | the zipped all-check; `ZipAllFits` states it checks exactly the positions both sides have |
| Filter.Find | src/main.rs:108-124 | `find`; returns at most as many words as the dictionary has; `FindMembership`, `FindPositions`, `FindCount` and `FindSubsequence` state which words and in what order |
| Filter.ZipAllFits | src/main.rs:113-118 | the zipped all-check holds iff every position present in both the constraints and the word passes its constraint |
| Filter.FindLoop | src/main.rs:108-124 | the push loop over the dictionary computes the filter |
| Filter.FindMembership | src/main.rs:112-122 | a word is found iff it is in the dictionary and the zipped check passes |
| Filter.FindPositions | src/main.rs:113-118 | a word is found iff it is in the dictionary and each shared position passes: `Any` always, `Exact(o)` iff the letter is `o`, `Possible(s)` iff the letter is in `s`, `Not(s)` iff it is not |
| Filter.FindAppend | src/main.rs:112-122 | filtering a concatenation is the concatenation of the filtered parts, so dictionary order is kept |
| Filter.FindCount | src/main.rs:108-124 | each word occurs in the result as often as in the dictionary if it matches, and not at all otherwise |
| Filter.FindSubsequence | src/main.rs:108-124 | the result is a subsequence of the dictionary |
| Filter.FindRefines | src/main.rs:108-124 | filtering with stronger constraints after weaker ones equals filtering with the stronger ones |
| Filter.FindIdempotent | src/main.rs:108-124 | filtering the result again with the same constraints returns it unchanged |
| Filter.FindAllAny | src/main.rs:113-114 | with every constraint `Any` the whole dictionary is returned |
| Builder.NaiveConstraints | src/main.rs:144-153 | one constraint per position of the first row |
| Builder.Constraints | src/main.rs:165-182 | one constraint per position of the row |
| Builder.ConstraintMeaning | src/main.rs:169-181 | a green position admits only the answer letter under it; a yellow one admits a letter iff it is not bad and occurs in the answer at another position; a grey one admits a letter iff it is neither bad nor in the answer |
| Builder.NaiveIsEmptyBad | src/main.rs:144-153 | the naive builder builds exactly the recursive builder's constraints with an empty bad set |
| Builder.ConstraintsAntitone | src/main.rs:171-180 | with more bad letters, every word the constraints admit was admitted before |
| Builder.FindShrinks | src/main.rs:165-185 | enlarging the bad set only deletes candidates of a row: the new candidates are the old ones filtered again, and a subsequence of them |
| Builder.CandidateShrinks | src/main.rs:165-185 | a candidate under the larger bad set is a candidate under the smaller |
| Search.NaiveReverdle | src/main.rs:142-156 | requires a first row; returns the dictionary filtered by the first row's constraints with an empty bad set |
| Search.Reverdle | src/main.rs:215-218 | requires at least two rows; every word returned by the recursive solver is in the naive solver's result |
| Search.Recurse | src/main.rs:163-211 | `Recursive::recurse` as a set; `RecurseBase` and `RecurseStep` state what it returns at the first row and above it |
| Search.Branches | src/main.rs:199-209 | the loop over a row's candidates, union accumulated in candidate order; `BranchesMembership` states its members |
| Search.BranchesMembership | src/main.rs:199-209 | the accumulated union over a row's candidates holds a word iff some candidate leads to it one row earlier with its letters added to the bad set |
| Search.RecurseBase | src/main.rs:165-197 | at the first row a word is returned iff it is in the dictionary and each first-row tile it reaches admits its letter: green the answer letter there, yellow a letter not bad and in the answer at another position, grey a letter neither bad nor in the answer |
| Search.RecurseStep | src/main.rs:196-210 | above level 0 a word is returned iff some candidate `w` of the current row yields it at `level - 1` with bad set `bad ∪ chars(w)` |
| Search.RecurseWithinFirstRow | src/main.rs:163-211 | every word returned from any level is a first-row candidate under the starting bad set |
| Search.RecurseAntitoneAt | src/main.rs:163-211 | a word returned under a larger bad set is returned under a smaller one |
| Search.RecurseAntitone | src/main.rs:163-211 | enlarging the starting bad set can only shrink the search result |
| Search.RecurseAvoidsBad | src/main.rs:171-179 | a returned word never has a starting bad letter under a yellow or grey tile of the first row |
| Search.RecurseLoop | src/main.rs:163-211 | the loop with per-letter bad-set extension and accumulated union computes the recursive search |
| Scenarios.StrayLetterRefused | src/main.rs:80-87 | a row with a stray `x` is refused with an error naming `x` |
| Scenarios.GreenThenGreyFind | src/main.rs:141-156 | for CRANE with one green and four grey tiles, only CLIPS of CRANE, CRATE, CHESS, CLIPS survives |
| Scenarios.FirstRowAlone | src/main.rs:141-156 | for the three-row CRANE transcript, the naive solver returns ROUTS and EMPTY |
| Scenarios.RecursiveNarrowsNaive | src/main.rs:196-218 | the recursive solver returns only EMPTY: CRANK is the sole second-row candidate, and its letters rule out ROUTS |

## Left out

- `Input::from_emoji` (src/main.rs:19-52) is left out. It splits the header line, parses integers with `unwrap` and looks up the answer in `SOLUTIONS`, which is static data outside this model. `Input` is given directly as an answer plus rows.
- The `WORDS` and `SOLUTIONS` tables are not part of this model. The dictionary is a parameter.
- The `dbg!`/`println!` diagnostics and the empty `main` are left out. They do not affect any result.
- `HashSet` capacities and iteration order are left out. Sets are mathematical sets.
- Search.Recurse requires every row from 0 to `level` to fit the answer (`RowsFit`). The source panics only when a row it actually reaches has a green tile past the end of the answer, and a branch with no candidates never reaches the earlier rows.
- Search.Reverdle requires at least two rows. The source's `usize` subtraction either panics or wraps and then panics on indexing, and the model does not distinguish the two.
- Filter.Find states only a length bound in its own contract. Its meaning is given by `FindMembership`, `FindPositions`, `FindCount`, `FindAppend` and `FindSubsequence`, to keep the search proofs cheap.
- Builder.Constraints and Builder.NaiveConstraints state only one constraint per position in their own contracts. What each position admits is stated by `ConstraintMeaning`, and the relation between the two builders by `NaiveIsEmptyBad`.
