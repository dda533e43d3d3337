# aoc2022, days one and two, in Dafny

A verified model of the two puzzle solutions in teesh3rt/aoc2022:

- **Day one** (`src/days/one.rs`). The input is text with one number per line and a blank line between groups. `parse_input` reads it into a list of groups. `do_puzzle` returns the largest group sum. `do_puzzle_extra` collects the group sums into a vector, sorts it in place, reverses it in place, and returns its first three elements.
- **Day two** (`src/days/two.rs`). A rock-paper-scissors strategy guide has one round per line: the enemy's move (A, B, C), a space, and a second column (X, Y, Z).
  - `parse_game` reads the second column as your move.
  - `parse_game_extra` reads it as the required outcome (lose, draw, win) and derives your move from the enemy's.
  - A round scores the move's value (Rock 1, Paper 2, Scissors 3) plus 6 for a win, 3 for a draw and 0 for a loss. A game scores the sum over its rounds. The `!` operator on a move gives the move that beats it.

Modules:

| file | module | what it holds |
|---|---|---|
| `nom.dfy` | `Nom` | The parse result (rest and value, or a failure) and the nom primitives the puzzles use: `anychar`, `tag`, `newline`, `opt(newline)`. |
| `iter.dfy` | `Iter` | `Iterator::sum` and `Iterator::max` over sequences of naturals. |
| `vec_ops.dfy` | `VecOps` | `collect` into a fresh array, plus in-place `sort` and `reverse` as array methods. |
| `day_one.dfy` | `DayOne` | The line, group and input parsers; a printer for groups with a round-trip proof; both reducers. |
| `day_two.dfy` | `DayTwo` | `Play`, `!`, `Round`, `Game`, the move and round parsers in both readings, a printer for guides with round-trip proofs, and the repository's examples. |

Parsers are functions from a string to `Result`. `Done(rest, value)` is success. `Fail(f)` is failure, where `f` is one of:

- `Error`: nom's recoverable error.
- `Incomplete`: nom asks for more input.
- `Abort`: a `panic!` in the puzzle code.

`many1(p)` follows nom:

- A failure of the first item is passed on.
- After the first item, a recoverable error ends the loop and keeps the input.
- Any other failure is passed on.

The parsers follow the code exactly, including where it accepts less than one might expect:

- **Day one, blank lines.** Groups are separated by exactly one blank line. `parse_one_group` skips only one newline after a group. A second blank line therefore ends `parse_input` with the rest of the text unread (`DayOne.ParseInputStopsAtSecondBlankLine`).
- **Day two, trailing blank line.** A blank line after the last round makes `parse_play` read `'\n'` as a move, and the program panics (`DayTwo.ParseGameTrailingBlankLine`).
- **Day two, cut-short line.** A line cut short after the enemy's move asks for more input, because `tag(" ")` runs in streaming mode (`DayTwo.ParseGameCutShort`).

## Model

| member | source | states |
|---|---|---|
| `Nom.AnyChar` | src/days/two.rs:42 | Succeeds exactly on non-empty input, returning the first character and the rest. Empty input is a recoverable error. |
| `Nom.Tag` | src/days/two.rs:92 | Succeeds exactly when the input starts with the tag, and leaves what follows. Asks for more input exactly when the input is a proper prefix of the tag. Otherwise a recoverable error. |
| `Nom.Newline` | src/days/one.rs:27 | Succeeds exactly on a leading `'\n'` and consumes it. Otherwise a recoverable error. |
| `Nom.OptNewline` | src/days/one.rs:27 | Drops one leading `'\n'` if there is one. Otherwise leaves the input unchanged. |
| `Iter.Sum` | src/days/one.rs:44 | No element exceeds the sum. |
| `Iter.SumConcat` | src/days/one.rs:44 | The sum of a concatenation is the sum of the sums. |
| `Iter.SumBounds` | src/days/two.rs:132-138 | If every element lies in [lo, hi], the sum lies in [lo·n, hi·n]. |
| `Iter.Maximum` | src/days/one.rs:45-46 | `None` exactly on the empty sequence. Otherwise returns an element of the sequence that no element exceeds. |
| `VecOps.Reversed` | src/days/one.rs:57 | Same length; element k is element n-1-k of the input. |
| `VecOps.ReversedPermutes` | src/days/one.rs:57 | Reversing keeps the multiset of elements. |
| `VecOps.ReversedAscending` | src/days/one.rs:56-57 | An ascending sequence, reversed, is descending. |
| `VecOps.DescendingSplit` | src/days/one.rs:59 | Cut a descending sequence after k elements. The elements outside the first k are exactly the tail, and none of them exceeds the k-th. |
| `VecOps.Collect` | src/days/one.rs:50-53 | Gives a fresh array holding exactly the given sequence. |
| `VecOps.SortInPlace` | src/days/one.rs:56 | Afterwards the array is ascending and a permutation of its old contents. |
| `VecOps.ReverseInPlace` | src/days/one.rs:57 | Afterwards the array is its old contents reversed. |
| `DayOne.DigitRun` | src/days/one.rs:26 | Gives the length of the leading run of digits. Every character in the run is a digit, and the next character, if any, is not. |
| `DayOne.ParseU32` | src/days/one.rs:26 | Succeeds exactly when leading digits exist and their value fits in 32 bits. On success it consumes input and gives a value ≤ 4294967295. Every failure is recoverable. |
| `DayOne.CheckedU32` | src/days/one.rs:26 | nom's `complete::u32` as it runs: empty input is an error; digits are read left to right into `value * 10 + d`, and an overflow of either step past 4294967295 is an error; the first non-digit or the end of the input ends the number. Its result equals `ParseU32` on every input. |
| `DayOne.ParseOneLine` | src/days/one.rs:25-29 | Succeeds exactly when a 32-bit number starts the input, and then consumes input. Every failure is recoverable. |
| `DayOne.MoreLines` | src/days/one.rs:32 | The loop of `many1(parse_one_line)` never fails, never grows the input, and yields 32-bit numbers only. |
| `DayOne.ParseOneGroup` | src/days/one.rs:31-35 | Succeeds exactly when a 32-bit number starts the input. It then gives a non-empty group of 32-bit numbers and consumes input. Every failure is recoverable. |
| `DayOne.MoreGroups` | src/days/one.rs:38 | The loop of `many1(parse_one_group)` never fails and yields only well-formed groups. |
| `DayOne.ParseInput` | src/days/one.rs:37-39 | Succeeds exactly when a 32-bit number starts the input. It then gives a non-empty list of non-empty groups of 32-bit numbers. Every failure is recoverable. |
| `DayOne.ParseDecimal` | src/days/one.rs:26 | `u32` reads back any printed 32-bit number and stops where the digits end. |
| `DayOne.LineRoundTrip` | src/days/one.rs:25-29 | `parse_one_line` reads back a printed number and the newline after it, if there is one. |
| `DayOne.MoreLinesRoundTrip` | src/days/one.rs:32 | The line loop reads back every line of a printed group, then stops at the line end. |
| `DayOne.GroupRoundTrip` | src/days/one.rs:31-35 | `parse_one_group` reads back a printed group and then at most one more newline. |
| `DayOne.MoreGroupsRoundTrip` | src/days/one.rs:38 | The group loop reads back every printed group, provided nothing after the last group starts another one. |
| `DayOne.ParseInputRoundTrip` | src/days/one.rs:37-39 | Round trip: `parse_input` reads back any well-formed non-empty list of groups printed with blank lines between them. The text may end with no newline, one or two, and it is consumed completely. |
| `DayOne.ParseInputStopsAtSecondBlankLine` | src/days/one.rs:31-39 | When two blank lines follow a group, `parse_input` returns the groups before them and leaves the second blank line unread. |
| `DayOne.ExampleText` | src/days/one.rs:8-21 | `EXAMPLE_INPUT` is the example's five groups, printed with one blank line between them. |
| `DayOne.ParseExampleInput` | src/days/one.rs:62-83 | `parse_input(EXAMPLE_INPUT)` gives `[[1000,2000,3000],[4000],[5000,6000],[7000,8000,9000],[10000]]` with nothing left. |
| `DayOne.GroupSums` | src/days/one.rs:50-53 | One sum per group, in order. |
| `DayOne.DoPuzzle` | src/days/one.rs:41-47 | Returns 0 when there are no groups. Otherwise returns a value that is at least every group's sum and equal to some group's sum. |
| `DayOne.DoPuzzleUnique` | src/days/one.rs:41-47 | A group sum that no group sum exceeds is the answer of `do_puzzle`. |
| `DayOne.DoPuzzleExample` | src/days/one.rs:85-92 | On the example's groups, `do_puzzle` gives 24000. |
| `DayOne.HeadOfDescendingSums` | src/days/one.rs:41-57 | The first element of any descending rearrangement of the group sums is the answer of `do_puzzle`. |
| `DayOne.TopThreeOfDescending` | src/days/one.rs:56-59 | From a descending rearrangement of the sums, the first three are in non-increasing order and are three of the sums. No sum left over exceeds the third, and the first is the answer of `do_puzzle`. |
| `DayOne.DoPuzzleExtra` | src/days/one.rs:49-60 | Needs at least three groups. Returns three group sums, largest first, drawn from the multiset of sums. Every remaining sum is at most the third, and the first equals `do_puzzle`. |
| `DayTwo.Play.Score` | src/days/two.rs:14-20 | A move is worth 1, 2 or 3. |
| `DayTwo.ScoreInjective` | src/days/two.rs:14-20 | Different moves are worth different amounts. |
| `DayTwo.Play.Not` | src/days/two.rs:22-39 | `!x` beats `x` under the rules, which are stated separately as `Beats`. |
| `DayTwo.NotIsThreeCycle` | src/days/two.rs:29-39 | `!` is a three-cycle: `!x != x`, `!!x != x` and `!!!x == x`. |
| `DayTwo.NotIsTheWinner` | src/days/two.rs:22-39 | `!b` is the one move that beats `b`. |
| `DayTwo.Trichotomy` | src/days/two.rs:66-72 | For any two moves, exactly one holds: the first wins, they draw, or the second wins. |
| `DayTwo.PlayOf` | src/days/two.rs:44-52 | The six-letter table: a character stands for a move exactly when it is one of A, B, C, X, Y or Z. |
| `DayTwo.ParsePlay` | src/days/two.rs:41-55 | Consumes exactly one character: A and X give Rock, B and Y give Paper, C and Z give Scissors. Any other character panics. Empty input is a recoverable error. |
| `DayTwo.Round.YourScore` | src/days/two.rs:64-75 | A score between 1 and 9: your move's value plus 6 when you beat the enemy, 3 on a draw, and 0 when the enemy beats you. |
| `DayTwo.Round.EnemysScore` | src/days/two.rs:77-88 | Between 1 and 9, and equal to your score in the round with the two moves swapped. |
| `DayTwo.YourBonus` | src/days/two.rs:64-75 | The bonus is 6 exactly when you played `!enemy`, 3 exactly when you played the enemy's move, and 0 exactly when the enemy played `!you`. |
| `DayTwo.BonusesSumToSix` | src/days/two.rs:64-88 | Both sides' scores add up to the two moves' values plus 6. |
| `DayTwo.ParseRound` | src/days/two.rs:91-95 | Succeeds exactly on a move character, a space and a move character. The rest is the text after those three characters, minus at most one newline. Asks for more input exactly when the input is a single move character. Panics exactly when the first character is not a move, or when a move and a space are followed by a character that is not a move. |
| `DayTwo.MoveFor` | src/days/two.rs:101-114 | X gives a move the enemy beats, Y gives the enemy's move, and Z gives a move that beats the enemy. Any other character gives none. |
| `DayTwo.MoveForTables` | src/days/two.rs:101-112 | The Z table is `!enemy`. The X table picks exactly the move m with `!m == enemy`. |
| `DayTwo.MoveForReachesOutcome` | src/days/two.rs:97-117 | The derived move earns the bonus that was asked for: 0 for X, 3 for Y, 6 for Z. |
| `DayTwo.ParseRoundExtra` | src/days/two.rs:97-117 | Succeeds exactly on a move character, a space and one of X, Y or Z. Your move is what the tables give for the enemy's move and that outcome. Asks for more input exactly when the input is a single move character. Panics exactly when the first character is not a move, or when a move and a space are followed by a character other than X, Y or Z. |
| `DayTwo.Game.YourScore` | src/days/two.rs:132-138 | The sum over the rounds, so between n and 9n for n rounds. |
| `DayTwo.Game.EnemysScore` | src/days/two.rs:140-146 | Equals your score in the game with every round's moves swapped. |
| `DayTwo.YourScoreAppend` | src/days/two.rs:132-138 | The game score is additive over concatenation of round lists. |
| `DayTwo.YourScoreSingle` | src/days/two.rs:132-138 | A one-round game scores that round. |
| `DayTwo.MoreRounds` | src/days/two.rs:121-129 | The loop of `many1` after the first round, in either reading. When the next round fails recoverably, the loop ends with no rounds and the input untouched. When the next round asks for more input or panics, the loop fails the same way. So the loop itself never fails recoverably, and on success it never grows the input. |
| `DayTwo.ParseGame` | src/days/two.rs:121-124 | Needs a first round: if that fails, for whatever reason, the game fails the same way. On success there is at least one round, the first is the round `parse_round` read, and input is consumed. |
| `DayTwo.ParseGameExtra` | src/days/two.rs:126-129 | The same, for `parse_round_extra`. |
| `DayTwo.OutcomeTokenRoundTrip` | src/days/two.rs:101-114 | The outcome letter of a round, fed to the tables, gives back your move. |
| `DayTwo.RoundTextRoundTrip` | src/days/two.rs:91-117 | Either round parser reads back a printed round and at most one newline after it. |
| `DayTwo.MoreRoundsOfText` | src/days/two.rs:121-129 | The round loop reads every printed round, then continues as it would on what follows the last line and its newline. |
| `DayTwo.ParseGameRoundTrip` | src/days/two.rs:121-124 | Round trip: `parse_game` reads back any non-empty list of rounds printed one per line, with or without a final newline, and consumes all of it. |
| `DayTwo.ParseGameExtraRoundTrip` | src/days/two.rs:126-129 | Round trip for `parse_game_extra`, with outcomes printed in the second column. |
| `DayTwo.ParseGameTrailingBlankLine` | src/days/two.rs:91-95 | A blank line after the last round makes `parse_game` panic. |
| `DayTwo.ParseRoundMissingSpace` | src/days/two.rs:91-99 | Without the space, neither round parser reads the third character: `parse_round("A-Q")` and `parse_round_extra("AxQ")` are recoverable errors, not panics. |
| `DayTwo.ParseGameCutShort` | src/days/two.rs:121-124 | `parse_game("A Y\nB")` asks for more input. |
| `DayTwo.ParseRoundExampleWin` | src/days/two.rs:150-156 | `parse_round("A Y\n")` gives you Paper and the enemy Rock with nothing left; the scores are 8 and 1. |
| `DayTwo.ParseRoundExampleOtherWin` | src/days/two.rs:158-163 | `parse_round("C X")` gives you Rock and the enemy Scissors with nothing left; the scores are 7 and 3. |
| `DayTwo.ParseGameExample` | src/days/two.rs:166-171 | `parse_game("A Y\nB X\nC Z")` gives three rounds with nothing left, and the enemy scores 15. |
| `DayTwo.ParseGameExtraExample` | src/days/two.rs:126-129 | `parse_game_extra("A Y\nB X\nC Z")` gives Rock in every round, and you score 12. |

## Left out

- `PUZZLE_INPUT` (`include_str!`) and the tests that use it: `do_puzzle_input`, `do_extra_credit`, `test_first`, `test_extra`. The input files are not part of this model.
- nom itself. Only the behaviour the puzzles depend on is modelled, and the model rests on these readings of nom 8:
  - `tag` run through `Parser::parse` is streaming, so on a proper prefix it asks for more input.
  - `anychar` on empty input is a recoverable error. The repository's `test_parse_game` relies on this to end the loop.
  - `complete::u32` reads the longest run of ASCII digits, with no sign, and rejects values above 4294967295 by checking each multiplication and addition (`DayOne.CheckedU32`).
  - `complete::newline` accepts only `'\n'`.
- `many1`'s check against a parser that consumes nothing. Every item parser here provably consumes input, so the check never fires.
- The error payloads of nom (`ErrorKind`, the position, the `Needed` size). Only the kind of failure is kept.
- `panic!` is a failure value (`Abort`) rather than the end of the process, and its message is dropped.
- DayOne.DoPuzzle: group sums are unbounded naturals. Rust's `u32` sum panics (debug) or wraps (release) above 4294967295, and that is not modelled.
- DayOne.DoPuzzleExtra: the panic of `middle[2]` on fewer than three groups is modelled as the precondition `|groups| >= 3`, not as a failure result.
- DayOne.DoPuzzleExtra: the same overflow caveat as `DayOne.DoPuzzle` holds for its sums. The sort is an insertion sort, not the standard library's merge sort; on naturals both give the same ascending sequence.
- DayTwo.Game.YourScore: the total is an unbounded natural. `u32` overflow would need more than 477 million rounds.
- DayTwo.Game.EnemysScore: the same holds for the enemy's total.
- Ownership details with no effect on results: the moves into `into_iter`, and the `.clone()` in the game scores.
- `Decimal`, `GroupText`, `InputText`, `RoundText` and `GameText` are printers. They exist only to state round trips; the repository has no printer.
