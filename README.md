# Devilsdice server — a Dafny model

Devilsdice is a multiplayer dice game in the style of Yahtzee. Its server
keeps a global registry of rooms. Each room holds its players, whose turn it
is, the current roll of five dice, the rolls left and the held flags. The
server answers five socket events:

- `join-room` creates the room on first use and seats the player unless
  the game has started.
- `start-game` marks the game as started.
- `dice-rolled` stores the roll the client sends.
- `toggle-hold` stores the held flags.
- `select-category` scores the stored roll itself with `calculateScore`.
  It then writes the score to the current player's sheet and recomputes
  the player's total, including the upper-section bonus. Finally it passes
  the turn to the next seat and resets the roll.

The model has these modules:

- `ParseInt` models the part of JavaScript's `parseInt` that the scoring
  function relies on. It skips leading white space, takes an optional sign
  and a `0x` prefix, then reads the longest digit prefix. One result is
  `None` (NaN); `Truthy` is JavaScript truthiness of the result.
- `Scoring` models `calculateScore` as a function `Score(id, dice)`. The
  function is built from models of the tally object, the sum, the sorted
  set of distinct faces, `join('')` and the regular expression of straights.
- `ScoringProperties` states what each category scores, in terms of the
  dice, independently of how `Score` computes it. It also proves the two
  behaviours of the code listed below.
- `ScoreSheet` covers the score sheet: the upper sum, the sum of every
  value, the bonus and the stored total. It contains the handler's two
  loops as methods proved against those functions, plus lemmas about how a
  commit changes the total.
- `Rooms` holds the `Player` and `Room` records and one function per
  handler describing the registry after the event. It also holds the
  registry invariant and proofs that every handler keeps it, and the
  turn-rotation properties.
- `Server` holds the class `Registry`. Its field `rooms` is the global
  object, and it has one method per handler that updates the registry step
  by step, as the handler does. Each method is proved to produce the
  registry described by the matching `Rooms` function and to keep the
  invariant.

### Where the code differs from the game's rules

The model follows `server.js`. In several places the server does not do what
the rules of a Yahtzee-style game, or a careful reader of the handlers, would
expect:

- A die of 0 (not yet rolled) is not treated specially, so five zero dice
  score 50 as five of a kind and 25 as a full house. See
  `ScoringProperties.ZeroDiceScore`.
- Three and four of a kind never score. `parseInt("3k")` is 3 and
  `parseInt("4k")` is 4, so both ids take the numeric branch and score 0,
  since there is no `"3k"` key in the tally. The two lines for them are
  never reached. See `ScoringProperties.KindCategoriesScoreZero`.
- Joining is not idempotent: every join before the start pushes a new
  player, even for the same socket. A join after the start is silently
  ignored rather than rejected.
- There is no handling of leaving or disconnecting, and ids are not
  normalised.
- Starting the game does not reset the room; it only sets `gameStarted`.

## Model

| member | source | states |
|---|---|---|
| ParseInt.TrimStart | server.js:21 | the leading white space `parseInt` skips: what is dropped is all white space, and what is left is a suffix of the input that does not start with white space |
| ParseInt.DigitPrefix | server.js:21 | the digits `parseInt` reads: the longest prefix of digits of the radix |
| ParseInt.ParseDecimalThen | server.js:21 | a decimal digit string followed by a non-digit parses to the value of the digits, so `parseInt("3k")` is 3 |
| ParseInt.ParseMinus | server.js:21 | a leading minus negates what the rest parses to |
| ParseInt.ParseHexThen | server.js:21 | `0x` followed by hex digits parses to their base-16 value |
| ParseInt.ParseSkipsSpace | server.js:21 | a leading white-space character does not change the result |
| ParseInt.ParseLeadingLetter | server.js:21 | a string starting with a letter parses to NaN, so the letter ids skip the numeric branch |
| ParseInt.DecimalStringValue | server.js:16 | the decimal digits of a number (the property key of a die) denote that number |
| ParseInt.DecimalStringRoundTrip | server.js:21 | `parseInt` of the decimal digits of `n` is `n` (the digits agree with `String(n)` for `n < 10^21`; the model uses them only for the faces 0..6, as tally keys) |
| ParseInt.DecimalStringInjective | server.js:16 | different dice give different property keys in the tally |
| Scoring.Count | server.js:16 | a face occurs at most as many times as there are dice |
| Scoring.Insert | server.js:19 | inserting into the ascending set adds exactly the new value |
| Scoring.DistinctSorted | server.js:19 | `[...new Set(dice)].sort()` holds exactly the faces that occur |
| Scoring.TallyCounts | server.js:16 | the tally object maps the key of each face to the number of dice showing it, and holds only face keys with positive counts |
| Scoring.TallyValues | server.js:18 | a positive count is among `Object.values(counts)` iff some face occurs that many times |
| Scoring.CountZero | server.js:16 | a face has count 0 iff no die shows it |
| Scoring.CountAll | server.js:16 | a face is counted on every die iff all dice show it |
| Scoring.SumBounds | server.js:17 | the sum of dice lies between 0 and 6 per die |
| Scoring.DistinctSortedIncreasing | server.js:19 | the distinct faces come out strictly ascending |
| Scoring.InsertIncreasing | server.js:19 | inserting keeps the list strictly ascending |
| Scoring.AscendingUnique | server.js:19 | two strictly ascending lists with the same members are equal, so the sorted set is determined by the faces present |
| Scoring.JoinDigits | server.js:25 | `unique.join('')` of single-digit faces is one digit character per face, in order |
| ScoringProperties.KindIdsParse | server.js:21 | `parseInt("3k")` is 3 and `parseInt("4k")` is 4 |
| ScoringProperties.LetterIdsParse | server.js:21 | `parseInt` of "kn", "ch", "fh", "ks" and "gs" is NaN |
| ScoringProperties.NotATallyKey | server.js:21 | an id that is not the key of any face looks up 0 in the tally |
| ScoringProperties.UpperCategory | server.js:21 | category "n" for n in 1..6 scores n times the number of dice showing n |
| ScoringProperties.OtherNumericIdScoresZero | server.js:21 | every other id with a truthy `parseInt` scores 0 |
| ScoringProperties.KindIdsAreNotFaces | server.js:27-28 | "3k" and "4k" are not the key of any upper face |
| ScoringProperties.KindCategoriesScoreZero | server.js:21-28 | "3k" and "4k" always score 0; the three and four of a kind lines are never reached |
| ScoringProperties.FiveOccurrences | server.js:22 | on five dice, some face occurs five times iff all dice are equal |
| ScoringProperties.FiveCounted | server.js:18-22 | some tally value reaches 5 iff all five dice are equal |
| ScoringProperties.FiveOfAKind | server.js:22 | "kn" scores 50 iff all five dice are equal, else 0 |
| ScoringProperties.ChanceIsSum | server.js:23 | "ch" scores the sum of the five dice |
| ScoringProperties.SumOfFive | server.js:17 | the reduce over five dice adds the five dice |
| ScoringProperties.FullHouse | server.js:24 | "fh" scores 25 iff some face occurs twice and some face three times, or some face occurs five times, else 0 |
| ScoringProperties.FullHouseRoll | server.js:24 | on five dice, "fh" scores 25 iff it is a pair plus a triple or all dice are equal |
| ScoringProperties.Adjacent | server.js:25 | in a strictly ascending list, the successor of a value sits right after it |
| ScoringProperties.RunFromOccurrence | server.js:25 | when a run pattern occurs in the joined string, the four faces of the run are present |
| ScoringProperties.OccurrenceFromRun | server.js:25 | when the four faces of a run are present, its pattern occurs in the joined string |
| ScoringProperties.RunInJoined | server.js:25 | a run pattern occurs in the joined ascending list iff all four faces of the run are in the list |
| ScoringProperties.SortedRun | server.js:19-25 | the run test on the sorted distinct faces holds iff the dice show all four faces of the run |
| ScoringProperties.SmallStraight | server.js:25 | "ks" scores 30 iff the dice show 1-4, 2-5 or 3-6, else 0 |
| ScoringProperties.FiveSpanningFour | server.js:26 | five strictly ascending values spanning 4 are consecutive |
| ScoringProperties.StraightFrom | server.js:19 | dice showing exactly a..a+4 sort to the list a, a+1, ..., a+4 |
| ScoringProperties.SortedSpan | server.js:26 | the `gs` condition holds iff the faces shown are exactly 0-4, 1-5 or 2-6 |
| ScoringProperties.LargeStraight | server.js:26 | "gs" scores 40 iff the faces shown are exactly 0-4, 1-5 or 2-6, else 0 |
| ScoringProperties.UnknownIdScoresZero | server.js:21-29 | every id other than "1".."6" and the five letter ids scores 0 |
| ScoringProperties.NumericScoreRange | server.js:21 | the numeric branch scores between 0 and 6 per die |
| ScoringProperties.CountTimesFace | server.js:21 | the count times the parsed id lies between 0 and 6 per die |
| ScoringProperties.LetterScoreValues | server.js:22-29 | outside the numeric branch the score is 0, 25, 30, 40, 50 or the sum |
| ScoringProperties.ScoreRange | server.js:15-30 | every score is non-negative, and at most 50 on five dice |
| ScoringProperties.ZeroDiceScore | server.js:16-24 | five zero dice score 50 as "kn" and 25 as "fh" |
| ScoreSheet.ComputeUpper | server.js:85-86 | the loop over "1".."6" yields the upper sum, the sum of the six upper entries with a missing entry counting 0 |
| ScoreSheet.ComputeSheetSum | server.js:87 | the reduce over `Object.values` yields the sum of every value of the sheet, whatever order it visits them in |
| ScoreSheet.UpperSumExplicit | server.js:86 | the upper sum is the six upper entries added |
| ScoreSheet.SumOverPick | server.js:87 | the sum of values does not depend on which key comes first |
| ScoreSheet.SumOverAgree | server.js:87 | sheets that agree on a set of keys sum alike over it |
| ScoreSheet.SumOverNonNegative | server.js:87 | non-negative entries have a non-negative sum |
| ScoreSheet.SumValuesUpdate | server.js:82-87 | writing v under a category changes the sum of values by v minus the category's old entry |
| ScoreSheet.UpperSumUpdate | server.js:82-86 | writing v under an upper category changes the upper sum by the same amount; writing under any other category leaves it unchanged |
| ScoreSheet.TotalAfterCommit | server.js:82-88 | the stored total after a commit, in terms of the sheet before it |
| ScoreSheet.TotalNonNegative | server.js:87-88 | a sheet of non-negative scores has a non-negative total |
| ScoreSheet.EntriesWithout | server.js:86 | removing a key the list does not name leaves the entries of the list alone |
| ScoreSheet.EntriesWithinSum | server.js:86-87 | with non-negative scores, the entries of distinct keys add up to at most the sum of every value |
| ScoreSheet.UpperWithinSum | server.js:86-87 | with non-negative scores, the upper sum lies between 0 and the sum of every value |
| Rooms.JoinRoomEffect | server.js:33-49 | join-room creates the room with no players, not started, seat 0, dice zero, 3 rolls and nothing held; if the game has not started it appends the player with an empty sheet and total 0; otherwise it changes nothing; other rooms are untouched |
| Rooms.StartGameEffect | server.js:52-56 | start-game sets only `gameStarted` of an existing room, and does nothing for an unknown room |
| Rooms.DiceRolledEffect | server.js:60-65 | dice-rolled sets only the dice and rolls left of an existing room, and does nothing for an unknown room |
| Rooms.ToggleHoldEffect | server.js:69-73 | toggle-hold sets only the held flags of an existing room, and does nothing for an unknown room |
| Rooms.CommitRoom | server.js:80-94 | a commit keeps the number of players and leaves a valid seat and valid dice |
| Rooms.CommitRoomEffect | server.js:80-94 | a commit writes the score under the category on the current player's sheet and sets the total to the sum of values plus 35 when the upper sum reaches 63; no other player changes; the turn moves to the next seat, wrapping to 0; the roll is reset |
| Rooms.RecommitSamePlayer | server.js:82-88 | committing the same score to the same category twice leaves the player, sheet and total, as one commit did |
| Rooms.CommitTotal | server.js:82-88 | the committed total is the old sum of values minus the old entry plus the score, plus the bonus; the upper sum moves only for "1".."6" |
| Rooms.SelectCategoryStep | server.js:77-97 | select-category keeps the room present, with valid dice and a valid seat |
| Rooms.SelectCategoryEffect | server.js:77-97 | select-category commits `calculateScore(catId, dice)` of the stored roll to the room; other rooms are untouched; an unknown room changes nothing |
| Rooms.NewPlayerInvariant | server.js:47 | a new player's empty sheet and total 0 satisfy the sheet invariant |
| Rooms.JoinRoomKeepsInvariant | server.js:33-49 | join-room keeps every room non-empty with a valid seat, and every total equal to its sheet's total |
| Rooms.StartGameKeepsInvariant | server.js:52-56 | start-game keeps the registry invariant |
| Rooms.DiceRolledKeepsInvariant | server.js:60-65 | dice-rolled keeps the registry invariant |
| Rooms.ToggleHoldKeepsInvariant | server.js:69-73 | toggle-hold keeps the registry invariant |
| Rooms.CommitRoomInvariant | server.js:80-94 | committing a non-negative score keeps the room invariant |
| Rooms.SelectCategoryKeepsInvariant | server.js:77-97 | in a valid registry the current player of the room exists, and select-category keeps the invariant |
| Rooms.CommitAll | server.js:80-94 | a sequence of commits keeps the number of players and a valid seat |
| Rooms.ModUnique | server.js:91 | the remainder is the unique value in 0..n-1 that differs from the dividend by a multiple of n |
| Rooms.NextSeatMod | server.js:91 | `(idx + 1) % length` is the next seat, wrapping from the last seat to 0 |
| Rooms.RotateWithinRound | server.js:91 | k turns, for k up to the number of players, move the seat by k, wrapping once |
| Rooms.TurnRotation | server.js:91 | after k commits the seat has moved k times |
| Rooms.FullRound | server.js:91 | after one commit per player the turn is back at the starting seat, and every player in between had exactly one turn, in seat order |
| Rooms.CommitWithoutRolling | server.js:91-94 | the next player can commit "kn" on the reset dice without rolling and score 50 |
| Server.Registry.constructor | server.js:12 | the registry starts empty and valid |
| Server.Registry.JoinRoom | server.js:33-49 | the in-place join-room leaves the registry that `JoinRoomStep` describes, and keeps it valid |
| Server.Registry.StartGame | server.js:52-56 | the in-place start-game leaves the registry that `StartGameStep` describes, and keeps it valid |
| Server.Registry.DiceRolled | server.js:60-65 | the in-place dice-rolled leaves the registry that `DiceRolledStep` describes, and keeps it valid |
| Server.Registry.ToggleHold | server.js:69-73 | the in-place toggle-hold leaves the registry that `ToggleHoldStep` describes, and keeps it valid |
| Server.Registry.SelectCategory | server.js:77-97 | the in-place select-category leaves the registry that `SelectCategoryStep` describes, and keeps it valid |
| Server.RecordScore | server.js:82-88 | writing the score and running the two loops yields the committed player of `CommitPlayer` |

## Left out

- Sockets: `socket.join`, and the `update-players`, `game-started`, `sync-game` and `sync-held` broadcasts. The socket id and the event payload are parameters of the handlers, and nothing is sent.
- The express app, static file serving, `process.env.PORT` and `server.listen`: these are I/O.
- Server.Registry.SelectCategory: requires the stored dice to be faces 0..6. `dice-rolled` stores whatever the client sends, and for other values JavaScript's string sort, tally keys and number arithmetic differ from the model's integers.
- Scoring.Score: requires every die to be a face 0..6, for the same reason. A roll of other than five dice is allowed.
- ParseInt.ParseIntPrefix: the digit prefix is an unbounded integer. JavaScript rounds a prefix above 2^53 to a double and turns one of 2^1024 or more (about 1.8e308, e.g. "1" followed by 309 zeros) into Infinity.
- ScoringProperties.OtherNumericIdScoresZero: holds only for ids whose numeric prefix is below 2^1024. For a larger one `parseInt` returns Infinity, server.js:21 computes `0 * Infinity`, and the score is NaN, not 0.
- ScoringProperties.UnknownIdScoresZero: holds only for ids whose numeric prefix is below 2^1024; above that the score is NaN.
- ScoringProperties.NumericScoreRange: holds only for ids whose numeric prefix is below 2^1024; above that the score is NaN.
- ScoringProperties.CountTimesFace: holds only for ids whose numeric prefix is below 2^1024; above that the product is NaN.
- ScoringProperties.ScoreRange: holds only for ids whose numeric prefix is below 2^1024; above that the score is NaN.
- Rooms.SelectCategoryKeepsInvariant: holds only for category ids whose numeric prefix is below 2^1024. For a larger one server.js:82-88 stores NaN under the category, and the player's total is NaN on that commit and on every later one.
- ParseInt.DecimalString: agrees with JavaScript's `String(n)` only for `n < 10^21`, where `String(n)` switches to exponent form. The model needs it only for the faces 0..6.
- Ids and payloads that are not strings, and property names that collide with `Object.prototype` (such as `__proto__` or `constructor`), are not modelled. Every id is an ordinary own property.
- Strings are sequences of Dafny characters, not UTF-16 code units.
- In-place mutation is modelled as replacing the room's entry in the map. The source shares no room or player object between entries, so no aliasing is lost. `Object.values` order does not matter in the model because the sum is proved independent of order.
- A room with no players cannot arise, because join-room always seats the creator. The registry invariant records this, so the `undefined` player the JavaScript would meet in that case is not modelled.
- Concurrency: socket.io delivers events one at a time to a single-threaded handler loop, so each handler is modelled as one atomic step.
- Behaviour described for the game but absent from the server (leaving, disconnecting, id normalisation, rejected joins, resetting on start) is not modelled, because the code does not do it.
