# Kniffel rules engine in Dafny

This project models the rules engine of a Kniffel (Yahtzee) dice game, `oglimmer/kniffel-rust`, and proves properties of that model. The engine has two parts.

- **Category scoring** (`src/scoring.rs`) maps a hand of five dice to the score of one category: the upper section, three and four of a kind, full house, small and large straight, Kniffel and chance.
- **The game** (`src/game_logic.rs`) covers three things:
  - the thirteen booking categories and the three phases, with their string forms;
  - players, each with a score and a set of used categories;
  - the game object: five dice, a roll counter, a phase and a roster with a current player. Its operations are re-roll (keep some dice by value, roll the rest, sort), booking, and the Roll → Book → next turn / Ended phase change.

Four files make up the model:

| file | module | contents |
|---|---|---|
| `slice_ops.dfy` | `SliceOps` | the slice operations the engine relies on: in-place sort, `dedup`, and the ascending permutation `SortSeq` as a value |
| `scoring.dfy` | `Scoring` | one member per scoring rule, each proved against a reference predicate on the multiset or the set of faces of the hand |
| `booking.dfy` | `Booking` | `BookingType`, `GameState`, their `Display`/`FromStr` forms, and the comma-joined text forms of used categories and dice |
| `game_logic.dfy` | `GameLogic` | the engine, modelled twice |

The two layers of `game_logic.dfy` work together:

- The classes `KniffelPlayer` and `KniffelGame` update their fields in place, as the source does, with the dice as a five-element array.
- The functions over the value `GameValue` (`RollSpec`, `ReRollSpec`, `NextPhaseSpec`, `BookSpec`, `NewGameSpec`) describe each operation on a snapshot of the state.
- Each mutating method ensures that its new snapshot `Abstract()` is that function applied to the old snapshot. The rules of the game are then proved as lemmas about the functions.

Abstractions:

- **Randomness** is the parameter `rng`: a supply of die values in 1..6. A roll takes one value per pending die, left to right. When the third roll ends the turn, the next player's opening roll continues with the rest of the supply.
- **Turn order** is the order of the player sequence. The player after the last is the first. The source walks a `HashMap`, whose iteration order is unspecified.
- The **current player** is an index into that sequence, not a name. Player names are distinct, a class invariant the source gets from the map keys.
- The **game id** (a UUID in the source) is a constructor parameter.

The model keeps these behaviours of the code:

- **Ended is not terminal.** `next_phase` toggles any phase other than Roll back to Roll and hands the turn to the next player, Ended included. That player starts a new turn only if they have categories left. In a finished game they have none, so the call only moves the current player and sets Ended again. `NextPhaseSpec` and `NextPhaseEndsTurn` state this.
- **No phase checks.** Re-roll and booking do not check the phase first, so both run in any phase.
- **Keep requests are not validated.** An unmet keep request is silently dropped; it is not an error.
- **At least, not exactly.** Three and four of a kind test "at least", although a comment in the source says "exactly".

## Model

| member | source | states |
|---|---|---|
| SliceOps.SortInPlace | src/game_logic.rs:224 | sorting the dice in place leaves them ascending and a permutation of the old dice |
| SliceOps.SortSeqCorrect | src/game_logic.rs:224 | the value-level sort is ascending and a permutation of its input |
| SliceOps.SortedPermutationUnique | src/game_logic.rs:224 | two ascending sequences with the same elements are equal, so the sorted hand is determined by the multiset of dice |
| SliceOps.Dedup | src/scoring.rs:62 | `dedup` keeps the same set of faces, never grows, keeps the first element, and turns an ascending vector into a strictly ascending one |
| SliceOps.StrictlySortedByFaces | src/scoring.rs:94-98 | two strictly ascending sequences with the same faces are equal, so comparing the deduplicated hand with a straight is a test on its set of faces |
| Scoring.Count | src/scoring.rs:6-9 | the filtered count is the number of dice showing the value and at most the number of dice |
| Scoring.ScoreUpper | src/scoring.rs:5-10 | the upper-section score is value × (number of dice showing value), within 0..5·value |
| Scoring.SumBounds | src/scoring.rs:114-116 | the sum of n dice within lo..hi lies within lo·n..hi·n |
| Scoring.SumPermutation | src/scoring.rs:115 | the sum of the dice does not depend on their order |
| Scoring.ScoreKniffel | src/scoring.rs:104-111 | 50 exactly when one face shows on all five dice, otherwise 0 |
| Scoring.ScoreChance | src/scoring.rs:114-116 | chance is the sum of the dice, within 5..30 for a rolled hand |
| Scoring.ChanceIsUpperTotal | src/scoring.rs:114-116 | for a rolled hand, chance equals the six upper-section scores added together |
| Scoring.CountFaces | src/scoring.rs:15-22 | entry f-1 of the counts array is the number of dice showing f, for each face 1..6 |
| Scoring.ScoreXOfAKind | src/scoring.rs:13-32 | the sum of all dice when some face 1..6 shows on at least `threshold` dice, otherwise 0 |
| Scoring.ScoreFullHouse | src/scoring.rs:35-55 | 25 exactly when some face shows exactly three times and some face exactly twice, otherwise 0 |
| Scoring.UniqueRolls | src/scoring.rs:60-62 | sorting and deduplicating the hand gives its distinct faces, strictly ascending |
| Scoring.ScoreSmallStraight | src/scoring.rs:58-78 | 30 exactly when the faces include 1-2-3-4, 2-3-4-5 or 3-4-5-6, otherwise 0 |
| Scoring.ScoreLargeStraight | src/scoring.rs:81-101 | 40 exactly when the faces are exactly 1..5 or exactly 2..6, otherwise 0 |
| Booking.UsedAtMostThirteen | src/game_logic.rs:259 | a set of categories has at most 13 members, and exactly 13 means all categories are used |
| Booking.BookingTypeFromStr | src/game_logic.rs:49-70 | a successful parse returns the category whose token is the input |
| Booking.BookingTypeParseExact | src/game_logic.rs:28-70 | a string parses to category b exactly when it is b's token; any other string is an error |
| Booking.BookingTokensDistinct | src/game_logic.rs:31-45 | the thirteen tokens are pairwise distinct |
| Booking.NoCommaInToken | src/game_logic.rs:31-45 | no token contains the list separator |
| Booking.GameStateFromStr | src/game_logic.rs:94-105 | a successful parse returns the phase whose name is the input |
| Booking.GameStateParseExact | src/game_logic.rs:84-105 | a string parses to phase g exactly when it is g's name; any other string is an error |
| Booking.Split | src/game_logic.rs:143 | `split(',')` yields at least one piece, and no piece contains the separator |
| Booking.JoinSplit | src/game_logic.rs:143 | joining the pieces of a split gives back the string |
| Booking.SplitJoin | src/data_persistence.rs:176-179 | splitting a join of separator-free pieces gives back the pieces |
| Booking.CollectBookingTypes | src/game_logic.rs:141-145 | a category is in the parsed set exactly when some token parses to it; unknown tokens are dropped |
| Booking.UsedBookingTypesRoundTrip | src/data_persistence.rs:176-179 | reading back a stored used-category list gives exactly the categories written, in whatever order they were written; the empty string gives the empty set |
| Booking.ParseI32 | src/game_logic.rs:199 | `parse::<i32>` accepts a sign and digits; any value it returns is within the 32-bit range |
| Booking.IntRoundTrip | src/data_persistence.rs:157-161 | parsing the decimal string of a 32-bit integer gives the integer back |
| Booking.ParseInts | src/game_logic.rs:197-200 | the list parses exactly when every token parses, and then element k is the value of token k |
| Booking.ParseDiceRolls | src/game_logic.rs:197-202 | stored dice parse only as exactly five 32-bit values |
| Booking.DiceRoundTrip | src/data_persistence.rs:157-161 | reading back five comma-joined dice recovers them exactly |
| GameLogic.BookingScoreNonNegative | src/game_logic.rs:309-325 | no category pays a negative score for dice in 0..6 |
| GameLogic.BookingScoreRange | src/game_logic.rs:309-325 | for a rolled hand every category pays between 0 and 50 |
| GameLogic.BookingScorePermutation | src/game_logic.rs:309-325 | every category's score depends only on the multiset of the dice, not their order |
| GameLogic.FullHouseExample | src/scoring.rs:35-55 | [1,1,1,2,2] scores 25 as a full house |
| GameLogic.FourAlikeIsNoFullHouse | src/scoring.rs:35-55 | [1,1,1,1,2] scores 0 as a full house |
| GameLogic.FiveAlikeIsNoFullHouse | src/scoring.rs:35-55 | [1,1,1,1,1] scores 0 as a full house |
| GameLogic.StraightExamples | src/scoring.rs:58-101 | [1,2,3,4,6] is a small straight (30), [1,2,3,4,5] a large one (40), [1,1,3,4,5] no large straight (0) |
| GameLogic.ThreeOfAKindExamples | src/scoring.rs:13-32 | [3,3,3,5,6] scores 20 as three of a kind, [3,3,5,5,6] scores 0 |
| GameLogic.KeepResultShape | src/game_logic.rs:277-290 | `remove_dice` leaves five slots; slot i is 0 or the i-th requested value; slots past the request are 0 |
| GameLogic.KeepResultFromHand | src/game_logic.rs:280-287 | every kept die shows a face the hand had |
| GameLogic.KeepResultIntersection | src/game_logic.rs:269-291 | for each face, the number of kept dice is the smaller of the number requested and the number in the hand |
| GameLogic.KeepPairExample | src/game_logic.rs:280-287 | keeping [2,2] from [2,2,3,4,5] leaves [2,2,0,0,0] |
| GameLogic.KeepSurplusExample | src/game_logic.rs:280-287 | keeping [2,2,2] from [2,2,3,4,5] leaves [2,2,0,0,0]: the third 2 is dropped |
| GameLogic.FillInRange | src/game_logic.rs:219-223 | filling pending dice from a supply of 1..6 leaves every die in 1..6 |
| GameLogic.FillKeeps | src/game_logic.rs:219-223 | filling never removes a kept die |
| GameLogic.FillAllPending | src/game_logic.rs:219-223 | when every die is pending, the new dice are the next five values of the supply |
| GameLogic.FindNextPlayer | src/game_logic.rs:293-307 | the next player is the following one in turn order, wrapping from the last to the first |
| GameLogic.TurnOrderCycles | src/game_logic.rs:293-307 | from any player, turn changes visit every player once per round and return to the same player after one round |
| GameLogic.RollProperties | src/game_logic.rs:216-224 | after a roll, all five dice are in 1..6, ascending, and every die kept by `remove_dice` is still in the hand |
| GameLogic.RollInRange | src/game_logic.rs:216-224 | after a roll, all five dice are in 1..6 and ascending |
| GameLogic.RollKeeps | src/game_logic.rs:216-224 | the dice kept by `remove_dice` are a sub-multiset of the new hand |
| GameLogic.ReRollCountsRoll | src/game_logic.rs:216-230 | before the third roll, a re-roll changes only the dice and adds exactly 1 to the roll counter; the new hand is settled and keeps the kept dice |
| GameLogic.ThirdRollBooks | src/game_logic.rs:225-229 | the third roll of a turn in phase Roll ends in phase Book with the same player and a settled hand |
| GameLogic.NextPhaseFromRoll | src/game_logic.rs:249-255 | the phase change from Roll goes to Book and changes nothing else |
| GameLogic.NextPhaseEndsTurn | src/game_logic.rs:249-267 | from any other phase, the successor becomes current. The game ends, with dice and roll counter untouched, exactly when that player has used all 13 categories. Otherwise it is their first roll, of five fresh sorted dice |
| GameLogic.ReRollSettles | src/game_logic.rs:216-230 | any re-roll from dice in 0..6 leaves five ascending dice in 1..6 |
| GameLogic.NextPhaseSettles | src/game_logic.rs:249-267 | the phase change keeps a settled state settled |
| GameLogic.OperationsSettle | src/game_logic.rs:216-267 | re-roll, phase change and booking all lead from a settled state to a settled state |
| GameLogic.NewGameStarts | src/game_logic.rs:172-192 | a new game is in phase Roll with roll counter 1 and the first listed player current, holding five sorted dice in 1..6 from the supply |
| GameLogic.BookEffect | src/game_logic.rs:233-247 | booking a used category is refused. Booking an unused one adds exactly its score for the hand to the current player and marks it used; every other player is unchanged, and no score falls or used set shrinks |
| GameLogic.DecodedLookup | src/game_logic.rs:155-157 | with distinct row names the decoded roster acts as the map keyed by name: looking up a row's name finds exactly the player built from that row, an unknown name is not found, and the decoded names stay distinct |
| GameLogic.IndexOfName | src/game_logic.rs:236 | the lookup finds a player with the name, or reports that no player has it |
| GameLogic.IndexOfOwnName | src/game_logic.rs:236 | with distinct names, looking up a player's name finds that player's position |
| GameLogic.DecodeGame | src/game_logic.rs:194-213 | a successful load is a well-formed game |
| GameLogic.EnumerateUsed | src/data_persistence.rs:176-177 | enumerating a used set lists exactly its members |
| GameLogic.PlayerRoundTrip | src/game_logic.rs:140-152 | loading the row written for a player gives back the same player |
| GameLogic.RosterRoundTrip | src/game_logic.rs:155-157 | loading the rows written for a roster gives back the same roster |
| GameLogic.StoreLoadRoundTrip | src/game_logic.rs:194-213 | storing a game and loading it back gives the same game |
| GameLogic.KniffelPlayer.constructor | src/game_logic.rs:117-123 | a new player has the name, score 0 and no category used |
| GameLogic.KniffelPlayer.Clone | src/game_logic.rs:107 | a clone has the same name, score and used set |
| GameLogic.KniffelPlayer.FromRow | src/game_logic.rs:140-152 | a loaded player has the stored name and score and the categories of the stored list |
| GameLogic.KniffelPlayer.AddScore | src/game_logic.rs:126-128 | the score grows by the given amount; nothing else changes |
| GameLogic.KniffelPlayer.UseBookingType | src/game_logic.rs:131-133 | the used set gains the category; nothing else changes |
| GameLogic.ClonePlayers | src/game_logic.rs:176-178 | the game gets fresh copies of the listed players, in order, with the same values |
| GameLogic.KniffelGame.constructor | src/game_logic.rs:172-192 | the new game's state is `NewGameSpec` of the listed players, with fresh dice and fresh player objects |
| GameLogic.KniffelGame.Load | src/game_logic.rs:204-211 | the loaded game holds exactly the given fields |
| GameLogic.KniffelGame.FromDb | src/game_logic.rs:194-213 | loading fails exactly when the stored game does not decode; otherwise the object's state is the decoded game |
| GameLogic.CountFrequencies | src/game_logic.rs:271-274 | the frequency map gives each face's number of dice in the hand |
| GameLogic.KeepByValue | src/game_logic.rs:277-287 | the keep loop builds exactly `KeepResult`: slot i holds the i-th request while a copy of that face remains, otherwise 0 |
| GameLogic.KniffelGame.RemoveDice | src/game_logic.rs:269-291 | the dice become `KeepResult` of the old dice and the request |
| GameLogic.KniffelGame.FillPending | src/game_logic.rs:219-223 | each pending die takes the next supply value, left to right, and the number of values taken is the number of pending dice |
| GameLogic.KniffelGame.RollDice | src/game_logic.rs:217-224 | the dice become the sorted result of filling the kept dice from the supply |
| GameLogic.KniffelGame.ReRollDice | src/game_logic.rs:216-230 | the new state is `ReRollSpec` of the old state; the invariant is kept |
| GameLogic.KniffelGame.NextPhase | src/game_logic.rs:249-267 | the new state is `NextPhaseSpec` of the old state; the invariant is kept |
| GameLogic.KniffelGame.GetToAddScore | src/game_logic.rs:309-325 | the points are the category's score for the current dice |
| GameLogic.KniffelGame.CreditCurrentPlayer | src/game_logic.rs:240-241 | the current player gains the points and the category; nothing else changes |
| GameLogic.KniffelGame.BookDiceRoll | src/game_logic.rs:233-247 | booking succeeds exactly when the category is unused, and then the new state is `BookSpec` of the old; a refused booking changes nothing |

## Left out

- The HTTP layer (`src/main.rs`) and the database layer (`src/data_persistence.rs`) are I/O and are not modelled. The model keeps only the text forms the database layer writes: the comma-joined used categories, the comma-joined dice, and the phase name. The Diesel row structs (`src/models.rs`, `src/schema.rs`) become `PlayerRow` and `GameRow`.
- `rand::thread_rng` is replaced by the supply parameter `rng` of values in 1..6. Uniformity and independence of the rolls are not modelled.
- `uuid::Uuid::new_v4` is replaced by the `gameId` parameter.
- `HashMap` iteration order in `find_next_player` is replaced by the order of the player sequence.
- The `println!("Player not found!")` branch of `book_dice_roll` is unreachable in the model: the current player is an index that the class invariant keeps in range.
- GameLogic.KniffelGame.BookDiceRoll: booking a used category returns `false` and leaves the state unchanged, where the source panics.
- `panic!("No next player found")` in `find_next_player` cannot happen under the same invariant.
- GameLogic.KniffelGame.RemoveDice: requires `KeepFits`, meaning no honoured keep request sits at index 5 or beyond. That is exactly when the source would index its five-slot result out of bounds and panic.
- GameLogic.KniffelGame.FromDb: the source's `unwrap`/`expect` panics on a malformed dice string or phase name become `Err`. So do rosters the model cannot represent: no players, a missing current player, or duplicate names.
- GameLogic.KniffelGame.constructor: requires a non-empty list with distinct names. An empty list panics at `player_list[0]` in the source. A duplicate name would be collapsed by the source's `HashMap` into fewer players, which the sequence model does not reproduce.
- Scores, dice and the roll counter are unbounded integers. In a game started by `KniffelGame::new` with fresh players the `i32` overflow of `add_score` cannot arise: thirteen bookings pay at most 50 points each.
- GameLogic.DecodeGame: a stored row may carry any `i32` score, dice values and roll counter. From such a row the source can overflow in `add_score` (`src/game_logic.rs:127`), in the dice sums (`src/scoring.rs:27`, `src/scoring.rs:115`) and in `roll_round += 1` (`src/game_logic.rs:225`). The model's unbounded integers never overflow, so the model does not capture that wrap-around or panic.
- `HasUsedBookingType` is modelled as a predicate on the player object and needs no contract of its own.
- `Display`/`FromStr` on strings are modelled on `seq<char>`. The text is ASCII, so no encoding is involved.
