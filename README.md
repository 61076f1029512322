# Reference games: cards and sketchpad cores in Dafny

This project models the game logic of two browser experiments from the
reference_games repository, plus the shared utilities they use. It proves what
that logic guarantees.

- **Cards game.** Two players share a 52-card deck. The server shuffles it and
  deals 4 cards to the table and 3 to each hand. A player may swap cards
  between their hand and the table. A table card can go back into the deck
  (`reshuffle`). Two hands win when they form a single-suit straight that may
  wrap around (`hasWrappedStraight`). The client projects the server's state
  into "my hand / their hand" according to its role, and keeps a local player
  list.
- **Sketchpad game.** A 4 by 1 grid of 200-pixel cells. The design for the 32
  rounds is built from shuffled category, object, pose, condition and target
  columns. A round counter walks through the trial list.
- **Shared utilities.** `fillArray`, `makeSeries`, `flatten`, the CSV header
  builders, `checkInBounds`, and the retry-until-in-bounds generators
  `randomRect` / `randomCircle`.

Randomness is an input. `Math.random()` outcomes are a sequence of draws, one
per trial. A `_.shuffle` is an index permutation `order` of `0..n-1`, with the
result `Permute(s, order)`. `_.sample` is a chosen index. Exceptions and
`TypeError`s the JavaScript would raise are `Err`/`Thrown` values that carry
the message.

Modules, one per source file:

| module | file |
|---|---|
| `Wrappers` | `Option`, `Result` |
| `SeqUtil` | ranges, permutations, distinctness, `Permute` |
| `Text` | decimal rendering of integers, `join` |
| `SharedUtils` | experiments/sharedUtils/sharedUtils.js |
| `CardLogic` | experiments/cards/card-logic.js |
| `CardsGameCore` | experiments/cards/game.core.js |
| `GraphicUtils` | experiments/cards/client.graphicUtils.js (group bookkeeping only) |
| `CardsGameClient` | experiments/cards/game.client.js |
| `SketchpadGameCore` | experiments/sketchpad/game.core.js |

State that the JavaScript updates in place is modelled as classes:

- the deck that `reshuffle` pushes onto (`CardLogic.Deck`);
- the game core (`CardsGameCore.GameCore`);
- the card sprites and their group arrays (`GraphicUtils.Card`, `GraphicUtils.Board`), with the groups kept as `array<Card>`;
- the client's `globalGame` (`CardsGameClient.ClientGame`);
- the sketchpad round counter (`SketchpadGameCore.SketchpadGame`).

Loops in the source are methods with loop invariants. Each method is proved
against a specification function, and the properties of that function are
lemmas.

## Model

| member | source | states |
|---|---|---|
| SharedUtils.FillArray | experiments/sharedUtils/sharedUtils.js:105-111 | the result has length `len` (0 when `len` is not positive), and every element is `value` |
| SharedUtils.MakeSeries | experiments/sharedUtils/sharedUtils.js:218-227 | throws when `ub <= lb`; otherwise returns `lb..ub` inclusive: length `ub - lb + 1`, with element k equal to `lb + k` |
| SharedUtils.ConcatAllAppend | experiments/sharedUtils/sharedUtils.js:85-90 | concatenating the parts of `a + b` is the concatenation for `a` followed by that for `b` |
| SharedUtils.Flatten | experiments/sharedUtils/sharedUtils.js:85-90 | the result's length is the number of leaves of the nested array (its contents, in order, are fixed by FlattenAppend and FlattenOne) |
| SharedUtils.FlattenAppend | experiments/sharedUtils/sharedUtils.js:85-90 | flatten distributes over appending arrays, so leaves keep their left-to-right order |
| SharedUtils.FlattenOne | experiments/sharedUtils/sharedUtils.js:86-88 | a one-element array flattens to the leaf, or to the flattening of the nested array |
| SharedUtils.FlattenFlat | experiments/sharedUtils/sharedUtils.js:85-90 | flatten is the identity on an array with no nested arrays |
| SharedUtils.FlattenRows | experiments/sharedUtils/sharedUtils.js:85-90 | flattening an array of flat rows gives the rows concatenated in order |
| SharedUtils.ConcatFourRowsOfThree | experiments/sharedUtils/sharedUtils.js:92-98 | four rows of three concatenate to 12 entries, entry j being row j/3, column j%3 |
| SharedUtils.GetObjectLocHeaderArray | experiments/sharedUtils/sharedUtils.js:92-99 | `getObjectLocHeaderArray()` has 12 names; name j is `object{j/3+1}` followed by `Name`, `SenderLoc` or `ReceiverLoc` for j%3 = 0, 1, 2 |
| SharedUtils.JoinOfJoins | experiments/sharedUtils/sharedUtils.js:78-82 | joining the tab-joined rows with a tab equals tab-joining all their entries |
| SharedUtils.GetObjectLocHeader | experiments/sharedUtils/sharedUtils.js:77-99 | `getObjectLocHeader()` equals the tab-join of `getObjectLocHeaderArray()` |
| SharedUtils.OrElse | experiments/sharedUtils/sharedUtils.js:114-115 | JavaScript `a \|\| b` on an optional number: `a` when it is present and non-zero, otherwise `b` |
| SharedUtils.CheckInBounds | experiments/sharedUtils/sharedUtils.js:113-116 | a shape with a missing x or y, or missing both its width (height) and its diameter, is never in bounds |
| SharedUtils.CheckInBoundsLargerCanvas | experiments/sharedUtils/sharedUtils.js:113-116 | a shape in bounds stays in bounds on a canvas at least as wide and as tall |
| SharedUtils.CheckInBoundsMeaning | experiments/sharedUtils/sharedUtils.js:113-116 | in bounds iff x + (w, or d when w is missing or 0) < width and y + (h, or d) < height, both strict |
| SharedUtils.Sample | experiments/sharedUtils/sharedUtils.js:136-141 | `_.sample` is undefined exactly on an empty range; otherwise it is a member of the range |
| SharedUtils.RandomPoint | experiments/sharedUtils/sharedUtils.js:169-178 | x and y are samples of `_.range(xMin, xMax)` and `_.range(yMin, yMax)`; no width, height or diameter |
| SharedUtils.RectAttempt | experiments/sharedUtils/sharedUtils.js:136-141 | a present width lies in [wMin, wMax), a present height in [hMin, hMax), and there is no diameter |
| SharedUtils.RectAttemptAsWritten | experiments/sharedUtils/sharedUtils.js:136-141 | one attempt as written: a present width lies in the height range [hMin, hMax), a present height in the width range [wMin, wMax), and there is no diameter |
| SharedUtils.RandomRectAsWritten | experiments/sharedUtils/sharedUtils.js:131-148 | randomRect as written: throws iff options are missing, and a returned rectangle is in bounds and is one of the attempts |
| SharedUtils.RandomRectAsWrittenSwapsRanges | experiments/sharedUtils/sharedUtils.js:140-141 | with width range [10,11) and height range [50,51), the rectangle returned has width 50, outside [wMin, wMax) |
| SharedUtils.RandomRect | experiments/sharedUtils/sharedUtils.js:131-148 | throws iff options are missing; a returned rectangle satisfies checkInBounds and has width in [wMin, wMax) and height in [hMin, hMax) |
| SharedUtils.NoRectFitsShift | experiments/sharedUtils/sharedUtils.js:143-145 | "none of the first n+1 attempts fit" equals "the first fails and none of the next n fit" |
| SharedUtils.RandomRectFirstFit | experiments/sharedUtils/sharedUtils.js:143-147 | a returned rectangle is the first attempt in bounds: every earlier attempt failed checkInBounds |
| SharedUtils.RandomRectGivesUp | experiments/sharedUtils/sharedUtils.js:143-147 | the finite draws run out iff no attempt is in bounds |
| SharedUtils.CircleAttempt | experiments/sharedUtils/sharedUtils.js:156-160 | the diameter is drawn from [dMin, dMax), or is dMin when that range is empty |
| SharedUtils.RandomCircle | experiments/sharedUtils/sharedUtils.js:150-167 | throws iff options are missing; a returned circle satisfies checkInBounds and has a diameter |
| SharedUtils.NoCircleFitsShift | experiments/sharedUtils/sharedUtils.js:162-164 | "none of the first n+1 attempts fit" equals "the first fails and none of the next n fit" |
| SharedUtils.RandomCircleFirstFit | experiments/sharedUtils/sharedUtils.js:162-166 | a returned circle is the first attempt in bounds |
| SharedUtils.RandomCircleGivesUp | experiments/sharedUtils/sharedUtils.js:162-166 | the finite draws run out iff no attempt is in bounds |
| CardLogic.TruncDiv | experiments/cards/card-logic.js:57 | `Math.trunc(a / b)` for b > 0: non-negative for non-negative a, non-positive for non-positive a |
| CardLogic.JsRem | experiments/cards/card-logic.js:38 | JavaScript `%` for b > 0: in [0, b) for non-negative a, in (-b, 0] for negative a |
| CardLogic.TruncDivSymmetric | experiments/cards/card-logic.js:38-57 | truncation and `%` are odd in a, and `-1` gives 0 and -1 (unlike floor division) |
| CardLogic.SuitsOfTheDeck | experiments/cards/card-logic.js:56-58 | with 12 cards per suit the values 0..51 have suits 0..4, suit 4 exactly for 48..51; with 13 the suits are 0..3 |
| CardLogic.Returned | experiments/cards/card-logic.js:11-16 | the returned frames are a sub-multiset of the table frames, no more of them than there are cards |
| CardLogic.ReturnedMembers | experiments/cards/card-logic.js:12-14 | a frame is returned iff some card with that frame drew `r <= p` |
| CardLogic.ReturnedAllWhenCertain | experiments/cards/card-logic.js:12 | with draws in [0, 1) and p >= 1 every frame returns, in table order |
| CardLogic.ReturnedNoneWhenNegative | experiments/cards/card-logic.js:12 | with draws in [0, 1) and p < 0 nothing returns |
| CardLogic.ReturnedStep | experiments/cards/card-logic.js:11-16 | one more card appends its frame exactly when its draw passes |
| CardLogic.Deck.constructor | experiments/cards/card-logic.js:9 | the deck holds the given cards |
| CardLogic.ReturnCards | experiments/cards/card-logic.js:10-16 | the loop pushes the returned frames onto the caller's deck in encounter order, and n is their count |
| CardLogic.Reshuffle | experiments/cards/card-logic.js:9-19 | deck becomes old deck ++ returned frames; 0 <= n <= the number of cards; newDeck is the shuffled permutation of the new deck, with length old + n |
| CardLogic.GetSuit | experiments/cards/card-logic.js:56-58 | the suit is the block of k consecutive values holding the card: k·r <= v < k·(r+1) for v >= 0, and rounded toward zero below 0 |
| CardLogic.Insert | experiments/cards/card-logic.js:38 | insertion adds exactly one copy of x and keeps a sorted list sorted |
| CardLogic.SortAscending | experiments/cards/card-logic.js:38 | the intended ascending sort: sorted and a permutation of its input |
| CardLogic.SortedUnique | experiments/cards/card-logic.js:38 | two sorted permutations of each other are equal, so the sort result is unique |
| CardLogic.FirstSuit | experiments/cards/card-logic.js:31 | the suit of `hand1[0]` is defined iff the first hand is non-empty |
| CardLogic.Ranks | experiments/cards/card-logic.js:38 | one rank per card, in [0, k) for non-negative values |
| CardLogic.HasWrappedStraight | experiments/cards/card-logic.js:29-50 | returns true iff every card has the suit of `hand1[0]` and the ascending ranks have at most one break, a single break requiring ranks 0 and k-1 |
| CardLogic.ScanRanks | experiments/cards/card-logic.js:39-49 | the break-counting loop with early return accepts iff at most one break, and one break only with both 0 and k-1 present |
| CardLogic.BreaksSplit | experiments/cards/card-logic.js:42-46 | the breaks of a prefix and of the rest add up to the whole, so stopping at the second break is sound |
| CardLogic.NoBreaksIsRun | experiments/cards/card-logic.js:42-49 | zero breaks iff each rank is the previous plus one |
| CardLogic.OneBreakSplits | experiments/cards/card-logic.js:48 | one break splits the ranks into two consecutive runs |
| CardLogic.TwoRunsBreaks | experiments/cards/card-logic.js:42-48 | two consecutive runs have at most one break |
| CardLogic.AcceptedShape | experiments/cards/card-logic.js:40-49 | accepted sorted ranks in [0, k) form a run, or a run wrapping from k-1 to 0 |
| CardLogic.WrappedStraightSound | experiments/cards/card-logic.js:29-50 | an accepted pair of hands is all one suit, with ranks consecutive or consecutive after wrapping |
| CardLogic.WrappedStraightComplete | experiments/cards/card-logic.js:29-50 | hands of one suit with consecutive or wrapped-consecutive ranks are accepted |
| CardLogic.SuitMismatchIsNotStraight | experiments/cards/card-logic.js:31-36 | any card whose suit differs from that of `hand1[0]` (or an empty first hand) gives false |
| CardLogic.StraightShapeDistinct | experiments/cards/card-logic.js:43-46 | a run, or a wrapped run of at most k ranks, repeats no rank |
| CardLogic.RepeatedRankIsNotStraight | experiments/cards/card-logic.js:43-46 | two cards of equal rank, e.g. overlapping hands, are never a straight |
| CardLogic.StraightInOrder | experiments/cards/card-logic.js:29-50 | [0,1,2] and [3,4,5] form a straight |
| CardLogic.StraightOutOfOrder | experiments/cards/card-logic.js:29-50 | [5,1,2] and [3,0,4] form a straight once sorted |
| CardLogic.OverlapExample | experiments/cards/card-logic.js:43-46 | [0,1,2] and [2,3,4] are not a straight |
| CardLogic.WrappingInOrder | experiments/cards/card-logic.js:40-48 | [8,9,10] and [11,0,1] wrap around and are a straight |
| CardLogic.WrappingOutOfOrder | experiments/cards/card-logic.js:40-48 | [10,0,8] and [9,1,11] are a wrapped straight |
| CardLogic.MixedSuitsExample | experiments/cards/card-logic.js:33-36 | [0,1,2] and [15,16,17] mix suits and are rejected |
| CardLogic.ThirteenCardExample | experiments/cards/card-logic.js:29-50 | with 13 ranks per suit, [8,9,10] and [11,12,0] are a wrapped straight |
| CardLogic.ThirteenCardHandWithTwelve | experiments/cards/card-logic.js:21-36 | with the source constant 12, the same hands mix suits (12 is in suit 1) and are rejected |
| CardLogic.CompareAsWritten | experiments/cards/card-logic.js:38 | the comparator `(a, b) => a > b` is never negative and is 0 exactly when a <= b |
| CardLogic.SortLeavesSorted | experiments/cards/card-logic.js:38 | sorting an already ascending list leaves it unchanged |
| CardLogic.IsWrappedStraightAsWritten | experiments/cards/card-logic.js:29-50 | with the ranks left in hand order, the check agrees with the intended one whenever the hands already list their ranks in ascending order |
| CardLogic.ComparatorCounterexample | experiments/cards/card-logic.js:38 | with ranks left in hand order, [5,1,2] and [3,0,4] are rejected, though sorting ascending accepts them |
| CardsGameCore.Splice | experiments/cards/game.core.js:84-88 | `splice(0, n)` removes the first min(n, length) cards, and the removed front followed by what is left is the original list |
| CardsGameCore.Deal | experiments/cards/game.core.js:84-88 | table ++ hand 1 ++ hand 2 ++ rest is the shuffled deck, in order; with enough cards the sizes are 4, 3, 3 and the remainder |
| CardsGameCore.DistinctPieces | experiments/cards/game.core.js:84-88 | pieces of a list without repeats are each without repeats and pairwise disjoint |
| CardsGameCore.DealPartitions | experiments/cards/game.core.js:79-88 | from a shuffle of 0..51, the table has 4 cards, each hand 3 and the deck 42, all without repeats and pairwise disjoint |
| CardsGameCore.DealIsWholeDeck | experiments/cards/game.core.js:79-88 | the four collections together are exactly the cards 0..51 |
| CardsGameCore.Filter | experiments/cards/game.core.js:139-147 | the filter keeps exactly the elements satisfying the predicate, and as many as pass (order: FilterAppend) |
| CardsGameCore.FilterSingleton | experiments/cards/game.core.js:139-147 | a one-element list keeps its element iff it passes |
| CardsGameCore.FilterAppend | experiments/cards/game.core.js:139-147 | filtering distributes over concatenation, so the result is the in-order subsequence of passing elements, repetitions included |
| CardsGameCore.FilterKeepsAll | experiments/cards/game.core.js:146-147 | filtering a list whose elements all pass returns it unchanged |
| CardsGameCore.FilterCommutes | experiments/cards/game.core.js:139-141 | two filters can be applied in either order |
| CardsGameCore.GetActivePlayers | experiments/cards/game.core.js:145-148 | exactly the entries with a player object (order: ActivePlayersInOrder) |
| CardsGameCore.ActivePlayersInOrder | experiments/cards/game.core.js:145-148 | the active players of a concatenation are those of each part in order, and one entry is active iff it has a player: the in-order subsequence of entries with a player |
| CardsGameCore.GetOthers | experiments/cards/game.core.js:138-142 | exactly the entries with a player object and a different id |
| CardsGameCore.OthersAreActiveOthers | experiments/cards/game.core.js:138-148 | `get_others(id)` is the active players with ids other than `id`, in list order |
| CardsGameCore.AllActive | experiments/cards/game.core.js:145-148 | when every entry has a player object, all of them are active |
| CardsGameCore.GetPlayer | experiments/cards/game.core.js:132-135 | errors (reading `player` of undefined) iff no entry has the id; otherwise the player of the first entry with it |
| CardsGameCore.PlayerPacket | experiments/cards/game.core.js:183-188 | same length and ids as the player list, in order, with no instance or player |
| CardsGameCore.NextRound | experiments/cards/game.core.js:151-169 | on the last round nothing changes; otherwise the round advances by one; from -1 the game starts at round 0 |
| CardsGameCore.NextRoundKeepsValid | experiments/cards/game.core.js:151-169 | the round stays within -1..numRounds-1, and the game counts as started from round 0 on |
| CardsGameCore.SingleRoundGame | experiments/cards/game.core.js:151-169 | with one round, a valid state advances to round 0 with the game started, and stays there |
| CardsGameCore.GameCore.Server | experiments/cards/game.core.js:23-92 | the server copy: one player entry, round -1, one round, threshold 2, cards dealt from the shuffled deck, and a snapshot sent |
| CardsGameCore.GameCore.Client | experiments/cards/game.core.js:93-109 | the client copy: one placeholder player, a 52-entry deck of -1, and an empty table and hands |
| CardsGameCore.GameCore.ServerSendUpdate | experiments/cards/game.core.js:172-202 | the snapshot holds the flags, the player packet and the cards, and goes to the active players |
| CardsGameCore.GameCore.NewRound | experiments/cards/game.core.js:151-169 | the round state follows NextRound; on the last round the active players are disconnected and nothing is sent; otherwise an update is sent |
| GraphicUtils.Card.constructor | experiments/cards/client.graphicUtils.js:50-88 | a sprite with the given frame, input flag, group and snap position |
| GraphicUtils.SwapAt | experiments/cards/client.graphicUtils.js:436-441 | exchanges the two elements, keeps the length and every other index, and keeps the multiset |
| GraphicUtils.SwapAtTwice | experiments/cards/client.graphicUtils.js:436-441 | swapping twice restores the array |
| GraphicUtils.Swap | experiments/cards/client.graphicUtils.js:436-441 | the in-place swap leaves the array equal to SwapAt of its old contents |
| GraphicUtils.Frames | experiments/cards/client.graphicUtils.js:262-264 | the frames of the cards, index by index |
| GraphicUtils.Board.constructor | experiments/cards/client.graphicUtils.js:14-43 | over three different groups of distinct sprites, each tagged with its group as `makeHandGroup` and `makeOnTableGroup` do, the board is well formed, holds the groups, and its frame lists mirror them |
| GraphicUtils.IndexOf | experiments/cards/client.graphicUtils.js:241-249 | `indexOf` is -1 exactly when the element is absent, and otherwise the first index holding it |
| GraphicUtils.Board.ShouldSwap | experiments/cards/client.graphicUtils.js:186-210 | false if either card is disabled; true iff both enabled and both in my hand, both on the table, or one of each on my turn; otherwise undefined |
| GraphicUtils.Board.SwapPosition | experiments/cards/client.graphicUtils.js:218-267 | snap positions exchange; in one group the two indices swap; across groups each card takes the other's slot and group; the frame lists mirror the groups; the board stays well formed |
| GraphicUtils.Board.RefreshFrames | experiments/cards/client.graphicUtils.js:262-264 | the three frame lists equal the frames of their groups, in order |
| GraphicUtils.Board.ExchangeSnapPositions | experiments/cards/client.graphicUtils.js:233-235 | the two cards' snap positions are exchanged |
| GraphicUtils.Board.SwapWithinGroup | experiments/cards/client.graphicUtils.js:239-243 | the shared group becomes the index swap of the two cards' positions, and group membership is unchanged |
| GraphicUtils.Board.MoveAcrossGroups | experiments/cards/client.graphicUtils.js:244-259 | card2 takes card1's slot and card1 takes card2's; the parentGroup fields are exchanged and no card is lost or repeated |
| GraphicUtils.Board.NotInOtherGroup | experiments/cards/client.graphicUtils.js:239-259 | a placed card occurs only in its own parent group |
| GraphicUtils.Board.AllCardsDistinct | experiments/cards/client.graphicUtils.js:239-259 | no card appears twice across the three groups |
| GraphicUtils.Board.PlacedIffOnTable | experiments/cards/client.graphicUtils.js:239-259 | a card is in some group iff its parentGroup is one of the three groups and holds it |
| GraphicUtils.DistinctUpdate | experiments/cards/client.graphicUtils.js:252-254 | putting a new card into a slot of a list without repeats keeps it without repeats |
| GraphicUtils.ExchangeKeepsCards | experiments/cards/client.graphicUtils.js:252-254 | exchanging slots between two groups keeps their combined multiset |
| GraphicUtils.GetTurnString | experiments/cards/client.graphicUtils.js:387-392 | the not-started text when the turn is unknown, "It's your turn." on my turn, "It's your partner's turn." otherwise |
| GraphicUtils.TurnStringDetermines | experiments/cards/client.graphicUtils.js:387-392 | different turn states give different strings |
| GraphicUtils.CardNoun | experiments/cards/client.graphicUtils.js:400 | "card" iff num == 1, else "cards" |
| GraphicUtils.CounterDescriptor | experiments/cards/client.graphicUtils.js:401 | "left in deck" iff the type is 'left', else "reshuffled" |
| GraphicUtils.GetCounterString | experiments/cards/client.graphicUtils.js:399-403 | the string ends with "left in deck" for type 'left' and with "reshuffled" otherwise, and starts with '-' for a negative count |
| GraphicUtils.CounterStringInjective | experiments/cards/client.graphicUtils.js:399-403 | equal counter strings have the same count and agree on whether the type is 'left' |
| CardsGameClient.Project | experiments/cards/game.client.js:52-66 | deck and table pass through; hands are present iff the role is player1 or player2 |
| CardsGameClient.PlayerViews | experiments/cards/game.client.js:56-63 | player1 sees p1Hand as its own hand on its turn; player2 sees p2Hand and is not on its turn; each one's hand is the other's "their hand" |
| CardsGameClient.ViewKeepsCards | experiments/cards/game.client.js:52-63 | a role's projection holds exactly the server's cards |
| CardsGameClient.Placeholders | experiments/cards/game.client.js:118-120 | n entries with no id |
| CardsGameClient.PlaceholderInFront | experiments/cards/game.client.js:118-120 | one more unshift in front of k placeholders gives k + 1 placeholders |
| CardsGameClient.CopyIds | experiments/cards/game.client.js:17-21 | ids are copied positionally over the common prefix; instances and players are untouched |
| CardsGameClient.CopyIdsMatches | experiments/cards/game.client.js:17-21 | with equal lengths the local ids become the server's, and copying again changes nothing |
| CardsGameClient.CopyIdsPrefix | experiments/cards/game.client.js:17-21 | only the common prefix matters |
| CardsGameClient.CopyIdsStep | experiments/cards/game.client.js:18-20 | one more zip pair updates exactly that index's id |
| CardsGameClient.FirstWithIdIsGetPlayer | experiments/cards/game.client.js:116 | `get_player` succeeds iff such an index exists, and returns its player |
| CardsGameClient.PlaceholdersKeepLookup | experiments/cards/game.client.js:116-120 | placeholders in front never change the lookup of a real id |
| CardsGameClient.Score | experiments/cards/game.client.js:170 | 100 iff won, 50 iff lost |
| CardsGameClient.ClientGame.constructor | experiments/cards/game.core.js:93-109 | the client copy as the client handlers see it: one placeholder player, no role, no data and round -1 |
| CardsGameClient.ClientGame.OnServerUpdate | experiments/cards/game.client.js:9-72 | ids copied positionally; throws iff the list lengths differ or a multi-player list lacks my id, and then changes no other field; otherwise copies the flags and round, keeps the first data object, and builds the role's view only once the game has started |
| CardsGameClient.ClientGame.ZipIds | experiments/cards/game.client.js:17-21 | the zip loop copies ids over the common prefix, then hits undefined iff the lengths differ (read fails when the server list is shorter, write when it is longer) |
| CardsGameClient.ClientGame.JoinGame | experiments/cards/game.client.js:113-121 | sets my role, records it on my player (error when my id is unknown), and prepends max(n-1, 0) placeholders |
| CardsGameClient.ClientGame.PrependPlaceholders | experiments/cards/game.client.js:118-120 | the unshift loop leaves `count` placeholders in front of the old list |
| CardsGameClient.ClientGame.AddPlayer | experiments/cards/game.client.js:104-107 | appends an entry with the new id and a fresh player |
| CardsGameClient.ClientGame.GameEnd | experiments/cards/game.client.js:167-171 | records the outcome and sets the score to 100 or 50; without data it throws |
| CardsGameClient.SetRole | experiments/cards/game.client.js:116 | succeeds iff my id is in the list, and keeps the length and ids |
| CardsGameClient.SetRoleLookup | experiments/cards/game.client.js:115-116 | after setting, looking up my id gives my player with the new role |
| CardsGameClient.JoinedPlayerHasRole | experiments/cards/game.client.js:113-120 | after joining, my player carries the role even behind the prepended placeholders |
| SketchpadGameCore.GetPixelFromCell | experiments/sketchpad/game.core.js:513-524 | 200-pixel cells; the upper left is 200(x-1), 200(y-1), and the centre is 100 further along each axis |
| SketchpadGameCore.CellIndex | experiments/sketchpad/game.core.js:529-530 | `floor(v / 200) + 1` is the cell whose 200-pixel interval holds v |
| SketchpadGameCore.GetCellFromPixel | experiments/sketchpad/game.core.js:528-532 | each coordinate is the cell whose interval holds it, after removing half the padding |
| SketchpadGameCore.CellIndexUnique | experiments/sketchpad/game.core.js:529-530 | the cell holding a pixel is unique |
| SketchpadGameCore.PixelInCellRoundTrip | experiments/sketchpad/game.core.js:513-532 | any pixel inside cell (x, y) maps back to (x, y) |
| SketchpadGameCore.CellRoundTrip | experiments/sketchpad/game.core.js:513-532 | a cell's centre and its upper-left corner both map back to the cell |
| SketchpadGameCore.SampleStimulusLocs | experiments/sketchpad/game.core.js:306-314 | listener and speaker locations are each a permutation of the four cells, without repeats |
| SketchpadGameCore.Times | experiments/sketchpad/game.core.js:205-226 | `_.times(n, () => x)` is n copies of x |
| SketchpadGameCore.TimesCount | experiments/sketchpad/game.core.js:218-226 | n copies of x contain x n times and nothing else |
| SketchpadGameCore.Copies4Row | experiments/sketchpad/game.core.js:198-221 | row r of four copies of an 8-row block is row r mod 8 |
| SketchpadGameCore.GetRandomizedConditions | experiments/sketchpad/game.core.js:164-251 | the loops build exactly the design: the zipped rows permuted by the shuffle, then unzipped |
| SketchpadGameCore.BuildMenus | experiments/sketchpad/game.core.js:183-195 | the nested loops build the left-block columns, then the right-block rows |
| SketchpadGameCore.BuildCategoryBlock | experiments/sketchpad/game.core.js:201-206 | four rows [0,1,2,3], then four constant rows [c,c,c,c] for c = 0..3 |
| SketchpadGameCore.TimesSnoc | experiments/sketchpad/game.core.js:226 | n+1 copies are n copies plus one more |
| SketchpadGameCore.BuildTargets | experiments/sketchpad/game.core.js:224-227 | the loop builds eight 0s, eight 1s, eight 2s and eight 3s |
| SketchpadGameCore.Unzip | experiments/sketchpad/game.core.js:234-248 | each output column is the matching field of the zipped rows, in order |
| SketchpadGameCore.ZippedRow | experiments/sketchpad/game.core.js:198-232 | unshuffled row r of the four-times repeated menu, category and condition blocks zipped with the poses and targets: "further" with categories [0,1,2,3] and menu column r%8 for r%8 < 4; otherwise "closer" with a constant category row and a right-block menu; the r-th entry of the pose shuffle as pose; target r/8 |
| SketchpadGameCore.Design | experiments/sketchpad/game.core.js:230-251 | each of the five lists of `design_dict` has 32 entries, one per round |
| SketchpadGameCore.DesignRow | experiments/sketchpad/game.core.js:198-240 | round j of the design is unshuffled row order[j]; all five lists have 32 entries |
| SketchpadGameCore.RowAligned | experiments/sketchpad/game.core.js:201-232 | in round j, a "further" trial has category row [0,1,2,3] and a "closer" trial a constant row [c,c,c,c] |
| SketchpadGameCore.DesignAligned | experiments/sketchpad/game.core.js:201-232 | every round stays aligned through the joint shuffle |
| SketchpadGameCore.ShuffledColumn | experiments/sketchpad/game.core.js:232-240 | a column taken after the shuffle is a permutation of the column before it |
| SketchpadGameCore.ConditionCounts | experiments/sketchpad/game.core.js:218-240 | "further" and "closer" each occur 16 times among the 32 conditions |
| SketchpadGameCore.TargetColumnCounts | experiments/sketchpad/game.core.js:224-227 | each target 0..3 occurs 8 times in the unshuffled column, and nothing else occurs |
| SketchpadGameCore.TargetCounts | experiments/sketchpad/game.core.js:224-240 | after the shuffle each target 0..3 still occurs 8 times among 32 |
| SketchpadGameCore.PosesDistinct | experiments/sketchpad/game.core.js:212 | the 32 poses are pairwise distinct values in 0..39 |
| SketchpadGameCore.CloserObjectsDistinct | experiments/sketchpad/game.core.js:176-195 | in a "closer" trial the four objects are distinct values in 0..7 |
| SketchpadGameCore.TrialAt | experiments/sketchpad/game.core.js:158-159 | `trialList[k]` is defined iff k is an index, and is then that trial |
| SketchpadGameCore.NextRoundNum | experiments/sketchpad/game.core.js:150-161 | the counter stays put exactly on the last round; from -1 up to the last round it never goes back and never passes the last round |
| SketchpadGameCore.RoundsInOrder | experiments/sketchpad/game.core.js:149-162 | from -1, k calls of newRound reach round min(k, numRounds) - 1 |
| SketchpadGameCore.RoundsFrom | experiments/sketchpad/game.core.js:149-162 | from round r, k calls reach r + k, capped at the last round |
| SketchpadGameCore.SketchpadGame.constructor | experiments/sketchpad/game.core.js:59-62 | 32 rounds, round -1, and no current stimulus |
| SketchpadGameCore.SketchpadGame.NewRound | experiments/sketchpad/game.core.js:149-162 | on the last round nothing changes and the game ends; otherwise the round advances and the current stimulus and objects become `trialList[roundNum]` |

## Left out

- Phaser rendering and animation are not modelled: sprites, tints, tweens, snapping and timers in `client.graphicUtils.js` and the other graphics files. Card sprites are reduced to frame, input flag, parent group and snap position.
- Sockets, message relaying, `emit`, timeouts and `disconnect()` are not modelled. A disconnect is the opaque effect `Disconnected(players)` returned by `CardsGameCore.GameCore.NewRound`, and sending an update is the returned recipient list. The DOM calls in the client handlers and chat messages are left out.
- The sketchpad `makeTrialList`, `sampleTrial`, `sampleObjects`, `checkItem` and the selectors depend on an external stimulus list and on floating-point colour distances. The sketchpad `server_send_update` is not part of this model: its snapshot carries the data object, round number, trial info, objects and instructions instead of cards. The sketchpad `game_player`, `get_player`, `get_others` and `get_active_players` are the same code as the cards core's and are modelled only there.
- `sharedUtils.js` I/O and clock helpers are not modelled: `serveFile`, `checkPreviousParticipant`, `establishStream`, `getLongFormTime`, `UUID`, `hsl2lab`, `colorDiff`, `randomColor`, `randomSpline`. The `vec`/`dict` helpers, and the self-reassignment of the global names `series`, `vec` and `dict`, are left out too.
- `underscore`'s `_.range(a, b)` with b <= a is modelled as empty.
- SharedUtils.RandomRect: `randomRect` retries without bound. Its draws are modelled as a finite sequence, and running out of draws is the extra result `OutOfDraws`. The same holds for SharedUtils.RandomCircle.
- CardLogic.TruncDiv: states only the sign of `Math.trunc(a / b)` and `%`, not the quotient-remainder identity. The body defines the values exactly.
- CardLogic.JsRem: states only the range of the JavaScript remainder, for the same reason.
- CardLogic.Reshuffle: follows the code's `r <= p` test. With p = 0 a draw of exactly 0 still returns a card, whereas a reading of "probability p" would return none.
- CardLogic.HasWrappedStraight: models the intended ascending sort. The comparator as written is under Findings.
- The card-logic tests disagree on the suit size (12 and 13). `CardsInSuit` keeps the source's 12, and the straight functions take the suit size as a parameter.
- CardsGameCore.GameCore.Server: the shuffled deck is an input and need not be a permutation of 0..51. The partition facts are the lemmas DealPartitions and DealIsWholeDeck, which assume it is. The object aliasing between `this.cards` and the snapshot's cards is modelled as a value copy.
- GraphicUtils.Board.SwapPosition: requires both cards to be placed in one of the three groups. A card outside them would give `indexOf` -1, which the model does not cover.
- CardsGameClient.ClientGame.constructor: the same client copy as CardsGameCore.GameCore.Client, reduced to the fields the client handlers use. The client copy leaves `player_count` and `game_started` undefined; the model starts them at 0 and false, which no handler reads before the first update overwrites them (game.client.js:32-34).
- CardsGameClient.ClientGame.OnServerUpdate: the data object is abstracted to the one field `gameEnd` writes (the score), and the round number and data object of the update are parameters. An update without a player list is not represented, and the `message` field cleared on my player is not modelled.
- SketchpadGameCore.GetCellFromPixel: the padding is the source's constant 0. Pixel coordinates are reals, and `Math.floor` is exact.

## Findings

| source | as written | input that shows it | evidently intended | confidence | as-written member | corrected member |
|---|---|---|---|---|---|---|
| experiments/cards/card-logic.js:38 | `.sort((a, b) => a > b)`: the comparator returns true/false (1/0) and never a negative number, so an engine using TimSort leaves a list with no "less than" answers in its original order | hands [5,1,2] and [3,0,4]: the ranks stay in hand order, have more than one break, and are rejected | sort the ranks ascending, `(a, b) => a - b`, so that any six consecutive cards of one suit are a straight | not executed (depends on the engine's sort) | CardLogic.ComparatorCounterexample | CardLogic.HasWrappedStraight |
| experiments/sharedUtils/sharedUtils.js:140-141 | the height is sampled from the width range and the width from the height range | options with width range [10,11) and height range [50,51) on a 1000 by 1000 canvas: the returned rectangle has width 50 | `rect.w` from `wRange` and `rect.h` from `hRange` | not executed | SharedUtils.RandomRectAsWrittenSwapsRanges | SharedUtils.RandomRect |
