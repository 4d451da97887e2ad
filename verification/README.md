# Gin Rummy meld engine in Dafny

A model of the card core of a console Gin Rummy game:

- the playing card (`Card`), with its id, weight, meld marker, collate id and text;
- the player's hand (`PlayerHand`): its auto-meld, deadwood count and removals;
- the generic deck (`Deck`);
- the 52-card closed deck (`ClosedDeck`), with its constructor and shuffle.

`meld` lays a hand out in three parts:

1. sequence melds: three or more cards of one suit with consecutive faces;
2. group melds: three or four cards of one face;
3. the deadwood, sorted by face.

Every melded card carries an increasing marker and a collate id per meld. `calculateDeadwood` adds the weights of the deadwood among the first ten positions.

The model is functional. A hand is a `seq<Card>` and every operation returns a new hand. The hand's counters (next marker, last collate id) are a `Counters` value threaded through the scans.

Files and modules:

- `cards.dfy` (`Optional`, `Cards`): the card, its id and weight, the annotation setters, and `toString` with a parser to state that the text determines the card.
- `hands.dfy` (`Hands`): hand-wide predicates and filters: marked and unmarked cards, reset, distinct ids, multiset facts.
- `sorting.dfy` (`Sorting`): the three `Collections.sort` calls, modelled as one stable insertion sort parameterised by the key (id, marker, face).
- `scans.dfy` (`Scans`): `findSequence`, `findGroup`, `markSequence`, `markGroup`, `isSequence`, `isGroup` and `getUnmarkedCardIndex`. Each loop is written as the source writes it, as a recursive function over its loop variables.
- `blocks.dfy` (`Blocks`): a block-wise reference scan (`Scan`/`Placed`). The hand is cut into maximal blocks of linked cards, and blocks of three or more become melds. Two lemmas prove the literal loops compute exactly this.
- `layout.dfy` (`Layout`): what the reference scan produces. It splits the cards, numbers them, shapes the melds, and its runs are maximal and complete.
- `player_hand.dfy` (`PlayerHand`): the `meld` pipeline, the reference melding, `calculateDeadwood`, `removeCardFromHand` and `removeSecondToLastCard`.
- `meld_theorems.dfy` (`MeldTheorems`): `meld` keeps the cards, equals the reference melding, is independent of input order and idempotent. Also: the shape, numbering, maximality and completeness of its melds, and the deadwood of a melded hand.
- `decks.dfy` (`Decks`): `addCard`, `removeFirstCard`, `removeLastCard`, `getLastCard`, `length`.
- `closed_deck.dfy` (`ClosedDeck`): the ordered 52-card construction, `swap`, and `shuffle` with its random values as parameters.

How the model treats what the source does with an absent card and with object identity:

- Removing a card that is not in the hand leaves the hand unchanged, as `ArrayList.remove(Object)` returns false.
- The source compares cards by object reference. Among the distinct cards of one deck this is "same suit and face" (`PlayerHand.SameCard`).

## Model

| member | source | states |
|---|---|---|
| Cards.NewCard | src/Card.java:32-45 | a new card keeps the given suit and face, carries the default marker 13 and collate id 0 |
| Cards.NewCardFacts | src/Card.java:32-45 | a card of the deck is valid, has id face + 13·suit and weight in 1..10, and is already in reset form |
| Cards.Weight | src/Card.java:37-40 | the weight is the face below ten and exactly ten from ten up (ten, jack, queen, king), and in 1..10 for a card of the deck |
| Cards.IdRange | src/Card.java:35 | ids of cards of the deck lie in 1..52 |
| Cards.IdInjective | src/Card.java:35 | two cards of the deck with the same id have the same suit and face |
| Cards.IdOrder | src/Card.java:35 | id order is suit-major, and within a suit it is face order |
| Cards.NextIsIdSuccessor | src/Card.java:35 | a card extends another upwards in a sequence exactly when it has the same suit and the next id |
| Cards.SetMarker | src/Card.java:67-69 | setSeqGrp changes only the marker; id and weight stay |
| Cards.SetCollate | src/Card.java:71 | setCollateSeqGrp changes only the collate id; id and weight stay |
| Cards.Tag | src/PlayerHand.java:172-173 | a claimed card gets the given marker and collate id and is the same card up to annotations |
| Cards.CardText | src/Card.java:73-113 | the text is "*" for an unknown suit; otherwise it ends in the suit letter, and a card of the deck prints in two or three characters |
| Cards.CardTextRoundTrip | src/Card.java:73-113 | reading a card's text back gives its suit and face |
| Cards.CardTextInjective | src/Card.java:73-113 | different cards of the deck print differently |
| Cards.DigitsValueOfNatText | src/Card.java:90-91 | the decimal text of a face reads back as that face |
| Sorting.SortBy | src/PlayerHand.java:90-115 | each sort returns the same cards (multiset), ordered by its key, with every class of equal keys in its original order (stability of Collections.sort) |
| Sorting.SortSortedIsIdentity | src/PlayerHand.java:101-107 | sorting a run that is already in key order changes nothing |
| Sorting.SortByMarkerSplits | src/PlayerHand.java:112-115 | when marked cards carry increasing markers below 13, the marker sort moves them to the front in order and keeps the unmarked cards, in their order, behind them |
| Sorting.IdSortedUnique | src/PlayerHand.java:90-93 | two id-sorted orders of the same distinct, reset cards of the deck are equal, so the id sort's result does not depend on the input order |
| Scans.Claim | src/PlayerHand.java:165-177 | marking a window in range advances the counters by the window's size and by one collate id; out of range nothing changes |
| Scans.ClaimAt | src/PlayerHand.java:170-175 | the window's cards get consecutive markers from the counter and the next collate id; the collate id first written to the window's first card does not survive; other cards are untouched |
| Scans.Stamp | src/PlayerHand.java:171-175 | the marking loop gives card k of the window the marker m + (k - start) and leaves other cards alone |
| Scans.MarkSequence | src/PlayerHand.java:165-168 | markSequence changes nothing for a window past the end or with start after end |
| Scans.MarkGroup | src/PlayerHand.java:252-255 | markGroup changes nothing for a window past the end |
| Scans.FindGroup | src/PlayerHand.java:211-218 | fewer than three cards are left as they are, counters included |
| Scans.UnmarkedIndex | src/PlayerHand.java:296-303 | the result is -1 exactly when every card is marked; otherwise it is the first unmarked position |
| Scans.FindSequenceKeepsCards | src/PlayerHand.java:120-157 | findSequence only writes annotations: every position keeps its card |
| Scans.FindGroupKeepsCards | src/PlayerHand.java:211-243 | findGroup only writes annotations |
| Scans.FindSequenceClose | src/PlayerHand.java:143-155 | a grown window that fails is marked up to its previous end and the scan restarts at the failing card |
| Scans.FindGroupLoopClaim | src/PlayerHand.java:222-241 | a group of three is marked with its fourth card when that card matches, and the scan moves on three cards |
| Blocks.FindSequenceIsScan | src/PlayerHand.java:120-205 | the findSequence loop marks exactly the maximal blocks of three or more consecutive same-suit cards, block by block, and ends with the same counters |
| Blocks.FindGroupIsScan | src/PlayerHand.java:211-290 | on face-sorted cards with no five of a face, the findGroup loop marks exactly the blocks of three or four cards of one face |
| Blocks.BlockAtMostFour | src/PlayerHand.java:224-231 | without five of a face, a block of equal faces has at most four cards, so the four-card test always takes the whole block |
| Layout.ScanSplits | src/PlayerHand.java:59 | after a scan of unmarked cards, the marked cards are exactly the melds' cards and the unmarked ones exactly what the scan left, each in order |
| Layout.ScanMarkers | src/PlayerHand.java:172-174 | a scan hands out strictly increasing markers below 13, all from the counter's value on |
| Layout.ScanCollates | src/PlayerHand.java:170-173 | the j-th meld of a scan carries collate id (counter + j + 1) on every card |
| Layout.ScanRuns | src/PlayerHand.java:185-205 | every meld of the sequence scan has three or more cards of one suit with faces rising by one |
| Layout.ScanGroups | src/PlayerHand.java:272-290 | every meld of the group scan has three or four cards of one face |
| Layout.ScanRunsMaximal | src/PlayerHand.java:129-142 | on an id-ascending hand, no held card extends a sequence meld at either end |
| Layout.InSomeRunInThree | src/PlayerHand.java:185-205 | on an id-ascending hand, a card that lies in some three-card sequence of held cards lies in a window of three consecutive linked positions |
| Layout.InThreeClaimed | src/PlayerHand.java:120-157 | a card inside such a window ends up in one of the sequence melds |
| Layout.SetScanRest | src/PlayerHand.java:211-243 | what the group scan leaves is sorted by face, holds no three cards of a face, and shares no face with any group |
| Layout.FaceSortedNoFive | src/PlayerHand.java:101-107 | distinct cards of the deck sorted by face never hold five of a face |
| PlayerHand.GroupStage | src/PlayerHand.java:62-71 | the group stage leaves every card before the first unmarked one in place, and leaves an all-marked hand as it is |
| PlayerHand.DeadwoodStage | src/PlayerHand.java:75-84 | the deadwood stage keeps the melded prefix and leaves the rest sorted by face |
| PlayerHand.Meld | src/PlayerHand.java:45-85 | meld keeps the number of cards |
| PlayerHand.CalculateDeadwood | src/PlayerHand.java:27-37 | the loop returns the weight of the cards from the first unmarked one up to position 9, and 0 when all cards are marked |
| PlayerHand.WeightSumBounds | src/PlayerHand.java:32-34 | n cards of the deck weigh between n and 10·n |
| PlayerHand.DeadwoodRange | src/PlayerHand.java:27-37 | the deadwood count of cards of the deck lies in 0..100, and a fully marked hand counts 0 |
| PlayerHand.DeadwoodIgnoresLater | src/PlayerHand.java:32 | cards at position 10 and later never count |
| PlayerHand.RemoveCard | src/PlayerHand.java:318-320 | a card not in the hand leaves it unchanged; otherwise the hand loses one card and gains none |
| PlayerHand.RemoveCardExact | src/PlayerHand.java:318-320 | in a hand of distinct cards, the removed card is gone and every other card stays |
| PlayerHand.RemoveSecondToLast | src/PlayerHand.java:325-327 | the card before the last is returned, the last card moves up one, the rest stay, and no card is lost |
| PlayerHand.RemoveSecondToLastPutBack | src/PlayerHand.java:325-327 | putting the returned card back before the last one restores the hand |
| MeldTheorems.MeldKeepsCards | src/PlayerHand.java:45-85 | meld holds the same cards as before, each as often, up to markers and collate ids |
| MeldTheorems.SortedHandReady | src/PlayerHand.java:49-57 | after the reset and the id sort, a hand of distinct cards of the deck is reset and in strictly ascending id order |
| MeldTheorems.RunStage | src/PlayerHand.java:57-59 | findSequence followed by the marker sort puts the sequence melds first, then the cards they left, in id order |
| MeldTheorems.GroupStageIsScan | src/PlayerHand.java:62-72 | the group stage and the next marker sort put the group melds right after the sequences, with what is left behind them |
| MeldTheorems.DeadwoodStageIsScan | src/PlayerHand.java:75-84 | the final face sort does not change what the group scan left |
| MeldTheorems.MeldIsReference | src/PlayerHand.java:45-85 | on at most twelve distinct cards of the deck, meld lays the hand out as the reference melding: sequence melds, group melds, deadwood |
| MeldTheorems.LaidOutIndex | src/PlayerHand.java:296-303 | in a hand laid out as marked then unmarked cards, the first unmarked position is where the second part starts |
| MeldTheorems.MeldShapes | src/PlayerHand.java:120-290 | every sequence meld has three or more cards of one suit with consecutive faces; every group meld has three or four cards of one face |
| MeldTheorems.MeldNumbering | src/PlayerHand.java:165-263 | the melded cards carry markers 1, 2, ... in layout order, all below 13; the j-th meld, sequences first, carries collate id j + 1 on every card |
| MeldTheorems.MeldDeadwood | src/PlayerHand.java:75-84 | the deadwood is unmarked, sorted by face, has no three cards of a face and no card of a group's face |
| MeldTheorems.RunsMaximal | src/PlayerHand.java:129-142 | no card of the hand extends any sequence meld at either end |
| MeldTheorems.RunsComplete | src/PlayerHand.java:120-157 | a card is in a sequence meld exactly when it lies in some three-card sequence of the hand's cards |
| MeldTheorems.MeldOrderIndependent | src/PlayerHand.java:49-57 | meld depends on neither the order of the cards nor their old annotations |
| MeldTheorems.MeldIdempotent | src/PlayerHand.java:45-85 | melding a melded hand changes nothing |
| MeldTheorems.MeldedDeadwood | src/PlayerHand.java:27-37 | on a melded hand of ten or more cards, the deadwood count is the weight of the unmarked cards among the first ten, and on ten cards the weight of the whole deadwood |
| Decks.AddCard | src/Deck.java:17-19 | the card goes to the back and the earlier cards keep their places |
| Decks.RemoveFirstCard | src/Deck.java:25-27 | the returned card followed by the remaining deck is the old deck |
| Decks.RemoveLastCard | src/Deck.java:33-37 | the remaining deck followed by the returned card is the old deck |
| Decks.GetLastCard | src/Deck.java:43-50 | nothing exactly when the deck is empty; otherwise the back card |
| Decks.AddThenRemoveLast | src/Deck.java:17-37 | adding a card and removing the last one returns that card and restores the deck |
| Decks.RemoveLastThenAdd | src/Deck.java:17-37 | removing the last card and adding it back restores the deck |
| Decks.RemoveFirstThenPutBack | src/Deck.java:25-27 | removing the front card and putting it back in front restores the deck |
| Decks.GetLastAgrees | src/Deck.java:33-50 | getLastCard names the card removeLastCard would take, and nothing on an empty deck |
| Decks.LengthCounts | src/Deck.java:56-58 | the length grows by one on add, shrinks by one on each removal, and is 0 for a new deck |
| Decks.DealKeepsCards | src/Deck.java:17-27 | moving the front card of a deck to the back of a pile keeps all cards between the two |
| ClosedDeck.NewOrderedDeck | src/ClosedDeck.java:10-14 | the constructor's loops produce 52 cards, position i holding suit i / 13 and face i % 13 + 1 |
| ClosedDeck.OrderedDeckIds | src/ClosedDeck.java:10-14 | before the shuffle the ids are 1..52 in order: valid, unannotated, distinct cards |
| ClosedDeck.OrderedDeckComplete | src/ClosedDeck.java:10-14 | every suit and face of the deck is present, at the position its id names |
| ClosedDeck.Swap | src/ClosedDeck.java:34-38 | the two positions exchange their cards and every other position keeps its card |
| ClosedDeck.SwapFacts | src/ClosedDeck.java:34-38 | a swap keeps the cards, is its own inverse, and does not depend on the order of its indices |
| ClosedDeck.Shuffle | src/ClosedDeck.java:22-27 | with in-range indices, the shuffle returns the same cards, each as often, and leaves decks of up to two cards alone |
| ClosedDeck.AsWrittenLeavesDeck | src/ClosedDeck.java:24 | when Math.random() returns 0.0, the index as written is -1 |
| ClosedDeck.AsWrittenRangeOtherwise | src/ClosedDeck.java:24 | for any other random value, the index as written lies in 0 .. i - 2 |
| ClosedDeck.ShuffleIndex | src/ClosedDeck.java:24 | the corrected index (int)(r·i) lies in 0 .. i - 1 for every r in [0, 1) |
| ClosedDeck.ShuffleDraws | src/ClosedDeck.java:22-27 | driven by random values in [0, 1) through the corrected index, the shuffle returns the same cards |
| ClosedDeck.NewClosedDeck | src/ClosedDeck.java:6-17 | built in suit and face order and then shuffled through the corrected index `(int)(r·i)` (see Findings; with the index as written a 0.0 draw makes the source constructor throw), the new deck holds each of the 52 cards exactly once, unannotated |
| ClosedDeck.NewClosedDeckAsWritten | src/ClosedDeck.java:6-27 | the constructor with the index as written, `(int)(r·i - 1)`: when no random value is 0.0 every index lies in the deck, and the new deck holds each of the 52 cards exactly once, unannotated |
| ClosedDeck.ShuffledDeckFacts | src/ClosedDeck.java:4-17 | any reordering of the ordered deck holds each of the 52 cards exactly once, unannotated |
| ClosedDeck.PermDistinct | src/ClosedDeck.java:16 | any reordering of distinct unannotated cards of the deck still consists of distinct unannotated cards of the deck |

## Left out

- Game.java (the turn loop, console input and output) and OpenDeck.java (a deck with a display method): callers of the core, not part of this model.
- PlayerHand.toString (src/PlayerHand.java:329-364): display-only bracket rendering from the collate ids. The layout facts it relies on are stated by `MeldTheorems.MeldNumbering`.
- Deck.toString (src/Deck.java:60-63): ArrayList's bracketed, comma-separated list of the cards' texts, display only. The text of one card is `Cards.CardText`.
- Object identity and mutation:
  - cards are values;
  - the in-place writes of `setCard` through a sub-list view become sequence concatenation;
  - the cached `deadwood` field is not kept, and `CalculateDeadwood` returns the value.
- The hand's `marker` and `collate_seq_grp_value` fields: `meld` resets them on entry, so they are the `Counters` threaded through one meld call. Calls of the scans outside `meld` do not occur in the source.
- `Math.random()` becomes a parameter: a sequence of reals in [0, 1). Real arithmetic is exact, so the rounding of the double product `Math.random() * i` is not modelled. The shuffle's distribution is not modelled either.
- `Card.SPADES` to `Card.KING` are `short` constants in the source and `int` here. No arithmetic on them comes near the 16-bit range.
- Cards.Valid: the `Card` constructor accepts any suit and face. The model can represent invalid cards too, and states card facts under `Valid`.
- MeldTheorems.MeldIsReference: requires at most twelve cards. With thirteen or more melded cards the thirteenth marker equals the unmarked sentinel 13, and that card would read as unmarked. Game hands hold ten or eleven cards.
- MeldTheorems.MeldShapes, MeldTheorems.MeldNumbering, MeldTheorems.MeldDeadwood, MeldTheorems.RunsMaximal, MeldTheorems.RunsComplete, MeldTheorems.MeldedDeadwood: stated for hands of at most twelve distinct cards of the deck, for the same reason.
- Blocks.FindGroupIsScan: requires no five cards of a face. After a group of four, findGroup restarts at the group's fourth card, and only a fifth card of that face could re-mark it. A single deck has four cards of each face (`Layout.FaceSortedNoFive`).
- Decks.RemoveFirstCard: requires a non-empty deck. The source throws on an empty one, and the exception is not modelled as a value.
- Decks.RemoveLastCard: requires a non-empty deck, for the same reason.
- PlayerHand.RemoveSecondToLast: requires at least two cards. The source throws on a shorter hand.
- PlayerHand.Deadwood: requires `DeadwoodDefined`. `calculateDeadwood` reads positions up to 9 from the first unmarked card, so on a hand of fewer than ten cards with an unmarked card before position 10 the source reads past the end and throws; `DeadwoodDefined` excludes exactly those hands.
- ClosedDeck.NewClosedDeckAsWritten: requires every random value to be above 0.0. On a 0.0 value the source's index is -1 and the constructor throws (see Findings), which is not modelled as a value.
- ClosedDeck.Shuffle: requires every drawn index to lie in the deck. The source's own index can be -1; see Findings.
- The monotonicity of deadwood as cards move into melds during play concerns successive game states driven by Game.java, so it is not stated. `PlayerHand.DeadwoodRange` and `MeldTheorems.MeldedDeadwood` state what one count is.

## Findings

| source | as written | input that shows it | evidently intended | confidence | as-written member | corrected member |
|---|---|---|---|---|---|---|
| src/ClosedDeck.java:24 | the swap index is `(int)(Math.random() * i - 1)` | `Math.random()` returns 0.0 (its range is [0.0, 1.0)) for any i ≥ 2: the index is -1 and `swap` throws IndexOutOfBoundsException | an index in 0 .. i - 1, `(int)(Math.random() * i)` | not executed; the -1 follows from the documented range of Math.random, the corrected formula is inferred | ClosedDeck.AsWrittenLeavesDeck | ClosedDeck.ShuffleIndex |
