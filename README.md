# poker_chances — a verified model

`main.py` estimates a poker player's chance of winning by Monte Carlo. It
deals the unknown cards from a shuffled 52-card deck many times, scores every
hand and counts how often the player's score beats the best opponent's. This
project models the deterministic core of that script in Dafny and proves what
it guarantees:

- **Cards** (`cards.dfy`): the `Card` value, `same`, the generated deck, and
  the `Deck` class whose `remove_cards` filters `cards` in place.
- **Counting** (`counting.dfy`): the rank-count map of `count_same_numbers`
  and `reverse_dict`, both as a function and as the loop the source runs.
- **Evaluator** (`evaluator.dfy`): the nine category predicates and
  `evaluate_hand`. The grouping loop of `is_royal_flush` and the window scan
  of `is_straight` are methods proved against their predicates.
- **HandLemmas** (`hand_lemmas.dfy`): what the evaluator guarantees.
  - `is_straight` is checked against a plain "five consecutive ranks"
    definition.
  - The reversed counts are related to the ranks' multiplicities.
  - It proves the category priorities and the score range.
  - A score does not depend on the order of the cards.
  - It proves the quirks of the source: three pairs score as one pair, two
    sets of three as three of a kind, and a flush plus a straight in
    different cards as a straight flush.
- **Dealer** (`dealer.dfy`): `fill_cards` on Python slices (negative stops
  included) and one `simulate_game` trial, on a shuffle given as an argument.
  Dealing is a function, and `SimulateGame` is the step-by-step method that
  reassigns `deck.cards`.
- **Driver** (`driver.dfy`): the `N_SIMULATIONS` loop that counts wins, and
  the percentage.

Where the source raises an exception (the `max` of no cards or of no
opponents), the model returns `None`. In the driver, a trial that raises
ends the whole run with `None`.

The model keeps these quirks of the code:

- Each opponent's `fill_cards` still calls `deck.remove_cards`
  (main.py:45, 56). So every opponent's known cards leave the deck for the
  opponents after them. Only the dealt cards (the discarded `_`) stay.
  Opponents therefore get identical fills when they and every opponent
  before them have no known cards (`Dealer.UnknownOpponentsSameFill`).
- Before the table is filled, only the table's own known cards are removed.
  A card the player is known to hold can therefore also be dealt to the
  table (`Dealer.PlayerCardDealtToTable`).
- When there are more known cards than the total, `total - len(cards)` is
  negative, and Python's slices count from the end (`Dealer.FillOverfull`).
- `is_straight_flush` is `is_flush and is_straight` over all the cards. The
  flush and the straight need not share a suit
  (`HandLemmas.StraightFlushAcrossSuits`).

## Model

| member | source | states |
|---|---|---|
| Cards.Same | main.py:12-13 | `same` holds exactly when the two cards are equal values |
| Cards.GenerateDeck | main.py:22-25 | the suit-major comprehension yields 13 cards per suit |
| Cards.GenerateDeckAt | main.py:22-25 | card `i` of the comprehension has suit `i / 13` and rank `2 + i % 13` |
| Cards.GenerateDeckOrder | main.py:22-25 | the generated deck is H, D, C, S in turn, ranks 2 to 14 ascending within each suit |
| Cards.FullDeckMembership | main.py:22-25 | a card is in the deck exactly when its suit is one of H, D, C, S and its number is 2..14 |
| Cards.FullDeckDistinct | main.py:12-13 | no two positions of the deck hold cards that are `same` |
| Cards.Matches | main.py:28 | `any(card.same(c) for c in cards_to_remove)`: the card is `same` as some card to remove |
| Cards.Filtered | main.py:27-28 | the result is never longer than the deck it filters |
| Cards.FilteredMembership | main.py:27-28 | a card survives exactly when it was in the deck and matches no card to remove |
| Cards.FilteredIsSubsequence | main.py:27-28 | the survivors keep their original relative order |
| Cards.FilteredIdempotent | main.py:27-28 | removing the same cards a second time changes nothing |
| Cards.FilteredLength | main.py:27-28 | on a deck without duplicates the length drops by the number of deck cards listed for removal |
| Cards.FilteredNothing | main.py:27-28 | removing no cards leaves the deck unchanged |
| Cards.FilteredNoDuplicates | main.py:27-28 | filtering a deck without duplicates leaves a deck without duplicates |
| Cards.NoDuplicatesCount | main.py:12-13 | a list without duplicates holds each card at most once |
| Cards.RepeatCount | main.py:12-13 | a card found at two positions of a list is counted at least twice |
| Cards.ShuffledNoDuplicates | main.py:30-31 | every rearrangement of the generated deck, as `random.shuffle` produces, has no duplicates |
| Cards.Deck.constructor | main.py:19-20 | a new deck holds the generated 52 cards |
| Cards.Deck.Shuffle | main.py:30-31 | after shuffling, the deck holds the given rearrangement of its cards |
| Cards.Deck.RemoveCards | main.py:27-28 | the new `cards` are the old ones filtered against the removal list |
| Counting.CountMap | main.py:69 | `{number: numbers.count(number) for number in numbers}`: each occurring number to its multiplicity; its properties are `CountMapAppend`, `CountsSumToLength` and `CountMapPermutation` |
| Counting.Reversed | main.py:33-40 | each multiplicity to the number of keys that have it, the reference for `reverse_dict`; proved equal to the loop by `ReverseDict` and to any fold order by `ReverseFoldIsReversed` |
| Counting.ReverseFold | main.py:33-40 | `reverse_dict` over the items in a given key order, starting an entry at 1 or adding 1; `ReverseFoldIsReversed` proves it order-independent |
| Counting.Bump | main.py:36-39 | one loop step adds the value's key if it is missing and keeps every other key |
| Counting.CountMapAppend | main.py:68-69 | one more number raises exactly its own count by one |
| Counting.CountsSumToLength | main.py:67-72 | the counts of `count_same_numbers(reverse=False)` add up to the number of cards |
| Counting.CountMapPermutation | main.py:68-69 | the same numbers in any order give the same counts |
| Counting.ReverseOverStep | main.py:35-39 | visiting one more key raises the entry of that key's value by one and changes no other entry |
| Counting.ReverseOverSum | main.py:33-40 | the entries built from the visited keys add up to the number of keys visited |
| Counting.ReversedSumsToKeys | main.py:33-40 | the values of `reverse_dict(d)` add up to the number of keys of `d` |
| Counting.ReversedHas | main.py:33-40 | a multiplicity is a key of `reverse_dict(d)` exactly when some key of `d` has it |
| Counting.DictKeys | main.py:69 | the dictionary's keys are exactly the numbers that occur |
| Counting.DictKeysNoRepeats | main.py:69 | no number is a dictionary key twice |
| Counting.ReverseFoldOver | main.py:33-40 | folding over distinct keys gives the reversed map restricted to those keys |
| Counting.ReverseFoldIsReversed | main.py:33-40 | whatever order the items come in, `reverse_dict` gives the same map |
| Counting.ReverseDict | main.py:33-40 | the loop returns each multiplicity mapped to the number of keys that have it |
| Evaluator.Numbers | main.py:68 | `[card.number for card in cards]`, position by position; `NumberWitness` and `NumbersPermutation` state its properties |
| Evaluator.SuitsOf | main.py:113 | `[card.suit for card in cards]`, position by position; `SuitsPermutation` states its properties |
| Evaluator.CountSameNumbers | main.py:67-72 | `count_same_numbers(cards, reverse=False)`: the count map of the ranks; `CountSameNumbersSum` states its sum |
| Evaluator.SameNumbersCount | main.py:67-71 | `count_same_numbers(cards)`: `reverse_dict` of the rank counts in dictionary order; `SameNumbersCountMeaning` states what its entries mean |
| Evaluator.SameNumbersCountReversed | main.py:67-71 | `count_same_numbers(cards)` is `reverse_dict` of the rank counts, independent of key order |
| Evaluator.CountSameNumbersSum | main.py:67-72 | the rank counts add up to the number of cards |
| Evaluator.SameNumbersCountMeaning | main.py:67-71 | multiplicity `m` is a key exactly when some rank occurs exactly `m` times, and its value is the number of such ranks |
| Evaluator.SameNumbersCountSum | main.py:67-71 | the values of the reversed counts add up to the number of distinct ranks |
| Evaluator.SuitNumbersAppend | main.py:100-103 | appending a card adds its rank to its own suit's list and to no other suit's |
| Evaluator.IsRoyalFlush | main.py:97-107 | some suit present holds 10, J, Q, K and A; the loops are proved to compute it by `RoyalFlushScan` |
| Evaluator.SuitList | main.py:99-103 | the list `suits[suit]` the loop builds: that suit's ranks in card order |
| Evaluator.SuitListNumbers | main.py:99-103 | the list for a suit holds exactly that suit's ranks |
| Evaluator.FirstSeenExtend | main.py:100-102 | a suit first met at the current card joins the order after every suit met before it |
| Evaluator.GroupBySuit | main.py:99-103 | the first loop of `is_royal_flush` keys exactly the suits present; each suit's list is its ranks in card order; the suit order is repeat-free and lists each suit at the position of its first card |
| Evaluator.RoyalFlushScan | main.py:97-107 | the loops of `is_royal_flush` return true exactly when some suit present holds 10, J, Q, K and A |
| Evaluator.Insert | main.py:119 | inserting into a sorted list keeps the members and adds `x` |
| Evaluator.SortedDistinct | main.py:119 | `sorted(set(numbers))` has exactly the numbers' members |
| Evaluator.InsertSorted | main.py:119 | inserting keeps a strictly increasing list strictly increasing |
| Evaluator.SortedDistinctSorted | main.py:119 | `sorted(set(numbers))` is strictly increasing |
| Evaluator.IsFlush | main.py:112-115 | some suit present has at least five cards; `FlushPermutation` and `AcrossSuitsFlush` state its properties |
| Evaluator.IsStraight | main.py:117-126 | over the sorted distinct ranks a window of five spans exactly four, or A, 2, 3, 4, 5 are present; `StraightIff` proves it means five consecutive ranks |
| Evaluator.IsStraightFlush | main.py:109-110 | a flush and a straight, not necessarily in the same cards (`StraightFlushAcrossSuits`) |
| Evaluator.IsFourOfAKind | main.py:128-129 | the reversed counts have the key 4 |
| Evaluator.IsFullHouse | main.py:131-132 | the reversed counts have the keys 2 and 3; `FullHouseIff` states it in terms of ranks |
| Evaluator.IsThreeOfAKind | main.py:134-135 | the reversed counts have the key 3 |
| Evaluator.IsTwoPair | main.py:137-138 | the reversed counts map 2 to 2; `TwoPairIff` states it in terms of ranks |
| Evaluator.IsPair | main.py:140-141 | the reversed counts have the key 2 |
| Evaluator.StraightScan | main.py:117-126 | the scan with early return computes `is_straight` |
| Evaluator.MaxNumber | main.py:95 | the high-card fallback is a rank of the cards and at least every card's rank |
| Evaluator.Score | main.py:76-93 | every category scores one of 100, 200, ..., 900 |
| Evaluator.FirstMatch | main.py:76-93 | the scan only returns a category the cards have |
| Evaluator.EvaluateHand | main.py:74-95 | a score exists exactly when there are cards, and it is a category score or a rank of the cards |
| Evaluator.EvaluateHandHighCard | main.py:94-95 | when no category holds, the score is the highest rank of the cards: one of their ranks and at least every card's rank |
| Evaluator.FirstMatchNone | main.py:74-95 | the scan finds nothing exactly when no category from that position on matches |
| Evaluator.FirstMatchIsFirst | main.py:74-95 | the scan returns the earliest matching category in the if-chain's order |
| Evaluator.Position | main.py:76-93 | every category has its place in the if-chain's order |
| Evaluator.RankingDescends | main.py:76-93 | the if-chain tries the categories from the highest score down |
| Evaluator.EvaluateHandBest | main.py:74-95 | the score is that of the best-scoring category the cards have |
| HandLemmas.NumberWitness | main.py:118-119 | a rank is listed exactly when some card carries it |
| HandLemmas.WindowFromIff | main.py:120-122 | the window loop finds a window exactly when one starts at some index it visits |
| HandLemmas.WindowIff | main.py:119-122 | over sorted distinct ranks, a window of five spanning four exists exactly when five consecutive ranks are present |
| HandLemmas.StraightIff | main.py:117-126 | `is_straight` holds exactly when five consecutive ranks, or A, 2, 3, 4, 5, are present |
| HandLemmas.RunNeedsFive | main.py:120-125 | a run of five, or the ace-low ranks, means five distinct ranks |
| HandLemmas.StraightNeedsFiveRanks | main.py:117-126 | a straight needs at least five distinct ranks |
| HandLemmas.StraightExampleRun | main.py:117-126 | 5, 6, 7, 8, 9 of mixed suits is a straight |
| HandLemmas.StraightExampleWheel | main.py:123-125 | A, 2, 3, 4, 5 is a straight |
| HandLemmas.NotStraightExampleGap | main.py:117-126 | 2, 3, 4, 5, 7 is not a straight |
| HandLemmas.RoyalFlushIff | main.py:97-107 | `is_royal_flush` holds exactly when one suit's 10 to ace are all among the cards |
| HandLemmas.SuitNumbersBound | main.py:99-103 | a suit has no more distinct ranks than cards |
| HandLemmas.RoyalFlushIsFlushAndStraight | main.py:97-126 | a royal flush is also a flush and a straight |
| HandLemmas.RoyalFlushScores900 | main.py:74-77 | any cards holding 10 to ace of one suit score 900 |
| HandLemmas.RoyalFlushExample | main.py:74-77 | 10 to ace of diamonds with two low cards scores 900 |
| HandLemmas.TwoPairIff | main.py:137-138 | "two pair" holds exactly when exactly two ranks occur exactly twice |
| HandLemmas.FullHouseIff | main.py:131-132 | "full house" holds exactly when some rank occurs exactly three times and some rank exactly twice |
| HandLemmas.ThreePairsOnlyPair | main.py:128-141 | with three pairs and nothing better, "pair" is the only category that holds |
| HandLemmas.ThreePairsScoreAsPair | main.py:74-93 | three pairs and nothing better score 100, not 200 |
| HandLemmas.TwoTripsOnlyThree | main.py:128-141 | with two sets of three and no pair, "three of a kind" is the only category that holds |
| HandLemmas.TwoTripsScoreAsThreeOfAKind | main.py:74-89 | two sets of three and no pair are no full house: they score 300 |
| HandLemmas.FullHouseAbove | main.py:128-132 | three of a rank and two of another, with no four and no straight, is a full house and nothing above it |
| HandLemmas.FullHouseScores600 | main.py:74-83 | such cards score 600 |
| HandLemmas.FullHouseHandNumbers | main.py:68 | the ranks of the full-house example hand |
| HandLemmas.FullHouseHandCounts | main.py:67-72 | the example hand has three sevens, two twos and no four of a kind |
| HandLemmas.FullHouseHandNoStraight | main.py:97-126 | the example hand is neither a straight nor a royal flush |
| HandLemmas.FullHouseExample | main.py:74-83 | three sevens, two twos, a nine and a four score 600 |
| HandLemmas.AcrossSuitsHearts | main.py:99-103 | the hearts of the across-suits hand have ranks 2, 3, 4, 5, 9 and K |
| HandLemmas.AcrossSuitsOtherSuits | main.py:99-103 | every other suit of that hand holds at most the six |
| HandLemmas.AcrossSuitsNoSuitedRun | main.py:109-110 | no single suit of that hand holds five consecutive ranks |
| HandLemmas.AcrossSuitsRanks | main.py:118-119 | that hand's distinct ranks are 2, 3, 4, 5, 6, 9 and K |
| HandLemmas.AcrossSuitsHeartCount | main.py:113-114 | that hand has six hearts |
| HandLemmas.AcrossSuitsStraight | main.py:117-126 | that hand is a straight, from 2 to 6 |
| HandLemmas.AcrossSuitsFlush | main.py:112-115 | that hand is a flush |
| HandLemmas.AcrossSuitsNotRoyal | main.py:97-107 | that hand is no royal flush |
| HandLemmas.StraightFlushAcrossSuits | main.py:109-110 | a heart flush and a straight that needs a diamond together score 800 |
| HandLemmas.HighCardBelowCategories | main.py:74-95 | with ranks 2..14 the score is below 100 exactly when no category matches; it is then a rank in 2..14, and a category score otherwise |
| HandLemmas.NumbersPermutation | main.py:68 | the ranks of a rearrangement are a rearrangement of the ranks |
| HandLemmas.SuitsPermutation | main.py:113 | the suits of a rearrangement are a rearrangement of the suits |
| HandLemmas.NumberSetPermutation | main.py:119 | a rearrangement has the same distinct ranks |
| HandLemmas.RoyalFlushPermutation | main.py:97-107 | `is_royal_flush` does not depend on the order of the cards |
| HandLemmas.FlushPermutation | main.py:112-115 | `is_flush` does not depend on the order of the cards |
| HandLemmas.MaxNumberPermutation | main.py:95 | the highest rank does not depend on the order of the cards |
| HandLemmas.SameNumbersCountPermutation | main.py:67-71 | the reversed counts do not depend on the order of the cards |
| HandLemmas.StraightPermutation | main.py:117-126 | `is_straight` does not depend on the order of the cards |
| HandLemmas.HoldsPermutation | main.py:128-141 | no category predicate depends on the order of the cards |
| HandLemmas.FirstMatchPermutation | main.py:76-93 | the if-chain picks the same category in any order of the cards |
| HandLemmas.EvaluateHandPermutation | main.py:74-95 | `evaluate_hand` depends only on the multiset of cards |
| Dealer.Take | main.py:47 | `s[:k]` with Python's slice bound, negative `k` counting from the end; `FillSize` and `FillOverfull` state its effect |
| Dealer.Drop | main.py:47 | `s[k:]` with the same slice bound, so `Take` then `Drop` give back `s` (`FillSplits`) |
| Dealer.SliceIndex | main.py:47 | a slice bound lands within the list |
| Dealer.Fill | main.py:44-47 | `fill_cards` on deck contents: the known cards topped up from the filtered deck, and the cards after them; `FillSplits`, `FillSize`, `FillOverfull` and `FillFromTop` state its properties |
| Dealer.FillSplits | main.py:44-47 | the filled cards followed by the rest are the known cards followed by the filtered deck |
| Dealer.FillSize | main.py:44-47 | with no more known cards than `total`: the known cards then the next remaining ones, exactly `total` when enough remain, otherwise all that remain and no error |
| Dealer.FillOverfull | main.py:44-47 | with more known cards than `total`, the negative slice bound counts from the end of the deck |
| Dealer.FillFromTop | main.py:44-47 | with no known cards the fill is the top of the deck and the rest the cards after it |
| Dealer.FillRestNoDuplicates | main.py:44-47 | dealing from a deck without duplicates leaves a deck without duplicates |
| Dealer.FillCards | main.py:44-47 | `fill_cards` filters `deck.cards` in place and returns the fill of the old deck |
| Dealer.DealOpponents | main.py:54-57 | one hand is dealt per opponent |
| Dealer.DealOpponentsAt | main.py:54-57 | opponent `i` is filled from the deck without the known cards of opponents `0..i` |
| Dealer.UnknownOpponentsSameFill | main.py:54-57 | opponents with no known cards, after only such opponents, all get the same top three cards |
| Dealer.RemoveEachNothing | main.py:45 | removing empty lists of known cards leaves the deck unchanged |
| Dealer.DealTrial | main.py:50-57 | the dealing of `simulate_game` on a given shuffle: the table, then the player from the rest, then the opponents; `PlayerCardDealtToTable` and `DealOpponentsAt` state its properties |
| Dealer.PlayerCardDealtToTable | main.py:52-53 | a card the player holds, lying on top of the shuffled deck, is dealt to the table as well |
| Dealer.MaxScore | main.py:62 | `max` returns one of the scores, at least every score |
| Dealer.OpponentScores | main.py:60 | when no evaluation fails, there is one score per opponent |
| Dealer.OpponentScoresMeaning | main.py:60 | the list exists exactly when every opponent's evaluation succeeds, and then holds each opponent's score in order |
| Dealer.NoOpponentsFails | main.py:62 | with no opponents the trial fails |
| Dealer.Compare | main.py:62 | `player_best_hand > max(other_best_hands)`, failing where either side failed or there is no opponent; `CompareWinIff` states what a win means |
| Dealer.Simulate | main.py:49-62 | one trial on a given shuffle: its deal scored and compared; `WinIff` and `ShuffledTrialFailsOnlyWithoutOpponents` state its properties |
| Dealer.CompareWinIff | main.py:62 | beating the best opponent means beating every opponent |
| Dealer.WinIff | main.py:49-62 | a trial is won exactly when the player's score is strictly above every opponent's; a tie with the best is a loss |
| Dealer.ShuffledTableNotEmpty | main.py:50-52 | from a shuffle of the full deck the table gets cards |
| Dealer.TableMakesScores | main.py:59-60 | with cards on the table every evaluation succeeds |
| Dealer.ShuffledTrialFailsOnlyWithoutOpponents | main.py:49-62 | from a shuffle of the full deck a trial fails exactly when there are no opponents |
| Dealer.SimulateGame | main.py:49-62 | the step-by-step trial computes the specified outcome |
| Dealer.EvaluateOpponents | main.py:60 | the comprehension computes the opponents' score list, stopping at the first failure |
| Dealer.OpponentScoresPrefixNone | main.py:60 | once an opponent's evaluation fails, the whole list fails |
| Driver.Outcomes | main.py:144-145 | one outcome per trial |
| Driver.OutcomesAt | main.py:144-145 | trial `i` is the trial run on shuffle `i` |
| Driver.OutcomesExtend | main.py:144-145 | one more shuffle appends its trial to the outcomes |
| Driver.WinCount | main.py:143-146 | the win counter never exceeds the number of trials |
| Driver.WinCountAppend | main.py:144-146 | a failing trial fails the count, a win adds one and a loss adds nothing |
| Driver.WinCountCountsWins | main.py:143-146 | when no trial fails, the counter is the number of trials won |
| Driver.WinCountFailsIff | main.py:143-146 | the counter fails exactly when some trial fails |
| Driver.WinCountExtendNone | main.py:143-146 | once a trial fails, every longer run of trials fails |
| Driver.ShuffledOutcomes | main.py:144-145 | with full-deck shuffles, trials fail exactly when there are no opponents |
| Driver.Chances | main.py:148 | the percentage lies in 0..100 and is 100 exactly when every trial is won |
| Driver.CountWins | main.py:143-146 | the loop computes the specified win count, which stays within the number of trials |
| Driver.PokerChances | main.py:143-149 | it fails exactly when there are no opponents; otherwise it returns the percentage of the `N_SIMULATIONS` trials won |

## Left out

- `Deck.shuffle` (`random.shuffle`): randomness is not modelled. Every shuffle
  is an argument that must be a rearrangement of the current cards.
- Cards.Deck.Shuffle: states only that the deck becomes the given order. It
  does not state that `random.shuffle` picks every order with equal chance.
- Driver.Chances: uses exact reals instead of floating point, so the
  rounding of `wins / N_SIMULATIONS * 100` is not modelled.
- `Card.__repr__`, the example scenario and its `print` output at the end of
  main.py: these are display and I/O.
- Any statistical claim (win rates of particular hands): such claims depend
  on sampling, not on the code.
- Exceptions: any exception becomes `None`. The exception type and message
  are not modelled.
- Python dictionary iteration order: it matters only where a loop stops
  early. `RoyalFlushScan` keeps first-seen order. `reverse_dict` is proved
  order-independent (`Counting.ReverseFoldIsReversed`).
- Evaluator.EvaluateHand: the `elif` chain is modelled as a scan over the
  categories in the same order (`Evaluator.Ranking`). It has the same
  branches and constants, and a single score for each branch.
- Suits are strings and ranks are unbounded integers. Cards with other suits
  or ranks are accepted as the source accepts them. Only
  `HandLemmas.HighCardBelowCategories` assumes ranks in 2..14.
