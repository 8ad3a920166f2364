/**
 * The hand evaluator nested in `poker_chances` (main.py lines 64-141): the
 * category predicates and `evaluate_hand`, which scores the first category
 * that matches, in fixed priority order, or falls back to the highest rank.
 */
module Evaluator {
  import opened Optional
  import opened Cards
  import opened Counting

  /** `[card.number for card in cards]` */
  function Numbers(cards: seq<Card>): seq<int>
  {
    seq(|cards|, i requires 0 <= i < |cards| => cards[i].number)
  }

  /** `[card.suit for card in cards]` */
  function SuitsOf(cards: seq<Card>): seq<string>
  {
    seq(|cards|, i requires 0 <= i < |cards| => cards[i].suit)
  }

  /** The distinct ranks present: `set(numbers)`. */
  function NumberSet(cards: seq<Card>): set<int>
  {
    set n | n in Numbers(cards)
  }

  // ---------------------------------------------------------------------------
  // count_same_numbers
  // ---------------------------------------------------------------------------

  /** `count_same_numbers(cards, reverse=False)`: each rank to how many cards carry it. */
  function CountSameNumbers(cards: seq<Card>): map<int, nat>
  {
    CountMap(Numbers(cards))
  }

  /**
   * `count_same_numbers(cards)`: `reverse_dict` over the counts, visiting the
   * ranks in the order the dictionary holds them.
   */
  function SameNumbersCount(cards: seq<Card>): map<nat, nat>
  {
    var counts := CountSameNumbers(cards);
    ReverseFold(counts, DictKeys(Numbers(cards)))
  }

  /** The visiting order does not matter: the result is the reversed map. */
  lemma SameNumbersCountReversed(cards: seq<Card>)
    ensures SameNumbersCount(cards) == Reversed(CountSameNumbers(cards))
  {
    DictKeysNoRepeats(Numbers(cards));
    ReverseFoldIsReversed(CountSameNumbers(cards), DictKeys(Numbers(cards)));
  }

  /** The ranks that occur exactly `m` times among the cards. */
  function RanksWithCount(cards: seq<Card>, m: nat): set<int>
  {
    set n | n in Numbers(cards) && multiset(Numbers(cards))[n] == m
  }

  /** The counts of the non-reversed map add up to the number of cards. */
  lemma CountSameNumbersSum(cards: seq<Card>)
    ensures SumValues(CountSameNumbers(cards)) == |cards|
  {
    CountsSumToLength(Numbers(cards));
  }

  /**
   * The reversed map sends each multiplicity to the number of distinct ranks
   * that have it, and has no entry for a multiplicity no rank has.
   */
  lemma SameNumbersCountMeaning(cards: seq<Card>, m: nat)
    ensures m in SameNumbersCount(cards) <==> RanksWithCount(cards, m) != {}
    ensures m in SameNumbersCount(cards) ==> SameNumbersCount(cards)[m] == |RanksWithCount(cards, m)|
  {
    SameNumbersCountReversed(cards);
    var d := CountSameNumbers(cards);
    assert KeysWith(d, d.Keys, m) == RanksWithCount(cards, m);
    if RanksWithCount(cards, m) != {} {
      NonEmptyHasElement(RanksWithCount(cards, m));
      var n :| n in RanksWithCount(cards, m);
      assert d[n] == m && m in Image(d, d.Keys);
    }
    if m in SameNumbersCount(cards) {
      var n :| n in d.Keys && d[n] == m;
      assert n in RanksWithCount(cards, m);
    }
  }

  /** The values of the reversed map add up to the number of distinct ranks. */
  lemma SameNumbersCountSum(cards: seq<Card>)
    ensures SumValues(SameNumbersCount(cards)) == |NumberSet(cards)|
  {
    SameNumbersCountReversed(cards);
    ReversedSumsToKeys(CountSameNumbers(cards));
    assert CountSameNumbers(cards).Keys == NumberSet(cards);
  }

  // ---------------------------------------------------------------------------
  // The category predicates
  // ---------------------------------------------------------------------------

  const RoyalRanks: set<int> := {10, 11, 12, 13, 14}
  const WheelRanks: set<int> := {14, 2, 3, 4, 5}

  /** The ranks held in one suit: the list `suits[suit]` built by `is_royal_flush`, as a set. */
  function SuitNumbers(cards: seq<Card>, suit: string): set<int>
  {
    set c | c in cards && c.suit == suit :: c.number
  }

  /** `is_royal_flush`: some suit present holds 10, J, Q, K and A. */
  predicate IsRoyalFlush(cards: seq<Card>)
  {
    exists c | c in cards :: RoyalRanks <= SuitNumbers(cards, c.suit)
  }

  /** One more card adds its rank to its own suit's ranks and to no other suit's. */
  lemma SuitNumbersAppend(cards: seq<Card>, card: Card, suit: string)
    ensures SuitNumbers(cards + [card], suit)
         == SuitNumbers(cards, suit) + (if card.suit == suit then {card.number} else {})
  {
    assert forall c :: c in cards + [card] <==> c in cards || c == card;
  }

  /** The list `suits[suit]` that `is_royal_flush` builds: that suit's ranks in card order. */
  function SuitList(cards: seq<Card>, suit: string): seq<int>
  {
    if cards == [] then []
    else SuitList(cards[..|cards| - 1], suit) + if cards[|cards| - 1].suit == suit then [cards[|cards| - 1].number] else []
  }

  /** The list holds exactly the suit's ranks. */
  lemma {:induction false} SuitListNumbers(cards: seq<Card>, suit: string)
    ensures (set n | n in SuitList(cards, suit)) == SuitNumbers(cards, suit)
  {
    if cards != [] {
      var init, last := cards[..|cards| - 1], cards[|cards| - 1];
      assert cards == init + [last];
      SuitListNumbers(init, suit);
      SuitNumbersAppend(init, last, suit);
    }
  }

  /**
   * `order` lists the suits of the first `n` cards in first-seen order:
   * `firstSeen[k]` is where suit `order[k]` first occurs.
   */
  predicate FirstSeen(cards: seq<Card>, order: seq<string>, firstSeen: seq<int>, n: int)
  {
    && n <= |cards|
    && |firstSeen| == |order|
    && (forall k :: 0 <= k < |order| ==> 0 <= firstSeen[k] < n && cards[firstSeen[k]].suit == order[k])
    && (forall k, l :: 0 <= k < l < |order| ==> firstSeen[k] < firstSeen[l])
    && (forall k, j :: 0 <= k < |order| && 0 <= j < firstSeen[k] ==> cards[j].suit != order[k])
  }

  lemma FirstSeenWiden(cards: seq<Card>, order: seq<string>, firstSeen: seq<int>, n: int)
    requires FirstSeen(cards, order, firstSeen, n) && 0 <= n < |cards|
    ensures FirstSeen(cards, order, firstSeen, n + 1)
  {
  }

  /** A card whose suit none of the first `n` cards has is where that suit is first seen. */
  lemma FirstSeenExtend(cards: seq<Card>, order: seq<string>, firstSeen: seq<int>, n: int)
    requires FirstSeen(cards, order, firstSeen, n) && 0 <= n < |cards|
    requires forall j :: 0 <= j < n ==> cards[j].suit in order
    requires cards[n].suit !in order
    ensures FirstSeen(cards, order + [cards[n].suit], firstSeen + [n], n + 1)
  {
    var order', firstSeen' := order + [cards[n].suit], firstSeen + [n];
    assert forall k :: 0 <= k < |order| ==> order'[k] == order[k] && firstSeen'[k] == firstSeen[k];
    forall k, j | 0 <= k < |order'| && 0 <= j < firstSeen'[k]
      ensures cards[j].suit != order'[k]
    {
      if k == |order| {
        assert cards[j].suit in order;
      }
    }
  }

  /**
   * The first loop of `is_royal_flush`: group the ranks by suit into a
   * dictionary whose keys keep first-seen order, as Python's do.
   */
  method GroupBySuit(cards: seq<Card>) returns (suits: map<string, seq<int>>, order: seq<string>, ghost firstSeen: seq<int>)
    ensures forall s :: s in suits <==> s in order
    ensures forall c :: c in cards ==> c.suit in suits
    ensures forall s :: s in suits ==> suits[s] == SuitList(cards, s)
    ensures FirstSeen(cards, order, firstSeen, |cards|)
    ensures forall k, l :: 0 <= k < l < |order| ==> order[k] != order[l]
  {
    suits, order, firstSeen := map[], [], [];
    hide SuitList;
    for i := 0 to |cards|
      invariant forall s :: s in suits <==> s in order
      invariant forall k :: 0 <= k < i ==> cards[k].suit in suits
      invariant forall s :: s in suits ==> suits[s] == SuitList(cards[..i], s)
      invariant FirstSeen(cards, order, firstSeen, i)
    {
      hide FirstSeen;
      var card := cards[i];
      FirstSeenWiden(cards, order, firstSeen, i);
      if card.suit !in suits {
        FirstSeenExtend(cards, order, firstSeen, i);
        SuitListAbsent(cards[..i], card.suit);
        suits := suits[card.suit := []];
        order := order + [card.suit];
        firstSeen := firstSeen + [i];
      }
      suits := suits[card.suit := suits[card.suit] + [card.number]];
      forall s | s in suits
        ensures suits[s] == SuitList(cards[..i + 1], s)
      {
        SuitListStep(cards, i, s);
      }
    }
    assert cards[..|cards|] == cards;
  }

  /** One more card extends its own suit's list and no other. */
  lemma SuitListStep(cards: seq<Card>, i: int, suit: string)
    requires 0 <= i < |cards|
    ensures SuitList(cards[..i + 1], suit)
         == SuitList(cards[..i], suit) + if cards[i].suit == suit then [cards[i].number] else []
  {
    assert cards[..i + 1][..i] == cards[..i];
  }

  /** A suit no card has gets an empty list. */
  lemma {:induction false} SuitListAbsent(cards: seq<Card>, suit: string)
    requires forall k :: 0 <= k < |cards| ==> cards[k].suit != suit
    ensures SuitList(cards, suit) == []
  {
    if cards != [] {
      SuitListAbsent(cards[..|cards| - 1], suit);
    }
  }

  /**
   * `is_royal_flush`: after grouping, look through the suits in first-seen
   * order for one whose ranks include 10, J, Q, K and A.
   */
  method RoyalFlushScan(cards: seq<Card>) returns (found: bool)
    ensures found == IsRoyalFlush(cards)
  {
    var suits, order, firstSeen := GroupBySuit(cards);
    for j := 0 to |order|
      invariant forall k :: 0 <= k < j ==> !(RoyalRanks <= SuitNumbers(cards, order[k]))
    {
      SuitListNumbers(cards, order[j]);
      if RoyalRanks <= set n | n in suits[order[j]] {
        assert cards[firstSeen[j]] in cards;
        return true;
      }
    }
    forall c | c in cards
      ensures !(RoyalRanks <= SuitNumbers(cards, c.suit))
    {
      var k :| 0 <= k < |order| && order[k] == c.suit;
    }
    return false;
  }

  /** `suits.count(suit)` */
  function SuitCount(cards: seq<Card>, suit: string): nat
  {
    multiset(SuitsOf(cards))[suit]
  }

  /** `is_flush`: some suit present has at least five cards. */
  predicate IsFlush(cards: seq<Card>)
  {
    exists c | c in cards :: SuitCount(cards, c.suit) >= 5
  }

  predicate StrictlyIncreasing(s: seq<int>)
  {
    forall i, j :: 0 <= i < j < |s| ==> s[i] < s[j]
  }

  /** Inserts `x` into an ascending list, dropping it if already present. */
  function Insert(sorted: seq<int>, x: int): (r: seq<int>)
    ensures forall y :: y in r <==> y in sorted || y == x
  {
    if sorted == [] then [x]
    else if x < sorted[0] then [x] + sorted
    else if x == sorted[0] then sorted
    else
      var tail := Insert(sorted[1..], x);
      assert forall y :: y in sorted <==> y == sorted[0] || y in sorted[1..];
      [sorted[0]] + tail
  }

  /** `sorted(set(numbers))` */
  function SortedDistinct(xs: seq<int>): (r: seq<int>)
    ensures forall y :: y in r <==> y in xs
  {
    if xs == [] then []
    else
      var init := xs[..|xs| - 1];
      assert xs == init + [xs[|xs| - 1]];
      Insert(SortedDistinct(init), xs[|xs| - 1])
  }

  lemma {:induction false} InsertSorted(sorted: seq<int>, x: int)
    requires StrictlyIncreasing(sorted)
    ensures StrictlyIncreasing(Insert(sorted, x))
  {
    if sorted != [] && x > sorted[0] {
      InsertSorted(sorted[1..], x);
      var tail := Insert(sorted[1..], x);
      assert forall k :: 0 <= k < |tail| ==> tail[k] in tail;
    }
  }

  /** `sorted(set(numbers))` is strictly increasing. */
  lemma {:induction false} SortedDistinctSorted(xs: seq<int>)
    ensures StrictlyIncreasing(SortedDistinct(xs))
  {
    if xs != [] {
      var init := xs[..|xs| - 1];
      SortedDistinctSorted(init);
      InsertSorted(SortedDistinct(init), xs[|xs| - 1]);
    }
  }

  /**
   * The loop `for i in range(len(numbers) - 4)` of `is_straight` from index
   * `i` on: some later window of five spans exactly four.
   */
  predicate WindowFrom(numbers: seq<int>, i: nat)
    decreases |numbers| - i
  {
    i < |numbers| - 4 && (numbers[i + 4] == numbers[i] + 4 || WindowFrom(numbers, i + 1))
  }

  /**
   * `is_straight`: over the sorted distinct ranks, some window of five spans
   * exactly four, or the ace-low ranks A, 2, 3, 4, 5 are all present.
   */
  predicate IsStraight(cards: seq<Card>)
  {
    var numbers := SortedDistinct(Numbers(cards));
    WindowFrom(numbers, 0) || WheelRanks <= set n | n in numbers
  }

  /** The scan of `is_straight`, returning as soon as a window of five spans exactly four. */
  method StraightScan(cards: seq<Card>) returns (straight: bool)
    ensures straight == IsStraight(cards)
  {
    var numbers := SortedDistinct(Numbers(cards));
    var i := 0;
    while i < |numbers| - 4
      invariant WindowFrom(numbers, 0) == WindowFrom(numbers, i)
    {
      if numbers[i + 4] == numbers[i] + 4 {
        return true;
      }
      i := i + 1;
    }
    straight := WheelRanks <= set n | n in numbers;
  }

  /** `is_straight_flush`: a flush and a straight, not necessarily in the same cards. */
  predicate IsStraightFlush(cards: seq<Card>)
  {
    IsFlush(cards) && IsStraight(cards)
  }

  predicate IsFourOfAKind(sameNumbersCount: map<nat, nat>)
  {
    4 in sameNumbersCount
  }

  predicate IsFullHouse(sameNumbersCount: map<nat, nat>)
  {
    2 in sameNumbersCount && 3 in sameNumbersCount
  }

  predicate IsThreeOfAKind(sameNumbersCount: map<nat, nat>)
  {
    3 in sameNumbersCount
  }

  predicate IsTwoPair(sameNumbersCount: map<nat, nat>)
  {
    2 in sameNumbersCount && sameNumbersCount[2] == 2
  }

  predicate IsPair(sameNumbersCount: map<nat, nat>)
  {
    2 in sameNumbersCount
  }

  // ---------------------------------------------------------------------------
  // evaluate_hand
  // ---------------------------------------------------------------------------

  /** The scores of the nine categories. */
  const CategoryScores: set<int> := {100, 200, 300, 400, 500, 600, 700, 800, 900}

  /** `max(card.number for card in cards)` */
  function MaxNumber(cards: seq<Card>): (r: int)
    requires cards != []
    ensures r in Numbers(cards)
    ensures forall i :: 0 <= i < |cards| ==> cards[i].number <= r
  {
    assert Numbers(cards) == [cards[0].number] + Numbers(cards[1..]);
    if |cards| == 1 then cards[0].number
    else
      var rest := MaxNumber(cards[1..]);
      assert forall i :: 1 <= i < |cards| ==> cards[i] == cards[1..][i - 1];
      if cards[0].number >= rest then cards[0].number else rest
  }

  /** The nine categories `evaluate_hand` tests for. */
  datatype Category =
    | RoyalFlush | StraightFlush | FourOfAKind | FullHouse | Flush
    | Straight | ThreeOfAKind | TwoPair | Pair

  /** The order in which `evaluate_hand` tries the categories, best first. */
  const Ranking: seq<Category> :=
    [RoyalFlush, StraightFlush, FourOfAKind, FullHouse, Flush, Straight, ThreeOfAKind, TwoPair, Pair]

  /** The score `evaluate_hand` returns for a category. */
  function Score(category: Category): (score: int)
    ensures score in CategoryScores
  {
    match category
    case RoyalFlush => 900
    case StraightFlush => 800
    case FourOfAKind => 700
    case FullHouse => 600
    case Flush => 500
    case Straight => 400
    case ThreeOfAKind => 300
    case TwoPair => 200
    case Pair => 100
  }

  /** The predicate `evaluate_hand` tests for a category. */
  predicate Holds(category: Category, cards: seq<Card>)
  {
    var sameNumbersCount := SameNumbersCount(cards);
    match category
    case RoyalFlush => IsRoyalFlush(cards)
    case StraightFlush => IsStraightFlush(cards)
    case FourOfAKind => IsFourOfAKind(sameNumbersCount)
    case FullHouse => IsFullHouse(sameNumbersCount)
    case Flush => IsFlush(cards)
    case Straight => IsStraight(cards)
    case ThreeOfAKind => IsThreeOfAKind(sameNumbersCount)
    case TwoPair => IsTwoPair(sameNumbersCount)
    case Pair => IsPair(sameNumbersCount)
  }

  /** The first category from position `i` of the ranking on that the cards have. */
  function FirstMatch(cards: seq<Card>, i: nat): (found: Option<Category>)
    requires i <= |Ranking|
    ensures found.Some? ==> Holds(found.value, cards)
    decreases |Ranking| - i
  {
    if i == |Ranking| then None
    else if Holds(Ranking[i], cards) then Some(Ranking[i])
    else FirstMatch(cards, i + 1)
  }

  /**
   * `evaluate_hand`: the score of the first category that matches, else the
   * highest rank; `None` where the source's `max` of no cards raises.
   */
  function EvaluateHand(cards: seq<Card>): (score: Option<int>)
    ensures score.None? <==> cards == []
    ensures score.Some? ==> score.value in CategoryScores || score.value in NumberSet(cards)
  {
    match FirstMatch(cards, 0)
    case Some(category) => Some(Score(category))
    case None => if cards == [] then None else Some(MaxNumber(cards))
  }

  /** No category from position `i` on matches exactly when the scan from `i` finds none. */
  lemma {:induction false} FirstMatchNone(cards: seq<Card>, i: nat)
    requires i <= |Ranking|
    ensures FirstMatch(cards, i).None? <==> forall j | i <= j < |Ranking| :: !Holds(Ranking[j], cards)
    decreases |Ranking| - i
  {
    hide Holds;
    if i < |Ranking| {
      FirstMatchNone(cards, i + 1);
    }
  }

  /** The scan returns a category that matches and that no earlier category preempts. */
  lemma {:induction false} FirstMatchIsFirst(cards: seq<Card>, i: nat)
    requires i <= |Ranking| && FirstMatch(cards, i).Some?
    ensures exists k | i <= k < |Ranking| :: Ranking[k] == FirstMatch(cards, i).value
              && forall j | i <= j < k :: !Holds(Ranking[j], cards)
    decreases |Ranking| - i
  {
    hide Holds;
    if Holds(Ranking[i], cards) {
      assert Ranking[i] == FirstMatch(cards, i).value;
    } else {
      FirstMatchIsFirst(cards, i + 1);
      var k :| i + 1 <= k < |Ranking| && Ranking[k] == FirstMatch(cards, i + 1).value
                && forall j | i + 1 <= j < k :: !Holds(Ranking[j], cards);
      assert forall j | i <= j < k :: !Holds(Ranking[j], cards);
    }
  }

  /** Where a category stands in the ranking. */
  function Position(category: Category): (i: nat)
    ensures i < |Ranking| && Ranking[i] == category
  {
    match category
    case RoyalFlush => 0
    case StraightFlush => 1
    case FourOfAKind => 2
    case FullHouse => 3
    case Flush => 4
    case Straight => 5
    case ThreeOfAKind => 6
    case TwoPair => 7
    case Pair => 8
  }

  /** The ranking lists the categories from the highest score down. */
  lemma RankingDescends(i: int, j: int)
    requires 0 <= i < j < |Ranking|
    ensures Score(Ranking[i]) > Score(Ranking[j])
  {
    assert forall k :: 0 <= k < |Ranking| ==> Score(Ranking[k]) == 900 - 100 * k;
  }

  /**
   * The score is that of the best-scoring category the cards have: trying the
   * categories in ranking order finds the highest one first.
   */
  lemma EvaluateHandBest(cards: seq<Card>, category: Category)
    requires Holds(category, cards)
    requires forall other :: Holds(other, cards) ==> Score(other) <= Score(category)
    ensures EvaluateHand(cards) == Some(Score(category))
  {
    hide Holds;
    var p := Position(category);
    FirstMatchNone(cards, 0);
    FirstMatchIsFirst(cards, 0);
    var found := FirstMatch(cards, 0).value;
    var k :| 0 <= k < |Ranking| && Ranking[k] == found && forall j | 0 <= j < k :: !Holds(Ranking[j], cards);
    if k < p {
      RankingDescends(k, p);
    }
  }

  /** When no category matches, the score is the highest rank among the cards. */
  lemma EvaluateHandHighCard(cards: seq<Card>)
    requires cards != [] && !HasCategory(cards)
    ensures EvaluateHand(cards).Some?
    ensures EvaluateHand(cards).value in NumberSet(cards)
    ensures forall c | c in cards :: c.number <= EvaluateHand(cards).value
  {
    FirstMatchNone(cards, 0);
  }

  /** Some category predicate matches. */
  predicate HasCategory(cards: seq<Card>)
  {
    exists j | 0 <= j < |Ranking| :: Holds(Ranking[j], cards)
  }
}
