/**
 * What the hand evaluator of main.py guarantees: the straight test against a
 * plain reference definition, the meaning of the reversed rank counts, the
 * score range, the category priorities and independence from card order.
 */
module HandLemmas {
  import opened Optional
  import opened Cards
  import opened Counting
  import opened Evaluator

  // ---------------------------------------------------------------------------
  // Small facts about the projections
  // ---------------------------------------------------------------------------

  lemma NumbersConcat(u: seq<Card>, v: seq<Card>)
    ensures Numbers(u + v) == Numbers(u) + Numbers(v)
    ensures SuitsOf(u + v) == SuitsOf(u) + SuitsOf(v)
  {
  }

  /** A rank is listed exactly when some card carries it. */
  lemma NumberWitness(cards: seq<Card>, n: int)
    ensures n in NumberSet(cards) <==> exists c :: c in cards && c.number == n
  {
    if n in Numbers(cards) {
      var i :| 0 <= i < |cards| && Numbers(cards)[i] == n;
      assert cards[i] in cards;
    }
    if exists c :: c in cards && c.number == n {
      var c :| c in cards && c.number == n;
      var i :| 0 <= i < |cards| && cards[i] == c;
      assert Numbers(cards)[i] == n;
    }
  }

  lemma SubsetCard(a: set<int>, b: set<int>)
    requires a <= b
    ensures |a| <= |b|
    decreases a
  {
    if a != {} {
      NonEmptyHasElement(a);
      var x :| x in a;
      SubsetCard(a - {x}, b - {x});
    }
  }

  // ---------------------------------------------------------------------------
  // is_straight against a reference definition
  // ---------------------------------------------------------------------------

  /** The five consecutive ranks from `x` up are all present. */
  ghost predicate RunFrom(ranks: set<int>, x: int)
  {
    x in ranks && x + 1 in ranks && x + 2 in ranks && x + 3 in ranks && x + 4 in ranks
  }

  /** Five consecutive ranks are all present. */
  ghost predicate HasFiveInARow(ranks: set<int>)
  {
    exists x :: RunFrom(ranks, x)
  }

  /** In a strictly increasing list, the successor of an entry, when present, is the next entry. */
  lemma NextInSorted(ns: seq<int>, i: int)
    requires StrictlyIncreasing(ns) && 0 <= i < |ns| && ns[i] + 1 in ns
    ensures i + 1 < |ns| && ns[i + 1] == ns[i] + 1
  {
    var j :| 0 <= j < |ns| && ns[j] == ns[i] + 1;
    assert i < j;
    assert ns[i] < ns[i + 1] <= ns[j];
  }

  /** A window of five entries spanning exactly four holds five consecutive values. */
  lemma WindowIsRun(ns: seq<int>, i: int)
    requires StrictlyIncreasing(ns) && 0 <= i < |ns| - 4 && ns[i + 4] == ns[i] + 4
    ensures ns[i + 1] == ns[i] + 1 && ns[i + 2] == ns[i] + 2 && ns[i + 3] == ns[i] + 3
  {
    assert ns[i] < ns[i + 1];
    assert ns[i + 1] < ns[i + 2];
    assert ns[i + 2] < ns[i + 3];
    assert ns[i + 3] < ns[i + 4];
  }

  lemma WindowGivesRun(ns: seq<int>, ranks: set<int>, i: int)
    requires StrictlyIncreasing(ns)
    requires forall y :: y in ns <==> y in ranks
    requires 0 <= i < |ns| - 4 && ns[i + 4] == ns[i] + 4
    ensures HasFiveInARow(ranks)
  {
    WindowIsRun(ns, i);
    var x := ns[i];
    assert ns[i] in ns && ns[i + 1] in ns && ns[i + 2] in ns && ns[i + 3] in ns && ns[i + 4] in ns;
    assert RunFrom(ranks, x);
  }

  lemma RunGivesWindow(ns: seq<int>, ranks: set<int>, x: int)
    requires StrictlyIncreasing(ns)
    requires forall y :: y in ns <==> y in ranks
    requires RunFrom(ranks, x)
    ensures exists i | 0 <= i < |ns| - 4 :: ns[i + 4] == ns[i] + 4
  {
    assert x in ns;
    var i :| 0 <= i < |ns| && ns[i] == x;
    NextInSorted(ns, i);
    NextInSorted(ns, i + 1);
    NextInSorted(ns, i + 2);
    NextInSorted(ns, i + 3);
    assert 0 <= i < |ns| - 4 && ns[i + 4] == ns[i] + 4;
  }

  /** The scan from `i` finds a window exactly when one starts at some index from `i` on. */
  lemma {:induction false} WindowFromIff(ns: seq<int>, i: nat)
    ensures WindowFrom(ns, i) <==> exists j | i <= j < |ns| - 4 :: ns[j + 4] == ns[j] + 4
    decreases |ns| - i
  {
    if i < |ns| - 4 {
      WindowFromIff(ns, i + 1);
      if WindowFrom(ns, i + 1) {
        var j :| i + 1 <= j < |ns| - 4 && ns[j + 4] == ns[j] + 4;
        assert i <= j;
      }
    }
  }

  /** The window test over a strictly increasing list, against consecutive membership. */
  lemma WindowIff(ns: seq<int>, ranks: set<int>)
    requires StrictlyIncreasing(ns)
    requires forall y :: y in ns <==> y in ranks
    ensures WindowFrom(ns, 0) <==> HasFiveInARow(ranks)
  {
    WindowFromIff(ns, 0);
    if WindowFrom(ns, 0) {
      var i :| 0 <= i < |ns| - 4 && ns[i + 4] == ns[i] + 4;
      WindowGivesRun(ns, ranks, i);
    }
    if HasFiveInARow(ranks) {
      var x :| RunFrom(ranks, x);
      RunGivesWindow(ns, ranks, x);
    }
  }

  /**
   * The window scan of `is_straight` finds a straight exactly when five
   * consecutive ranks are present or the ace-low ranks are.
   */
  lemma StraightIff(cards: seq<Card>)
    ensures IsStraight(cards) <==> HasFiveInARow(NumberSet(cards)) || WheelRanks <= NumberSet(cards)
  {
    var ns := SortedDistinct(Numbers(cards));
    var ranks := NumberSet(cards);
    SortedDistinctSorted(Numbers(cards));
    assert (set n | n in ns) == ranks;
    WindowIff(ns, ranks);
  }

  lemma RunNeedsFive(ranks: set<int>)
    requires HasFiveInARow(ranks) || WheelRanks <= ranks
    ensures |ranks| >= 5
  {
    if HasFiveInARow(ranks) {
      var x :| RunFrom(ranks, x);
      var run := {x, x + 1, x + 2, x + 3, x + 4};
      assert |run| == 5;
      SubsetCard(run, ranks);
    } else {
      assert |WheelRanks| == 5;
      SubsetCard(WheelRanks, ranks);
    }
  }

  /** A straight always involves at least five distinct ranks. */
  lemma StraightNeedsFiveRanks(cards: seq<Card>)
    requires IsStraight(cards)
    ensures |NumberSet(cards)| >= 5
  {
    StraightIff(cards);
    RunNeedsFive(NumberSet(cards));
  }

  /** Five to nine of mixed suits is a straight. */
  lemma StraightExampleRun()
    ensures IsStraight([Card("H", 5), Card("D", 6), Card("C", 7), Card("S", 8), Card("H", 9)])
  {
    var cards := [Card("H", 5), Card("D", 6), Card("C", 7), Card("S", 8), Card("H", 9)];
    assert Numbers(cards) == [5, 6, 7, 8, 9];
    assert RunFrom(NumberSet(cards), 5);
    StraightIff(cards);
  }

  /** The wheel, ace to five, is a straight. */
  lemma StraightExampleWheel()
    ensures IsStraight([Card("S", 14), Card("H", 2), Card("D", 3), Card("C", 4), Card("S", 5)])
  {
    var cards := [Card("S", 14), Card("H", 2), Card("D", 3), Card("C", 4), Card("S", 5)];
    assert Numbers(cards) == [14, 2, 3, 4, 5];
    assert WheelRanks <= NumberSet(cards);
    StraightIff(cards);
  }

  /** 2, 3, 4, 5, 7 is not a straight. */
  lemma NotStraightExampleGap()
    ensures !IsStraight([Card("H", 2), Card("D", 3), Card("C", 4), Card("S", 5), Card("H", 7)])
  {
    var cards := [Card("H", 2), Card("D", 3), Card("C", 4), Card("S", 5), Card("H", 7)];
    assert Numbers(cards) == [2, 3, 4, 5, 7];
    var ranks := NumberSet(cards);
    assert ranks == {2, 3, 4, 5, 7};
    assert 14 !in ranks;
    forall x
      ensures !RunFrom(ranks, x)
    {
      if x in ranks && x + 1 in ranks && x + 2 in ranks && x + 3 in ranks {
        assert x == 2;
      }
    }
    StraightIff(cards);
  }

  // ---------------------------------------------------------------------------
  // is_royal_flush and is_flush
  // ---------------------------------------------------------------------------

  /** All of 10, J, Q, K and A of one suit are among the cards. */
  predicate HoldsRoyalRun(cards: seq<Card>, suit: string)
  {
    forall n :: n in RoyalRanks ==> Card(suit, n) in cards
  }

  /** `is_royal_flush` holds exactly when one suit's 10 to ace are all among the cards. */
  lemma RoyalFlushIff(cards: seq<Card>)
    ensures IsRoyalFlush(cards) <==> exists suit :: HoldsRoyalRun(cards, suit)
  {
    if IsRoyalFlush(cards) {
      var c :| c in cards && RoyalRanks <= SuitNumbers(cards, c.suit);
      forall n | n in RoyalRanks
        ensures Card(c.suit, n) in cards
      {
        assert n in SuitNumbers(cards, c.suit);
        var d :| d in cards && d.suit == c.suit && d.number == n;
        assert d == Card(c.suit, n);
      }
      assert HoldsRoyalRun(cards, c.suit);
    }
    if exists suit :: HoldsRoyalRun(cards, suit) {
      var suit :| HoldsRoyalRun(cards, suit);
      var ten := Card(suit, 10);
      assert ten in cards;
      forall n | n in RoyalRanks
        ensures n in SuitNumbers(cards, suit)
      {
        assert Card(suit, n) in cards;
      }
      assert RoyalRanks <= SuitNumbers(cards, ten.suit);
    }
  }

  /** Every card of one suit adds at most one distinct rank to that suit. */
  lemma {:induction false} SuitNumbersBound(cards: seq<Card>, suit: string)
    ensures |SuitNumbers(cards, suit)| <= SuitCount(cards, suit)
  {
    if cards != [] {
      var init, last := cards[..|cards| - 1], cards[|cards| - 1];
      assert cards == init + [last];
      SuitNumbersBound(init, suit);
      NumbersConcat(init, [last]);
      assert SuitsOf([last]) == [last.suit];
      if last.suit == suit {
        assert SuitNumbers(cards, suit) == SuitNumbers(init, suit) + {last.number};
      } else {
        assert SuitNumbers(cards, suit) == SuitNumbers(init, suit);
      }
    }
  }

  /** A royal flush is also a flush and a straight, so it would pass the 800 test too. */
  lemma RoyalFlushIsFlushAndStraight(cards: seq<Card>)
    requires IsRoyalFlush(cards)
    ensures IsFlush(cards) && IsStraight(cards)
  {
    var c :| c in cards && RoyalRanks <= SuitNumbers(cards, c.suit);
    SubsetCard(RoyalRanks, SuitNumbers(cards, c.suit));
    SuitNumbersBound(cards, c.suit);
    assert SuitCount(cards, c.suit) >= 5;
    forall n | n in RoyalRanks
      ensures n in NumberSet(cards)
    {
      var d :| d in cards && d.suit == c.suit && d.number == n;
      NumberWitness(cards, n);
    }
    assert RunFrom(NumberSet(cards), 10);
    StraightIff(cards);
  }

  /** Whatever else the cards hold, ten to ace of one suit scores 900. */
  lemma RoyalFlushScores900(cards: seq<Card>, suit: string)
    requires HoldsRoyalRun(cards, suit)
    ensures EvaluateHand(cards) == Some(900)
  {
    RoyalFlushIff(cards);
  }

  /** 10 to ace of diamonds with two low cards scores 900. */
  lemma RoyalFlushExample()
    ensures EvaluateHand([Card("D", 10), Card("D", 11), Card("D", 12), Card("D", 13), Card("D", 14),
                          Card("C", 2), Card("S", 3)]) == Some(900)
  {
    var cards := [Card("D", 10), Card("D", 11), Card("D", 12), Card("D", 13), Card("D", 14),
                  Card("C", 2), Card("S", 3)];
    assert HoldsRoyalRun(cards, "D");
    RoyalFlushScores900(cards, "D");
  }

  // ---------------------------------------------------------------------------
  // The count predicates
  // ---------------------------------------------------------------------------

  /** "Two pair" means exactly two ranks each appear exactly twice. */
  lemma TwoPairIff(cards: seq<Card>)
    ensures IsTwoPair(SameNumbersCount(cards)) <==> |RanksWithCount(cards, 2)| == 2
  {
    SameNumbersCountMeaning(cards, 2);
  }

  /** "Full house" means some rank appears exactly three times and some rank exactly twice. */
  lemma FullHouseIff(cards: seq<Card>)
    ensures IsFullHouse(SameNumbersCount(cards)) <==> RanksWithCount(cards, 3) != {} && RanksWithCount(cards, 2) != {}
  {
    SameNumbersCountMeaning(cards, 2);
    SameNumbersCountMeaning(cards, 3);
  }

  /** Three pairs and nothing better score as a single pair (100), not as two pair. */
  lemma ThreePairsScoreAsPair(cards: seq<Card>)
    requires |RanksWithCount(cards, 2)| == 3
    requires RanksWithCount(cards, 3) == {} && RanksWithCount(cards, 4) == {}
    requires !IsFlush(cards) && !IsStraight(cards)
    ensures EvaluateHand(cards) == Some(100)
  {
    hide Holds, IsFlush, IsStraight, RanksWithCount, EvaluateHand;
    ThreePairsOnlyPair(cards);
    forall other | Holds(other, cards) ensures Score(other) <= 100 { }
    EvaluateHandBest(cards, Pair);
  }

  lemma ThreePairsOnlyPair(cards: seq<Card>)
    requires |RanksWithCount(cards, 2)| == 3
    requires RanksWithCount(cards, 3) == {} && RanksWithCount(cards, 4) == {}
    requires !IsFlush(cards) && !IsStraight(cards)
    ensures Holds(Pair, cards) && forall other | other != Pair :: !Holds(other, cards)
  {
    if IsRoyalFlush(cards) {
      RoyalFlushIsFlushAndStraight(cards);
    }
    SameNumbersCountMeaning(cards, 2);
    SameNumbersCountMeaning(cards, 3);
    SameNumbersCountMeaning(cards, 4);
  }

  /** Two sets of three and no pair are no full house: they score as three of a kind (300). */
  lemma TwoTripsScoreAsThreeOfAKind(cards: seq<Card>)
    requires |RanksWithCount(cards, 3)| == 2
    requires RanksWithCount(cards, 2) == {} && RanksWithCount(cards, 4) == {}
    requires !IsFlush(cards) && !IsStraight(cards)
    ensures EvaluateHand(cards) == Some(300)
  {
    hide Holds, IsFlush, IsStraight, RanksWithCount, EvaluateHand;
    TwoTripsOnlyThree(cards);
    forall other | Holds(other, cards) ensures Score(other) <= 300 { }
    EvaluateHandBest(cards, ThreeOfAKind);
  }

  lemma TwoTripsOnlyThree(cards: seq<Card>)
    requires |RanksWithCount(cards, 3)| == 2
    requires RanksWithCount(cards, 2) == {} && RanksWithCount(cards, 4) == {}
    requires !IsFlush(cards) && !IsStraight(cards)
    ensures Holds(ThreeOfAKind, cards) && forall other | other != ThreeOfAKind :: !Holds(other, cards)
  {
    if IsRoyalFlush(cards) {
      RoyalFlushIsFlushAndStraight(cards);
    }
    SameNumbersCountMeaning(cards, 2);
    SameNumbersCountMeaning(cards, 3);
    SameNumbersCountMeaning(cards, 4);
  }

  /** A set of three with a pair, no four of a kind and no straight scores as a full house (600). */
  lemma FullHouseScores600(cards: seq<Card>)
    requires RanksWithCount(cards, 3) != {} && RanksWithCount(cards, 2) != {}
    requires RanksWithCount(cards, 4) == {}
    requires !IsStraight(cards)
    ensures EvaluateHand(cards) == Some(600)
  {
    hide Holds, IsStraight, RanksWithCount, EvaluateHand;
    FullHouseAbove(cards);
    forall other | Holds(other, cards) ensures Score(other) <= 600 { }
    EvaluateHandBest(cards, FullHouse);
  }

  lemma FullHouseAbove(cards: seq<Card>)
    requires RanksWithCount(cards, 3) != {} && RanksWithCount(cards, 2) != {}
    requires RanksWithCount(cards, 4) == {}
    requires !IsStraight(cards)
    ensures Holds(FullHouse, cards)
    ensures !Holds(RoyalFlush, cards) && !Holds(StraightFlush, cards) && !Holds(FourOfAKind, cards)
  {
    if IsRoyalFlush(cards) {
      RoyalFlushIsFlushAndStraight(cards);
    }
    SameNumbersCountMeaning(cards, 4);
    FullHouseIff(cards);
  }

  /** Three sevens and two twos with a nine and a four. */
  function FullHouseHand(): seq<Card>
  {
    [Card("H", 7), Card("D", 7), Card("C", 7), Card("H", 2), Card("D", 2), Card("S", 9), Card("C", 4)]
  }

  lemma FullHouseHandNumbers()
    ensures Numbers(FullHouseHand()) == [7, 7, 7, 2, 2, 9, 4]
    ensures NumberSet(FullHouseHand()) == {7, 2, 9, 4}
  {
    assert Numbers(FullHouseHand()) == [7, 7, 7, 2, 2, 9, 4];
  }

  lemma FullHouseHandCounts()
    ensures 7 in RanksWithCount(FullHouseHand(), 3) && 2 in RanksWithCount(FullHouseHand(), 2)
    ensures RanksWithCount(FullHouseHand(), 4) == {}
  {
    FullHouseHandNumbers();
    var numbers := Numbers(FullHouseHand());
    assert multiset(numbers)[7] == 3 && multiset(numbers)[2] == 2;
    assert multiset(numbers)[9] == 1 && multiset(numbers)[4] == 1;
  }

  lemma FullHouseHandNoStraight()
    ensures !IsStraight(FullHouseHand()) && !IsRoyalFlush(FullHouseHand())
  {
    var cards := FullHouseHand();
    FullHouseHandNumbers();
    if IsStraight(cards) {
      StraightNeedsFiveRanks(cards);
    }
    if IsRoyalFlush(cards) {
      RoyalFlushIsFlushAndStraight(cards);
    }
  }

  /** That hand scores as a full house (600). */
  lemma FullHouseExample()
    ensures EvaluateHand(FullHouseHand()) == Some(600)
  {
    var cards := FullHouseHand();
    FullHouseHandNoStraight();
    FullHouseHandCounts();
    FullHouseScores600(cards);
  }

  /** Hearts 2, 3, 4, 5, 9, K and the six of diamonds. */
  function AcrossSuitsHand(): seq<Card>
  {
    [Card("H", 2), Card("H", 3), Card("H", 4), Card("H", 5), Card("D", 6), Card("H", 9), Card("H", 13)]
  }

  lemma AcrossSuitsHearts()
    ensures SuitNumbers(AcrossSuitsHand(), "H") == {2, 3, 4, 5, 9, 13}
  {
    var cards := AcrossSuitsHand();
    assert cards[0] in cards;
    assert cards[1] in cards;
  }

  lemma AcrossSuitsOtherSuits(s: string)
    requires s != "H"
    ensures SuitNumbers(AcrossSuitsHand(), s) <= {6}
  {
  }

  /** In that hand no single suit holds five consecutive ranks. */
  lemma AcrossSuitsNoSuitedRun(s: string, x: int)
    ensures !RunFrom(SuitNumbers(AcrossSuitsHand(), s), x)
  {
    hide SuitNumbers, AcrossSuitsHand;
    if s == "H" {
      AcrossSuitsHearts();
    } else {
      AcrossSuitsOtherSuits(s);
    }
  }

  lemma AcrossSuitsRanks()
    ensures NumberSet(AcrossSuitsHand()) == {2, 3, 4, 5, 6, 9, 13}
  {
    assert Numbers(AcrossSuitsHand()) == [2, 3, 4, 5, 6, 9, 13];
  }

  lemma AcrossSuitsHeartCount()
    ensures SuitCount(AcrossSuitsHand(), "H") == 6
  {
    assert SuitsOf(AcrossSuitsHand()) == ["H", "H", "H", "H", "D", "H", "H"];
  }

  lemma AcrossSuitsStraight()
    ensures IsStraight(AcrossSuitsHand())
  {
    var cards := AcrossSuitsHand();
    AcrossSuitsRanks();
    assert RunFrom(NumberSet(cards), 2);
    StraightIff(cards);
  }

  lemma AcrossSuitsFlush()
    ensures IsFlush(AcrossSuitsHand())
  {
    var cards := AcrossSuitsHand();
    AcrossSuitsHeartCount();
    assert cards[0] in cards && cards[0].suit == "H";
  }

  lemma AcrossSuitsNotRoyal()
    ensures !IsRoyalFlush(AcrossSuitsHand())
  {
    var cards := AcrossSuitsHand();
    if IsRoyalFlush(cards) {
      var c :| c in cards && RoyalRanks <= SuitNumbers(cards, c.suit);
      if c.suit == "H" {
        AcrossSuitsHearts();
      } else {
        AcrossSuitsOtherSuits(c.suit);
      }
    }
  }

  /**
   * Yet it scores as a straight flush (800): a flush in hearts and a straight
   * from two to six that needs the six of diamonds.
   */
  lemma StraightFlushAcrossSuits()
    ensures EvaluateHand(AcrossSuitsHand()) == Some(800)
  {
    AcrossSuitsNotRoyal();
    AcrossSuitsFlush();
    AcrossSuitsStraight();
    assert FirstMatch(AcrossSuitsHand(), 0) == FirstMatch(AcrossSuitsHand(), 1) == Some(StraightFlush);
  }

  // ---------------------------------------------------------------------------
  // evaluate_hand
  // ---------------------------------------------------------------------------

  /**
   * With ranks in 2..14 the high-card fallback stays below every category
   * score: the score is below 100 exactly when no category matches.
   */
  lemma HighCardBelowCategories(cards: seq<Card>)
    requires cards != []
    requires forall c :: c in cards ==> LowRank <= c.number <= HighRank
    ensures EvaluateHand(cards).Some?
    ensures EvaluateHand(cards).value < 100 <==> !HasCategory(cards)
    ensures HasCategory(cards) ==> EvaluateHand(cards).value in CategoryScores
    ensures !HasCategory(cards) ==> LowRank <= EvaluateHand(cards).value <= HighRank
  {
    FirstMatchNone(cards, 0);
    if !HasCategory(cards) {
      var m := MaxNumber(cards);
      var i :| 0 <= i < |cards| && Numbers(cards)[i] == m;
      assert cards[i] in cards;
    }
  }

  /** Taking out one card of a permutation leaves a permutation of the rest. */
  lemma RemoveMatched(a: seq<Card>, b: seq<Card>) returns (left: seq<Card>, right: seq<Card>)
    requires a != [] && multiset(a) == multiset(b)
    ensures b == left + [a[0]] + right
    ensures multiset(a[1..]) == multiset(left + right)
  {
    var x := a[0];
    assert x in multiset(b);
    var j :| 0 <= j < |b| && b[j] == x;
    left, right := b[..j], b[j + 1..];
    assert b == left + [x] + right;
    assert a == [x] + a[1..];
    assert multiset(left + right) == multiset(b) - multiset{x};
  }

  /** The ranks of a permutation are a permutation of the ranks. */
  lemma {:induction false} NumbersPermutation(a: seq<Card>, b: seq<Card>)
    requires multiset(a) == multiset(b)
    ensures multiset(Numbers(a)) == multiset(Numbers(b))
    decreases |a|
  {
    if a == [] {
      assert |multiset(b)| == 0;
    } else {
      var x := a[0];
      var left, right := RemoveMatched(a, b);
      NumbersPermutation(a[1..], left + right);
      NumbersConcat(left + [x], right);
      NumbersConcat(left, [x]);
      NumbersConcat(left, right);
      NumbersConcat([x], a[1..]);
      assert a == [x] + a[1..];
      assert Numbers([x]) == [x.number];
      calc {
        multiset(Numbers(b));
        multiset(Numbers(left) + [x.number] + Numbers(right));
        multiset(Numbers(left) + Numbers(right)) + multiset{x.number};
        multiset(Numbers(a[1..])) + multiset{x.number};
        multiset(Numbers(a));
      }
    }
  }

  /** The suits of a permutation are a permutation of the suits. */
  lemma {:induction false} SuitsPermutation(a: seq<Card>, b: seq<Card>)
    requires multiset(a) == multiset(b)
    ensures multiset(SuitsOf(a)) == multiset(SuitsOf(b))
    decreases |a|
  {
    if a == [] {
      assert |multiset(b)| == 0;
    } else {
      var x := a[0];
      var left, right := RemoveMatched(a, b);
      SuitsPermutation(a[1..], left + right);
      NumbersConcat(left + [x], right);
      NumbersConcat(left, [x]);
      NumbersConcat(left, right);
      NumbersConcat([x], a[1..]);
      assert a == [x] + a[1..];
      assert SuitsOf([x]) == [x.suit];
      calc {
        multiset(SuitsOf(b));
        multiset(SuitsOf(left) + [x.suit] + SuitsOf(right));
        multiset(SuitsOf(left) + SuitsOf(right)) + multiset{x.suit};
        multiset(SuitsOf(a[1..])) + multiset{x.suit};
        multiset(SuitsOf(a));
      }
    }
  }

  lemma MembershipPermutation(a: seq<Card>, b: seq<Card>)
    requires multiset(a) == multiset(b)
    ensures forall c :: c in a <==> c in b
  {
    forall c
      ensures c in a <==> c in b
    {
      assert c in a <==> c in multiset(a);
      assert c in b <==> c in multiset(b);
    }
  }

  lemma NumberSetPermutation(a: seq<Card>, b: seq<Card>)
    requires multiset(a) == multiset(b)
    ensures NumberSet(a) == NumberSet(b)
  {
    NumbersPermutation(a, b);
    forall n
      ensures n in Numbers(a) <==> n in Numbers(b)
    {
      assert n in Numbers(a) <==> n in multiset(Numbers(a));
      assert n in Numbers(b) <==> n in multiset(Numbers(b));
    }
  }

  lemma RoyalFlushPermutation(a: seq<Card>, b: seq<Card>)
    requires multiset(a) == multiset(b)
    ensures IsRoyalFlush(a) == IsRoyalFlush(b)
  {
    MembershipPermutation(a, b);
    forall s
      ensures SuitNumbers(a, s) == SuitNumbers(b, s)
    {
    }
    if IsRoyalFlush(a) {
      var c :| c in a && RoyalRanks <= SuitNumbers(a, c.suit);
      assert c in b;
    }
    if IsRoyalFlush(b) {
      var c :| c in b && RoyalRanks <= SuitNumbers(b, c.suit);
      assert c in a;
    }
  }

  lemma FlushPermutation(a: seq<Card>, b: seq<Card>)
    requires multiset(a) == multiset(b)
    ensures IsFlush(a) == IsFlush(b)
  {
    MembershipPermutation(a, b);
    SuitsPermutation(a, b);
    if IsFlush(a) {
      var c :| c in a && SuitCount(a, c.suit) >= 5;
      assert c in b;
    }
    if IsFlush(b) {
      var c :| c in b && SuitCount(b, c.suit) >= 5;
      assert c in a;
    }
  }

  lemma MaxNumberPermutation(a: seq<Card>, b: seq<Card>)
    requires a != [] && multiset(a) == multiset(b)
    ensures b != [] && MaxNumber(a) == MaxNumber(b)
  {
    assert |b| == |multiset(b)| == |multiset(a)| == |a|;
    NumberSetPermutation(a, b);
    var ma, mb := MaxNumber(a), MaxNumber(b);
    assert ma in NumberSet(a) && mb in NumberSet(b);
    NumberWitness(b, ma);
    NumberWitness(a, mb);
    var ca :| ca in b && ca.number == ma;
    var cb :| cb in a && cb.number == mb;
    assert ma <= mb && mb <= ma;
  }

  lemma SameNumbersCountPermutation(a: seq<Card>, b: seq<Card>)
    requires multiset(a) == multiset(b)
    ensures SameNumbersCount(a) == SameNumbersCount(b)
  {
    NumbersPermutation(a, b);
    CountMapPermutation(Numbers(a), Numbers(b));
    SameNumbersCountReversed(a);
    SameNumbersCountReversed(b);
  }

  lemma StraightPermutation(a: seq<Card>, b: seq<Card>)
    requires multiset(a) == multiset(b)
    ensures IsStraight(a) == IsStraight(b)
  {
    NumberSetPermutation(a, b);
    StraightIff(a);
    StraightIff(b);
  }

  /** Each category predicate gives the same answer on a rearrangement. */
  lemma HoldsPermutation(category: Category, a: seq<Card>, b: seq<Card>)
    requires multiset(a) == multiset(b)
    ensures Holds(category, a) == Holds(category, b)
  {
    SameNumbersCountPermutation(a, b);
    match category
    case RoyalFlush => RoyalFlushPermutation(a, b);
    case StraightFlush => FlushPermutation(a, b); StraightPermutation(a, b);
    case Flush => FlushPermutation(a, b);
    case Straight => StraightPermutation(a, b);
    case _ =>
  }

  lemma {:induction false} FirstMatchPermutation(a: seq<Card>, b: seq<Card>, i: nat)
    requires multiset(a) == multiset(b) && i <= |Ranking|
    ensures FirstMatch(a, i) == FirstMatch(b, i)
    decreases |Ranking| - i
  {
    hide Holds;
    if i < |Ranking| {
      HoldsPermutation(Ranking[i], a, b);
      FirstMatchPermutation(a, b, i + 1);
    }
  }

  /** The score depends only on which cards are held, not on their order. */
  lemma EvaluateHandPermutation(a: seq<Card>, b: seq<Card>)
    requires multiset(a) == multiset(b)
    ensures EvaluateHand(a) == EvaluateHand(b)
  {
    FirstMatchPermutation(a, b, 0);
    if a != [] {
      MaxNumberPermutation(a, b);
    } else {
      assert b == [];
    }
  }
}
