/**
 * One trial of `poker_chances` (main.py lines 44-62): `fill_cards` deals
 * the table and every hand from a shuffled deck, `simulate_game` scores the
 * hands and compares the player's score with the best opponent score.
 * The shuffle is an argument: any rearrangement of the generated deck.
 */
module Dealer {
  import opened Optional
  import opened Cards
  import opened Evaluator

  /** The table is filled up to five cards, every hand up to three. */
  const TableSize: int := 5
  const HandSize: int := 3

  // ---------------------------------------------------------------------------
  // Python slicing
  // ---------------------------------------------------------------------------

  /**
   * Where `s[:k]` ends and `s[k:]` starts for a list of length `n`: a
   * negative `k` counts from the end, and both are clamped to the list.
   */
  function SliceIndex(n: nat, k: int): (j: nat)
    ensures j <= n
  {
    if k < 0 then (if n + k < 0 then 0 else n + k)
    else if k > n then n
    else k
  }

  /** `s[:k]` */
  function Take(s: seq<Card>, k: int): seq<Card>
  {
    s[..SliceIndex(|s|, k)]
  }

  /** `s[k:]` */
  function Drop(s: seq<Card>, k: int): seq<Card>
  {
    s[SliceIndex(|s|, k)..]
  }

  // ---------------------------------------------------------------------------
  // fill_cards
  // ---------------------------------------------------------------------------

  /** The pair `fill_cards` returns: the filled cards and the rest of the deck. */
  datatype Filled = Filled(hand: seq<Card>, rest: seq<Card>)

  /**
   * `fill_cards` on a deck holding `deck`: drop the known `cards` from the
   * deck, top them up with the first `total - len(cards)` remaining cards and
   * hand back the cards after those.
   */
  function Fill(deck: seq<Card>, cards: seq<Card>, total: int): Filled
  {
    var remaining := Filtered(deck, cards);
    var k := total - |cards|;
    Filled(cards + Take(remaining, k), Drop(remaining, k))
  }

  /** No card is lost or repeated: the hand and the rest are the known cards and the remaining deck. */
  lemma FillSplits(deck: seq<Card>, cards: seq<Card>, total: int)
    ensures var f := Fill(deck, cards, total);
            f.hand + f.rest == cards + Filtered(deck, cards)
  {
    var remaining := Filtered(deck, cards);
    var k := total - |cards|;
    assert Take(remaining, k) + Drop(remaining, k) == remaining;
  }

  /**
   * With no more known cards than the total, the known cards are followed by
   * the next remaining cards: exactly `total` of them when the deck has
   * enough, all that is left (and no error) when it has not.
   */
  lemma FillSize(deck: seq<Card>, cards: seq<Card>, total: int)
    requires |cards| <= total
    ensures var f := Fill(deck, cards, total);
            var remaining := Filtered(deck, cards);
            if |cards| + |remaining| >= total then
              f.hand == cards + remaining[..total - |cards|] && |f.hand| == total
            else
              f.hand == cards + remaining && f.rest == []
  {
  }

  /**
   * With more known cards than the total, `total - len(cards)` is negative
   * and the slice counts from the end of the deck: all but the last
   * `len(cards) - total` remaining cards are added as well.
   */
  lemma FillOverfull(deck: seq<Card>, cards: seq<Card>, total: int)
    requires |cards| > total
    ensures var f := Fill(deck, cards, total);
            var remaining := Filtered(deck, cards);
            var excess := |cards| - total;
            if excess <= |remaining| then
              f.hand == cards + remaining[..|remaining| - excess]
              && f.rest == remaining[|remaining| - excess..]
            else
              f.hand == cards && f.rest == remaining
  {
  }

  /** A deck of at least five cards and no known table cards gives a table of the first five. */
  lemma FillFromTop(deck: seq<Card>, total: nat)
    requires total <= |deck|
    ensures Fill(deck, [], total) == Filled(deck[..total], deck[total..])
  {
    FilteredNothing(deck);
    assert Take(deck, total) == deck[..total];
    assert Drop(deck, total) == deck[total..];
  }

  /** Dealing from a deck without duplicates leaves a deck without duplicates. */
  lemma FillRestNoDuplicates(deck: seq<Card>, cards: seq<Card>, total: int)
    requires NoDuplicates(deck)
    ensures NoDuplicates(Fill(deck, cards, total).rest)
  {
    FilteredNoDuplicates(deck, cards);
  }

  /**
   * `fill_cards` itself: `remove_cards` changes the deck in place, and the
   * filled cards and the rest are returned.
   */
  method FillCards(deck: Deck, cards: seq<Card>, total: int) returns (hand: seq<Card>, rest: seq<Card>)
    modifies deck
    ensures deck.cards == Filtered(old(deck.cards), cards)
    ensures Filled(hand, rest) == Fill(old(deck.cards), cards, total)
  {
    deck.RemoveCards(cards);
    var remainingTableCards := total - |cards|;
    hand := cards + Take(deck.cards, remainingTableCards);
    rest := Drop(deck.cards, remainingTableCards);
  }

  // ---------------------------------------------------------------------------
  // Dealing one trial
  // ---------------------------------------------------------------------------

  /**
   * The opponents' loop: each opponent's `fill_cards` removes that
   * opponent's known cards from the deck for good, but the rest it returns is
   * discarded, so the dealt cards stay in the deck for the next opponent.
   */
  function DealOpponents(deck: seq<Card>, others: seq<seq<Card>>): (hands: seq<seq<Card>>)
    ensures |hands| == |others|
    decreases |others|
  {
    if others == [] then []
    else [Fill(deck, others[0], HandSize).hand] + DealOpponents(Filtered(deck, others[0]), others[1..])
  }

  /** The deck after removing each list of known cards in turn. */
  function RemoveEach(deck: seq<Card>, known: seq<seq<Card>>): seq<Card>
    decreases |known|
  {
    if known == [] then deck else RemoveEach(Filtered(deck, known[0]), known[1..])
  }

  /**
   * Opponent `i` is filled from the deck with the known cards of opponents
   * `0..i` removed, and from nothing else.
   */
  lemma {:induction false} DealOpponentsAt(deck: seq<Card>, others: seq<seq<Card>>, i: int)
    requires 0 <= i < |others|
    ensures DealOpponents(deck, others)[i] == Fill(RemoveEach(deck, others[..i]), others[i], HandSize).hand
    decreases i
  {
    if i > 0 {
      DealOpponentsAt(Filtered(deck, others[0]), others[1..], i - 1);
      assert others[..i][1..] == others[1..][..i - 1];
    }
  }

  /**
   * Opponents with no known cards, with none but such opponents before them,
   * all get the same three cards.
   */
  lemma UnknownOpponentsSameFill(deck: seq<Card>, others: seq<seq<Card>>, i: int, j: int)
    requires 0 <= i < j < |others|
    requires forall k :: 0 <= k <= j ==> others[k] == []
    ensures DealOpponents(deck, others)[i] == DealOpponents(deck, others)[j]
    ensures DealOpponents(deck, others)[i] == Take(deck, HandSize)
  {
    RemoveEachNothing(deck, others[..i]);
    RemoveEachNothing(deck, others[..j]);
    DealOpponentsAt(deck, others, i);
    DealOpponentsAt(deck, others, j);
    FilteredNothing(deck);
  }

  lemma {:induction false} RemoveEachNothing(deck: seq<Card>, known: seq<seq<Card>>)
    requires forall k :: 0 <= k < |known| ==> known[k] == []
    ensures RemoveEach(deck, known) == deck
  {
    if known != [] {
      FilteredNothing(deck);
      RemoveEachNothing(deck, known[1..]);
    }
  }

  /** What one trial deals: the table, the player's hand and each opponent's hand. */
  datatype Deal = Deal(table: seq<Card>, player: seq<Card>, opponents: seq<seq<Card>>)

  /**
   * The dealing of `simulate_game`: the table's known cards are removed and
   * the table filled to five; the player's known cards are removed from
   * what is left and the hand filled to three; then the opponents.
   */
  function DealTrial(onTable: seq<Card>, player: seq<Card>, others: seq<seq<Card>>, shuffled: seq<Card>): Deal
  {
    var table := Fill(shuffled, onTable, TableSize);
    var hand := Fill(table.rest, player, HandSize);
    Deal(table.hand, hand.hand, DealOpponents(hand.rest, others))
  }

  /**
   * Only the table's own known cards are removed before the table is dealt:
   * a card the player is known to hold, lying on top of the shuffled deck,
   * is dealt to the table as well.
   */
  lemma PlayerCardDealtToTable(shuffled: seq<Card>)
    requires |shuffled| >= TableSize
    ensures var d := DealTrial([], [shuffled[0]], [], shuffled);
            shuffled[0] in d.table && shuffled[0] in d.player
  {
    FillFromTop(shuffled, TableSize as nat);
  }

  // ---------------------------------------------------------------------------
  // Scoring one trial
  // ---------------------------------------------------------------------------

  /** `max(other_best_hands)`: a left-to-right scan that keeps the larger value. */
  function MaxScore(scores: seq<int>): (m: int)
    requires scores != []
    ensures m in scores
    ensures forall i :: 0 <= i < |scores| ==> scores[i] <= m
  {
    var last := scores[|scores| - 1];
    if |scores| == 1 then last
    else
      var before := MaxScore(scores[..|scores| - 1]);
      if last > before then last else before
  }

  /**
   * `[evaluate_hand(hand + table_cards) for hand in other_players_hand]`;
   * `None` where an evaluation raises.
   */
  function OpponentScores(hands: seq<seq<Card>>, table: seq<Card>): (scores: Option<seq<int>>)
    ensures scores.Some? ==> |scores.value| == |hands|
  {
    if hands == [] then Some([])
    else
      var init := OpponentScores(hands[..|hands| - 1], table);
      var last := EvaluateHand(hands[|hands| - 1] + table);
      if init.None? || last.None? then None else Some(init.value + [last.value])
  }

  /** The list holds each opponent's score, in order, and exists exactly when no evaluation raises. */
  lemma {:induction false} OpponentScoresMeaning(hands: seq<seq<Card>>, table: seq<Card>)
    ensures var scores := OpponentScores(hands, table);
            (scores.Some? <==> forall i :: 0 <= i < |hands| ==> EvaluateHand(hands[i] + table).Some?)
            && (scores.Some? ==> forall i :: 0 <= i < |hands| ==> Some(scores.value[i]) == EvaluateHand(hands[i] + table))
  {
    hide EvaluateHand;
    if hands != [] {
      var init := hands[..|hands| - 1];
      OpponentScoresMeaning(init, table);
      assert forall i :: 0 <= i < |init| ==> init[i] == hands[i];
    }
  }

  /**
   * `simulate_game` with the shuffle given: `Some(true)` for a win,
   * `Some(false)` for a loss, `None` where the source raises (an empty hand
   * to evaluate, or `max` of no opponents).
   */
  function Simulate(onTable: seq<Card>, player: seq<Card>, others: seq<seq<Card>>, shuffled: seq<Card>): Option<bool>
  {
    var deal := DealTrial(onTable, player, others, shuffled);
    Compare(EvaluateHand(deal.player + deal.table), OpponentScores(deal.opponents, deal.table))
  }

  /** `player_best_hand > max(other_best_hands)`, failing where either side failed or `max` has nothing. */
  function Compare(playerBest: Option<int>, otherBest: Option<seq<int>>): Option<bool>
  {
    if playerBest.None? || otherBest.None? || otherBest.value == [] then None
    else Some(playerBest.value > MaxScore(otherBest.value))
  }

  /** With no opponents `max` has nothing to compare, and the trial fails. */
  lemma NoOpponentsFails(onTable: seq<Card>, player: seq<Card>, shuffled: seq<Card>)
    ensures Simulate(onTable, player, [], shuffled) == None
  {
  }

  /** The player beats the best opponent exactly when the player beats every opponent. */
  lemma CompareWinIff(playerBest: Option<int>, otherBest: Option<seq<int>>)
    ensures Compare(playerBest, otherBest) == Some(true)
            <==> playerBest.Some? && otherBest.Some? && otherBest.value != []
                 && forall i :: 0 <= i < |otherBest.value| ==> otherBest.value[i] < playerBest.value
  {
    if playerBest.Some? && otherBest.Some? && otherBest.value != [] {
      var scores := otherBest.value;
      var m := MaxScore(scores);
      var k :| 0 <= k < |scores| && scores[k] == m;
    }
  }

  /**
   * A trial is won exactly when the player's score is strictly above every
   * opponent's score; a tie with the best opponent is a loss.
   */
  lemma WinIff(onTable: seq<Card>, player: seq<Card>, others: seq<seq<Card>>, shuffled: seq<Card>)
    ensures var deal := DealTrial(onTable, player, others, shuffled);
            var p := EvaluateHand(deal.player + deal.table);
            var os := OpponentScores(deal.opponents, deal.table);
            Simulate(onTable, player, others, shuffled) == Some(true)
            <==> others != [] && p.Some? && os.Some?
                 && forall i :: 0 <= i < |others| ==> os.value[i] < p.value
  {
    var deal := DealTrial(onTable, player, others, shuffled);
    CompareWinIff(EvaluateHand(deal.player + deal.table), OpponentScores(deal.opponents, deal.table));
  }

  /** A shuffle of the full deck always puts cards on the table. */
  lemma ShuffledTableNotEmpty(onTable: seq<Card>, player: seq<Card>, others: seq<seq<Card>>, shuffled: seq<Card>)
    requires multiset(shuffled) == multiset(FullDeck())
    ensures DealTrial(onTable, player, others, shuffled).table != []
  {
    if onTable == [] {
      assert |shuffled| == |multiset(shuffled)| == 52;
      FillFromTop(shuffled, TableSize as nat);
    }
  }

  /** With cards on the table every evaluation succeeds, and only `max` of no opponents can fail. */
  lemma TableMakesScores(deal: Deal)
    requires deal.table != []
    ensures EvaluateHand(deal.player + deal.table).Some?
    ensures OpponentScores(deal.opponents, deal.table).Some?
  {
    OpponentScoresMeaning(deal.opponents, deal.table);
  }

  /**
   * Dealt from a shuffle of the full deck, the only way a trial fails is an
   * empty list of opponents.
   */
  lemma ShuffledTrialFailsOnlyWithoutOpponents(onTable: seq<Card>, player: seq<Card>, others: seq<seq<Card>>, shuffled: seq<Card>)
    requires multiset(shuffled) == multiset(FullDeck())
    ensures Simulate(onTable, player, others, shuffled).Some? <==> others != []
  {
    var deal := DealTrial(onTable, player, others, shuffled);
    ShuffledTableNotEmpty(onTable, player, others, shuffled);
    TableMakesScores(deal);
  }

  // ---------------------------------------------------------------------------
  // simulate_game
  // ---------------------------------------------------------------------------

  /**
   * `simulate_game` step by step: a fresh deck is shuffled into the given
   * order, `deck.cards` is reassigned after the table and the player are
   * filled, each opponent's fill removes that opponent's known cards, and
   * the scores are compared.
   */
  method SimulateGame(onTable: seq<Card>, player: seq<Card>, others: seq<seq<Card>>, shuffled: seq<Card>)
    returns (outcome: Option<bool>)
    requires multiset(shuffled) == multiset(FullDeck())
    ensures outcome == Simulate(onTable, player, others, shuffled)
  {
    var deck := new Deck();
    deck.Shuffle(shuffled);
    var tableCards, rest := FillCards(deck, onTable, TableSize);
    deck.cards := rest;
    var playerHand, afterPlayer := FillCards(deck, player, HandSize);
    deck.cards := afterPlayer;
    var otherPlayersHand: seq<seq<Card>> := [];
    for i := 0 to |others|
      invariant otherPlayersHand + DealOpponents(deck.cards, others[i..]) == DealOpponents(afterPlayer, others)
    {
      assert others[i..][1..] == others[i + 1..];
      var hand, _ := FillCards(deck, others[i], HandSize);
      otherPlayersHand := otherPlayersHand + [hand];
    }
    assert otherPlayersHand == DealTrial(onTable, player, others, shuffled).opponents;

    var playerBestHand := EvaluateHand(playerHand + tableCards);
    var otherBestHands := EvaluateOpponents(otherPlayersHand, tableCards);
    outcome := Compare(playerBestHand, otherBestHands);
  }

  /** The list comprehension `other_best_hands`, stopping at the first evaluation that raises. */
  method EvaluateOpponents(hands: seq<seq<Card>>, table: seq<Card>) returns (scores: Option<seq<int>>)
    ensures scores == OpponentScores(hands, table)
  {
    var otherBestHands: seq<int> := [];
    for i := 0 to |hands|
      invariant OpponentScores(hands[..i], table) == Some(otherBestHands)
    {
      var score := EvaluateHand(hands[i] + table);
      assert hands[..i + 1][..i] == hands[..i];
      if score.None? {
        OpponentScoresPrefixNone(hands, table, i + 1);
        return None;
      }
      otherBestHands := otherBestHands + [score.value];
    }
    assert hands[..|hands|] == hands;
    return Some(otherBestHands);
  }

  /** Once an opponent's evaluation fails, the whole list of scores fails. */
  lemma OpponentScoresPrefixNone(hands: seq<seq<Card>>, table: seq<Card>, n: int)
    requires 0 <= n <= |hands| && OpponentScores(hands[..n], table) == None
    ensures OpponentScores(hands, table) == None
  {
    OpponentScoresMeaning(hands[..n], table);
    OpponentScoresMeaning(hands, table);
    var i :| 0 <= i < n && EvaluateHand(hands[..n][i] + table).None?;
    assert hands[i] == hands[..n][i];
  }
}
