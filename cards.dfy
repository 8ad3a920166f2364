/** The failure-compatible value used wherever the source raises an exception. */
module Optional {
  datatype Option<T> = None | Some(value: T)
}

/**
 * Playing cards and the deck they are dealt from (main.py, classes Card and Deck).
 */
module Cards {

  /** The suits of the generated deck, in generation order: hearts, diamonds, clubs, spades. */
  const DeckSuits: seq<string> := ["H", "D", "C", "S"]

  /** Ranks run from 2 to 14; 11 = jack, 12 = queen, 13 = king, 14 = ace. */
  const LowRank: int := 2
  const HighRank: int := 14

  /** A card is a value; the source never changes a card after building it. */
  datatype Card = Card(suit: string, number: int)

  /** A card the generated deck can hold. */
  predicate ValidCard(c: Card)
  {
    c.suit in DeckSuits && LowRank <= c.number <= HighRank
  }

  /** `Card.same`: field-by-field comparison, which is exactly value equality. */
  function Same(a: Card, b: Card): (r: bool)
    ensures r <==> a == b
  {
    a.suit == b.suit && a.number == b.number
  }

  predicate NoDuplicates(cards: seq<Card>)
  {
    forall i, j :: 0 <= i < j < |cards| ==> cards[i] != cards[j]
  }

  // ---------------------------------------------------------------------------
  // generate_deck
  // ---------------------------------------------------------------------------

  /** The inner comprehension for one suit: its 13 cards, ranks ascending. */
  function SuitRow(suit: string): seq<Card>
  {
    seq(13, k requires 0 <= k < 13 => Card(suit, LowRank + k))
  }

  /** `generate_deck`'s `[Card(suit, number) for suit in suits for number in numbers]`, suit-major. */
  function GenerateDeck(suits: seq<string>): (deck: seq<Card>)
    ensures |deck| == 13 * |suits|
  {
    if suits == [] then [] else SuitRow(suits[0]) + GenerateDeck(suits[1..])
  }

  /**
   * The generated deck in closed form: card `i` has suit `i / 13` of
   * H, D, C, S and rank `2 + i % 13`.
   */
  function FullDeck(): seq<Card>
  {
    seq(52, i requires 0 <= i < 52 => Card(DeckSuits[i / 13], LowRank + i % 13))
  }

  /** Card i of the generated product sits in suit i / 13 with rank 2 + i % 13. */
  lemma {:induction false} GenerateDeckAt(suits: seq<string>, i: int)
    requires 0 <= i < 13 * |suits|
    ensures GenerateDeck(suits)[i] == Card(suits[i / 13], LowRank + i % 13)
  {
    if i >= 13 {
      GenerateDeckAt(suits[1..], i - 13);
      assert (i - 13) / 13 == i / 13 - 1 && (i - 13) % 13 == i % 13;
    }
  }

  /** The nested comprehension yields the 52 cards suit-major (H, D, C, S), rank-ascending inside each suit. */
  lemma GenerateDeckOrder()
    ensures GenerateDeck(DeckSuits) == FullDeck()
  {
    forall i | 0 <= i < 52
      ensures GenerateDeck(DeckSuits)[i] == FullDeck()[i]
    {
      GenerateDeckAt(DeckSuits, i);
    }
  }

  /** Every (suit, number) pair of the four suits and ranks 2..14 is in the deck, and nothing else. */
  lemma FullDeckMembership(c: Card)
    ensures c in FullDeck() <==> ValidCard(c)
  {
    if ValidCard(c) {
      var s :| 0 <= s < 4 && DeckSuits[s] == c.suit;
      var i := 13 * s + (c.number - LowRank);
      assert i / 13 == s && i % 13 == c.number - LowRank;
      assert FullDeck()[i] == c;
    }
    if c in FullDeck() {
      var i :| 0 <= i < 52 && FullDeck()[i] == c;
      assert DeckSuits[i / 13] in DeckSuits;
    }
  }

  /** No two positions of the deck hold cards that are `same`. */
  lemma FullDeckDistinct()
    ensures forall i, j :: 0 <= i < j < |FullDeck()| ==> !Same(FullDeck()[i], FullDeck()[j])
  {
    forall i, j | 0 <= i < j < 52
      ensures FullDeck()[i] != FullDeck()[j]
    {
      assert i / 13 != j / 13 || i % 13 != j % 13;
    }
  }

  // ---------------------------------------------------------------------------
  // remove_cards
  // ---------------------------------------------------------------------------

  /** `any(card.same(c) for c in cards_to_remove)` */
  predicate Matches(card: Card, toRemove: seq<Card>)
  {
    exists c | c in toRemove :: Same(card, c)
  }

  /** The list comprehension of `remove_cards`: the cards that match nothing, in order. */
  function Filtered(cards: seq<Card>, toRemove: seq<Card>): (kept: seq<Card>)
    ensures |kept| <= |cards|
  {
    if cards == [] then []
    else (if Matches(cards[0], toRemove) then [] else [cards[0]]) + Filtered(cards[1..], toRemove)
  }

  /** `a` can be obtained from `b` by deleting elements (order is kept). */
  predicate IsSubsequence(a: seq<Card>, b: seq<Card>)
    decreases |b|
  {
    a == [] || (b != [] && if a[0] == b[0] then IsSubsequence(a[1..], b[1..]) else IsSubsequence(a, b[1..]))
  }

  /** A card survives exactly when it was in the deck and matches no card to remove. */
  lemma {:induction false} FilteredMembership(cards: seq<Card>, toRemove: seq<Card>, c: Card)
    ensures c in Filtered(cards, toRemove) <==> c in cards && !Matches(c, toRemove)
  {
    if cards != [] {
      FilteredMembership(cards[1..], toRemove, c);
      assert cards == [cards[0]] + cards[1..];
    }
  }

  /** The survivors keep their original relative order. */
  lemma {:induction false} FilteredIsSubsequence(cards: seq<Card>, toRemove: seq<Card>)
    ensures IsSubsequence(Filtered(cards, toRemove), cards)
  {
    if cards != [] {
      FilteredIsSubsequence(cards[1..], toRemove);
      var rest := Filtered(cards[1..], toRemove);
      if !Matches(cards[0], toRemove) {
        assert Filtered(cards, toRemove) == [cards[0]] + rest;
      } else {
        assert Filtered(cards, toRemove) == rest;
        SubsequenceOfTail(rest, cards);
      }
    }
  }

  lemma {:induction false} SubsequenceOfTail(a: seq<Card>, b: seq<Card>)
    requires b != [] && IsSubsequence(a, b[1..])
    ensures IsSubsequence(a, b)
    decreases |b|, |a|
  {
    if a != [] && a[0] == b[0] {
      // a[0] also occurs in b[1..] at the position the hypothesis matched it;
      // dropping it there gives a subsequence of the shorter tail.
      SubsequenceDropHead(a, b[1..]);
    }
  }

  lemma {:induction false} SubsequenceDropHead(a: seq<Card>, b: seq<Card>)
    requires a != [] && IsSubsequence(a, b)
    ensures IsSubsequence(a[1..], b)
    decreases |b|, |a|
  {
    if a[0] == b[0] {
      if a[1..] != [] {
        SubsequenceOfTail(a[1..], b);
      }
    } else {
      SubsequenceDropHead(a, b[1..]);
      if a[1..] != [] {
        SubsequenceOfTail(a[1..], b);
      }
    }
  }

  /** Removing the same cards a second time changes nothing. */
  lemma {:induction false} FilteredIdempotent(cards: seq<Card>, toRemove: seq<Card>)
    ensures Filtered(Filtered(cards, toRemove), toRemove) == Filtered(cards, toRemove)
  {
    if cards != [] {
      FilteredIdempotent(cards[1..], toRemove);
      var rest := Filtered(cards[1..], toRemove);
      if !Matches(cards[0], toRemove) {
        var once := Filtered(cards, toRemove);
        assert once == [cards[0]] + rest;
        assert once != [] && once[0] == cards[0] && once[1..] == rest;
      } else {
        assert Filtered(cards, toRemove) == rest;
      }
    }
  }

  /** On a deck without duplicates the length drops by exactly the number of deck cards listed for removal. */
  lemma {:induction false} FilteredLength(cards: seq<Card>, toRemove: seq<Card>)
    requires NoDuplicates(cards)
    ensures |Filtered(cards, toRemove)| == |cards| - |set c | c in cards && c in toRemove|
  {
    if cards == [] {
      assert (set c | c in cards && c in toRemove) == {};
    } else {
      var x, tail := cards[0], cards[1..];
      assert NoDuplicates(tail);
      FilteredLength(tail, toRemove);
      var s := set c | c in cards && c in toRemove;
      var t := set c | c in tail && c in toRemove;
      assert x !in tail;
      assert Matches(x, toRemove) <==> x in toRemove;
      if x in toRemove {
        assert s == t + {x};
      } else {
        assert s == t;
      }
    }
  }

  /** Filtering keeps a deck free of duplicates. */
  lemma {:induction false} FilteredNoDuplicates(cards: seq<Card>, toRemove: seq<Card>)
    requires NoDuplicates(cards)
    ensures NoDuplicates(Filtered(cards, toRemove))
  {
    if cards != [] {
      var tail := cards[1..];
      assert NoDuplicates(tail);
      FilteredNoDuplicates(tail, toRemove);
      var rest := Filtered(tail, toRemove);
      if !Matches(cards[0], toRemove) {
        FilteredMembership(tail, toRemove, cards[0]);
        assert cards[0] !in tail;
        var kept := [cards[0]] + rest;
        assert Filtered(cards, toRemove) == kept;
        forall i, j | 0 <= i < j < |kept|
          ensures kept[i] != kept[j]
        {
          if i == 0 {
            assert kept[j] == rest[j - 1] && rest[j - 1] in rest;
          } else {
            assert kept[i] == rest[i - 1] && kept[j] == rest[j - 1];
          }
        }
      } else {
        assert Filtered(cards, toRemove) == rest;
      }
    }
  }

  /** A list without duplicates holds each card at most once. */
  lemma {:induction false} NoDuplicatesCount(cards: seq<Card>, c: Card)
    requires NoDuplicates(cards)
    ensures multiset(cards)[c] <= 1
  {
    if cards != [] {
      var tail := cards[1..];
      assert cards == [cards[0]] + tail;
      assert NoDuplicates(tail);
      NoDuplicatesCount(tail, c);
      if cards[0] == c {
        assert c !in tail;
      }
    }
  }

  /** Every rearrangement of the generated deck, as a shuffle produces, is free of duplicates. */
  lemma ShuffledNoDuplicates(shuffled: seq<Card>)
    requires multiset(shuffled) == multiset(FullDeck())
    ensures NoDuplicates(shuffled)
  {
    FullDeckDistinct();
    forall i, j | 0 <= i < j < |shuffled|
      ensures shuffled[i] != shuffled[j]
    {
      NoDuplicatesCount(FullDeck(), shuffled[i]);
      RepeatCount(shuffled, i, j);
    }
  }

  /** A card at two positions of a list is counted at least twice. */
  lemma RepeatCount(cards: seq<Card>, i: int, j: int)
    requires 0 <= i < j < |cards|
    ensures cards[i] == cards[j] ==> multiset(cards)[cards[i]] >= 2
  {
    if cards[i] == cards[j] {
      var c := cards[i];
      assert cards == cards[..i] + [c] + cards[i + 1..j] + [c] + cards[j + 1..];
    }
  }

  /** Removing nothing leaves the deck as it is. */
  lemma {:induction false} FilteredNothing(cards: seq<Card>)
    ensures Filtered(cards, []) == cards
  {
    if cards != [] {
      FilteredNothing(cards[1..]);
      assert cards == [cards[0]] + cards[1..];
    }
  }

  // ---------------------------------------------------------------------------
  // class Deck
  // ---------------------------------------------------------------------------

  class Deck {
    var cards: seq<Card>

    /** `Deck()` starts from the generated 52-card deck. */
    constructor ()
      ensures cards == FullDeck()
    {
      cards := GenerateDeck(DeckSuits);
      GenerateDeckOrder();
    }

    /**
     * `shuffle`: the random permutation is the caller's argument, so the new
     * order is any rearrangement of the current cards.
     */
    method Shuffle(shuffled: seq<Card>)
      requires multiset(shuffled) == multiset(cards)
      modifies this
      ensures cards == shuffled
    {
      cards := shuffled;
    }

    /** `remove_cards`: keep, in order, the cards matching nothing in `toRemove`. */
    method RemoveCards(toRemove: seq<Card>)
      modifies this
      ensures cards == Filtered(old(cards), toRemove)
    {
      cards := Filtered(cards, toRemove);
    }
  }
}
