/**
 * What the three policies do on the decks the simulation actually deals:
 * permutations of the full 79-card deck. Since only 13 distinct values
 * exist, a repeated value shows up within the first 14 cards, so a round
 * always ends with a bust, a completion or a bank, never by running out
 * of cards.
 */
module Rounds {
  import opened Deck
  import opened Draw

  /** The integers 0..n-1. */
  function Below(n: nat): set<int> {
    if n == 0 then {} else Below(n - 1) + {n - 1}
  }

  lemma {:induction false} BelowFacts(n: nat)
    ensures forall v :: v in Below(n) <==> 0 <= v < n
    ensures |Below(n)| == n
  {
    if n > 0 {
      BelowFacts(n - 1);
    }
  }

  lemma SubsetCard(a: set<int>, b: set<int>)
    requires a <= b
    ensures |a| <= |b|
  {
    assert b == a + (b - a);
  }

  /** A sequence without repeats has as many distinct values as cards. */
  lemma {:induction false} DistinctElemsCard(s: seq<int>)
    requires Distinct(s)
    ensures |Elems(s)| == |s|
  {
    if s != [] {
      var front := s[..|s| - 1];
      assert Distinct(front);
      DistinctElemsCard(front);
      assert s == front + [s[|s| - 1]];
      assert Elems(s) == Elems(front) + {s[|s| - 1]};
      assert s[|s| - 1] !in Elems(front);
    }
  }

  /** Pigeonhole: at most 13 number cards can be pairwise distinct. */
  lemma DistinctCardsAtMost(s: seq<int>)
    requires ValidCards(s) && Distinct(s)
    ensures |s| <= MaxValue + 1
  {
    DistinctElemsCard(s);
    BelowFacts(MaxValue + 1);
    assert Elems(s) <= Below(MaxValue + 1);
    SubsetCard(Elems(s), Below(MaxValue + 1));
  }

  /**
   * On a shuffled full deck the first repeated value comes within the first
   * 14 cards, well before the 79th.
   */
  lemma ShuffledDeckRepeats(deck: seq<int>)
    requires IsShuffledDeck(deck)
    ensures FirstRepeat(deck) <= MaxValue + 1 < |deck|
  {
    ShuffledDeckCards(deck);
    CardsRepeatWithin(deck);
  }

  /** In any sequence of number cards the first repeat comes within 14 cards. */
  lemma CardsRepeatWithin(deck: seq<int>)
    requires ValidCards(deck)
    ensures FirstRepeat(deck) <= MaxValue + 1
  {
    var k := FirstRepeat(deck);
    assert ValidCards(deck[..k]);
    DistinctCardsAtMost(deck[..k]);
  }

  /**
   * On a shuffled full deck simulateUniqueFlips (and so
   * simulateScoreBeforeDuplicate) stops on a bust or on a seventh distinct
   * card, never because the deck ran out.
   */
  lemma ShuffledUniqueFlipsStop(deck: seq<int>)
    requires IsShuffledDeck(deck)
    ensures var count := UniqueFlips(deck);
      && count < |deck|
      && (deck[count] in deck[..count] || (count == UniqueTarget - 1 && Distinct(deck[..UniqueTarget])))
  {
    ShuffledDeckRepeats(deck);
    UniqueFlipsStop(deck);
  }

  /**
   * On a shuffled full deck simulateBankingAfterN never reaches its
   * deck-exhaustion return, whatever n is: it banks, completes or busts.
   */
  lemma ShuffledBankingOutcomes(deck: seq<int>, n: int)
    requires IsShuffledDeck(deck)
    ensures var k := FirstRepeat(deck);
      BankingAfterN(deck, n) ==
        if 0 <= n < UniqueTarget && n <= k then Sum(deck[..n])
        else if k >= UniqueTarget then Sum(deck[..UniqueTarget]) + CompletionBonus
        else 0
  {
    ShuffledDeckRepeats(deck);
  }
}
