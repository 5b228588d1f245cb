/**
 * The deck builder of the Flip 7 simulation: the fixed table of how many
 * copies each number card has, and the construction of the unshuffled deck
 * that lists every value 0..12 as often as the table says, in ascending order.
 */
module Deck {

  /** The largest number card. Card values run from 0 to MaxValue inclusive. */
  const MaxValue: int := 12

  /** Number of cards in a full deck: 1 + (1 + 2 + ... + 12). */
  const DeckSize: int := 79

  /**
   * The count table: NumberCardCounts[v] copies of value v. Value 0 has one
   * copy, every other value v has v copies.
   */
  const NumberCardCounts: seq<nat> := [1, 1, 2, 3, 4, 5, 6, 7, 8, 9, 10, 11, 12]

  predicate IsCard(v: int) {
    0 <= v <= MaxValue
  }

  /** Every card of the sequence is a number card 0..12. */
  predicate ValidCards(s: seq<int>) {
    forall i :: 0 <= i < |s| ==> IsCard(s[i])
  }

  /** Non-decreasing order. */
  predicate Sorted(s: seq<int>) {
    forall i, j :: 0 <= i <= j < |s| ==> s[i] <= s[j]
  }

  /**
   * The multiplicity of value v in a full deck, in closed form: one 0, v
   * copies of each v in 1..12, none of any other value.
   */
  function CardCount(v: int): nat {
    if v == 0 then 1 else if IsCard(v) then v else 0
  }

  /** The count table agrees with CardCount on every card value. */
  lemma TableMatchesCardCount(v: int)
    requires IsCard(v)
    ensures NumberCardCounts[v] == CardCount(v)
  {
  }

  /** c copies of v, as the inner loop of the deck builder appends them. */
  function Repeat(v: int, c: nat): (r: seq<int>)
    ensures |r| == c
    ensures forall i :: 0 <= i < c ==> r[i] == v
  {
    if c == 0 then [] else Repeat(v, c - 1) + [v]
  }

  /** The deck as built after the outer loop has handled the values 0..num-1. */
  function DeckUpTo(num: nat): seq<int>
    requires num <= 13
  {
    if num == 0 then [] else DeckUpTo(num - 1) + Repeat(num - 1, CardCount(num - 1))
  }

  /** The unshuffled full deck. */
  function FullDeck(): seq<int> {
    DeckUpTo(MaxValue + 1)
  }

  /** A shuffled deck: some permutation of the full deck. */
  predicate IsShuffledDeck(deck: seq<int>) {
    multiset(deck) == multiset(FullDeck())
  }

  /**
   * Builds the unshuffled deck with two nested loops: for each value in
   * ascending order, append as many copies as the count table says.
   */
  method CreateDeck() returns (deck: seq<int>)
    ensures deck == FullDeck()
    ensures |deck| == DeckSize
    ensures forall v :: multiset(deck)[v] == CardCount(v)
    ensures Sorted(deck) && ValidCards(deck)
  {
    deck := [];
    for num := 0 to MaxValue + 1
      invariant deck == DeckUpTo(num)
    {
      TableMatchesCardCount(num);
      for i := 0 to NumberCardCounts[num]
        invariant deck == DeckUpTo(num) + Repeat(num, i)
      {
        deck := deck + [num];
      }
    }
    FullDeckContents();
  }

  lemma {:induction false} RepeatCount(v: int, c: nat, w: int)
    ensures multiset(Repeat(v, c))[w] == if w == v then c else 0
  {
    if c > 0 {
      RepeatCount(v, c - 1, w);
    }
  }

  /** 1 + 2 + ... + n. */
  function Triangle(n: nat): nat {
    if n == 0 then 0 else Triangle(n - 1) + n
  }

  /** The deck built so far has 1 + (1 + 2 + ... + (num-1)) cards. */
  lemma {:induction false} DeckUpToLength(num: nat)
    requires 0 < num <= 13
    ensures |DeckUpTo(num)| == 1 + Triangle(num - 1)
  {
    if num > 1 {
      DeckUpToLength(num - 1);
    }
  }

  /** Values below num occur as often as the table says, the others not at all. */
  lemma {:induction false} DeckUpToCount(num: nat, w: int)
    requires num <= 13
    ensures multiset(DeckUpTo(num))[w] == if 0 <= w < num then CardCount(w) else 0
  {
    if num > 0 {
      DeckUpToCount(num - 1, w);
      RepeatCount(num - 1, CardCount(num - 1), w);
    }
  }

  /** The deck built so far is sorted and holds only values below num. */
  lemma {:induction false} DeckUpToSorted(num: nat)
    requires num <= 13
    ensures Sorted(DeckUpTo(num))
    ensures forall i :: 0 <= i < |DeckUpTo(num)| ==> 0 <= DeckUpTo(num)[i] < num
  {
    if num > 0 {
      var v := num - 1;
      DeckUpToSorted(v);
      var prev, run := DeckUpTo(v), Repeat(v, CardCount(v));
      var deck := prev + run;
      assert DeckUpTo(num) == deck;
      forall i | 0 <= i < |deck|
        ensures i < |prev| ==> 0 <= deck[i] < v
        ensures |prev| <= i ==> deck[i] == v
      {
        if i < |prev| {
          assert deck[i] == prev[i];
        } else {
          assert deck[i] == run[i - |prev|];
        }
      }
      forall i, j | 0 <= i <= j < |deck| ensures deck[i] <= deck[j] {
        if j < |prev| {
          assert deck[i] == prev[i] && deck[j] == prev[j];
        }
      }
    }
  }

  /**
   * The full deck has 79 cards, one 0, v copies of each v in 1..12, no
   * other value, and lists the values in non-decreasing order.
   */
  lemma FullDeckContents()
    ensures |FullDeck()| == DeckSize
    ensures forall v :: multiset(FullDeck())[v] == CardCount(v)
    ensures Sorted(FullDeck()) && ValidCards(FullDeck())
  {
    FullDeckLength();
    FullDeckCounts();
    FullDeckSorted();
  }

  lemma FullDeckLength()
    ensures |FullDeck()| == DeckSize
  {
    DeckUpToLength(MaxValue + 1);
    TriangleOfMaxValue();
  }

  lemma FullDeckCounts()
    ensures forall v :: multiset(FullDeck())[v] == CardCount(v)
  {
    forall v ensures multiset(FullDeck())[v] == CardCount(v) {
      DeckUpToCount(MaxValue + 1, v);
      CardCountOutside(v);
    }
  }

  lemma FullDeckSorted()
    ensures Sorted(FullDeck()) && ValidCards(FullDeck())
  {
    DeckUpToSorted(MaxValue + 1);
  }

  lemma TriangleOfMaxValue()
    ensures 1 + Triangle(MaxValue) == DeckSize
  {
  }

  /** Values outside 0..12 have no copies. */
  lemma CardCountOutside(v: int)
    ensures (if 0 <= v < MaxValue + 1 then CardCount(v) else 0) == CardCount(v)
  {
  }

  /** A shuffled deck has 79 cards, all of them number cards 0..12. */
  lemma ShuffledDeckCards(deck: seq<int>)
    requires IsShuffledDeck(deck)
    ensures |deck| == DeckSize
    ensures ValidCards(deck)
  {
    FullDeckContents();
    assert |deck| == |multiset(deck)| == |multiset(FullDeck())| == |FullDeck()|;
    forall i | 0 <= i < |deck| ensures IsCard(deck[i]) {
      assert multiset(deck)[deck[i]] > 0;
      assert CardCount(deck[i]) > 0;
    }
  }
}
