/**
 * The draw engine of the Flip 7 simulation: three policies that walk a
 * shuffled deck from left to right, keeping the set of values seen so far,
 * and stop on a bust (a repeated value), on the seventh distinct value, on
 * a voluntary bank, or when the deck runs out.
 *
 * Each policy is a method with the source's loop, proved equal to a
 * specification function. The specification functions are stated in terms
 * of FirstRepeat, the position of the first card whose value was already
 * drawn, rather than by replaying the loop.
 */
module Draw {
  import opened Deck

  /** Number of distinct values that completes a round. */
  const UniqueTarget: int := 7

  /** Bonus added to the score for completing a round with seven distinct values. */
  const CompletionBonus: int := 15

  /** No value occurs twice. */
  predicate Distinct(s: seq<int>) {
    forall i, j :: 0 <= i < j < |s| ==> s[i] != s[j]
  }

  /** The set of values in s. */
  function Elems(s: seq<int>): set<int> {
    set x | x in s
  }

  /** Sum of the card values, added from left to right. */
  function Sum(s: seq<int>): int {
    if s == [] then 0 else Sum(s[..|s| - 1]) + s[|s| - 1]
  }

  function Min(a: int, b: int): int {
    if a <= b then a else b
  }

  /**
   * The length of the longest prefix of the deck without a repeated value:
   * either the whole deck, or the position of the first card whose value
   * already occurs before it.
   */
  function FirstRepeat(deck: seq<int>): (k: nat)
    ensures k <= |deck|
    ensures Distinct(deck[..k])
    ensures k < |deck| ==> deck[k] in deck[..k]
  {
    if deck == [] then 0
    else
      var front := deck[..|deck| - 1];
      var k' := FirstRepeat(front);
      assert deck[..k'] == front[..k'];
      if k' < |front| then
        assert deck[k'] == front[k'];
        k'
      else if deck[|deck| - 1] in front then
        |front|
      else
        assert deck[..|deck|] == deck;
        |deck|
  }

  /** simulateUniqueFlips: the number of cards held before the bust or the seventh distinct card. */
  function UniqueFlips(deck: seq<int>): (count: int)
    ensures 0 <= count <= UniqueTarget - 1
    ensures count <= |deck|
  {
    Min(FirstRepeat(deck), UniqueTarget - 1)
  }

  /**
   * simulateScoreBeforeDuplicate: the value of the cards held before the bust
   * or the seventh distinct card, i.e. of the first UniqueFlips(deck) cards.
   */
  function ScoreBeforeDuplicate(deck: seq<int>): (score: int)
    requires ValidCards(deck)
    ensures 0 <= score <= MaxValue * UniqueFlips(deck)
  {
    SumBounds(deck[..UniqueFlips(deck)]);
    Sum(deck[..UniqueFlips(deck)])
  }

  /**
   * simulateBankingAfterN: the score actually banked by a player who means to
   * stop once n distinct cards are held. The bank happens when the first n
   * cards are distinct and n < 7; otherwise seven distinct cards earn their
   * sum plus the bonus, a repeated value earns nothing, and a deck that runs
   * out earns the sum of all its cards.
   */
  function BankingAfterN(deck: seq<int>, n: int): (score: int)
    ensures n == 0 ==> score == 0
  {
    var k := FirstRepeat(deck);
    if 0 <= n < UniqueTarget && n <= k then Sum(deck[..n])
    else if k >= UniqueTarget then Sum(deck[..UniqueTarget]) + CompletionBonus
    else if k < |deck| then 0
    else Sum(deck)
  }

  // ---------------------------------------------------------------------
  // Facts about FirstRepeat, Sum and Elems used by the loops

  /** A distinct prefix of length m means FirstRepeat is at least m. */
  lemma {:induction false} FirstRepeatAtLeast(deck: seq<int>, m: nat)
    requires m <= |deck| && Distinct(deck[..m])
    ensures FirstRepeat(deck) >= m
  {
    if deck != [] {
      var front := deck[..|deck| - 1];
      if m < |deck| {
        assert front[..m] == deck[..m];
        FirstRepeatAtLeast(front, m);
      } else {
        assert front[..|front|] == front == deck[..m][..|front|];
        FirstRepeatAtLeast(front, |front|);
        forall j | 0 <= j < |front| ensures front[j] != deck[|deck| - 1] {
          assert deck[..m][j] != deck[..m][|deck| - 1];
        }
      }
    }
  }

  /** FirstRepeat is the only position with its two defining properties. */
  lemma {:induction false} FirstRepeatIs(deck: seq<int>, m: nat)
    requires m <= |deck| && Distinct(deck[..m])
    requires m < |deck| ==> deck[m] in deck[..m]
    ensures FirstRepeat(deck) == m
  {
    FirstRepeatAtLeast(deck, m);
    if m < |deck| {
      var front := deck[..|deck| - 1];
      assert front[..m] == deck[..m];
      if m < |front| {
        FirstRepeatIs(front, m);
      } else {
        FirstRepeatAtLeast(front, m);
      }
    }
  }

  /** Drawing a card that is not a repeat extends the distinct prefix. */
  lemma DistinctExtend(deck: seq<int>, i: nat)
    requires i < |deck| && Distinct(deck[..i]) && deck[i] !in deck[..i]
    ensures Distinct(deck[..i + 1])
    ensures Elems(deck[..i + 1]) == Elems(deck[..i]) + {deck[i]}
  {
    assert deck[..i + 1] == deck[..i] + [deck[i]];
  }

  /** A prefix of a sequence without repeats has none either. */
  lemma DistinctPrefix(s: seq<int>, a: nat, b: nat)
    requires a <= b <= |s| && Distinct(s[..b])
    ensures Distinct(s[..a])
  {
    assert s[..b][..a] == s[..a];
  }

  /**
   * The state of a round after i cards were added to the hand: the first i
   * cards are distinct and seen holds exactly their values.
   */
  ghost predicate Hand(deck: seq<int>, i: nat, seen: set<int>) {
    && i <= |deck|
    && Distinct(deck[..i])
    && seen == Elems(deck[..i]) && |seen| == i
  }

  /** Adding a card that is not a repeat to the hand. */
  lemma HandAdd(deck: seq<int>, i: nat, seen: set<int>)
    requires Hand(deck, i, seen) && i < |deck| && deck[i] !in seen
    ensures Hand(deck, i + 1, seen + {deck[i]})
  {
    DistinctExtend(deck, i);
  }

  lemma SumStep(deck: seq<int>, i: nat)
    requires i < |deck|
    ensures Sum(deck[..i + 1]) == Sum(deck[..i]) + deck[i]
  {
    assert deck[..i + 1][..i] == deck[..i];
  }

  // ---------------------------------------------------------------------
  // The three policies as the source runs them

  /**
   * simulateUniqueFlips on an already shuffled deck: the count of cards
   * added to the hand before a bust or before the seventh distinct card.
   */
  method SimulateUniqueFlips(deck: seq<int>) returns (count: int)
    requires ValidCards(deck)
    ensures count == UniqueFlips(deck)
  {
    var seen: set<int> := {};
    count := 0;
    for i := 0 to |deck|
      invariant count == i < UniqueTarget
      invariant Hand(deck, i, seen)
    {
      var card := deck[i];
      if card in seen {
        UniqueFlipsBusts(deck, i);
        return count;
      }
      HandAdd(deck, i, seen);
      seen := seen + {card};
      if |seen| == UniqueTarget {
        UniqueFlipsCompletes(deck);
        return UniqueTarget - 1;
      }
      count := count + 1;
    }
    assert deck[..|deck|] == deck;
    UniqueFlipsRunsOut(deck);
  }

  /**
   * simulateScoreBeforeDuplicate on an already shuffled deck: the sum of the
   * cards added to the hand before a bust or before the seventh distinct card.
   */
  method SimulateScoreBeforeDuplicate(deck: seq<int>) returns (score: int)
    requires ValidCards(deck)
    ensures score == ScoreBeforeDuplicate(deck)
    ensures score == Sum(deck[..UniqueFlips(deck)])
  {
    var seen: set<int> := {};
    score := 0;
    for i := 0 to |deck|
      invariant i < UniqueTarget
      invariant Hand(deck, i, seen)
      invariant score == Sum(deck[..i])
    {
      var card := deck[i];
      if card in seen {
        UniqueFlipsBusts(deck, i);
        return score;
      }
      HandAdd(deck, i, seen);
      seen := seen + {card};
      if |seen| == UniqueTarget {
        UniqueFlipsCompletes(deck);
        return score;
      }
      SumStep(deck, i);
      score := score + card;
    }
    assert deck[..|deck|] == deck;
    UniqueFlipsRunsOut(deck);
  }

  /**
   * simulateBankingAfterN on an already shuffled deck. The bank check comes
   * before the bust check in each round of the loop.
   */
  method SimulateBankingAfterN(deck: seq<int>, n: int) returns (score: int)
    requires ValidCards(deck)
    ensures score == BankingAfterN(deck, n)
  {
    var seen: set<int> := {};
    score := 0;
    for i := 0 to |deck|
      invariant i < UniqueTarget
      invariant n < 0 || i <= n
      invariant Hand(deck, i, seen)
      invariant score == Sum(deck[..i])
    {
      if |seen| == n {
        BankingBanks(deck, n);
        return score;
      }
      var card := deck[i];
      if card in seen {
        BankingBusts(deck, n, i);
        return 0;
      }
      HandAdd(deck, i, seen);
      SumStep(deck, i);
      seen := seen + {card};
      score := score + card;
      if |seen| == UniqueTarget {
        BankingCompletes(deck, n);
        return score + CompletionBonus;
      }
    }
    assert deck[..|deck|] == deck;
    BankingRunsOut(deck, n);
  }

  // ---------------------------------------------------------------------
  // What the policies promise

  lemma {:induction false} SumBounds(s: seq<int>)
    requires ValidCards(s)
    ensures 0 <= Sum(s) <= MaxValue * |s|
  {
    if s != [] {
      SumBounds(s[..|s| - 1]);
    }
  }

  /**
   * simulateUniqueFlips holds pairwise distinct cards, and it stopped for one
   * of three reasons: the deck ran out, the next card repeats a held value,
   * or six cards are held and the next one is a seventh distinct value.
   */
  lemma UniqueFlipsStop(deck: seq<int>)
    ensures var count := UniqueFlips(deck);
      && Distinct(deck[..count])
      && (|| count == |deck|
          || deck[count] in deck[..count]
          || (count == UniqueTarget - 1 && Distinct(deck[..UniqueTarget])))
  {
    var k := FirstRepeat(deck);
    var count := UniqueFlips(deck);
    assert deck[..k][..count] == deck[..count];
    if k > count {
      assert deck[..k][..UniqueTarget] == deck[..UniqueTarget];
    }
  }

  /** A bust on card i, with fewer than seven cards held, leaves i cards counted. */
  lemma UniqueFlipsBusts(deck: seq<int>, i: nat)
    requires i < |deck| && i < UniqueTarget
    requires Distinct(deck[..i]) && deck[i] in deck[..i]
    ensures UniqueFlips(deck) == i
  {
    FirstRepeatIs(deck, i);
  }

  /** Seven distinct cards in a row: the seventh is not counted, the result is 6. */
  lemma UniqueFlipsCompletes(deck: seq<int>)
    requires UniqueTarget <= |deck| && Distinct(deck[..UniqueTarget])
    ensures UniqueFlips(deck) == UniqueTarget - 1
  {
    FirstRepeatAtLeast(deck, UniqueTarget);
  }

  /** A short deck of distinct cards runs out: every card is counted. */
  lemma UniqueFlipsRunsOut(deck: seq<int>)
    requires |deck| < UniqueTarget && Distinct(deck)
    ensures UniqueFlips(deck) == |deck|
  {
    assert deck[..|deck|] == deck;
    FirstRepeatIs(deck, |deck|);
  }

  /**
   * The bank: while the first n cards (n below 7) are distinct, the player
   * banks their sum, whatever card comes after them.
   */
  lemma BankingBanks(deck: seq<int>, n: int)
    requires 0 <= n < UniqueTarget && n <= |deck| && Distinct(deck[..n])
    ensures BankingAfterN(deck, n) == Sum(deck[..n])
  {
    FirstRepeatAtLeast(deck, n);
  }

  /** The bust: a repeated value before n distinct cards are held scores 0. */
  lemma BankingBusts(deck: seq<int>, n: int, k: nat)
    requires k < |deck| && k < UniqueTarget
    requires Distinct(deck[..k]) && deck[k] in deck[..k]
    requires n < 0 || k < n
    ensures BankingAfterN(deck, n) == 0
  {
    FirstRepeatIs(deck, k);
  }

  /**
   * Completion overrides the bank: seven distinct cards before the bank point
   * score their sum plus the bonus.
   */
  lemma BankingCompletes(deck: seq<int>, n: int)
    requires UniqueTarget <= |deck| && Distinct(deck[..UniqueTarget])
    requires n < 0 || UniqueTarget <= n
    ensures BankingAfterN(deck, n) == Sum(deck[..UniqueTarget]) + CompletionBonus
  {
    FirstRepeatAtLeast(deck, UniqueTarget);
  }

  /**
   * Deck exhaustion: a short deck of distinct cards that never reaches the
   * bank point scores the sum of all its cards.
   */
  lemma BankingRunsOut(deck: seq<int>, n: int)
    requires |deck| < UniqueTarget && Distinct(deck)
    requires n < 0 || |deck| <= n
    ensures BankingAfterN(deck, n) == Sum(deck)
  {
    assert deck[..|deck|] == deck;
    FirstRepeatIs(deck, |deck|);
    if 0 <= n < UniqueTarget && n <= |deck| {
      assert deck[..n] == deck;
    }
  }

  /**
   * Every banking result is one of four outcomes: 0 (bust), the sum of n
   * distinct cards (bank), the sum of seven distinct cards plus the bonus
   * (completion), or the sum of a short deck of distinct cards (exhaustion).
   * None of them is negative, and none exceeds 12 * 7 + 15.
   */
  lemma BankingOutcomes(deck: seq<int>, n: int)
    requires ValidCards(deck)
    ensures var score := BankingAfterN(deck, n);
      && 0 <= score <= MaxValue * UniqueTarget + CompletionBonus
      && (|| score == 0
          || (0 <= n < UniqueTarget && n <= |deck| && Distinct(deck[..n]) && score == Sum(deck[..n]))
          || (UniqueTarget <= |deck| && Distinct(deck[..UniqueTarget])
              && score == Sum(deck[..UniqueTarget]) + CompletionBonus)
          || (|deck| < UniqueTarget && Distinct(deck) && score == Sum(deck)))
  {
    var k := FirstRepeat(deck);
    var score := BankingAfterN(deck, n);
    if 0 <= n < UniqueTarget && n <= k {
      DistinctPrefix(deck, n, k);
      SumBounds(deck[..n]);
      assert score == Sum(deck[..n]);
    } else if k >= UniqueTarget {
      DistinctPrefix(deck, UniqueTarget, k);
      SumBounds(deck[..UniqueTarget]);
      assert score == Sum(deck[..UniqueTarget]) + CompletionBonus;
    } else if k == |deck| {
      assert deck[..k] == deck;
      SumBounds(deck);
      assert score == Sum(deck);
    } else {
      assert score == 0;
    }
  }

  /** The worked example [3, 5, 3]: two cards are held, worth 8, before the bust. */
  lemma ScoreExample()
    ensures UniqueFlips([3, 5, 3]) == 2
    ensures ScoreBeforeDuplicate([3, 5, 3]) == 8
  {
    var deck := [3, 5, 3];
    assert deck[..2] == [3, 5] && deck[2] == deck[..2][0];
    FirstRepeatIs(deck, 2);
    assert [3, 5][..1] == [3] && [3][..0] == [];
    assert Sum([3, 5]) == 8;
  }

  /**
   * The bank check precedes the bust check: with n = 1 the player banks the
   * first card before the second one is looked at, even when it repeats it.
   */
  lemma BankBeforeBustExample()
    ensures BankingAfterN([4, 9, 4], 1) == 4
    ensures BankingAfterN([4, 4], 1) == 4
  {
    BankingBanks([4, 9, 4], 1);
    BankingBanks([4, 4], 1);
  }

  /**
   * The worked examples [1, 1] (the second card busts, one card is held) and [5]
   * (a one-card deck that runs out).
   */
  lemma UniqueFlipsExamples()
    ensures UniqueFlips([1, 1]) == 1
    ensures UniqueFlips([5]) == 1
  {
    var bust := [1, 1];
    assert bust[..1] == [1];
    FirstRepeatIs(bust, 1);
    FirstRepeatIs([5], 1);
  }
}
