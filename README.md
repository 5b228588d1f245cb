# Flip 7 draw simulation, modelled in Dafny

This project models the engine of the Flip 7 Monte Carlo simulation
(`Flip7Simulation.java`). Flip 7 deals number cards 0..12. A player draws
cards one at a time. Drawing a value already held is a bust. Holding seven
distinct values completes the round and earns a 15-point bonus. A player may
also bank early and keep the sum of the cards held.

The model has three modules. `Deck` and `Draw` model the engine's two parts,
the deck builder and the draw policies. `Rounds` holds facts about the
policies on shuffled full decks:

- `Deck` (`deck.dfy`): the fixed count table (one 0, and v copies of each
  v in 1..12) and `CreateDeck`, the two nested loops that build the unshuffled
  79-card deck. The loop is proved equal to the specification `FullDeck`.
  Lemmas show that this deck has 79 cards, holds each value exactly as often
  as the table says, and is sorted. `IsShuffledDeck` stands for the output of
  the random shuffle: any permutation of `FullDeck`.
- `Draw` (`draw.dfy`): the three draw policies `simulateUniqueFlips`,
  `simulateScoreBeforeDuplicate` and `simulateBankingAfterN(n)`. Each is a
  method that takes the already shuffled deck as a `seq<int>` and runs the
  source's loop with a `set<int>` of seen values. Each is proved equal to a
  specification function. The specification functions do not replay the
  loop. They are stated through `FirstRepeat`, the length of the longest
  prefix of the deck without a repeated value. Lemmas then state what each
  policy promises: its range, why it stopped, the bank-before-bust order,
  the completion bonus, the possible outcomes, and worked examples on small
  decks.
- `Rounds` (`rounds.dfy`): the policies on real decks, i.e. permutations of
  the full deck. There are only 13 distinct values, so a repeat comes within
  the first 14 of the 79 cards (a pigeonhole lemma). A round therefore never
  ends because the deck ran out. In particular, the deck-exhaustion return of
  `simulateBankingAfterN` is unreachable for every `n`.

On the deck `[1, 1]` `simulateUniqueFlips` returns 1: the first card is
added and counted before the second card busts (`Draw.UniqueFlipsExamples`).

## Model

| member | source | states |
|---|---|---|
| `Deck.TableMatchesCardCount` | Flip7Simulation.java:10-13 | the count table gives value 0 one copy and each value v in 1..12 exactly v copies (the closed form `CardCount`, which gives no other value any copy) |
| `Deck.CreateDeck` | Flip7Simulation.java:16-24 | the nested loops build exactly `FullDeck`: 79 cards, each value v in 0..12 as often as the table says, in non-decreasing order, all in 0..12 |
| `Deck.FullDeckContents` | Flip7Simulation.java:16-24 | the unshuffled deck has 79 cards, multiplicity `CardCount(v)` for every integer v, is sorted, and holds only number cards |
| `Deck.ShuffledDeckCards` | Flip7Simulation.java:27-29 | any permutation of the full deck (what the shuffle returns) has 79 cards, all in 0..12 |
| `Draw.FirstRepeat` | Flip7Simulation.java:38-39 | the result k is at most the deck length, the first k cards are pairwise distinct, and card k (if any) repeats one of them |
| `Draw.UniqueFlips` | Flip7Simulation.java:38-45 | the hand size before a bust or a seventh distinct card is in 0..6 (never 7) and at most the deck length |
| `Draw.SimulateUniqueFlips` | Flip7Simulation.java:32-46 | the loop with its seen set returns `UniqueFlips(deck)`, the smaller of 6 and the length of the distinct prefix |
| `Draw.UniqueFlipsStop` | Flip7Simulation.java:39-45 | the counted cards are pairwise distinct, and the loop stopped because the deck ran out, the next card repeats a held value, or 6 cards are held and the next is a seventh distinct value |
| `Draw.UniqueFlipsBusts` | Flip7Simulation.java:39 | a repeated value at position i < 7 after i distinct cards makes the count exactly i |
| `Draw.UniqueFlipsCompletes` | Flip7Simulation.java:41 | seven distinct cards in a row give the count 6: the seventh card is not counted |
| `Draw.UniqueFlipsRunsOut` | Flip7Simulation.java:38-45 | a deck of fewer than 7 distinct cards runs out and every card is counted |
| `Draw.ScoreBeforeDuplicate` | Flip7Simulation.java:49-63 | on number cards the score before a duplicate is at least 0 and at most 12 per card that `simulateUniqueFlips` counts on the same deck |
| `Draw.SimulateScoreBeforeDuplicate` | Flip7Simulation.java:49-63 | the loop returns `ScoreBeforeDuplicate(deck)`, the sum of exactly the first `UniqueFlips(deck)` cards, the cards `simulateUniqueFlips` counts on the same deck |
| `Draw.BankingAfterN` | Flip7Simulation.java:72-73 | with n = 0 the player banks at once and scores 0 |
| `Draw.SimulateBankingAfterN` | Flip7Simulation.java:66-81 | the loop, bank check before bust check, returns `BankingAfterN(deck, n)`: the bank, completion, bust or exhaustion score |
| `Draw.BankingBanks` | Flip7Simulation.java:73 | if the first n cards (0 <= n < 7) are distinct, the result is their sum, whatever card follows them |
| `Draw.BankingBusts` | Flip7Simulation.java:74 | a repeated value at position k < 7 before the bank point (n < 0 or k < n) scores 0 |
| `Draw.BankingCompletes` | Flip7Simulation.java:75-77 | seven distinct cards before the bank point (n < 0 or n >= 7) score their sum plus 15 |
| `Draw.BankingRunsOut` | Flip7Simulation.java:72-80 | a deck of fewer than 7 distinct cards that never reaches the bank point scores the sum of all its cards |
| `Draw.BankingOutcomes` | Flip7Simulation.java:72-80 | every result lies in 0..12 * 7 + 15 and is 0, the sum of n distinct cards, the sum of seven distinct cards plus 15, or the sum of a short all-distinct deck |
| `Draw.ScoreExample` | Flip7Simulation.java:55-59 | on the deck [3, 5, 3] two cards are held and the score before the duplicate is 8 |
| `Draw.BankBeforeBustExample` | Flip7Simulation.java:72-76 | with n = 1 the decks [4, 9, 4] and [4, 4] both score 4, because the bank check runs before the second card is looked at |
| `Draw.UniqueFlipsExamples` | Flip7Simulation.java:38-45 | the deck [1, 1] returns 1 (bust on the second card) and the one-card deck [5] returns 1 (deck runs out) |
| `Rounds.DistinctCardsAtMost` | Flip7Simulation.java:10-13 | at most 13 number cards can be pairwise distinct |
| `Rounds.CardsRepeatWithin` | Flip7Simulation.java:10-13 | in any sequence of number cards the first repeated value comes within the first 14 cards |
| `Rounds.ShuffledDeckRepeats` | Flip7Simulation.java:16-29 | on a shuffled full deck the first repeat comes within the first 14 cards, before the deck's end |
| `Rounds.ShuffledUniqueFlipsStop` | Flip7Simulation.java:38-45 | on a shuffled full deck `simulateUniqueFlips` stops on a bust or a seventh distinct card, never at the end of the deck |
| `Rounds.ShuffledBankingOutcomes` | Flip7Simulation.java:72-80 | on a shuffled full deck `simulateBankingAfterN` banks, completes or busts for every n; the deck-exhaustion return is unreachable |

## Left out

- `shuffle` (Flip7Simulation.java:27-29) calls the library's random shuffle.
  Randomness is not modelled. Each policy takes the shuffled deck as a
  parameter, and `IsShuffledDeck` (a permutation of the full deck) stands for
  what the shuffle may return.
- `average` (Flip7Simulation.java:84-90) repeats a random trial and divides
  in floating point. Neither is modelled.
- `main` (Flip7Simulation.java:92-101) only prints results.
- The `HashMap` initialiser of the count table is not modelled. The table is
  the constant sequence `NumberCardCounts` indexed by value.
- Java's 32-bit `int` is modelled as unbounded `int`. No overflow can occur:
  counts stay at most 6 (`Draw.UniqueFlips`), scores at most 12 * 7 + 15
  (`Draw.ScoreBeforeDuplicate`, `Draw.BankingOutcomes`), and `n` is only
  compared.
- The seen set is a `set<int>`. Its invariant (it holds exactly the values
  of the cards drawn so far, all of them distinct, so its size is the number
  of cards drawn) is the ghost predicate `Draw.Hand`, kept as a loop
  invariant of the three methods rather than proved as a separate property.
