/** Cards, ranks, suits and the two move rules of Klondike (main.py, lines 25-105).
    A card is its printable name, exactly as the game keeps it: the rank text
    followed by one suit letter, for instance "10H" or "QS". */
module Cards {

  type Card = string

  /** The ranks in ascending order. */
  const DeckOrder: seq<string> := ["A", "2", "3", "4", "5", "6", "7", "8", "9", "10", "J", "Q", "K"]

  /** The suit letters, in the order the deck is built and the foundations are labelled. */
  const Suits: seq<char> := ['H', 'D', 'C', 'S']

  const RedSuits: seq<char> := ['H', 'D']
  const BlackSuits: seq<char> := ['C', 'S']

  function Last<T>(s: seq<T>): T
    requires |s| > 0
  {
    s[|s| - 1]
  }

  /** The name of the card of the given rank and suit. */
  function CardName(rank: string, suit: char): (c: Card)
    ensures |c| > 0 && Rank(c) == rank && Suit(c) == suit
  {
    rank + [suit]
  }

  /** get_rank: everything but the last character. */
  function Rank(card: Card): (r: string)
    requires |card| > 0
    ensures |r| == |card| - 1 && r + [card[|card| - 1]] == card
  {
    card[..|card| - 1]
  }

  /** get_suit: the last character. */
  function Suit(card: Card): (s: char)
    requires |card| > 0
    ensures card == card[..|card| - 1] + [s]
  {
    card[|card| - 1]
  }

  /** The index of the first occurrence of x in s (Python's list.index). */
  function IndexOf<T(==)>(s: seq<T>, x: T): (i: nat)
    requires x in s
    ensures i < |s| && s[i] == x && x !in s[..i]
  {
    if s[0] == x then 0 else 1 + IndexOf(s[1..], x)
  }

  /** The position of a rank in DeckOrder: 0 for the Ace, 12 for the King. */
  function RankIndex(r: string): (i: nat)
    requires r in DeckOrder
    ensures i < |DeckOrder| && DeckOrder[i] == r
  {
    IndexOf(DeckOrder, r)
  }

  /** A card name that the rank and suit helpers can take apart without failing. */
  predicate WellFormed(card: Card)
  {
    |card| > 0 && Rank(card) in DeckOrder && Suit(card) in Suits
  }

  /** Rank position of a well-formed card. */
  function Value(card: Card): (v: nat)
    requires WellFormed(card)
    ensures v < |DeckOrder|
  {
    RankIndex(Rank(card))
  }

  /** Red is hearts or diamonds, black is clubs or spades; a card with any other
      suit letter has no colour and is opposite to nothing. */
  function IsOppositeColor(c1: Card, c2: Card): bool
    requires |c1| > 0 && |c2| > 0
  {
    (Suit(c1) in RedSuits && Suit(c2) in BlackSuits) ||
    (Suit(c1) in BlackSuits && Suit(c2) in RedSuits)
  }

  predicate IsRed(card: Card)
    requires |card| > 0
  {
    Suit(card) in RedSuits
  }

  /** The card may go onto a tableau pile whose face-up cards are targetUp:
      a King onto an empty pile, otherwise one rank lower and of the other colour. */
  function IsValidTableauMove(targetUp: seq<Card>, top: Card): bool
    requires WellFormed(top)
    requires targetUp != [] ==> WellFormed(Last(targetUp))
  {
    if targetUp == [] then
      Rank(top) == "K"
    else
      var targetTop := Last(targetUp);
      RankIndex(Rank(top)) + 1 == RankIndex(Rank(targetTop)) && IsOppositeColor(top, targetTop)
  }

  /** The card may go onto the foundation of the given suit holding foundationCards:
      never a card of another suit, the Ace onto an empty foundation, otherwise
      the rank just above the top card. */
  function IsValidFoundationMove(foundationCards: seq<Card>, card: Card, suit: char): bool
    requires WellFormed(card)
    requires foundationCards != [] ==> WellFormed(Last(foundationCards))
  {
    if Suit(card) != suit then false
    else if foundationCards == [] then Rank(card) == "A"
    else RankIndex(Rank(card)) == RankIndex(Rank(Last(foundationCards))) + 1
  }

  /** All 52 names, suit by suit in the order of Suits, ranks ascending within a suit
      (the deck before it is shuffled). */
  function FullDeck(): (d: seq<Card>)
    ensures |d| == |Suits| * |DeckOrder|
  {
    seq(|Suits| * |DeckOrder|, k requires 0 <= k < |Suits| * |DeckOrder| =>
      CardName(DeckOrder[k % |DeckOrder|], Suits[k / |DeckOrder|]))
  }

  /** A shuffled deck: some ordering of the 52 names. */
  predicate IsShuffle(deck: seq<Card>)
  {
    multiset(deck) == multiset(FullDeck())
  }

  /** A run of face-up tableau cards, bottom to top: each card is one rank
      below the card under it and of the other colour. */
  predicate ValidRun(run: seq<Card>)
  {
    (forall k :: 0 <= k < |run| ==> WellFormed(run[k])) &&
    forall k :: 0 < k < |run| ==> Links(run, k)
  }

  /** Card k of the run may lie on card k - 1. */
  predicate Links(run: seq<Card>, k: nat)
    requires 0 < k < |run| && WellFormed(run[k - 1]) && WellFormed(run[k])
  {
    IsValidTableauMove([run[k - 1]], run[k])
  }

  /** The foundation of the given suit holds Ace, 2, ... up to its top card, with no gaps. */
  predicate IsFoundation(f: seq<Card>, suit: char)
  {
    |f| <= |DeckOrder| && forall j :: 0 <= j < |f| ==> f[j] == CardName(DeckOrder[j], suit)
  }

  // ---------------------------------------------------------------- lemmas

  lemma RanksDistinct()
    ensures forall i, j :: 0 <= i < j < |DeckOrder| ==> DeckOrder[i] != DeckOrder[j]
  {
  }

  /** RankIndex inverts DeckOrder: each rank has exactly one position. */
  lemma RankIndexOf(k: nat)
    requires k < |DeckOrder|
    ensures RankIndex(DeckOrder[k]) == k
  {
    RanksDistinct();
  }

  /** Splitting a name and building it again is the identity, both ways. */
  lemma NameRoundTrip(card: Card)
    requires |card| > 0
    ensures CardName(Rank(card), Suit(card)) == card
  {
  }

  /** The colour rule as stated by colour: for well-formed cards, opposite
      colour means exactly that one card is red and the other is not. */
  lemma OppositeColorIsRedDiffers(c1: Card, c2: Card)
    requires WellFormed(c1) && WellFormed(c2)
    ensures IsOppositeColor(c1, c2) <==> (IsRed(c1) != IsRed(c2))
    ensures IsOppositeColor(c1, c2) == IsOppositeColor(c2, c1)
  {
  }

  /** The full deck has 52 distinct names, and they are exactly the well-formed cards. */
  lemma FullDeckDistinct()
    ensures forall i, j :: 0 <= i < j < |FullDeck()| ==> FullDeck()[i] != FullDeck()[j]
  {
    forall i, j | 0 <= i < j < |FullDeck()|
      ensures FullDeck()[i] != FullDeck()[j]
    {
      DeckCardsDiffer(i, j);
    }
  }

  lemma DeckCardsDiffer(i: nat, j: nat)
    requires i < j < |FullDeck()|
    ensures FullDeck()[i] != FullDeck()[j]
  {
    DeckCardParts(i);
    DeckCardParts(j);
    var a, b := i % |DeckOrder|, j % |DeckOrder|;
    if a != b {
      RankIndexOf(a);
      RankIndexOf(b);
    } else {
      assert i / |DeckOrder| != j / |DeckOrder|;
      assert Suits[i / |DeckOrder|] != Suits[j / |DeckOrder|];
    }
  }

  lemma DeckCardParts(k: nat)
    requires k < |FullDeck()|
    ensures |FullDeck()[k]| > 0
    ensures Rank(FullDeck()[k]) == DeckOrder[k % |DeckOrder|]
    ensures Suit(FullDeck()[k]) == Suits[k / |DeckOrder|]
  {
  }

  lemma FullDeckIsWellFormed(card: Card)
    ensures card in FullDeck() <==> WellFormed(card)
  {
    if card in FullDeck() {
      var k :| 0 <= k < |FullDeck()| && FullDeck()[k] == card;
      DeckCardIsWellFormed(k);
    }
    if WellFormed(card) {
      WellFormedIsInDeck(card);
    }
  }

  lemma DeckCardIsWellFormed(k: nat)
    requires k < |FullDeck()|
    ensures WellFormed(FullDeck()[k])
  {
    var c := FullDeck()[k];
    assert Rank(c) == DeckOrder[k % |DeckOrder|];
  }

  lemma WellFormedIsInDeck(card: Card)
    requires WellFormed(card)
    ensures card in FullDeck()
  {
    var a := RankIndex(Rank(card));
    var b := IndexOf(Suits, Suit(card));
    var k := DeckPosition(a, b);
    NameRoundTrip(card);
    calc {
      FullDeck()[k];
      CardName(DeckOrder[a], Suits[b]);
      CardName(Rank(card), Suit(card));
    }
  }

  /** The position of rank a of suit b in the unshuffled deck. */
  function DeckPosition(a: nat, b: nat): (k: nat)
    requires a < |DeckOrder| && b < |Suits|
    ensures k < |Suits| * |DeckOrder| && k % |DeckOrder| == a && k / |DeckOrder| == b
  {
    |DeckOrder| * b + a
  }

  /** Every card of a shuffled deck is well-formed. */
  lemma ShuffleIsWellFormed(deck: seq<Card>)
    requires IsShuffle(deck)
    ensures |deck| == 52
    ensures forall c :: c in deck ==> WellFormed(c)
  {
    assert |multiset(deck)| == |multiset(FullDeck())|;
    forall c | c in deck
      ensures WellFormed(c)
    {
      assert c in multiset(FullDeck());
      FullDeckIsWellFormed(c);
    }
  }

  /** The tableau rule by rank position: a King (the highest rank) onto an empty
      pile; otherwise exactly one position lower and the other colour. */
  lemma TableauRule(targetUp: seq<Card>, top: Card)
    requires WellFormed(top)
    requires targetUp != [] ==> WellFormed(Last(targetUp))
    ensures targetUp == [] ==>
      (IsValidTableauMove(targetUp, top) <==> Value(top) == |DeckOrder| - 1)
    ensures targetUp != [] ==>
      (IsValidTableauMove(targetUp, top) <==>
        Value(top) + 1 == Value(Last(targetUp)) && IsRed(top) != IsRed(Last(targetUp)))
  {
    if targetUp == [] {
      RankIndexOf(12);
    } else {
      OppositeColorIsRedDiffers(top, Last(targetUp));
    }
  }

  /** A foundation of suit s holding A..k accepts exactly one card: the next
      rank of suit s (and none once it holds the King). */
  lemma FoundationAcceptsNext(f: seq<Card>, suit: char, card: Card)
    requires suit in Suits && IsFoundation(f, suit) && WellFormed(card)
    ensures f != [] ==> WellFormed(Last(f))
    ensures IsValidFoundationMove(f, card, suit) <==>
      |f| < |DeckOrder| && card == CardName(DeckOrder[|f|], suit)
  {
    if f == [] {
      NamedCard(card, suit, 0);
    } else {
      FoundationTop(f, suit);
      if |f| < |DeckOrder| {
        NamedCard(card, suit, |f|);
      }
    }
  }

  /** The top card of a non-empty foundation is well-formed and its rank
      position is one less than the foundation's size. */
  lemma FoundationTop(f: seq<Card>, suit: char)
    requires suit in Suits && IsFoundation(f, suit) && f != []
    ensures WellFormed(Last(f)) && Value(Last(f)) == |f| - 1
  {
    assert Last(f) == CardName(DeckOrder[|f| - 1], suit);
    RankIndexOf(|f| - 1);
  }

  /** A well-formed card is the card of rank position k and the given suit iff
      its suit and its rank position say so. */
  lemma NamedCard(card: Card, suit: char, k: nat)
    requires WellFormed(card) && k < |DeckOrder|
    ensures card == CardName(DeckOrder[k], suit) <==> Suit(card) == suit && Value(card) == k
  {
    NameRoundTrip(card);
    RankIndexOf(k);
  }

  /** A valid foundation move keeps the foundation contiguous: A..k becomes A..k+1. */
  lemma FoundationGrows(f: seq<Card>, suit: char, card: Card)
    requires suit in Suits && IsFoundation(f, suit) && WellFormed(card)
    requires f != [] ==> WellFormed(Last(f))
    requires IsValidFoundationMove(f, card, suit)
    ensures IsFoundation(f + [card], suit)
  {
    FoundationAcceptsNext(f, suit, card);
    FoundationAppend(f, suit, card);
  }

  /** Putting the next rank of the suit on top of a foundation keeps it one. */
  lemma FoundationAppend(f: seq<Card>, suit: char, card: Card)
    requires IsFoundation(f, suit) && |f| < |DeckOrder| && card == CardName(DeckOrder[|f|], suit)
    ensures IsFoundation(f + [card], suit)
  {
    var g := f + [card];
    forall j | 0 <= j < |g|
      ensures g[j] == CardName(DeckOrder[j], suit)
    {
      if j < |f| {
        assert g[j] == f[j];
      }
    }
  }

  /** Dropping a valid run onto a pile whose top accepts the run's bottom card
      leaves a valid run. */
  lemma RunGrows(up: seq<Card>, run: seq<Card>)
    requires ValidRun(up) && ValidRun(run) && run != []
    requires IsValidTableauMove(up, run[0])
    ensures ValidRun(up + run)
  {
    var s := up + run;
    forall k | 0 <= k < |s|
      ensures WellFormed(s[k])
    {
      if k >= |up| {
        assert s[k] == run[k - |up|];
      }
    }
    forall k | 0 < k < |s|
      ensures Links(s, k)
    {
      if k < |up| {
        assert s[k - 1] == up[k - 1] && s[k] == up[k];
        assert Links(up, k);
      } else if k == |up| {
        assert s[k - 1] == Last(up) && s[k] == run[0];
      } else {
        assert s[k - 1] == run[k - 1 - |up|] && s[k] == run[k - |up|];
        assert Links(run, k - |up|);
      }
    }
  }

  /** Any prefix and any suffix of a valid run is a valid run, and the suffix
      fits onto the prefix again. */
  lemma RunSplits(run: seq<Card>, c: nat)
    requires ValidRun(run) && c < |run|
    ensures ValidRun(run[..c]) && ValidRun(run[c..])
    ensures c > 0 ==> IsValidTableauMove(run[..c], run[c])
  {
    RunPrefix(run, c);
    RunSuffix(run, c);
    if c > 0 {
      assert Last(run[..c]) == run[c - 1];
      assert Links(run, c);
    }
  }

  lemma RunPrefix(run: seq<Card>, c: nat)
    requires ValidRun(run) && c <= |run|
    ensures ValidRun(run[..c])
  {
    var p := run[..c];
    forall k | 0 < k < |p|
      ensures Links(p, k)
    {
      assert p[k - 1] == run[k - 1] && p[k] == run[k];
      assert Links(run, k);
    }
  }

  lemma RunSuffix(run: seq<Card>, c: nat)
    requires ValidRun(run) && c <= |run|
    ensures ValidRun(run[c..])
  {
    var q := run[c..];
    forall k | 0 < k < |q|
      ensures Links(q, k)
    {
      assert q[k - 1] == run[c + k - 1] && q[k] == run[c + k];
      assert Links(run, c + k);
    }
  }
}
