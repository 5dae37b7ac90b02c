/** What the stock and the deal promise: a stock click never reorders the
    talon and keeps every card, drawing and recycling move the cards the
    game says, and the deal lays out the first 28 cards of the deck. */
module Properties {
  import opened Cards
  import opened Table
  import opened Rules

  // -------------------------------------------------------------- reverse

  lemma {:induction false} ReverseLast<T>(s: seq<T>)
    requires s != []
    ensures Last(Reverse(s)) == s[0]
  {
    if |s| > 1 {
      ReverseLast(s[..|s| - 1]);
    }
  }

  lemma {:induction false} ReverseTwice<T>(s: seq<T>)
    ensures Reverse(Reverse(s)) == s
  {
    if s != [] {
      var n := |s| - 1;
      ReverseTwice(s[..n]);
      ReverseFront(Reverse(s[..n]), s[n]);
      assert s == s[..n] + [s[n]];
    }
  }

  /** Reversing x :: s puts x last. */
  lemma {:induction false} ReverseFront<T>(s: seq<T>, x: T)
    ensures Reverse([x] + s) == Reverse(s) + [x]
  {
    if s != [] {
      var n := |s| - 1;
      assert ([x] + s)[..n + 1] == [x] + s[..n];
      ReverseFront(s[..n], x);
    } else {
      assert Reverse([x]) == [x] + Reverse([]);
    }
  }

  lemma {:induction false} ReverseCards<T>(s: seq<T>)
    ensures multiset(Reverse(s)) == multiset(s)
  {
    if s != [] {
      var n := |s| - 1;
      ReverseCards(s[..n]);
      assert s == s[..n] + [s[n]];
    }
  }

  // ----------------------------------------------------------------- stock

  /** A stock click never reorders the talon: drawing moves the read point
      along spent + waste + stock-top-down, and recycling turns the stock over
      so that the same sequence reads again from its start. */
  lemma ClickStockKeepsTalon(b: Board)
    ensures Talon(ClickStock(b)) == Talon(b)
  {
    if b.stock == [] {
      if b.waste != [] || b.spent != [] {
        ReverseTwice(b.spent + b.waste);
      }
    } else {
      DrawKeepsTalon(b);
    }
  }

  /** Drawing moves the stock's top card to the end of spent + waste. */
  lemma DrawKeepsTalon(b: Board)
    requires b.stock != []
    ensures Talon(ClickStock(b)) == Talon(b)
  {
    var n := |b.stock| - 1;
    var card := b.stock[n];
    var rest := Reverse(b.stock[..n]);
    assert Reverse(b.stock) == [card] + rest;
    var r := ClickStock(b);
    assert r.spent + r.waste == b.spent + b.waste + [card] by {
      if |b.waste| == WasteCapacity {
        assert b.waste == [b.waste[0]] + b.waste[1..];
      }
    }
    calc {
      Talon(r);
      (r.spent + r.waste) + rest;
      (b.spent + b.waste + [card]) + rest;
      (b.spent + b.waste) + ([card] + rest);
    }
  }

  /** Drawing from a non-empty stock: the stock loses its top card, which
      becomes the top waste card; a full waste first passes its oldest card
      to spent, so the waste never holds more than three. */
  lemma DrawFromStock(b: Board)
    requires b.stock != [] && |b.waste| <= WasteCapacity
    ensures var r := ClickStock(b);
      && r.stock == b.stock[..|b.stock| - 1]
      && r.waste != [] && Last(r.waste) == Last(b.stock)
      && |r.waste| <= WasteCapacity
      && (|b.waste| == WasteCapacity ==> r.spent == b.spent + [b.waste[0]] && r.waste[..2] == b.waste[1..])
      && (|b.waste| < WasteCapacity ==> r.spent == b.spent && r.waste[..|b.waste|] == b.waste)
  {
  }

  /** Recycling an empty stock: the new stock is spent + waste reversed, so the
      next card drawn is the oldest one; waste and spent are emptied. With
      nothing to recycle the click changes nothing. */
  lemma RecycleTurnsOver(b: Board)
    requires b.stock == []
    ensures var r := ClickStock(b);
      && r.stock == Reverse(b.spent + b.waste)
      && r.waste == [] && r.spent == []
      && (r.stock != [] ==> Last(r.stock) == (b.spent + b.waste)[0])
      && (b.waste == [] && b.spent == [] ==> r == b)
  {
    if b.spent + b.waste != [] {
      ReverseLast(b.spent + b.waste);
    }
  }

  /** A stock click keeps every card, and keeps the waste within three. */
  lemma ClickStockKeepsCards(b: Board)
    ensures TalonCards(ClickStock(b)) == TalonCards(b)
    ensures BoardCards(ClickStock(b)) == BoardCards(b)
    ensures |b.waste| <= WasteCapacity ==> |ClickStock(b).waste| <= WasteCapacity
  {
    var r := ClickStock(b);
    ClickStockKeepsTalon(b);
    TalonHoldsTalonCards(b);
    TalonHoldsTalonCards(r);
  }

  lemma TalonHoldsTalonCards(b: Board)
    ensures multiset(Talon(b)) == TalonCards(b)
  {
    ReverseCards(b.stock);
  }

  lemma ClickStockKeepsWellFormed(b: Board)
    requires AllWellFormed(b.stock) && AllWellFormed(b.waste) && AllWellFormed(b.spent)
    ensures var r := ClickStock(b); AllWellFormed(r.stock) && AllWellFormed(r.waste) && AllWellFormed(r.spent)
  {
    var r := ClickStock(b);
    ClickStockKeepsCards(b);
    forall c | c in r.stock + r.waste + r.spent
      ensures WellFormed(c)
    {
      assert c in TalonCards(r);
    }
  }

  // ------------------------------------------------------------------ deal

  /** The cards of the columns in column order, face-down before face-up. */
  function Laid(t: seq<Pile>): seq<Card>
  {
    if t == [] then [] else Laid(t[..|t| - 1]) + Last(t).down + Last(t).up
  }

  lemma {:induction false} LaidCards(t: seq<Pile>)
    ensures multiset(Laid(t)) == TableauCards(t)
  {
    if t != [] {
      LaidCards(t[..|t| - 1]);
    }
  }

  lemma {:induction false} DealLaysPrefix(deck: seq<Card>, k: nat)
    requires |deck| >= 28 && k <= TableauPiles
    ensures Dealt(k) <= 28 && Laid(Deal(deck)[..k]) == deck[..Dealt(k)]
  {
    if k > 0 {
      DealLaysPrefix(deck, k - 1);
      DealtBound(k - 1);
      var t := Deal(deck)[..k];
      assert t[..k - 1] == Deal(deck)[..k - 1];
      var p := DealtPile(deck, k - 1);
      assert Last(t) == p;
      DealtColumn(deck, k - 1);
    }
  }

  /** Column i is the stretch of the deck after the cards of the columns before it. */
  lemma DealtColumn(deck: seq<Card>, i: nat)
    requires |deck| >= 28 && i < TableauPiles
    ensures Dealt(i) + i < 28
    ensures deck[..Dealt(i + 1)] == deck[..Dealt(i)] + DealtPile(deck, i).down + DealtPile(deck, i).up
  {
    DealtBound(i);
    var a := Dealt(i);
    var p := DealtPile(deck, i);
    assert p.up == deck[a + i..a + i + 1];
    assert deck[..a + i + 1] == deck[..a] + deck[a..a + i] + deck[a + i..a + i + 1];
  }

  /** setup_tableau's deal: column i gets i face-down cards and one face-up
      card; the 28 cards dealt are the first 28 of the deck, column by column,
      face-down before face-up; and the stock is the other 24 in deck order. */
  lemma DealTakesFirst28(deck: seq<Card>)
    requires IsShuffle(deck)
    ensures |deck| == DeckSize
    ensures var t := NewGame(deck).board.tableau;
      && (forall i :: 0 <= i < |t| ==> |t[i].down| == i && |t[i].up| == 1)
      && Laid(t) == deck[..28]
      && NewGame(deck).board.stock == deck[28..]
      && |NewGame(deck).board.stock| == 24
  {
    ShuffleIsWellFormed(deck);
    DealLaysPrefix(deck, TableauPiles);
    assert Deal(deck)[..TableauPiles] == Deal(deck);
  }
}
