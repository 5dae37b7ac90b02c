/** What a player sees the actions do: a run that no pile takes goes back where
    it came from, a successful drop turns up a card and counts one move, undo
    brings back the board before the last counted action, and a press and
    release never gain or lose a card. Also what handle_mouse_down does, as
    written, when a second press arrives while a run is held. */
module Behaviour {
  import opened Cards
  import opened Table
  import opened Rules
  import opened Properties
  import opened Reachable

  // ------------------------------------------------------------- lift/drop

  /** A run lifted off column i and released where no pile takes it goes back
      on top of column i in its original order: the board is exactly the one
      before the press, while the snapshot the press pushed stays on the
      history and no move is counted. */
  lemma TableauLiftFailsBack(g: Game, i: nat, c: nat, slot: Slot)
    requires Shape(g) && g.dragging.None?
    requires i < |g.board.tableau| && c < |g.board.tableau[i].up|
    ensures Shape(LiftTableau(g, i, c))
    ensures var l := LiftTableau(g, i, c);
      !FoundationTakes(l.board, l.dragging.value.run, slot) && !ColumnTakes(l.board, l.dragging.value.run, slot) ==>
        MouseUp(l, slot) == Game(g.board, g.history + [g.board], None)
  {
    var t := g.board.tableau;
    var up := t[i].up;
    WellFormedSlices(up, c);
    SplitAt(up, c);
    var l := LiftTableau(g, i, c);
    assert forall k :: 0 <= k < |l.board.tableau| ==> AllWellFormed(l.board.tableau[k].down) && AllWellFormed(l.board.tableau[k].up);
    if !FoundationTakes(l.board, l.dragging.value.run, slot) && !ColumnTakes(l.board, l.dragging.value.run, slot) {
      ReleaseElsewhere(l, slot);
      PutBack(t, i, c);
    }
  }

  /** The top waste card lifted and released where no pile takes it goes back
      on top of the waste: the board is exactly the one before the press. */
  lemma WasteLiftFailsBack(g: Game, slot: Slot)
    requires Shape(g) && g.dragging.None? && g.board.waste != []
    ensures Shape(LiftWaste(g))
    ensures var l := LiftWaste(g);
      !FoundationTakes(l.board, l.dragging.value.run, slot) && !ColumnTakes(l.board, l.dragging.value.run, slot) ==>
        MouseUp(l, slot) == Game(g.board, g.history + [g.board], None)
  {
    var w := g.board.waste;
    var n := |w| - 1;
    WellFormedSlices(w, n);
    SplitAt(w, n);
    assert w[n..] == [Last(w)];
    var l := LiftWaste(g);
    if !FoundationTakes(l.board, l.dragging.value.run, slot) && !ColumnTakes(l.board, l.dragging.value.run, slot) {
      ReleaseElsewhere(l, slot);
      assert g.board.(waste := w[..n] + [Last(w)]) == g.board;
    }
  }

  /** A press followed by a release, whatever they hit, leaves every one of the
      52 cards in play exactly once. */
  lemma PressAndReleaseKeepCards(g: Game, spot: Spot, slot: Slot, deck: seq<Card>)
    requires Invariant(g) && IsShuffle(deck)
    ensures Shape(MouseDown(g, spot, deck))
    ensures GameCards(MouseUp(MouseDown(g, spot, deck), slot)) == GameCards(g)
  {
    MouseDownKeepsInvariant(g, spot, deck);
    MouseUpKeepsInvariant(MouseDown(g, spot, deck), slot);
  }

  /** on_drop_success with an origin column left without face-up cards: its
      top face-down card is turned up, the column keeps its cards and shows a
      face-up card again, the other columns stay as they are, and exactly one
      move is counted. */
  lemma DropSuccessFlips(g: Game, i: nat)
    requires i < |g.board.tableau|
    requires g.board.tableau[i].up == [] && g.board.tableau[i].down != []
    ensures var r := DropSuccess(g, FromTableau(i)).board;
      var p := g.board.tableau[i];
      && r.tableau[i].up == [Last(p.down)]
      && r.tableau[i].down == p.down[..|p.down| - 1]
      && PileCards(r.tableau[i]) == PileCards(p)
      && |r.tableau| == |g.board.tableau|
      && (forall k :: 0 <= k < |r.tableau| && k != i ==> r.tableau[k] == g.board.tableau[k])
      && r.moveCount == g.board.moveCount + 1
    ensures var r := DropSuccess(g, FromTableau(i));
      && r.board.(tableau := g.board.tableau, moveCount := g.board.moveCount, gameOver := g.board.gameOver) == g.board
      && (r.board.gameOver <==> g.board.gameOver || FoundationTotal(g.board.foundations) == DeckSize)
      && r.history == g.history && r.dragging == g.dragging
  {
    var down := g.board.tableau[i].down;
    SplitAt(down, |down| - 1);
    assert down[|down| - 1..] == [Last(down)];
  }

  /** on_drop_success when nothing needs turning up: the piles stay as they
      are, exactly one move is counted, and the game is over once all 52 cards
      are on the foundations. */
  lemma DropSuccessCounts(g: Game, src: Origin)
    requires src.FromTableau? ==> src.pile < |g.board.tableau|
    requires src.FromTableau? ==> g.board.tableau[src.pile].up != [] || g.board.tableau[src.pile].down == []
    ensures var r := DropSuccess(g, src);
      && r.board.(moveCount := g.board.moveCount, gameOver := g.board.gameOver) == g.board
      && r.board.moveCount == g.board.moveCount + 1
      && (r.board.gameOver <==> g.board.gameOver || FoundationTotal(g.board.foundations) == DeckSize)
      && r.history == g.history && r.dragging == g.dragging
  {
  }

  /** on_drop_success's treatment of a column: one left without face-up cards
      turns up its top face-down card. */
  function TurnUp(p: Pile): (r: Pile)
    ensures PileCards(r) == PileCards(p)
    ensures p.down != [] ==> r.up != []
    ensures p.up != [] ==> r == p
  {
    if p.up == [] && p.down != [] then
      var down := p.down;
      SplitAt(down, |down| - 1);
      assert down[|down| - 1..] == [Last(down)];
      Pile(down[..|down| - 1], [Last(down)])
    else
      p
  }

  /** on_drop_success from any origin: the origin column, if any, is turned up
      when it was left bare, every other pile stays, exactly one move is
      counted, and the game is over once all 52 cards are home. */
  lemma DropSuccessOutcome(g: Game, src: Origin)
    requires src.FromTableau? ==> src.pile < |g.board.tableau|
    ensures var r := DropSuccess(g, src); var t := g.board.tableau;
      && r.board.(tableau := t, moveCount := g.board.moveCount, gameOver := g.board.gameOver) == g.board
      && |r.board.tableau| == |t|
      && (forall k :: 0 <= k < |t| ==> r.board.tableau[k] == if src == FromTableau(k) then TurnUp(t[k]) else t[k])
      && r.board.moveCount == g.board.moveCount + 1
      && (r.board.gameOver <==> g.board.gameOver || FoundationTotal(g.board.foundations) == DeckSize)
      && r.history == g.history && r.dragging == g.dragging
  {
    if src.FromTableau? && g.board.tableau[src.pile].up == [] && g.board.tableau[src.pile].down != [] {
      DropSuccessFlips(g, src.pile);
    } else {
      DropSuccessCounts(g, src);
    }
  }

  // --------------------------------------------------------------- release

  /** handle_mouse_up over a foundation that takes the single held card: that
      foundation gains the card on top, the other foundations, the stock, the
      waste and spent stay, the origin column turns up a card if it was left
      bare, the other columns stay, one move is counted, the game is over
      once all 52 cards are home, and the drag ends. */
  lemma FoundationDropOutcome(g: Game, slot: Slot)
    requires Shape(g) && g.dragging.Some? && FoundationTakes(g.board, g.dragging.value.run, slot)
    ensures var r := MouseUp(g, slot); var b := g.board; var d := g.dragging.value; var t := b.tableau;
      && r.board.foundations == b.foundations[slot.i := b.foundations[slot.i] + d.run]
      && r.board.stock == b.stock && r.board.waste == b.waste && r.board.spent == b.spent
      && |r.board.tableau| == |t|
      && (forall k :: 0 <= k < |t| ==> r.board.tableau[k] == if d.source == FromTableau(k) then TurnUp(t[k]) else t[k])
      && r.board.moveCount == b.moveCount + 1
      && (r.board.gameOver <==> b.gameOver || FoundationTotal(r.board.foundations) == DeckSize)
      && r.history == g.history && r.dragging.None?
  {
    var b := g.board;
    var d := g.dragging.value;
    var f := b.foundations;
    assert d.run == [d.run[0]];
    ReleaseOnFoundation(g, slot);
    var g1 := g.(dragging := None).(board := b.(foundations := f[slot.i := f[slot.i] + [d.run[0]]]));
    DropSuccessOutcome(g1, d.source);
  }

  /** handle_mouse_up over the slot of a column that takes the run (and not a
      foundation that takes it): the run goes on top of that column, the origin
      column turns up a card if it was left bare, the other columns, the
      foundations, the stock, the waste and spent stay, one move is counted,
      the game is over once all 52 cards are home, and the drag ends. */
  lemma ColumnDropOutcome(g: Game, slot: Slot)
    requires Shape(g) && g.dragging.Some?
    requires !FoundationTakes(g.board, g.dragging.value.run, slot)
    requires ColumnTakes(g.board, g.dragging.value.run, slot)
    ensures var r := MouseUp(g, slot); var b := g.board; var d := g.dragging.value; var t := b.tableau;
      && r.board.tableau[slot.i] == t[slot.i].(up := t[slot.i].up + d.run)
      && |r.board.tableau| == |t|
      && (forall k :: 0 <= k < |t| && k != slot.i ==>
            r.board.tableau[k] == if d.source == FromTableau(k) then TurnUp(t[k]) else t[k])
      && r.board.foundations == b.foundations
      && r.board.stock == b.stock && r.board.waste == b.waste && r.board.spent == b.spent
      && r.board.moveCount == b.moveCount + 1
      && (r.board.gameOver <==> b.gameOver || FoundationTotal(b.foundations) == DeckSize)
      && r.history == g.history && r.dragging.None?
  {
    var b := g.board;
    var d := g.dragging.value;
    var t := b.tableau;
    ReleaseOnColumn(g, slot);
    var g1 := g.(dragging := None).(board := b.(tableau := t[slot.i := t[slot.i].(up := t[slot.i].up + d.run)]));
    DropSuccessOutcome(g1, d.source);
  }

  /** handle_mouse_up where no pile takes the run: it goes back on top of the
      waste or of the column it came from, nothing else changes, no move is
      counted, and the drag ends. */
  lemma RejectedDropOutcome(g: Game, slot: Slot)
    requires Shape(g) && g.dragging.Some?
    requires !FoundationTakes(g.board, g.dragging.value.run, slot)
    requires !ColumnTakes(g.board, g.dragging.value.run, slot)
    ensures var r := MouseUp(g, slot); var b := g.board; var d := g.dragging.value; var t := b.tableau;
      && r.board.(tableau := t, waste := b.waste) == b
      && (d.source.FromWaste? ==> r.board.waste == b.waste + d.run && r.board.tableau == t)
      && (d.source.FromTableau? ==>
            && r.board.waste == b.waste
            && r.board.tableau == t[d.source.pile := t[d.source.pile].(up := t[d.source.pile].up + d.run)])
      && r.history == g.history && r.dragging.None?
  {
    ReleaseElsewhere(g, slot);
  }

  /** Dropping a run back onto the column it was lifted from, above at least
      one face-up card, is a successful drop: the board comes back as it was
      but one more move is counted, and the press's snapshot stays. */
  lemma DropOnOwnColumnCounts(g: Game, i: nat, c: nat)
    requires Shape(g) && g.dragging.None? && PileRulesAndFlag(g.board) && !g.board.gameOver
    requires i < |g.board.tableau| && 0 < c < |g.board.tableau[i].up|
    ensures Shape(LiftTableau(g, i, c))
    ensures MouseUp(LiftTableau(g, i, c), TableauSlot(i)) ==
      Game(g.board.(moveCount := g.board.moveCount + 1), g.history + [g.board], None)
  {
    var l := LiftTableau(g, i, c);
    OwnColumnTakes(g, i, c);
    ReleaseOnColumn(l, TableauSlot(i));
    var lt := l.board.tableau;
    var g1 := l.(dragging := None).(board := l.board.(tableau := lt[i := lt[i].(up := lt[i].up + l.dragging.value.run)]));
    DropSuccessCounts(g1, FromTableau(i));
    assert DropSuccess(g1, FromTableau(i)).board == g.board.(moveCount := g.board.moveCount + 1);
  }

  /** Column i, with face-up cards c.. lifted, takes them back, and putting
      them back gives the board from before the lift. */
  lemma OwnColumnTakes(g: Game, i: nat, c: nat)
    requires Shape(g) && g.dragging.None? && PileRulesAndFlag(g.board)
    requires i < |g.board.tableau| && 0 < c < |g.board.tableau[i].up|
    ensures var l := LiftTableau(g, i, c);
      && Shape(l)
      && !FoundationTakes(l.board, l.dragging.value.run, TableauSlot(i))
      && ColumnTakes(l.board, l.dragging.value.run, TableauSlot(i))
      && l.board.(tableau := l.board.tableau[i := l.board.tableau[i].(up := l.board.tableau[i].up + l.dragging.value.run)]) == g.board
  {
    var t := g.board.tableau;
    var up := t[i].up;
    TableauLiftFailsBack(g, i, c, TableauSlot(i));
    RunSplits(up, c);
    PutBack(t, i, c);
  }

  /** Cutting face-up cards c.. off column i and putting them back on top gives
      the columns as they were. */
  lemma PutBack(t: seq<Pile>, i: nat, c: nat)
    requires i < |t| && c <= |t[i].up|
    ensures var lt := t[i := t[i].(up := t[i].up[..c])];
      lt[i := lt[i].(up := lt[i].up + t[i].up[c..])] == t
  {
    var up := t[i].up;
    SplitAt(up, c);
    var lt := t[i := t[i].(up := up[..c])];
    assert lt[i].(up := lt[i].up + up[c..]) == t[i];
  }

  // ------------------------------------------------------------------ undo

  /** Undo with nothing saved changes nothing. */
  lemma UndoWithoutHistory(g: Game)
    requires g.history == []
    ensures Undo(g) == g
  {
  }

  /** Undoing a stock click brings back the piles from before the click, but
      the move count ends one below where it stood before the click (zero stays
      zero): load_state restores the snapshot's count and handle_undo then
      takes one more off. */
  lemma UndoAfterStockClick(g: Game)
    ensures Undo(StockClick(g)) == g.(board := g.board.(moveCount := Max(0, g.board.moveCount - 1)))
  {
    var h := g.history + [g.board];
    assert h[..|h| - 1] == g.history;
  }

  /** handle_mouse_up ends the drag and keeps the history as it is. */
  lemma ReleaseKeepsHistory(g: Game, slot: Slot)
    requires Shape(g)
    ensures MouseUp(g, slot).history == g.history
    ensures MouseUp(g, slot).dragging.None?
  {
  }

  /** Undoing after a lift and its release, whether the drop succeeded or the
      run went back, brings back the board from before the lift, one move
      lower. */
  lemma UndoAfterLiftAndRelease(g: Game, spot: Spot, slot: Slot, deck: seq<Card>)
    requires Shape(g) && g.dragging.None? && IsShuffle(deck)
    requires MouseDown(g, spot, deck).dragging.Some?
    ensures Shape(MouseDown(g, spot, deck))
    ensures Undo(MouseUp(MouseDown(g, spot, deck), slot)) ==
      Game(g.board.(moveCount := Max(0, g.board.moveCount - 1)), g.history, None)
  {
    var l := MouseDown(g, spot, deck);
    if spot.WasteSpot? {
      assert l == LiftWaste(g);
      WasteLiftFailsBack(g, slot);
    } else {
      assert spot.TableauSpot? && l == LiftTableau(g, spot.pile, spot.index);
      TableauLiftFailsBack(g, spot.pile, spot.index, slot);
    }
    ReleaseKeepsHistory(l, slot);
    assert l.history[..|l.history| - 1] == g.history;
  }

  // ----------------------------------------------- presses during a drag

  /** As written, a press on a non-empty waste while a run is held lifts the
      top waste card into the pointer's hand and forgets the held run: those
      cards are in no pile any more, and the game no longer holds all 52. */
  lemma PressDuringDragLosesCards(g: Game, deck: seq<Card>)
    requires Invariant(g) && g.dragging.Some? && g.board.waste != [] && IsShuffle(deck)
    ensures GameCards(PressAsWritten(g, WasteSpot, deck)) + multiset(g.dragging.value.run) == GameCards(g)
    ensures !Invariant(PressAsWritten(g, WasteSpot, deck))
  {
    HeldRunMeansNotWon(g);
    var r := PressAsWritten(g, WasteSpot, deck);
    assert r == LiftWaste(g);
    WasteLiftCards(g);
    assert GameCards(g) == BoardCards(g.board) + multiset(g.dragging.value.run);
    assert |GameCards(r)| < |GameCards(g)|;
  }

  /** Lifting the top waste card moves it from the board into the pointer's
      hand, replacing whatever was held. */
  lemma WasteLiftCards(g: Game)
    requires g.board.waste != []
    ensures GameCards(LiftWaste(g)) == BoardCards(g.board)
  {
    var b := g.board;
    var w := b.waste;
    var n := |w| - 1;
    var r := LiftWaste(g);
    SplitAt(w, n);
    assert w[n..] == [w[n]];
    TalonChange(b, r.board, multiset([w[n]]));
  }

  /** As written, undo while a run is held restores the snapshot taken before
      the lift, which still holds the run's cards, and leaves the run in the
      pointer's hand: every held card is now in play twice. */
  lemma UndoDuringDragDuplicates(g: Game, deck: seq<Card>)
    requires Invariant(g) && g.dragging.Some? && g.history != [] && IsShuffle(deck)
    ensures GameCards(PressAsWritten(g, UndoButton, deck)) == multiset(FullDeck()) + multiset(g.dragging.value.run)
    ensures !Invariant(PressAsWritten(g, UndoButton, deck))
  {
    HeldRunMeansNotWon(g);
    var s := Last(g.history);
    Popped(g.history, g.history[..|g.history| - 1]);
    Recounted(s, Max(0, s.moveCount - 1));
    var r := PressAsWritten(g, UndoButton, deck);
    assert r == Undo(g);
    assert |GameCards(r)| > |multiset(FullDeck())|;
  }
}
