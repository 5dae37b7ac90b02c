/** What each action of the game does to the piles, as functions from the game
    before to the game after (main.py, lines 152-327). The class in engine.dfy
    performs the same steps in place and is proved to end in these states. */
module Rules {
  import opened Cards
  import opened Table

  /** Where a press landed, as the hit tests of handle_mouse_down resolve it.
      TableauSpot(i, c) is the topmost face-up card of column i under the
      pointer, c counted from the bottom of the face-up cards. */
  datatype Spot =
    | PlayAgainButton
    | UndoButton
    | ReshuffleButton
    | StockSpot
    | WasteSpot
    | TableauSpot(pile: nat, index: nat)
    | Background

  /** Where a drag was released: on foundation i, on the slot below column i, or
      elsewhere. An index without a rectangle behind it is a miss. */
  datatype Slot = FoundationSlot(i: nat) | TableauSlot(i: nat) | NoSlot

  function Max(a: int, b: int): int
  {
    if a >= b then a else b
  }

  /** Python's reversed(). */
  function Reverse<T>(s: seq<T>): (r: seq<T>)
    ensures |r| == |s|
  {
    if s == [] then [] else [Last(s)] + Reverse(s[..|s| - 1])
  }

  /** Stock, waste and spent read as one sequence in the order the cards come
      off the stock: spent (oldest first), then the waste, then the stock from
      its top down. */
  function Talon(b: Board): seq<Card>
  {
    b.spent + b.waste + Reverse(b.stock)
  }

  // ----------------------------------------------------------------- deal

  /** Cards dealt to the columns before column i. */
  function Dealt(i: nat): nat
  {
    if i == 0 then 0 else Dealt(i - 1) + i
  }

  lemma DealtBound(i: nat)
    requires i < TableauPiles
    ensures Dealt(i) + i < 28
    decreases TableauPiles - i
  {
    if i + 1 < TableauPiles {
      DealtBound(i + 1);
    } else {
      assert Dealt(6) == 21;
    }
  }

  /** Column i of a new deal: i face-down cards and one face-up card,
      taken in deck order after those of the columns before it. */
  function DealtPile(deck: seq<Card>, i: nat): (p: Pile)
    requires i < TableauPiles && |deck| >= 28
    ensures |p.down| == i && |p.up| == 1
  {
    DealtBound(i);
    Pile(deck[Dealt(i)..Dealt(i) + i], [deck[Dealt(i) + i]])
  }

  /** What setup_tableau builds from the deck. */
  function Deal(deck: seq<Card>): (t: seq<Pile>)
    requires |deck| >= 28
    ensures |t| == TableauPiles
  {
    seq(TableauPiles, i requires 0 <= i < TableauPiles => DealtPile(deck, i))
  }

  /** A new game (Solitaire.__init__) from a shuffled deck. */
  function NewGame(deck: seq<Card>): Game
    requires IsShuffle(deck)
  {
    ShuffleIsWellFormed(deck);
    Game(Board(Deal(deck), deck[28..], [], [], [[], [], [], []], 0, false), [], None)
  }

  // ----------------------------------------------------------------- stock

  /** click_stock: draw the top stock card onto the waste, pushing the oldest
      waste card to spent when three are showing; with an empty stock, turn
      spent and waste over into a new stock. */
  function ClickStock(b: Board): (r: Board)
    ensures r.tableau == b.tableau && r.foundations == b.foundations
    ensures r.moveCount == b.moveCount && r.gameOver == b.gameOver
  {
    if b.stock == [] then
      if b.waste != [] || b.spent != [] then
        b.(stock := Reverse(b.spent + b.waste), waste := [], spent := [])
      else
        b
    else
      var card := Last(b.stock);
      var stock := b.stock[..|b.stock| - 1];
      if |b.waste| == WasteCapacity then
        b.(stock := stock, waste := b.waste[1..] + [card], spent := b.spent + [b.waste[0]])
      else
        b.(stock := stock, waste := b.waste + [card])
  }

  /** check_for_win: set the flag when all 52 cards are on the foundations;
      never clear it. */
  function CheckForWin(b: Board): (r: Board)
    ensures r.gameOver <==> b.gameOver || FoundationTotal(b.foundations) == DeckSize
    ensures r.(gameOver := b.gameOver) == b
  {
    if FoundationTotal(b.foundations) == DeckSize then b.(gameOver := true) else b
  }

  function CountMove(b: Board): Board
  {
    b.(moveCount := b.moveCount + 1)
  }

  /** A press on the stock: snapshot, click_stock, count a move, check for a win. */
  function StockClick(g: Game): Game
  {
    Game(CheckForWin(CountMove(ClickStock(g.board))), g.history + [g.board], g.dragging)
  }

  // ------------------------------------------------------------------ lift

  /** A press on the top waste card: snapshot, then hold that card. */
  function LiftWaste(g: Game): Game
    requires g.board.waste != []
  {
    var w := g.board.waste;
    Game(g.board.(waste := w[..|w| - 1]), g.history + [g.board], Some(Drag(FromWaste, [Last(w)])))
  }

  /** A press on face-up card c of column i: snapshot, then hold that card and
      every card above it. */
  function LiftTableau(g: Game, i: nat, c: nat): Game
    requires i < |g.board.tableau| && c < |g.board.tableau[i].up|
  {
    var t := g.board.tableau;
    Game(g.board.(tableau := t[i := t[i].(up := t[i].up[..c])]),
         g.history + [g.board],
         Some(Drag(FromTableau(i), t[i].up[c..])))
  }

  // ------------------------------------------------------------------ drop

  /** on_drop_success: turn up the top face-down card of an emptied origin
      column, count the move, check for a win. */
  function DropSuccess(g: Game, source: Origin): Game
    requires source.FromTableau? ==> source.pile < |g.board.tableau|
  {
    var b := g.board;
    var flipped :=
      if source.FromTableau? && b.tableau[source.pile].up == [] && b.tableau[source.pile].down != [] then
        var p := b.tableau[source.pile];
        b.(tableau := b.tableau[source.pile := Pile(p.down[..|p.down| - 1], p.up + [Last(p.down)])])
      else
        b;
    g.(board := CheckForWin(CountMove(flipped)))
  }

  /** on_drop_success reads and changes only the piles and counters, so it
      does not matter whether the drag is ended before or after it. */
  lemma DropSuccessLeavesDrag(g: Game, source: Origin, dragging: Option<Drag>)
    requires source.FromTableau? ==> source.pile < |g.board.tableau|
    ensures DropSuccess(g, source).(dragging := dragging) == DropSuccess(g.(dragging := dragging), source)
  {
  }

  /** on_drop_fail: put the run back on top of the pile it came from. */
  function DropFail(g: Game, d: Drag): Game
    requires d.source.FromTableau? ==> d.source.pile < |g.board.tableau|
  {
    var b := g.board;
    match d.source
    case FromWaste => g.(board := b.(waste := b.waste + d.run))
    case FromTableau(i) => g.(board := b.(tableau := b.tableau[i := b.tableau[i].(up := b.tableau[i].up + d.run)]))
  }

  /** on_drop_fail reads and changes only the piles, so it does not matter
      whether the drag is ended before or after it. */
  lemma DropFailLeavesDrag(g: Game, d: Drag, dragging: Option<Drag>)
    requires d.source.FromTableau? ==> d.source.pile < |g.board.tableau|
    ensures DropFail(g, d).(dragging := dragging) == DropFail(g.(dragging := dragging), d)
  {
  }

  /** handle_mouse_up's first test: a single held card released over a
      foundation that accepts it. */
  predicate FoundationTakes(b: Board, run: seq<Card>, slot: Slot)
    requires BoardShape(b) && run != [] && AllWellFormed(run)
  {
    |run| == 1 && slot.FoundationSlot? && slot.i < |b.foundations| &&
    IsValidFoundationMove(b.foundations[slot.i], run[0], FoundationSuits[slot.i])
  }

  /** handle_mouse_up's second test: the run released over the slot of a column
      that accepts its bottom card. */
  predicate ColumnTakes(b: Board, run: seq<Card>, slot: Slot)
    requires BoardShape(b) && run != [] && AllWellFormed(run)
  {
    slot.TableauSlot? && slot.i < |b.tableau| && IsValidTableauMove(b.tableau[slot.i].up, run[0])
  }

  /** handle_mouse_up: a single card goes to the foundation under the pointer
      when that foundation accepts it; otherwise the run goes to the column
      slot under the pointer when that column accepts its bottom card;
      otherwise it goes back. The drag ends either way. */
  function MouseUp(g: Game, slot: Slot): Game
    requires Shape(g)
  {
    if g.dragging.None? then g
    else
      var d := g.dragging.value;
      var b := g.board;
      var released := g.(dragging := None);
      if FoundationTakes(b, d.run, slot) then
        var f := b.foundations;
        DropSuccess(released.(board := b.(foundations := f[slot.i := f[slot.i] + [d.run[0]]])), d.source)
      else if ColumnTakes(b, d.run, slot) then
        var t := b.tableau;
        DropSuccess(released.(board := b.(tableau := t[slot.i := t[slot.i].(up := t[slot.i].up + d.run)])), d.source)
      else
        DropFail(released, d)
  }

  // ------------------------------------------------------------------ undo

  /** handle_undo: restore the latest snapshot, then take one more off the
      restored move count (not below zero). The drag is left as it is. */
  function Undo(g: Game): Game
  {
    if g.history == [] then g
    else
      var s := Last(g.history);
      var restored := s.(moveCount := Max(0, s.moveCount - 1));
      Game(restored, g.history[..|g.history| - 1], g.dragging)
  }

  // ----------------------------------------------------------------- press

  /** handle_mouse_down as written: on the win screen only Play Again does
      anything; otherwise undo, reshuffle, the stock, the top waste card and
      the face-up tableau cards are tried in that order. */
  function PressAsWritten(g: Game, spot: Spot, deck: seq<Card>): (r: Game)
    requires IsShuffle(deck)
    ensures g.board.gameOver && !spot.PlayAgainButton? ==> r == g
    ensures !g.board.gameOver && spot.PlayAgainButton? ==> r == g
    ensures !g.board.gameOver && spot.StockSpot? ==>
      r.history == g.history + [g.board] && r.board.moveCount == g.board.moveCount + 1 && r.dragging == g.dragging
    ensures r.dragging.Some? && r.dragging != g.dragging ==>
      r.history == g.history + [g.board] && r.board.moveCount == g.board.moveCount &&
      r.board.foundations == g.board.foundations && r.board.stock == g.board.stock
  {
    var b := g.board;
    if b.gameOver then
      if spot.PlayAgainButton? then NewGame(deck) else g
    else
      match spot
      case UndoButton => Undo(g)
      case ReshuffleButton => NewGame(deck)
      case StockSpot => StockClick(g)
      case WasteSpot => if b.waste != [] then LiftWaste(g) else g
      case TableauSpot(i, c) =>
        if i < |b.tableau| && c < |b.tableau[i].up| then LiftTableau(g, i, c) else g
      case _ => g
  }

  /** handle_mouse_down with presses ignored while a run is held. */
  function MouseDown(g: Game, spot: Spot, deck: seq<Card>): Game
    requires IsShuffle(deck)
  {
    if g.dragging.Some? then g else PressAsWritten(g, spot, deck)
  }
}
