/** Every action keeps Table.Invariant: each of the 52 cards is in exactly one
    place (a pile, a foundation or the pointer's hand), the foundations run Ace
    upwards, the face-up columns are valid runs, the waste holds at most three
    cards, the game-over flag means all 52 are home, and every undo snapshot is
    itself such a board. */
module Reachable {
  import opened Cards
  import opened Table
  import opened Rules
  import opened Properties

  // ------------------------------------------------------------ sequences

  lemma WellFormedSlices(s: seq<Card>, c: nat)
    requires AllWellFormed(s) && c <= |s|
    ensures AllWellFormed(s[..c]) && AllWellFormed(s[c..])
  {
    assert forall x :: x in s[..c] ==> x in s;
    assert forall x :: x in s[c..] ==> x in s;
  }

  lemma WellFormedJoin(s: seq<Card>, t: seq<Card>)
    requires AllWellFormed(s) && AllWellFormed(t)
    ensures AllWellFormed(s + t)
  {
  }

  /** Cutting a sequence in two keeps its cards. */
  lemma SplitAt(s: seq<Card>, c: nat)
    requires c <= |s|
    ensures s[..c] + s[c..] == s
    ensures multiset(s) == multiset(s[..c]) + multiset(s[c..])
  {
    assert s[..c] + s[c..] == s;
  }

  /** Cancelling the same cards from both sides of a count. */
  lemma Cancel(a: multiset<Card>, b: multiset<Card>, x: multiset<Card>, y: multiset<Card>, m: multiset<Card>)
    requires a + x == b + y && y == x + m
    ensures a == b + m
  {
    forall c
      ensures a[c] == (b + m)[c]
    {
      assert (a + x)[c] == (b + y)[c];
    }
  }

  lemma {:induction false} EmptyFoundations(f: seq<seq<Card>>)
    requires forall k :: 0 <= k < |f| ==> f[k] == []
    ensures FoundationTotal(f) == 0 && FoundationCards(f) == multiset{}
  {
    if f != [] {
      EmptyFoundations(f[..|f| - 1]);
    }
  }

  // ------------------------------------------------------ one pile changes

  /** Replacing column i by a well-formed pile whose face-up cards form a valid run
      keeps the board's shape and rules. */
  lemma ColumnShape(b: Board, i: nat, p: Pile)
    requires BoardShape(b) && PileRules(b) && i < |b.tableau|
    requires AllWellFormed(p.down) && AllWellFormed(p.up) && ValidRun(p.up)
    ensures BoardShape(b.(tableau := b.tableau[i := p])) && PileRules(b.(tableau := b.tableau[i := p]))
  {
  }

  /** Replacing column i changes the board's cards by exactly the two piles'. */
  lemma ColumnCards(b: Board, i: nat, p: Pile)
    requires i < |b.tableau|
    ensures BoardCards(b.(tableau := b.tableau[i := p])) + PileCards(b.tableau[i]) == BoardCards(b) + PileCards(p)
  {
    var r := b.(tableau := b.tableau[i := p]);
    TableauCardsUpdate(b.tableau, i, p);
    MultisetShift(TableauCards(r.tableau), TableauCards(b.tableau), PileCards(b.tableau[i]), PileCards(p), TalonCards(b));
    MultisetShift(TableauCards(r.tableau) + TalonCards(b), TableauCards(b.tableau) + TalonCards(b),
                  PileCards(b.tableau[i]), PileCards(p), FoundationCards(b.foundations));
  }

  /** Replacing column i leaves the other columns as covered as they were. */
  lemma ColumnStaysCovered(b: Board, i: nat, p: Pile, s: int)
    requires i < |b.tableau|
    ensures NoBareColumn(b, -1) ==> NoBareColumn(b.(tableau := b.tableau[i := p]), i)
    ensures NoBareColumn(b, s) && p.up != [] ==> NoBareColumn(b.(tableau := b.tableau[i := p]), s)
    ensures NoBareColumn(b, i) && p.up != [] ==> NoBareColumn(b.(tableau := b.tableau[i := p]), -1)
  {
  }

  /** Replacing foundation k by a contiguous foundation of its suit keeps the
      board's shape and rules. */
  lemma FoundationShape(b: Board, k: nat, s: seq<Card>)
    requires BoardShape(b) && PileRules(b) && k < |b.foundations|
    requires AllWellFormed(s) && IsFoundation(s, FoundationSuits[k])
    ensures BoardShape(b.(foundations := b.foundations[k := s])) && PileRules(b.(foundations := b.foundations[k := s]))
  {
  }

  /** Replacing foundation k changes the board's cards by exactly the two stacks'. */
  lemma FoundationChange(b: Board, k: nat, s: seq<Card>)
    requires k < |b.foundations|
    ensures BoardCards(b.(foundations := b.foundations[k := s])) + multiset(b.foundations[k]) == BoardCards(b) + multiset(s)
  {
    var r := b.(foundations := b.foundations[k := s]);
    var x := TableauCards(b.tableau) + TalonCards(b);
    FoundationCardsUpdate(b.foundations, k, s);
    MultisetShift(FoundationCards(r.foundations), FoundationCards(b.foundations),
                  multiset(b.foundations[k]), multiset(s), x);
    assert BoardCards(r) == FoundationCards(r.foundations) + x;
    assert BoardCards(b) == FoundationCards(b.foundations) + x;
  }

  /** Stock, waste and spent changed by m, nothing else: the board changes by m. */
  lemma TalonChange(b: Board, r: Board, m: multiset<Card>)
    requires r.tableau == b.tableau && r.foundations == b.foundations
    requires TalonCards(r) + m == TalonCards(b)
    ensures BoardCards(r) + m == BoardCards(b)
  {
    MultisetShift(TalonCards(r), TalonCards(b), m, multiset{}, TableauCards(b.tableau) + FoundationCards(b.foundations));
    assert BoardCards(r) == TalonCards(r) + (TableauCards(b.tableau) + FoundationCards(b.foundations));
    assert BoardCards(b) == TalonCards(b) + (TableauCards(b.tableau) + FoundationCards(b.foundations));
  }

  /** Counting a move and checking for a win keep the piles and make the
      game-over flag mean all 52 cards are home. */
  lemma CountAndCheck(b: Board)
    requires BoardShape(b) && PileRules(b) && NoBareColumn(b, -1) && BoardCards(b) == multiset(FullDeck())
    requires b.gameOver ==> FoundationTotal(b.foundations) == DeckSize
    ensures AtRest(CheckForWin(CountMove(b)))
  {
    var r := CheckForWin(CountMove(b));
    assert r.(gameOver := b.gameOver, moveCount := b.moveCount) == b;
    assert BoardCards(r) == BoardCards(b);
  }

  // ----------------------------------------------------------- assembling

  /** A game with no run held is reachable when its board and every snapshot are. */
  lemma RestingGameIsValid(g: Game)
    requires g.dragging.None? && AtRest(g.board)
    requires forall k :: 0 <= k < |g.history| ==> AtRest(g.history[k])
    ensures Invariant(g)
  {
  }

  /** A board with no drag in progress is a snapshot save_state may record. */
  lemma RestingBoard(g: Game)
    requires Invariant(g) && g.dragging.None?
    ensures AtRest(g.board)
  {
  }

  lemma Pushed(h: seq<Board>, b: Board)
    requires forall k :: 0 <= k < |h| ==> AtRest(h[k])
    requires AtRest(b)
    ensures forall k :: 0 <= k < |h + [b]| ==> AtRest((h + [b])[k])
  {
  }

  lemma Popped(h: seq<Board>, p: seq<Board>)
    requires h != [] && p == h[..|h| - 1]
    requires forall k :: 0 <= k < |h| ==> AtRest(h[k])
    ensures AtRest(Last(h))
    ensures forall k :: 0 <= k < |p| ==> AtRest(p[k])
  {
    assert forall k :: 0 <= k < |p| ==> p[k] == h[k];
  }

  /** The move count is no part of a snapshot's invariant. */
  lemma Recounted(s: Board, m: nat)
    requires AtRest(s)
    ensures AtRest(s.(moveCount := m))
  {
    assert BoardCards(s.(moveCount := m)) == BoardCards(s);
  }

  /** A lift: the board before is snapshotted and the new board, with the run
      in hand, keeps the rules and every card. */
  lemma LiftIsValid(g: Game, r: Game)
    requires Invariant(g) && g.dragging.None?
    requires r.history == g.history + [g.board] && r.dragging.Some?
    requires BoardShape(r.board) && PileRules(r.board) && DragShape(r) && DragFits(r)
    requires r.board.gameOver == g.board.gameOver && r.board.foundations == g.board.foundations
    requires NoBareColumn(r.board, Skip(r))
    requires GameCards(r) == GameCards(g)
    ensures Invariant(r)
  {
    RestingBoard(g);
    Pushed(g.history, g.board);
  }

  // ---------------------------------------------------------------- deal

  lemma {:induction false} DealtCards(deck: seq<Card>)
    requires |deck| >= 28
    ensures TableauCards(Deal(deck)) + multiset(deck[28..]) == multiset(deck)
  {
    DealLaysPrefix(deck, TableauPiles);
    assert Deal(deck)[..TableauPiles] == Deal(deck);
    LaidCards(Deal(deck));
    SplitAt(deck, 28);
  }

  lemma DealtColumnWellFormed(deck: seq<Card>, i: nat)
    requires |deck| >= 28 && AllWellFormed(deck) && i < TableauPiles
    ensures var p := Deal(deck)[i];
      AllWellFormed(p.down) && AllWellFormed(p.up) && ValidRun(p.up) && p.up != []
  {
    DealtBound(i);
    var p := Deal(deck)[i];
    assert forall x :: x in p.down ==> x in deck;
    assert p.up[0] in deck;
  }

  lemma DealShape(deck: seq<Card>)
    requires IsShuffle(deck)
    ensures var b := NewGame(deck).board;
      BoardShape(b) && PileRulesAndFlag(b) && NoBareColumn(b, -1)
  {
    ShuffleIsWellFormed(deck);
    var b := NewGame(deck).board;
    forall i | 0 <= i < |b.tableau|
      ensures AllWellFormed(b.tableau[i].down) && AllWellFormed(b.tableau[i].up) && ValidRun(b.tableau[i].up) && b.tableau[i].up != []
    {
      DealtColumnWellFormed(deck, i);
    }
    WellFormedSlices(deck, 28);
    EmptyFoundations(b.foundations);
  }

  lemma DealCards(deck: seq<Card>)
    requires IsShuffle(deck)
    ensures BoardCards(NewGame(deck).board) == multiset(FullDeck())
  {
    ShuffleIsWellFormed(deck);
    var b := NewGame(deck).board;
    EmptyFoundations(b.foundations);
    DealtCards(deck);
    assert TalonCards(b) == multiset(deck[28..]);
  }

  /** A new game is a reachable game. */
  lemma NewGameIsValid(deck: seq<Card>)
    requires IsShuffle(deck)
    ensures Invariant(NewGame(deck))
  {
    DealShape(deck);
    DealCards(deck);
    RestingGameIsValid(NewGame(deck));
  }

  // ---------------------------------------------------------------- press

  /** While a run is held the game cannot be over: the held cards are not on
      the foundations, so fewer than 52 are. */
  lemma HeldRunMeansNotWon(g: Game)
    requires Invariant(g) && g.dragging.Some?
    ensures FoundationTotal(g.board.foundations) < DeckSize && !g.board.gameOver
  {
    var b := g.board;
    FullDeckDistinct();
    assert |multiset(FullDeck())| == DeckSize;
    FoundationTotalCounts(b.foundations);
    assert |GameCards(g)| == |TableauCards(b.tableau)| + |TalonCards(b)| + |FoundationCards(b.foundations)|
      + |g.dragging.value.run|;
  }

  lemma StockClickKeeps(g: Game)
    requires Invariant(g) && g.dragging.None?
    ensures Invariant(StockClick(g))
  {
    var b := g.board;
    ClickStockKeepsCards(b);
    ClickStockKeepsWellFormed(b);
    var c := ClickStock(b);
    assert BoardShape(c) && PileRules(c) && NoBareColumn(c, -1);
    CountAndCheck(c);
    RestingBoard(g);
    Pushed(g.history, b);
    RestingGameIsValid(StockClick(g));
  }

  lemma LiftWasteKeeps(g: Game)
    requires Invariant(g) && g.dragging.None? && g.board.waste != []
    ensures Invariant(LiftWaste(g))
  {
    var b := g.board;
    var w := b.waste;
    var n := |w| - 1;
    var r := LiftWaste(g);
    SplitAt(w, n);
    assert w[n..] == [w[n]];
    TalonChange(b, r.board, multiset([w[n]]));
    WellFormedSlices(w, n);
    assert BoardShape(r.board) && PileRules(r.board);
    LiftIsValid(g, r);
  }

  lemma LiftTableauKeeps(g: Game, i: nat, c: nat)
    requires Invariant(g) && g.dragging.None?
    requires i < |g.board.tableau| && c < |g.board.tableau[i].up|
    ensures Invariant(LiftTableau(g, i, c))
  {
    var p := g.board.tableau[i];
    LiftColumn(g.board, i, c);
    SplitAt(p.up, c);
    LiftIsValid(g, LiftTableau(g, i, c));
  }

  /** Taking face-up cards c.. off column i leaves a board that keeps the rules,
      has every card but the run taken, and leaves only column i possibly bare. */
  lemma LiftColumn(b: Board, i: nat, c: nat)
    requires BoardShape(b) && PileRules(b) && NoBareColumn(b, -1)
    requires i < |b.tableau| && c < |b.tableau[i].up|
    ensures var p := b.tableau[i];
      var r := b.(tableau := b.tableau[i := p.(up := p.up[..c])]);
      && BoardShape(r) && PileRules(r) && NoBareColumn(r, i)
      && BoardCards(r) + multiset(p.up[c..]) == BoardCards(b)
      && p.up[c..] != [] && AllWellFormed(p.up[c..])
  {
    var p := b.tableau[i];
    var q := p.(up := p.up[..c]);
    LiftPile(p, c);
    ColumnShape(b, i, q);
    ColumnCards(b, i, q);
    ColumnStaysCovered(b, i, q, -1);
    Cancel(BoardCards(b), BoardCards(b.(tableau := b.tableau[i := q])), PileCards(q), PileCards(p), multiset(p.up[c..]));
  }

  /** Cutting face-up cards c.. off a pile leaves a pile that keeps the rules
      and holds every card but the cut ones. */
  lemma LiftPile(p: Pile, c: nat)
    requires AllWellFormed(p.down) && AllWellFormed(p.up) && ValidRun(p.up) && c < |p.up|
    ensures var q := p.(up := p.up[..c]);
      && AllWellFormed(q.down) && AllWellFormed(q.up) && ValidRun(q.up)
      && PileCards(p) == PileCards(q) + multiset(p.up[c..])
      && p.up[c..] != [] && AllWellFormed(p.up[c..])
  {
    RunPrefix(p.up, c);
    WellFormedSlices(p.up, c);
    SplitAt(p.up, c);
  }

  /** Undo, with no run held, restores a snapshot that is itself a reachable board. */
  lemma UndoKeeps(g: Game)
    requires Invariant(g) && g.dragging.None?
    ensures Invariant(Undo(g))
  {
    if g.history != [] {
      var s := Last(g.history);
      Popped(g.history, g.history[..|g.history| - 1]);
      Recounted(s, Max(0, s.moveCount - 1));
      RestingGameIsValid(Undo(g));
    }
  }

  /** A press with no run held keeps the invariant. */
  lemma PressKeeps(g: Game, spot: Spot, deck: seq<Card>)
    requires Invariant(g) && g.dragging.None? && IsShuffle(deck)
    ensures Invariant(PressAsWritten(g, spot, deck))
  {
    var b := g.board;
    var r := PressAsWritten(g, spot, deck);
    if b.gameOver {
      if spot.PlayAgainButton? {
        NewGameIsValid(deck);
      }
    } else {
      match spot
      case UndoButton =>
        UndoKeeps(g);
      case ReshuffleButton =>
        NewGameIsValid(deck);
      case StockSpot =>
        StockClickKeeps(g);
      case WasteSpot =>
        if b.waste != [] {
          LiftWasteKeeps(g);
        }
      case TableauSpot(i, c) =>
        if i < |b.tableau| && c < |b.tableau[i].up| {
          LiftTableauKeeps(g, i, c);
        }
      case _ =>
    }
  }

  /** A press, with presses ignored during a drag, keeps the invariant. */
  lemma MouseDownKeepsInvariant(g: Game, spot: Spot, deck: seq<Card>)
    requires Invariant(g) && IsShuffle(deck)
    ensures Invariant(MouseDown(g, spot, deck))
  {
    if g.dragging.None? {
      PressKeeps(g, spot, deck);
    }
  }

  // ----------------------------------------------------------------- drop

  /** Turning up the top face-down card of a column without face-up cards. */
  /** The board once column i turns up its top face-down card. */
  function FlipColumn(b: Board, i: nat): Board
    requires i < |b.tableau| && b.tableau[i].down != []
  {
    var p := b.tableau[i];
    b.(tableau := b.tableau[i := Pile(p.down[..|p.down| - 1], p.up + [Last(p.down)])])
  }

  lemma FlipKeeps(b: Board, i: nat)
    requires BoardShape(b) && PileRules(b) && i < |b.tableau|
    requires b.tableau[i].up == [] && b.tableau[i].down != []
    requires NoBareColumn(b, i)
    ensures var f := FlipColumn(b, i);
      BoardShape(f) && PileRules(f) && NoBareColumn(f, -1) && BoardCards(f) == BoardCards(b)
  {
    var p := b.tableau[i];
    var n := |p.down| - 1;
    var q := Pile(p.down[..n], p.up + [p.down[n]]);
    SplitAt(p.down, n);
    assert p.down[n..] == [p.down[n]];
    assert PileCards(q) == PileCards(p);
    WellFormedSlices(p.down, n);
    ColumnShape(b, i, q);
    ColumnCards(b, i, q);
    ColumnStaysCovered(b, i, q, -1);
    Cancel(BoardCards(b.(tableau := b.tableau[i := q])), BoardCards(b), PileCards(p), PileCards(q), multiset{});
  }

  /** on_drop_success on a board that already holds the dropped run leaves
      a board at rest. */
  lemma DropSuccessBoard(g: Game, src: Origin)
    requires BoardShape(g.board) && PileRules(g.board) && !g.board.gameOver
    requires src.FromTableau? ==> src.pile < |g.board.tableau|
    requires NoBareColumn(g.board, if src.FromTableau? then src.pile else -1)
    requires BoardCards(g.board) == multiset(FullDeck())
    ensures AtRest(DropSuccess(g, src).board)
  {
    var t := g.board.tableau;
    if src.FromTableau? && t[src.pile].up == [] && t[src.pile].down != [] {
      FlippedBoard(g, src.pile);
    } else {
      assert NoBareColumn(g.board, -1);
      CountAndCheck(g.board);
      assert DropSuccess(g, src).board == CheckForWin(CountMove(g.board));
    }
  }

  /** The drop success that turns up a face-down card of column i. */
  lemma FlippedBoard(g: Game, i: nat)
    requires BoardShape(g.board) && PileRules(g.board) && !g.board.gameOver && i < |g.board.tableau|
    requires g.board.tableau[i].up == [] && g.board.tableau[i].down != []
    requires NoBareColumn(g.board, i) && BoardCards(g.board) == multiset(FullDeck())
    ensures AtRest(DropSuccess(g, FromTableau(i)).board)
  {
    var b := g.board;
    FlipKeeps(b, i);
    CountAndCheck(FlipColumn(b, i));
    FlipIsDropSuccess(g, i);
  }

  lemma FlipIsDropSuccess(g: Game, i: nat)
    requires i < |g.board.tableau| && g.board.tableau[i].up == [] && g.board.tableau[i].down != []
    ensures DropSuccess(g, FromTableau(i)).board == CheckForWin(CountMove(FlipColumn(g.board, i)))
  {
  }

  /** on_drop_success on a board that already holds the dropped run. */
  lemma DropSuccessKeeps(g: Game, src: Origin)
    requires g.dragging.None? && BoardShape(g.board) && PileRules(g.board) && !g.board.gameOver
    requires src.FromTableau? ==> src.pile < |g.board.tableau|
    requires NoBareColumn(g.board, if src.FromTableau? then src.pile else -1)
    requires BoardCards(g.board) == multiset(FullDeck())
    requires forall k :: 0 <= k < |g.history| ==> AtRest(g.history[k])
    ensures Invariant(DropSuccess(g, src))
  {
    DropSuccessBoard(g, src);
    RestingGameIsValid(DropSuccess(g, src));
  }

  /** on_drop_fail keeps the invariant: the run fits back where it came from. */
  lemma DropFailKeeps(g: Game)
    requires Invariant(g) && g.dragging.Some?
    ensures Invariant(DropFail(g.(dragging := None), g.dragging.value))
  {
    var b := g.board;
    var d := g.dragging.value;
    var r := DropFail(g.(dragging := None), d);
    match d.source
    case FromWaste =>
      assert TalonCards(r.board) == TalonCards(b) + multiset(d.run);
      TalonChange(r.board, b, multiset(d.run));
      WellFormedJoin(b.waste, d.run);
      RestingGameIsValid(r);
    case FromTableau(i) =>
      var p := b.tableau[i];
      var q := p.(up := p.up + d.run);
      assert PileCards(q) == PileCards(p) + multiset(d.run);
      WellFormedJoin(p.up, d.run);
      ColumnShape(b, i, q);
      ColumnCards(b, i, q);
      ColumnStaysCovered(b, i, q, i);
      assert r.board == b.(tableau := b.tableau[i := q]);
      Cancel(BoardCards(r.board), BoardCards(b), PileCards(p), PileCards(q), multiset(d.run));
      RestingGameIsValid(r);
  }

  /** The held run is a valid run on its own. */
  lemma HeldRunIsValid(g: Game)
    requires Invariant(g) && g.dragging.Some?
    ensures ValidRun(g.dragging.value.run)
  {
    var d := g.dragging.value;
    match d.source
    case FromWaste =>
    case FromTableau(i) =>
      var up := g.board.tableau[i].up;
      RunSuffix(up + d.run, |up|);
      assert (up + d.run)[|up|..] == d.run;
  }

  /** handle_mouse_up when the held card goes to the foundation under the pointer. */
  lemma ReleaseOnFoundation(g: Game, slot: Slot)
    requires Shape(g) && g.dragging.Some? && FoundationTakes(g.board, g.dragging.value.run, slot)
    ensures var f := g.board.foundations;
      MouseUp(g, slot) ==
        DropSuccess(g.(dragging := None).(board := g.board.(foundations := f[slot.i := f[slot.i] + [g.dragging.value.run[0]]])),
                    g.dragging.value.source)
  {
  }

  /** handle_mouse_up when the held run goes to the column under the pointer. */
  lemma ReleaseOnColumn(g: Game, slot: Slot)
    requires Shape(g) && g.dragging.Some?
    requires !FoundationTakes(g.board, g.dragging.value.run, slot)
    requires ColumnTakes(g.board, g.dragging.value.run, slot)
    ensures var t := g.board.tableau;
      MouseUp(g, slot) ==
        DropSuccess(g.(dragging := None).(board := g.board.(tableau := t[slot.i := t[slot.i].(up := t[slot.i].up + g.dragging.value.run)])),
                    g.dragging.value.source)
  {
  }

  /** handle_mouse_up when no pile under the pointer takes the run. */
  lemma ReleaseElsewhere(g: Game, slot: Slot)
    requires Shape(g) && g.dragging.Some?
    requires !FoundationTakes(g.board, g.dragging.value.run, slot)
    requires !ColumnTakes(g.board, g.dragging.value.run, slot)
    ensures MouseUp(g, slot) == DropFail(g.(dragging := None), g.dragging.value)
  {
  }

  /** The board once a single held card is put on foundation k that accepts it. */
  lemma FoundationDropBoard(g: Game, k: nat)
    requires Invariant(g) && g.dragging.Some? && |g.dragging.value.run| == 1
    requires k < |g.board.foundations|
    requires IsValidFoundationMove(g.board.foundations[k], g.dragging.value.run[0], FoundationSuits[k])
    ensures var f := g.board.foundations;
      var b1 := g.board.(foundations := f[k := f[k] + [g.dragging.value.run[0]]]);
      BoardShape(b1) && PileRules(b1) && !b1.gameOver && NoBareColumn(b1, Skip(g))
      && BoardCards(b1) == multiset(FullDeck())
  {
    HeldRunMeansNotWon(g);
    var b := g.board;
    var f := b.foundations;
    var d := g.dragging.value;
    var top := d.run[0];
    var s := f[k] + [top];
    assert d.run == [top];
    assert IsFoundation(f[k], FoundationSuits[k]);
    FoundationGrows(f[k], FoundationSuits[k], top);
    WellFormedJoin(f[k], d.run);
    FoundationShape(b, k, s);
    FoundationChange(b, k, s);
    Cancel(BoardCards(b.(foundations := f[k := s])), BoardCards(b), multiset(f[k]), multiset(s), multiset(d.run));
  }

  /** A single card released on a foundation that accepts it. */
  lemma FoundationDropKeeps(g: Game, slot: Slot)
    requires Invariant(g) && g.dragging.Some? && FoundationTakes(g.board, g.dragging.value.run, slot)
    ensures Invariant(MouseUp(g, slot))
  {
    var f := g.board.foundations;
    var k := slot.i;
    var d := g.dragging.value;
    FoundationDropBoard(g, k);
    var g1 := g.(dragging := None).(board := g.board.(foundations := f[k := f[k] + [d.run[0]]]));
    DropSuccessKeeps(g1, d.source);
    ReleaseOnFoundation(g, slot);
  }

  /** The board once the held run is put on column j whose top accepts it. */
  lemma TableauDropBoard(g: Game, j: nat)
    requires Invariant(g) && g.dragging.Some?
    requires j < |g.board.tableau|
    requires IsValidTableauMove(g.board.tableau[j].up, g.dragging.value.run[0])
    ensures var t := g.board.tableau;
      var b1 := g.board.(tableau := t[j := t[j].(up := t[j].up + g.dragging.value.run)]);
      BoardShape(b1) && PileRules(b1) && !b1.gameOver && NoBareColumn(b1, Skip(g))
      && BoardCards(b1) == multiset(FullDeck())
  {
    HeldRunMeansNotWon(g);
    HeldRunIsValid(g);
    var b := g.board;
    var t := b.tableau;
    var d := g.dragging.value;
    var p := t[j];
    var q := p.(up := p.up + d.run);
    RunGrows(p.up, d.run);
    assert PileCards(q) == PileCards(p) + multiset(d.run);
    WellFormedJoin(p.up, d.run);
    ColumnShape(b, j, q);
    ColumnCards(b, j, q);
    ColumnStaysCovered(b, j, q, Skip(g));
    Cancel(BoardCards(b.(tableau := t[j := q])), BoardCards(b), PileCards(p), PileCards(q), multiset(d.run));
  }

  /** A run released on a column whose top accepts the run's bottom card. */
  lemma TableauDropKeeps(g: Game, slot: Slot)
    requires Invariant(g) && g.dragging.Some?
    requires !FoundationTakes(g.board, g.dragging.value.run, slot)
    requires ColumnTakes(g.board, g.dragging.value.run, slot)
    ensures Invariant(MouseUp(g, slot))
  {
    var t := g.board.tableau;
    var j := slot.i;
    var d := g.dragging.value;
    TableauDropBoard(g, j);
    var g1 := g.(dragging := None).(board := g.board.(tableau := t[j := t[j].(up := t[j].up + d.run)]));
    DropSuccessKeeps(g1, d.source);
    ReleaseOnColumn(g, slot);
  }

  /** A release that no pile accepts: the run goes back. */
  lemma NoDropKeeps(g: Game, slot: Slot)
    requires Invariant(g) && g.dragging.Some?
    requires !FoundationTakes(g.board, g.dragging.value.run, slot)
    requires !ColumnTakes(g.board, g.dragging.value.run, slot)
    ensures Invariant(MouseUp(g, slot))
  {
    DropFailKeeps(g);
    ReleaseElsewhere(g, slot);
  }

  /** A release keeps the invariant, whether the drop succeeds or the run goes back. */
  lemma MouseUpKeepsInvariant(g: Game, slot: Slot)
    requires Invariant(g)
    ensures Invariant(MouseUp(g, slot))
  {
    if g.dragging.Some? {
      var d := g.dragging.value;
      var b := g.board;
      if FoundationTakes(b, d.run, slot) {
        FoundationDropKeeps(g, slot);
      } else if ColumnTakes(b, d.run, slot) {
        TableauDropKeeps(g, slot);
      } else {
        NoDropKeeps(g, slot);
      }
    }
  }
}
