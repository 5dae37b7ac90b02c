/** The Solitaire class of main.py (lines 107-327): the game state held in
    fields that its methods update in place. Each method is proved to leave
    the state that the matching function of module Rules describes, and the
    two pointer handlers to keep the invariant of every reachable game. */
module Engine {
  import opened Cards
  import opened Table
  import opened Rules
  import opened Properties
  import opened Reachable

  class Solitaire {
    /** What is left of the shuffled deck once the columns are dealt. */
    var deck: seq<Card>
    var tableau: seq<Pile>
    var stock: seq<Card>
    var waste: seq<Card>
    var spent: seq<Card>
    var foundations: seq<seq<Card>>
    var moveCount: nat
    var gameOver: bool
    var history: seq<Board>
    var dragging: Option<Drag>

    /** save_state: a copy of every pile, the move count and the game-over flag. */
    function SaveState(): (b: Board)
      reads this
      ensures b.tableau == tableau && b.foundations == foundations
      ensures b.stock == stock && b.waste == waste && b.spent == spent
      ensures b.moveCount == moveCount && b.gameOver == gameOver
    {
      Board(tableau, stock, waste, spent, foundations, moveCount, gameOver)
    }

    /** The whole state as a value of Rules. */
    function Model(): Game
      reads this
    {
      Game(SaveState(), history, dragging)
    }

    ghost predicate Valid()
      reads this
    {
      Invariant(Model())
    }

    /** Solitaire(), with the shuffled deck given instead of drawn at random. */
    constructor (shuffled: seq<Card>)
      requires IsShuffle(shuffled)
      ensures Model() == NewGame(shuffled) && |shuffled| == DeckSize && deck == shuffled[28..]
      ensures Valid()
    {
      deck, tableau, stock, waste, spent := [], [], [], [], [];
      foundations, moveCount, gameOver, history, dragging := [], 0, false, [], None;
      new;
      Init(shuffled);
      NewGameIsValid(shuffled);
    }

    /** The body of __init__, which the Play Again and Reshuffle buttons run again. */
    method Init(shuffled: seq<Card>)
      requires IsShuffle(shuffled)
      modifies this
      ensures Model() == NewGame(shuffled) && |shuffled| == DeckSize && deck == shuffled[28..]
    {
      ShuffleIsWellFormed(shuffled);
      deck := shuffled;
      tableau := EmptyPiles();
      SetupTableau();
      stock := deck;
      waste := [];
      spent := [];
      foundations := [[], [], [], []];
      dragging := None;
      moveCount := 0;
      history := [];
      gameOver := false;
    }

    /** setup_tableau: deal column i its i face-down cards and then one face-up
        card, walking the deck with a counter, then drop the 28 dealt cards
        from the deck. */
    method SetupTableau()
      requires |deck| >= 28 && tableau == EmptyPiles()
      modifies this`tableau, this`deck
      ensures tableau == Deal(old(deck)) && deck == old(deck)[28..]
    {
      var used := 0;
      var i := 0;
      while i < TableauPiles
        invariant deck == old(deck)
        invariant i <= TableauPiles && used == Dealt(i) && |tableau| == TableauPiles
        invariant forall k :: 0 <= k < i ==> tableau[k] == DealtPile(deck, k)
        invariant forall k :: i <= k < TableauPiles ==> tableau[k] == Pile([], [])
      {
        used := DealColumn(i, used);
        i := i + 1;
      }
      assert forall k :: 0 <= k < TableauPiles ==> tableau[k] == Deal(deck)[k];
      deck := deck[28..];
    }

    /** The inner loop of setup_tableau for column i: i cards face down, then
        one face up, taken from the deck from position used on. */
    method DealColumn(i: nat, start: nat) returns (used: nat)
      requires i < TableauPiles && |deck| >= 28 && start == Dealt(i)
      requires |tableau| == TableauPiles && tableau[i] == Pile([], [])
      modifies this`tableau
      ensures used == Dealt(i + 1)
      ensures tableau == old(tableau)[i := DealtPile(deck, i)]
    {
      DealtBound(i);
      used := start;
      var j := 0;
      while j < i + 1
        invariant j <= i + 1 && used == Dealt(i) + j && |tableau| == TableauPiles
        invariant tableau[i].down == deck[Dealt(i)..Dealt(i) + if j < i then j else i]
        invariant tableau[i].up == if j <= i then [] else [deck[Dealt(i) + i]]
        invariant forall k :: 0 <= k < TableauPiles && k != i ==> tableau[k] == old(tableau)[k]
      {
        if j < i {
          tableau := tableau[i := tableau[i].(down := tableau[i].down + [deck[used]])];
        } else {
          tableau := tableau[i := tableau[i].(up := tableau[i].up + [deck[used]])];
        }
        used := used + 1;
        j := j + 1;
      }
    }

    /** load_state: put a snapshot's piles, move count and flag back. */
    method LoadState(state: Board)
      modifies this`tableau, this`stock, this`waste, this`spent, this`foundations, this`moveCount, this`gameOver
      ensures SaveState() == state
    {
      tableau := state.tableau;
      stock := state.stock;
      waste := state.waste;
      spent := state.spent;
      foundations := state.foundations;
      moveCount := state.moveCount;
      gameOver := state.gameOver;
    }

    /** click_stock, step by step: pop the stock's top card, first moving the
        oldest waste card to spent when three are showing; or recycle. */
    method ClickStock()
      modifies this`stock, this`waste, this`spent
      ensures SaveState() == Rules.ClickStock(old(SaveState()))
    {
      if stock == [] {
        if waste != [] || spent != [] {
          stock := Reverse(spent + waste);
          waste := [];
          spent := [];
        }
        return;
      }
      var card := Last(stock);
      stock := stock[..|stock| - 1];
      if |waste| == WasteCapacity {
        var oldest := waste[0];
        waste := waste[1..];
        spent := spent + [oldest];
      }
      waste := waste + [card];
    }

    /** check_for_win: sum the foundation sizes and set the flag at 52. */
    method CheckForWin()
      modifies this`gameOver
      ensures SaveState() == Rules.CheckForWin(old(SaveState()))
    {
      var total := FoundationTotal(foundations);
      if total == DeckSize {
        gameOver := true;
      }
    }

    /** on_drop_success: turn up a card of an emptied origin column, count the
        move, check for a win. */
    method OnDropSuccess(source: Origin)
      requires source.FromTableau? ==> source.pile < |tableau|
      modifies this`tableau, this`moveCount, this`gameOver
      ensures Model() == DropSuccess(old(Model()), source)
    {
      if source.FromTableau? {
        var i := source.pile;
        if tableau[i].up == [] && tableau[i].down != [] {
          var down := tableau[i].down;
          tableau := tableau[i := Pile(down[..|down| - 1], tableau[i].up + [Last(down)])];
        }
      }
      moveCount := moveCount + 1;
      CheckForWin();
    }

    /** on_drop_fail: put the run back on the pile it came from. */
    method OnDropFail(d: Drag)
      requires d.source.FromTableau? ==> d.source.pile < |tableau|
      modifies this`tableau, this`waste
      ensures Model() == DropFail(old(Model()), d)
    {
      match d.source
      case FromWaste =>
        waste := waste + d.run;
      case FromTableau(i) =>
        tableau := tableau[i := tableau[i].(up := tableau[i].up + d.run)];
    }

    /** handle_undo: pop the latest snapshot, load it, then take one more off
        the move count, not below zero. */
    method HandleUndo()
      modifies this`tableau, this`stock, this`waste, this`spent, this`foundations, this`moveCount, this`gameOver, this`history
      ensures Model() == Undo(old(Model()))
    {
      if history != [] {
        var prev := Last(history);
        history := history[..|history| - 1];
        LoadState(prev);
        moveCount := Max(0, moveCount - 1);
      }
    }

    /** handle_mouse_down with the hit tests resolved to a Spot; a press while
        a run is held is ignored. A stock press snapshots, clicks the stock,
        counts a move and checks for a win; a press on the top waste card or
        on a face-up column card snapshots and lifts. */
    method HandleMouseDown(spot: Spot, shuffled: seq<Card>)
      requires IsShuffle(shuffled)
      modifies this
      ensures Model() == MouseDown(old(Model()), spot, shuffled)
      ensures old(Valid()) ==> Valid()
      ensures |shuffled| == DeckSize && deck == if old(dragging).None? && (if old(gameOver) then spot.PlayAgainButton? else spot.ReshuffleButton?)
        then shuffled[28..] else old(deck)
    {
      ghost var g := Model();
      if Valid() {
        MouseDownKeepsInvariant(g, spot, shuffled);
      }
      ShuffleIsWellFormed(shuffled);
      if dragging.Some? {
        return;
      }
      if gameOver {
        if spot.PlayAgainButton? {
          Init(shuffled);
        }
        return;
      }
      match spot
      case UndoButton =>
        HandleUndo();
      case ReshuffleButton =>
        Init(shuffled);
      case StockSpot =>
        PressStock();
      case WasteSpot =>
        if waste != [] {
          LiftWaste();
        }
      case TableauSpot(i, c) =>
        if i < |tableau| && c < |tableau[i].up| {
          LiftColumn(i, c);
        }
      case _ =>
    }

    /** The stock branch of handle_mouse_down: snapshot, click the stock, count
        a move, check for a win. */
    method PressStock()
      modifies this`history, this`stock, this`waste, this`spent, this`moveCount, this`gameOver
      ensures Model() == StockClick(old(Model()))
    {
      history := history + [SaveState()];
      ClickStock();
      moveCount := moveCount + 1;
      CheckForWin();
    }

    /** The waste branch of handle_mouse_down: snapshot, then pop the top waste
        card into the pointer's hand. */
    method LiftWaste()
      requires waste != []
      modifies this`history, this`waste, this`dragging
      ensures Model() == Rules.LiftWaste(old(Model()))
    {
      history := history + [SaveState()];
      var card := Last(waste);
      waste := waste[..|waste| - 1];
      dragging := Some(Drag(FromWaste, [card]));
    }

    /** The tableau branch of handle_mouse_down: snapshot, then cut face-up
        cards c.. off column i into the pointer's hand. */
    method LiftColumn(i: nat, c: nat)
      requires i < |tableau| && c < |tableau[i].up|
      modifies this`history, this`tableau, this`dragging
      ensures Model() == LiftTableau(old(Model()), i, c)
    {
      history := history + [SaveState()];
      var run := tableau[i].up[c..];
      tableau := tableau[i := tableau[i].(up := tableau[i].up[..c])];
      dragging := Some(Drag(FromTableau(i), run));
    }

    /** handle_mouse_up with the hit tests resolved to a Slot: a single card
        onto an accepting foundation, else the run onto an accepting column,
        else back where it came from; the drag ends. */
    method HandleMouseUp(slot: Slot)
      requires Shape(Model())
      modifies this`tableau, this`foundations, this`waste, this`moveCount, this`gameOver, this`dragging
      ensures Model() == MouseUp(old(Model()), slot)
      ensures old(Valid()) ==> Valid()
    {
      ghost var g := Model();
      if Valid() {
        MouseUpKeepsInvariant(g, slot);
      }
      if dragging.None? {
        return;
      }
      var d := dragging.value;
      if FoundationTakes(SaveState(), d.run, slot) {
        ReleaseOnFoundation(g, slot);
        PlaceOnFoundation(slot.i, d);
        return;
      }
      var placed := ColumnTakes(SaveState(), d.run, slot);
      if placed {
        ReleaseOnColumn(g, slot);
        PlaceOnColumn(slot.i, d);
      } else {
        ReleaseElsewhere(g, slot);
        ReturnRun(d);
      }
    }

    /** The foundation branch of handle_mouse_up: append the held card to
        foundation k, end the drag, then on_drop_success. */
    method PlaceOnFoundation(k: nat, d: Drag)
      requires dragging == Some(d) && d.run != [] && k < |foundations|
      requires d.source.FromTableau? ==> d.source.pile < |tableau|
      modifies this`foundations, this`dragging, this`tableau, this`moveCount, this`gameOver
      ensures Model() == DropSuccess(old(Model()).(dragging := None).(board :=
        old(SaveState()).(foundations := old(foundations)[k := old(foundations)[k] + [d.run[0]]])), d.source)
    {
      foundations := foundations[k := foundations[k] + [d.run[0]]];
      dragging := None;
      OnDropSuccess(d.source);
    }

    /** The column branch of handle_mouse_up: extend column k with the held
        run, then on_drop_success, then end the drag. */
    method PlaceOnColumn(k: nat, d: Drag)
      requires dragging == Some(d) && k < |tableau|
      requires d.source.FromTableau? ==> d.source.pile < |tableau|
      modifies this`dragging, this`tableau, this`moveCount, this`gameOver
      ensures Model() == DropSuccess(old(Model()).(dragging := None).(board :=
        old(SaveState()).(tableau := old(tableau)[k := old(tableau)[k].(up := old(tableau)[k].up + d.run)])), d.source)
    {
      tableau := tableau[k := tableau[k].(up := tableau[k].up + d.run)];
      ghost var held := Model();
      OnDropSuccess(d.source);
      DropSuccessLeavesDrag(held, d.source, None);
      dragging := None;
    }

    /** The last branch of handle_mouse_up: on_drop_fail, then end the drag. */
    method ReturnRun(d: Drag)
      requires dragging == Some(d)
      requires d.source.FromTableau? ==> d.source.pile < |tableau|
      modifies this`dragging, this`tableau, this`waste
      ensures Model() == DropFail(old(Model()).(dragging := None), d)
    {
      ghost var held := Model();
      OnDropFail(d);
      DropFailLeavesDrag(held, d, None);
      dragging := None;
    }
  }
}
