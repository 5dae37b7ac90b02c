# Klondike solitaire engine in Dafny

This project models the game engine of `main.py`, a Klondike solitaire game
written with pygame (draw one card at a time, at most three waste cards
shown). The modelled parts are:

- the card helpers and the two move rules;
- the `Solitaire` class: the deal, the stock, lifting and dropping runs, the
  undo history and the win check.

Drawing, images, fonts, the clock and the event loop are not modelled.

Cards are strings, as in the game: a rank from `DECK_ORDER` followed by one
suit letter (`"10H"`, `"QS"`). The random shuffle is replaced by a parameter,
which may be any ordering of the 52 names. The pygame hit tests become
abstract targets:
- a press lands on a `Spot`: a button, the stock, the waste, or face-up card
  `c` of column `i`;
- a release lands on a `Slot`: foundation `i`, the drop slot of column `i`,
  or nothing.

The resolution order of the hit tests is kept:
- buttons before the stock, the stock before the waste, the waste before
  the columns;
- on release, a foundation before a column, and a foundation only for a
  single card.

Modules:

- `Cards` (`cards.dfy`) holds the card helpers, the tableau and foundation
  rules, the full deck, valid runs and contiguous foundations.
- `Table` (`table.dfy`) holds the piles as datatypes. `Board` is what
  `save_state` copies; `Game` is a board plus the history and the run in
  hand. It also holds card counting and the invariant of every reachable
  game.
- `Rules` (`rules.dfy`) states each action as a function from the game before
  to the game after.
- `Properties` (`properties.dfy`) proves the deal, drawing and recycling.
- `Reachable` (`reachable.dfy`) proves that every action keeps the invariant.
  The invariant is:
  - each of the 52 cards is in exactly one place;
  - the foundations run Ace upwards in their suits;
  - the face-up cards of each column form a valid run;
  - the waste holds at most three cards;
  - no column shows bare face-down cards;
  - the game-over flag means all 52 cards are home;
  - every undo snapshot is itself such a board.
- `Behaviour` (`behaviour.dfy`) proves what a player sees:
  - a failed drop puts the run back;
  - a drop turns a card up and counts one move;
  - undo restores the board with a move count one lower;
  - a press during a drag behaves as described under Findings.
- `Engine` (`engine.dfy`) is the `Solitaire` class. Its fields are updated in
  place by methods shaped like those of `main.py`. Each method is proved to
  end in the state the matching `Rules` function gives. The two pointer
  handlers are proved to keep the invariant.

Behaviour that the model keeps on purpose:

- `handle_undo` loads the snapshot, which already holds the earlier move
  count, and then subtracts one more (not below zero). Undoing a counted
  action therefore leaves the count one below where it was before that
  action.
- A lift pushes a snapshot even when the drop later fails. The snapshot is
  never popped, and no move is counted.
- A stock click always pushes a snapshot and counts a move, even when the
  stock, waste and spent are all empty.
- Dropping a run back onto its own column, above a face-up card, is a
  successful move. It counts one move, and the board is otherwise unchanged.
- While the game is over, a press does nothing except on Play Again.

## Model

| member | source | states |
|---|---|---|
| Cards.Rank | main.py:66-67 | `get_rank` is the name without its last character: the rank followed by the suit letter rebuilds the name |
| Cards.Suit | main.py:69-70 | `get_suit` is the last character: everything before it followed by the suit rebuilds the name |
| Cards.CardName | main.py:35 | the name built from a rank and a suit is non-empty and splits back into that rank and that suit |
| Cards.NameRoundTrip | main.py:66-70 | the rank (all but the last character) and the suit (the last character) of a name rebuild the name |
| Cards.RankIndex | main.py:72-73 | `rank_index` of a rank in `DECK_ORDER` is a position of that rank |
| Cards.RankIndexOf | main.py:72-73 | `rank_index` of the rank at position k is k: the ranks are distinct |
| Cards.OppositeColorIsRedDiffers | main.py:75-79 | for well-formed cards, "opposite colour" holds iff exactly one of the two is red, and it is symmetric |
| Cards.TableauRule | main.py:81-92 | onto an empty pile a move is legal iff the card is a King; otherwise iff the card is exactly one rank below the top card and of the other colour (both directions) |
| Cards.FoundationAcceptsNext | main.py:94-105 | a foundation holding Ace..k of its suit accepts a card iff it is the next rank of that suit; a wrong suit is never accepted, an empty foundation takes only the Ace, a full one takes nothing |
| Cards.FoundationGrows | main.py:94-105 | a legal foundation move keeps the foundation contiguous: Ace..k becomes Ace..k+1 of the same suit |
| Cards.FullDeckDistinct | main.py:32-36 | the 52 names of the deck are pairwise distinct |
| Cards.FullDeckIsWellFormed | main.py:32-36 | a name is one of the 52 iff the rank and suit helpers accept it |
| Cards.ShuffleIsWellFormed | main.py:37 | any ordering of the deck has 52 cards, all well-formed |
| Cards.RunGrows | main.py:284-286 | appending a valid run to a column whose top accepts the run's bottom card leaves a valid run |
| Cards.RunSplits | main.py:236-238 | cutting a valid run at c leaves two valid runs, the lower one accepting the upper one's bottom card |
| Table.FoundationTotalCounts | main.py:325 | the sum of the foundation lengths is the number of cards on the foundations |
| Table.GameOverMeansFoundationsFull | main.py:323-327 | on a board that follows the pile rules and sets the flag only at 52 cards home, the game-over flag is set iff each of the four foundations holds all 13 ranks |
| Table.NoDuplicates | main.py:108-149 | in a reachable game no card is in two places |
| Rules.DealtPile | main.py:157-163 | column i of the deal has exactly i face-down cards and one face-up card |
| Rules.PressAsWritten | main.py:189-242 | `handle_mouse_down` as written: while the game is over every press but Play Again changes nothing, and Play Again does nothing before it; a stock press always snapshots and counts one move; a press that picks up a run snapshots and counts nothing, changes no foundation and no stock, and does so even while another run is held |
| Rules.CheckForWin | main.py:323-327 | the flag ends set iff it was set or the foundations hold 52 cards in total; it is never cleared and nothing else changes |
| Rules.DropSuccessLeavesDrag | main.py:289-294 | on_drop_success does not depend on whether the drag is cleared before or after it |
| Rules.DropFailLeavesDrag | main.py:291-294 | on_drop_fail does not depend on whether the drag is cleared before or after it |
| Properties.ClickStockKeepsTalon | main.py:244-258 | a stock click never reorders the talon, read as spent, then waste, then the stock from its top down |
| Properties.DrawFromStock | main.py:253-258 | drawing moves the stock's top card onto the waste; a full waste first passes its oldest card to spent; the waste never exceeds three |
| Properties.RecycleTurnsOver | main.py:246-251 | with an empty stock, the stock becomes reversed(spent + waste) and both are emptied; with nothing to recycle, nothing changes |
| Properties.ClickStockKeepsCards | main.py:244-258 | a stock click keeps every card and keeps the waste within three |
| Properties.DealLaysPrefix | main.py:155-164 | after k columns the dealt cards, column by column and face-down before face-up, are the first cards of the deck in order |
| Properties.DealTakesFirst28 | main.py:152-165 | the deal gives column i i face-down cards and one face-up card, uses exactly the first 28 cards in order, and leaves the other 24 as the stock in deck order |
| Reachable.NewGameIsValid | main.py:108-149 | a new game satisfies the invariant |
| Reachable.StockClickKeeps | main.py:207-213 | snapshot, click, count and win check keep the invariant |
| Reachable.LiftWasteKeeps | main.py:215-226 | lifting the top waste card keeps the invariant |
| Reachable.LiftTableauKeeps | main.py:228-242 | lifting face-up cards c.. of a column keeps the invariant |
| Reachable.UndoKeeps | main.py:317-321 | undo with no run held keeps the invariant |
| Reachable.PressKeeps | main.py:189-242 | any press with no run held keeps the invariant |
| Reachable.MouseDownKeepsInvariant | main.py:189-242 | a press, ignored while a run is held, keeps the invariant |
| Reachable.HeldRunMeansNotWon | main.py:323-327 | while a run is held, fewer than 52 cards are on the foundations and the game is not over |
| Reachable.HeldRunIsValid | main.py:236-241 | a held run is a valid run |
| Reachable.FlipKeeps | main.py:298-302 | turning up the top face-down card of an emptied column keeps the column's cards and leaves no bare column |
| Reachable.DropSuccessKeeps | main.py:296-305 | on_drop_success on a board that holds the dropped run ends in a valid game |
| Reachable.DropFailKeeps | main.py:307-311 | putting the run back keeps the invariant |
| Reachable.FoundationDropKeeps | main.py:267-275 | a foundation drop keeps the invariant |
| Reachable.TableauDropKeeps | main.py:277-290 | a column drop keeps the invariant |
| Reachable.NoDropKeeps | main.py:291-294 | a drop that no pile takes keeps the invariant |
| Reachable.MouseUpKeepsInvariant | main.py:260-294 | every release keeps the invariant |
| Behaviour.TableauLiftFailsBack | main.py:310-311 | a run lifted from column i and released where nothing takes it gives back exactly the board before the lift; the lift's snapshot stays and no move is counted |
| Behaviour.WasteLiftFailsBack | main.py:308-309 | the top waste card released where nothing takes it gives back exactly the board before the lift |
| Behaviour.PressAndReleaseKeepCards | main.py:189-294 | a press followed by a release keeps the multiset of cards in play |
| Behaviour.TurnUp | main.py:298-302 | turning up a bare column keeps its cards, leaves a face-up card whenever there were face-down ones, and leaves a column with face-up cards as it is |
| Behaviour.DropSuccessFlips | main.py:296-305 | an emptied origin column turns up its top face-down card and keeps its cards; the other columns, the foundations, stock, waste, spent, history and drag are unchanged; exactly one move is counted; the flag ends set iff it was set or 52 cards are home |
| Behaviour.DropSuccessOutcome | main.py:296-305 | from any origin: the origin column is turned up if bare, every other pile stays, one move is counted, the flag rule holds, history and drag stay |
| Behaviour.FoundationDropOutcome | main.py:267-275 | a single card over a foundation that takes it: that foundation gains it on top, the other foundations, stock, waste and spent stay, only the origin column changes (turned up if bare), one move is counted, the flag is set iff it was or 52 cards are now home, the history stays and the drag ends |
| Behaviour.ColumnDropOutcome | main.py:277-290 | otherwise, a run over a column that takes its bottom card: that column gains the run on top, only the origin column otherwise changes (turned up if bare), foundations, stock, waste and spent stay, one move is counted, the flag rule holds, the history stays and the drag ends |
| Behaviour.RejectedDropOutcome | main.py:291-294 | otherwise the run goes back on top of the waste or of its column, nothing else on the board changes, no move is counted, the history stays and the drag ends |
| Behaviour.DropSuccessCounts | main.py:296-305 | with nothing to turn up, the piles are unchanged, exactly one move is counted and the flag is set iff 52 cards are home |
| Behaviour.DropOnOwnColumnCounts | main.py:277-290 | a run dropped back on its own column above a face-up card restores the board but counts a move |
| Behaviour.UndoWithoutHistory | main.py:317-318 | undo with an empty history changes nothing |
| Behaviour.UndoAfterStockClick | main.py:317-321 | undoing a stock click restores the piles, with the move count one below its value before the click (floored at 0) |
| Behaviour.ReleaseKeepsHistory | main.py:260-294 | a release ends the drag and leaves the history as it is |
| Behaviour.UndoAfterLiftAndRelease | main.py:317-321 | undo after a lift and its release, successful or not, restores the board before the lift with the move count one lower (floored at 0) |
| Behaviour.WasteLiftCards | main.py:220-225 | lifting the top waste card moves it from the board into the pointer's hand |
| Behaviour.PressDuringDragLosesCards | main.py:215-226 | as written, a press on the waste while a run is held loses the held cards |
| Behaviour.UndoDuringDragDuplicates | main.py:196-199 | as written, undo while a run is held puts every held card in play twice |
| Engine.Solitaire.SaveState | main.py:167-177 | the snapshot holds the current piles, move count and flag; `LoadState` of it restores them exactly |
| Engine.Solitaire.constructor | main.py:108-149 | a new Solitaire is the new game of the given deck; the deck keeps only its last 24 cards; the invariant holds |
| Engine.Solitaire.Init | main.py:108-149 | re-running `__init__` gives the new game of the given deck |
| Engine.Solitaire.SetupTableau | main.py:152-165 | the nested dealing loops leave the tableau equal to the deal of the deck and drop the first 28 cards from the deck |
| Engine.Solitaire.DealColumn | main.py:157-163 | the inner loop deals column i its i face-down cards and one face-up card |
| Engine.Solitaire.LoadState | main.py:179-187 | after loading a snapshot, save_state returns that snapshot |
| Engine.Solitaire.ClickStock | main.py:244-258 | the in-place pops, appends and clears end in the board that `Rules.ClickStock` gives |
| Engine.Solitaire.CheckForWin | main.py:323-327 | ends in the board that `Rules.CheckForWin` gives |
| Engine.Solitaire.OnDropSuccess | main.py:296-305 | ends in the game that `Rules.DropSuccess` gives |
| Engine.Solitaire.OnDropFail | main.py:307-311 | ends in the game that `Rules.DropFail` gives |
| Engine.Solitaire.HandleUndo | main.py:317-321 | ends in the game that `Rules.Undo` gives |
| Engine.Solitaire.PressStock | main.py:207-213 | ends in the game that `Rules.StockClick` gives |
| Engine.Solitaire.LiftWaste | main.py:215-226 | ends in the game that `Rules.LiftWaste` gives |
| Engine.Solitaire.LiftColumn | main.py:228-242 | ends in the game that `Rules.LiftTableau` gives |
| Engine.Solitaire.HandleMouseDown | main.py:189-242 | ends in the game that `Rules.MouseDown` gives, and keeps the invariant; the deck is the new deal's remaining 24 cards after Play Again or Reshuffle and is otherwise untouched |
| Engine.Solitaire.HandleMouseUp | main.py:260-294 | ends in the game that `Rules.MouseUp` gives, and keeps the invariant; it changes no field but the piles it drops onto or back onto, the counters and the drag |
| Engine.Solitaire.PlaceOnFoundation | main.py:270-274 | appending the card, ending the drag and on_drop_success end in `Rules.DropSuccess` of the board with the card on that foundation |
| Engine.Solitaire.PlaceOnColumn | main.py:284-290 | extending the column, on_drop_success and then ending the drag end in `Rules.DropSuccess` of the board with the run on that column |
| Engine.Solitaire.ReturnRun | main.py:291-294 | on_drop_fail and then ending the drag end in `Rules.DropFail` |

## Left out

- pygame: the window, clock, fonts, images, `draw` and `draw_win_screen`,
  the cursor change in `handle_mouse_motion`, and the `main` event loop.
  These are I/O only.
- The random shuffle in `create_full_deck`. The deck is a parameter: any
  ordering of the 52 names.
- Rectangle hit tests and layout constants. A press is a `Spot` and a
  release is a `Slot`.
- The pointer offset `dx, dy` kept in the drag tuple. It affects only
  drawing.
- `start_time` and the elapsed-time display. They use the wall clock.
- Python's deep copies in `save_state` and `load_state`. Dafny values are
  immutable, so a snapshot cannot be changed by later moves.
- Engine.Solitaire.HandleMouseDown and Engine.Solitaire.HandleMouseUp state
  the invariant as kept (`old(Valid()) ==> Valid()`) rather than requiring it
  on entry.
  - HandleMouseDown needs nothing of the state.
  - HandleMouseUp needs only the shape the rank and suit helpers rely on:
    seven columns, four foundations, well-formed names and a non-empty held
    run.
- Engine.Solitaire.HandleMouseDown implements the corrected behaviour under
  Findings (a press during a drag is ignored). The as-written behaviour is
  `Rules.PressAsWritten`.

## Findings

| source | as written | input that shows it | evidently intended | confidence | as-written member | corrected member |
|---|---|---|---|---|---|---|
| main.py:189-242 | `handle_mouse_down` never checks `self.dragging`, so a second press during a drag is treated as a new press; a press on the waste replaces the held run with the top waste card | hold a run lifted from a column, then press another mouse button (pygame reports every button and the wheel as a button press) over a non-empty waste: the held cards are in no pile and no hand, and the game has fewer than 52 cards | a press while a run is held does nothing; only one drag is active at a time | not executed | Behaviour.PressDuringDragLosesCards | Reachable.MouseDownKeepsInvariant |
| main.py:189-199 | the same missing check lets the Undo button restore the snapshot from before the lift while the lifted run stays in hand | hold a run, then press another button over Undo: the snapshot holds the run's cards in their pile and the hand holds them too, so each is in play twice | a press while a run is held does nothing | not executed | Behaviour.UndoDuringDragDuplicates | Reachable.MouseDownKeepsInvariant |
