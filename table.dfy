/** The piles of the game and what a snapshot holds (main.py, lines 107-187):
    seven tableau columns, stock, waste, spent, four foundations, the move
    count, the game-over flag, the undo history and the run being dragged. */
module Table {
  import opened Cards

  datatype Option<T> = None | Some(value: T)

  /** One tableau column: face-down cards and face-up cards, each bottom to top. */
  datatype Pile = Pile(down: seq<Card>, up: seq<Card>)

  /** Everything save_state copies. The live game is a Board too, plus the
      history and the drag. Every sequence is ordered bottom to top; for the
      waste that is oldest first. */
  datatype Board = Board(
    tableau: seq<Pile>,
    stock: seq<Card>,
    waste: seq<Card>,
    spent: seq<Card>,
    foundations: seq<seq<Card>>,
    moveCount: nat,
    gameOver: bool)

  /** Where a dragged run was lifted from. */
  datatype Origin = FromWaste | FromTableau(pile: nat)

  /** The run held by the pointer (the pointer offset is presentation only). */
  datatype Drag = Drag(source: Origin, run: seq<Card>)

  datatype Game = Game(board: Board, history: seq<Board>, dragging: Option<Drag>)

  const TableauPiles: nat := 7
  const WasteCapacity: nat := 3
  const DeckSize: nat := 52

  /** The suit each foundation accepts, in slot order. */
  const FoundationSuits: seq<char> := ['H', 'D', 'C', 'S']

  function EmptyPiles(): (t: seq<Pile>)
    ensures |t| == TableauPiles && forall i :: 0 <= i < |t| ==> t[i] == Pile([], [])
  {
    seq(TableauPiles, _ => Pile([], []))
  }

  // ------------------------------------------------------------- counting

  function PileCards(p: Pile): multiset<Card>
  {
    multiset(p.down) + multiset(p.up)
  }

  function TableauCards(t: seq<Pile>): multiset<Card>
  {
    if t == [] then multiset{} else TableauCards(t[..|t| - 1]) + PileCards(Last(t))
  }

  function FoundationCards(f: seq<seq<Card>>): multiset<Card>
  {
    if f == [] then multiset{} else FoundationCards(f[..|f| - 1]) + multiset(Last(f))
  }

  /** sum(len(f) for f in foundations) */
  function FoundationTotal(f: seq<seq<Card>>): nat
  {
    if f == [] then 0 else FoundationTotal(f[..|f| - 1]) + |Last(f)|
  }

  /** The cards of stock, waste and spent. */
  function TalonCards(b: Board): multiset<Card>
  {
    multiset(b.stock) + multiset(b.waste) + multiset(b.spent)
  }

  function BoardCards(b: Board): multiset<Card>
  {
    TableauCards(b.tableau) + TalonCards(b) + FoundationCards(b.foundations)
  }

  function DragCards(d: Option<Drag>): multiset<Card>
  {
    if d.Some? then multiset(d.value.run) else multiset{}
  }

  /** Every card in play, including the run in the pointer's hand. */
  function GameCards(g: Game): multiset<Card>
  {
    BoardCards(g.board) + DragCards(g.dragging)
  }

  // ----------------------------------------------------------- invariants

  /** Every card of the pile is a name the rank and suit helpers accept. */
  predicate AllWellFormed(s: seq<Card>)
  {
    forall c :: c in s ==> WellFormed(c)
  }

  /** Seven columns, four foundations and only well-formed card names:
      what the rank and suit helpers need to run without failing. */
  predicate BoardShape(b: Board)
  {
    |b.tableau| == TableauPiles && |b.foundations| == |FoundationSuits| &&
    (forall i :: 0 <= i < |b.tableau| ==> AllWellFormed(b.tableau[i].down) && AllWellFormed(b.tableau[i].up)) &&
    AllWellFormed(b.stock) && AllWellFormed(b.waste) && AllWellFormed(b.spent) &&
    (forall i :: 0 <= i < |b.foundations| ==> AllWellFormed(b.foundations[i]))
  }

  /** A drag holds a non-empty well-formed run; a run from the waste is one card. */
  predicate DragShape(g: Game)
  {
    g.dragging.Some? ==>
      var d := g.dragging.value;
      d.run != [] && AllWellFormed(d.run) &&
      (d.source.FromTableau? ==> d.source.pile < TableauPiles) &&
      (d.source.FromWaste? ==> |d.run| == 1)
  }

  predicate Shape(g: Game)
  {
    BoardShape(g.board) && DragShape(g)
  }

  /** The game's own rules for the piles: at most three waste cards, each
      foundation Ace upwards in its suit, every face-up column a descending run
      of alternating colours. */
  predicate PileRules(b: Board)
    requires BoardShape(b)
  {
    |b.waste| <= WasteCapacity &&
    (forall i :: 0 <= i < |b.foundations| ==> IsFoundation(b.foundations[i], FoundationSuits[i])) &&
    (forall i :: 0 <= i < |b.tableau| ==> ValidRun(b.tableau[i].up))
  }

  /** PileRules, and the game-over flag set exactly when all 52 cards are on the foundations. */
  predicate PileRulesAndFlag(b: Board)
    requires BoardShape(b)
  {
    PileRules(b) && (b.gameOver <==> FoundationTotal(b.foundations) == DeckSize)
  }

  /** No column shows its face-down cards bare: a column without face-up cards
      has no face-down cards either. The column a run was lifted from, if any,
      is exempt until the drop. */
  predicate NoBareColumn(b: Board, skip: int)
  {
    forall i :: 0 <= i < |b.tableau| && i != skip ==> b.tableau[i].up == [] ==> b.tableau[i].down == []
  }

  /** The column a held run came from, or -1. */
  function Skip(g: Game): int
  {
    if g.dragging.Some? && g.dragging.value.source.FromTableau? then g.dragging.value.source.pile else -1
  }

  /** A board with no drag in progress, as save_state records it: well shaped,
      following the pile rules with the right game-over flag, no bare column,
      and holding each of the 52 cards exactly as often as the deck does. */
  predicate AtRest(b: Board)
  {
    BoardShape(b) && PileRulesAndFlag(b) && NoBareColumn(b, -1) && BoardCards(b) == multiset(FullDeck())
  }

  /** A dragged run still fits where it came from: back onto its column as a
      valid run, or back onto a waste with room for it. */
  predicate DragFits(g: Game)
    requires Shape(g)
  {
    g.dragging.Some? ==>
      match g.dragging.value.source
      case FromWaste => |g.board.waste| < WasteCapacity
      case FromTableau(i) => ValidRun(g.board.tableau[i].up + g.dragging.value.run)
  }

  /** The invariant of every reachable game. */
  predicate Invariant(g: Game)
  {
    Shape(g) && PileRulesAndFlag(g.board) && NoBareColumn(g.board, Skip(g)) && DragFits(g) &&
    GameCards(g) == multiset(FullDeck()) &&
    forall k :: 0 <= k < |g.history| ==> AtRest(g.history[k])
  }

  // --------------------------------------------------------------- lemmas

  /** Replacing one column changes the tableau's cards by exactly that column's. */
  lemma {:induction false} TableauCardsUpdate(t: seq<Pile>, i: nat, p: Pile)
    requires i < |t|
    ensures TableauCards(t[i := p]) + PileCards(t[i]) == TableauCards(t) + PileCards(p)
  {
    var n := |t| - 1;
    var u := t[i := p];
    if i == n {
      assert u[..n] == t[..n];
    } else {
      var t', u' := t[..n], u[..n];
      assert u' == t'[i := p];
      TableauCardsUpdate(t', i, p);
      MultisetShift(TableauCards(u'), TableauCards(t'), PileCards(t[i]), PileCards(p), PileCards(t[n]));
    }
  }

  lemma MultisetShift(a: multiset<Card>, b: multiset<Card>, x: multiset<Card>, y: multiset<Card>, z: multiset<Card>)
    requires a + x == b + y
    ensures (a + z) + x == (b + z) + y
  {
    calc {
      (a + z) + x;
      (a + x) + z;
      (b + y) + z;
      (b + z) + y;
    }
  }

  /** Replacing one foundation changes the foundations' cards, and their total,
      by exactly that foundation's. */
  lemma {:induction false} FoundationCardsUpdate(f: seq<seq<Card>>, i: nat, s: seq<Card>)
    requires i < |f|
    ensures FoundationCards(f[i := s]) + multiset(f[i]) == FoundationCards(f) + multiset(s)
    ensures FoundationTotal(f[i := s]) + |f[i]| == FoundationTotal(f) + |s|
  {
    var n := |f| - 1;
    var u := f[i := s];
    assert FoundationCards(u) == FoundationCards(u[..n]) + multiset(u[n]);
    assert FoundationCards(f) == FoundationCards(f[..n]) + multiset(f[n]);
    assert FoundationTotal(u) == FoundationTotal(u[..n]) + |u[n]|;
    assert FoundationTotal(f) == FoundationTotal(f[..n]) + |f[n]|;
    if i == n {
      assert u[..n] == f[..n];
    } else {
      assert u[..n] == f[..n][i := s];
      assert f[..n][i] == f[i] && u[n] == f[n];
      FoundationCardsUpdate(f[..n], i, s);
      calc {
        FoundationCards(u) + multiset(f[i]);
        (FoundationCards(u[..n]) + multiset(f[i])) + multiset(f[n]);
        (FoundationCards(f[..n]) + multiset(s)) + multiset(f[n]);
        FoundationCards(f) + multiset(s);
      }
    }
  }

  /** The total counted by check_for_win is the number of foundation cards. */
  lemma {:induction false} FoundationTotalCounts(f: seq<seq<Card>>)
    ensures FoundationTotal(f) == |FoundationCards(f)|
  {
    if f != [] {
      FoundationTotalCounts(f[..|f| - 1]);
    }
  }

  /** A card of the full deck appears in it exactly once. */
  lemma FullDeckOnce(c: Card)
    ensures multiset(FullDeck())[c] <= 1
  {
    FullDeckDistinct();
    DistinctOnce(FullDeck(), c);
  }

  lemma {:induction false} DistinctOnce(s: seq<Card>, c: Card)
    requires forall i, j :: 0 <= i < j < |s| ==> s[i] != s[j]
    ensures multiset(s)[c] <= 1
  {
    if s != [] {
      var n := |s| - 1;
      assert s == s[..n] + [s[n]];
      DistinctOnce(s[..n], c);
      if c == s[n] {
        assert c !in s[..n];
      }
    }
  }

  /** In a reachable game no card is in two places at once. */
  lemma NoDuplicates(g: Game, c: Card)
    requires Invariant(g)
    ensures GameCards(g)[c] <= 1
  {
    FullDeckOnce(c);
  }

  /** Four full foundations are what the game-over flag means. */
  lemma {:induction false} GameOverMeansFoundationsFull(b: Board)
    requires BoardShape(b) && PileRulesAndFlag(b)
    ensures b.gameOver <==> forall i :: 0 <= i < |b.foundations| ==> |b.foundations[i]| == |DeckOrder|
  {
    var f := b.foundations;
    assert FoundationTotal(f[..0]) == 0;
    assert FoundationTotal(f[..1]) == |f[0]| by { assert f[..1][..0] == f[..0]; }
    assert FoundationTotal(f[..2]) == |f[0]| + |f[1]| by { assert f[..2][..1] == f[..1]; }
    assert FoundationTotal(f[..3]) == |f[0]| + |f[1]| + |f[2]| by { assert f[..3][..2] == f[..2]; }
    assert FoundationTotal(f) == |f[0]| + |f[1]| + |f[2]| + |f[3]|;
    assert IsFoundation(f[0], FoundationSuits[0]);
    assert IsFoundation(f[1], FoundationSuits[1]);
    assert IsFoundation(f[2], FoundationSuits[2]);
    assert IsFoundation(f[3], FoundationSuits[3]);
  }
}
