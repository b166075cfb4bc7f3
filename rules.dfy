/**
 * The rules of the game as pure predicates over a board snapshot:
 * occupancy, the eight winning lines, win detection and draw detection.
 * A board is the view model's `moves` array: nine optional moves, one slot
 * per cell, read here as a value.
 */
module Rules {
  import opened Wrappers
  import opened GameModel

  type Board = seq<Option<Move>>

  /** The rows, columns and diagonals, kept as an unordered set of cell sets. */
  const WinPatterns: set<set<int>> :=
    {{0, 1, 2}, {3, 4, 5}, {6, 7, 8}, {0, 3, 6}, {1, 4, 7}, {2, 5, 8}, {0, 4, 8}, {2, 4, 6}}

  /** How many rows, columns and diagonals a 3x3 board has. */
  const LineCount := 8

  /**
   * The `k`-th line of the 3x3 grid, built from its geometry rather than
   * listed: rows are `3r, 3r+1, 3r+2`, columns `c, c+3, c+6`, then the two
   * diagonals through the centre.
   */
  function LineAt(k: int): (int, int, int)
    requires 0 <= k < LineCount
  {
    if k < 3 then (3 * k, 3 * k + 1, 3 * k + 2)
    else if k < 6 then (k - 3, k, k + 3)
    else if k == 6 then (0, 4, 8)
    else (2, 4, 6)
  }

  /** The board invariant: nine slots, and slot `i` is empty or holds a move placed at `i`. */
  predicate WellFormed(moves: Board)
  {
    |moves| == 9 &&
    forall i :: 0 <= i < |moves| ==> moves[i].None? || moves[i].value.boardIndex == i
  }

  /** The board a game starts from and a reset returns to. */
  function EmptyBoard(): (b: Board)
    ensures WellFormed(b)
    ensures forall i :: 0 <= i < |b| ==> b[i].None?
  {
    seq(9, _ => None)
  }

  /** Scans the slots for a move whose recorded position is `index`. */
  function IsSquareOccupied(moves: Board, index: int): (occupied: bool)
    ensures occupied <==>
      exists i :: 0 <= i < |moves| && moves[i].Some? && moves[i].value.boardIndex == index
  {
    if moves == [] then false
    else (moves[0].Some? && moves[0].value.boardIndex == index) || IsSquareOccupied(moves[1..], index)
  }

  /**
   * The recorded positions of all moves `player` has made. On a well-formed
   * board these are exactly the cells holding `player`'s moves.
   */
  function Positions(moves: Board, player: Player): (positions: set<int>)
    ensures WellFormed(moves) ==> forall x :: x in positions <==> Owns(moves, player, x)
  {
    set i | 0 <= i < |moves| && moves[i].Some? && moves[i].value.player == player
      :: moves[i].value.boardIndex
  }

  /**
   * Whether some winning pattern lies inside `player`'s positions, that is,
   * whether `player` has moves at all three cells of a row, column or diagonal.
   */
  predicate CheckWinCondition(player: Player, moves: Board)
    ensures CheckWinCondition(player, moves) <==>
      exists k :: 0 <= k < LineCount &&
        {LineAt(k).0, LineAt(k).1, LineAt(k).2} <= Positions(moves, player)
  {
    AllPatternsAreLines();
    exists pattern :: pattern in WinPatterns && pattern <= Positions(moves, player)
  }

  /** How many slots hold a move (the length of the board with its empty slots removed). */
  function FilledCount(moves: Board): (n: nat)
    ensures n <= |moves|
    ensures n == |moves| <==> forall i :: 0 <= i < |moves| ==> moves[i].Some?
  {
    if moves == [] then 0
    else (if moves[0].Some? then 1 else 0) + FilledCount(moves[1..])
  }

  /** A draw is declared when nine slots are filled, whoever holds a line. */
  predicate CheckForDraw(moves: Board)
    ensures |moves| == 9 ==> (CheckForDraw(moves) <==> forall i :: 0 <= i < 9 ==> moves[i].Some?)
  {
    FilledCount(moves) == 9
  }

  /** `player` has a move at cell `c`. */
  predicate Owns(moves: Board, player: Player, c: int)
  {
    0 <= c < |moves| && moves[c] == Some(Move(player, c))
  }

  /** `player` holds all three cells of `line`. */
  predicate OwnsLine(moves: Board, player: Player, line: (int, int, int))
  {
    Owns(moves, player, line.0) && Owns(moves, player, line.1) && Owns(moves, player, line.2)
  }

  /** On a well-formed board, a cell is occupied exactly when its own slot is filled. */
  lemma OccupiedIffSlotFilled(moves: Board, c: int)
    requires WellFormed(moves)
    requires 0 <= c < 9
    ensures IsSquareOccupied(moves, c) <==> moves[c].Some?
  {
  }

  /** Every pattern cell is on the board, and the set of patterns holds exactly the eight grid lines. */
  lemma PatternsAreLines(pattern: set<int>)
    ensures pattern in WinPatterns <==>
      exists k :: 0 <= k < LineCount && pattern == {LineAt(k).0, LineAt(k).1, LineAt(k).2}
    ensures pattern in WinPatterns ==> forall c :: c in pattern ==> 0 <= c < 9
  {
    if pattern in WinPatterns {
      if pattern == {0, 1, 2} { assert pattern == {LineAt(0).0, LineAt(0).1, LineAt(0).2}; }
      else if pattern == {3, 4, 5} { assert pattern == {LineAt(1).0, LineAt(1).1, LineAt(1).2}; }
      else if pattern == {6, 7, 8} { assert pattern == {LineAt(2).0, LineAt(2).1, LineAt(2).2}; }
      else if pattern == {0, 3, 6} { assert pattern == {LineAt(3).0, LineAt(3).1, LineAt(3).2}; }
      else if pattern == {1, 4, 7} { assert pattern == {LineAt(4).0, LineAt(4).1, LineAt(4).2}; }
      else if pattern == {2, 5, 8} { assert pattern == {LineAt(5).0, LineAt(5).1, LineAt(5).2}; }
      else if pattern == {0, 4, 8} { assert pattern == {LineAt(6).0, LineAt(6).1, LineAt(6).2}; }
      else { assert pattern == {LineAt(7).0, LineAt(7).1, LineAt(7).2}; }
    }
  }

  /** `PatternsAreLines` for every pattern and every line at once. */
  lemma AllPatternsAreLines()
    ensures forall pattern :: pattern in WinPatterns ==>
      exists k :: 0 <= k < LineCount && pattern == {LineAt(k).0, LineAt(k).1, LineAt(k).2}
    ensures forall k :: 0 <= k < LineCount ==> {LineAt(k).0, LineAt(k).1, LineAt(k).2} in WinPatterns
  {
    forall pattern | pattern in WinPatterns
      ensures exists k :: 0 <= k < LineCount && pattern == {LineAt(k).0, LineAt(k).1, LineAt(k).2}
    {
      PatternsAreLines(pattern);
    }
    forall k | 0 <= k < LineCount
      ensures {LineAt(k).0, LineAt(k).1, LineAt(k).2} in WinPatterns
    {
      PatternsAreLines({LineAt(k).0, LineAt(k).1, LineAt(k).2});
    }
  }

  /** On a well-formed board, `player` has won exactly when they hold one of the eight lines. */
  lemma WinIffLineOwned(player: Player, moves: Board)
    requires WellFormed(moves)
    ensures CheckWinCondition(player, moves) <==>
      exists k :: 0 <= k < LineCount && OwnsLine(moves, player, LineAt(k))
  {
    var pos := Positions(moves, player);
    if CheckWinCondition(player, moves) {
      var k :| 0 <= k < LineCount && {LineAt(k).0, LineAt(k).1, LineAt(k).2} <= pos;
      assert OwnsLine(moves, player, LineAt(k));
    }
    if k :| 0 <= k < LineCount && OwnsLine(moves, player, LineAt(k)) {
      assert {LineAt(k).0, LineAt(k).1, LineAt(k).2} <= pos;
    }
  }

  /** Placing a move at its own empty cell keeps the board well formed and fills exactly that cell. */
  lemma PlaceKeepsWellFormed(moves: Board, player: Player, c: int)
    requires WellFormed(moves)
    requires 0 <= c < 9 && !IsSquareOccupied(moves, c)
    ensures WellFormed(moves[c := Some(Move(player, c))])
    ensures FilledCount(moves[c := Some(Move(player, c))]) == FilledCount(moves) + 1
  {
    OccupiedIffSlotFilled(moves, c);
    FilledCountUpdate(moves, c, Some(Move(player, c)));
  }

  /** Filling one empty slot raises the filled count by one. */
  lemma {:induction false} FilledCountUpdate(moves: Board, c: int, m: Option<Move>)
    requires 0 <= c < |moves| && moves[c].None? && m.Some?
    ensures FilledCount(moves[c := m]) == FilledCount(moves) + 1
    decreases |moves|
  {
    if c == 0 {
      assert moves[c := m][1..] == moves[1..];
    } else {
      FilledCountUpdate(moves[1..], c - 1, m);
      assert moves[c := m][1..] == moves[1..][c - 1 := m];
    }
  }

  /** A slot holding the human's move at `c`. */
  function HumanAt(c: int): Option<Move> { Some(Move(Human, c)) }

  /** A slot holding the computer's move at `c`. */
  function ComputerAt(c: int): Option<Move> { Some(Move(Computer, c)) }

  /** Human at 0, computer at 4, human at 1, computer at 7, human at 2. */
  function TopRowBoard(): Board
  {
    [HumanAt(0), HumanAt(1), HumanAt(2),
     None, ComputerAt(4), None,
     None, ComputerAt(7), None]
  }

  /** Nine moves, alternating, with no line for either side. */
  function LinelessFullBoard(): Board
  {
    [HumanAt(0), ComputerAt(1), HumanAt(2),
     HumanAt(3), ComputerAt(4), ComputerAt(5),
     ComputerAt(6), HumanAt(7), HumanAt(8)]
  }

  /** Nine moves, with the human holding the top row. */
  function FullBoardWithTopRow(): Board
  {
    [HumanAt(0), HumanAt(1), HumanAt(2),
     ComputerAt(3), ComputerAt(4), HumanAt(5),
     ComputerAt(6), HumanAt(7), ComputerAt(8)]
  }

  /** After the human takes the whole top row, the human has won, the computer has not, and it is no draw. */
  lemma TopRowScenario()
    ensures CheckWinCondition(Human, TopRowBoard())
    ensures !CheckWinCondition(Computer, TopRowBoard())
    ensures !CheckForDraw(TopRowBoard())
  {
    var b := TopRowBoard();
    forall k | 0 <= k < LineCount ensures !OwnsLine(b, Computer, LineAt(k)) {
      assert k in {0, 1, 2, 3, 4, 5, 6, 7};
    }
    assert OwnsLine(b, Human, LineAt(0));
    WinIffLineOwned(Human, b);
    WinIffLineOwned(Computer, b);
  }

  /** A full board where neither side holds a line is a draw. */
  lemma FullBoardWithoutLineScenario()
    ensures CheckForDraw(LinelessFullBoard())
    ensures !CheckWinCondition(Human, LinelessFullBoard())
    ensures !CheckWinCondition(Computer, LinelessFullBoard())
  {
    var b := LinelessFullBoard();
    forall k | 0 <= k < LineCount
      ensures !OwnsLine(b, Human, LineAt(k)) && !OwnsLine(b, Computer, LineAt(k))
    {
      assert k in {0, 1, 2, 3, 4, 5, 6, 7};
    }
    WinIffLineOwned(Human, b);
    WinIffLineOwned(Computer, b);
  }

  /** The draw check only counts filled slots: a full board is a draw even when the human holds a line. */
  lemma FullBoardWithLineScenario()
    ensures CheckForDraw(FullBoardWithTopRow())
    ensures CheckWinCondition(Human, FullBoardWithTopRow())
  {
  }
}
