/**
 * The game session: the view model's board, its input lock and its
 * end-of-game alert, with the human move, the computer's deferred reply and
 * the reset. The board view calls `ProcessPlayerMove` on a tap and
 * `ResetGame` from the reset button or the alert's button; the computer's
 * reply, which the source schedules half a second later on the main queue,
 * is the step `ComputerTurn` that the caller runs when it fires.
 */
module Session {
  import opened Wrappers
  import opened GameModel
  import opened Rules
  import opened Opponent

  /** The alert shown when a game ends. */
  datatype Alert = HumanWin | AIWin | Draw

  class GameViewModel {
    var moves: array<Option<Move>>
    var isGameBoardDisabled: bool
    var alertItem: Option<Alert>

    /** Nine slots, each empty or holding a move placed at that slot. */
    ghost predicate Valid()
      reads this, moves
    {
      moves.Length == 9 && WellFormed(moves[..])
    }

    constructor ()
      ensures Valid() && fresh(moves)
      ensures moves[..] == EmptyBoard()
      ensures !isGameBoardDisabled && alertItem == None
    {
      var board := new Option<Move>[9](_ => None);
      assert board[..] == EmptyBoard();
      moves := board;
      isGameBoardDisabled := false;
      alertItem := None;
    }

    /**
     * The human taps `position`. A tap on an occupied cell does nothing.
     * Otherwise the move is recorded; a win raises the win alert but does not
     * end the step (the source's `return` only leaves the animation closure),
     * so a full board then replaces it with the draw alert and stops, and any
     * other board locks input and schedules the computer's reply
     * (`scheduled`). The lock itself is never consulted here.
     */
    method ProcessPlayerMove(position: int) returns (scheduled: bool)
      requires Valid()
      requires 0 <= position < 9
      modifies moves, this`isGameBoardDisabled, this`alertItem
      ensures Valid()
      ensures old(IsSquareOccupied(moves[..], position)) ==>
        && moves[..] == old(moves[..])
        && isGameBoardDisabled == old(isGameBoardDisabled)
        && alertItem == old(alertItem)
        && !scheduled
      ensures !old(IsSquareOccupied(moves[..], position)) ==>
        && old(moves[position]).None?
        && moves[..] == old(moves[..])[position := Some(Move(Human, position))]
        && FilledCount(moves[..]) == old(FilledCount(moves[..])) + 1
        && alertItem == (if CheckForDraw(moves[..]) then Some(Draw)
                         else if CheckWinCondition(Human, moves[..]) then Some(HumanWin)
                         else old(alertItem))
        && isGameBoardDisabled == (if CheckForDraw(moves[..]) then old(isGameBoardDisabled) else true)
        && scheduled == !CheckForDraw(moves[..])
    {
      if IsSquareOccupied(moves[..], position) {
        return false;
      }
      OccupiedIffSlotFilled(moves[..], position);
      PlaceKeepsWellFormed(moves[..], Human, position);
      moves[position] := Some(Move(Human, position));

      if CheckWinCondition(Human, moves[..]) {
        alertItem := Some(HumanWin);
      }

      if CheckForDraw(moves[..]) {
        alertItem := Some(Draw);
        return false;
      }
      isGameBoardDisabled := true;
      scheduled := true;
    }

    /**
     * The computer's deferred reply: it picks a cell by the opponent policy,
     * records its move there, unlocks input, and raises the loss alert on a
     * computer win or else the draw alert on a full board. The policy needs a
     * free cell; the human step schedules this only when the board is not full.
     */
    method ComputerTurn() returns (computerPosition: int)
      requires Valid()
      requires exists c :: 0 <= c < 9 && moves[c].None?
      modifies moves, this`isGameBoardDisabled, this`alertItem
      ensures Valid()
      ensures 0 <= computerPosition < 9
      ensures PolicyAllows(old(moves[..]), computerPosition)
      ensures old(moves[computerPosition]).None?
      ensures moves[..] == old(moves[..])[computerPosition := Some(Move(Computer, computerPosition))]
      ensures FilledCount(moves[..]) == old(FilledCount(moves[..])) + 1
      ensures !isGameBoardDisabled
      ensures alertItem == (if CheckWinCondition(Computer, moves[..]) then Some(AIWin)
                            else if CheckForDraw(moves[..]) then Some(Draw)
                            else old(alertItem))
    {
      var c :| 0 <= c < 9 && moves[c].None?;
      OccupiedIffSlotFilled(moves[..], c);
      computerPosition := DetermineComputerMovePosition(moves[..]);
      PolicyPicksEmptySlot(moves[..], computerPosition);
      PlaceKeepsWellFormed(moves[..], Computer, computerPosition);
      moves[computerPosition] := Some(Move(Computer, computerPosition));
      isGameBoardDisabled := false;

      if CheckWinCondition(Computer, moves[..]) {
        alertItem := Some(AIWin);
        return;
      }

      if CheckForDraw(moves[..]) {
        alertItem := Some(Draw);
        return;
      }
    }

    /**
     * Replaces the board with a fresh empty one. The lock and the alert are
     * left as they are, so the result does not depend on the old board and a
     * second reset gives the same state as the first.
     */
    method ResetGame()
      requires Valid()
      modifies this`moves
      ensures Valid() && fresh(moves)
      ensures moves[..] == EmptyBoard()
      ensures isGameBoardDisabled == old(isGameBoardDisabled) && alertItem == old(alertItem)
    {
      moves := new Option<Move>[9](_ => None);
      assert moves[..] == EmptyBoard();
    }
  }
}
