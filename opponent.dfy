/**
 * The computer's move choice, by fixed priority: complete one of its own
 * lines, else block one of the human's lines, else take the centre, else
 * take any free cell. The patterns form an unordered set, so when several
 * lines qualify at one step, which of their missing cells is chosen is
 * left open.
 */
module Opponent {
  import opened Wrappers
  import opened GameModel
  import opened Rules

  const CenterCircle := 4

  /** `pattern` lacks exactly the cell `w` among `positions`, and `w` is free on the board. */
  predicate Completes(moves: Board, positions: set<int>, pattern: set<int>, w: int)
  {
    pattern - positions == {w} && !IsSquareOccupied(moves, w)
  }

  /** Playing `w` would give `player` a whole line. */
  ghost predicate WinningCell(moves: Board, player: Player, w: int)
  {
    exists pattern :: pattern in WinPatterns && Completes(moves, Positions(moves, player), pattern, w)
  }

  /** `player` could complete a line with one more move. */
  ghost predicate CanWin(moves: Board, player: Player)
  {
    exists w :: WinningCell(moves, player, w)
  }

  /** The cells the policy may answer on `moves`: a free cell, chosen by the win > block > centre priority. */
  ghost predicate PolicyAllows(moves: Board, pos: int)
  {
    && 0 <= pos < 9
    && !IsSquareOccupied(moves, pos)
    && (CanWin(moves, Computer) ==> WinningCell(moves, Computer, pos))
    && (!CanWin(moves, Computer) && CanWin(moves, Human) ==> WinningCell(moves, Human, pos))
    && (!CanWin(moves, Computer) && !CanWin(moves, Human) && !IsSquareOccupied(moves, CenterCircle)
        ==> pos == CenterCircle)
  }

  /** A set of one element is the singleton of any of its elements. */
  lemma SingletonOf(s: set<int>, w: int)
    requires |s| == 1 && w in s
    ensures s == {w}
  {
    assert |s - {w}| == 0;
  }

  /**
   * Looks through the patterns, in no fixed order, for one that `positions`
   * misses by a single free cell, and returns that cell.
   */
  method FindCompletion(moves: Board, positions: set<int>, ghost player: Player) returns (found: Option<int>)
    requires positions == Positions(moves, player)
    ensures found.Some? ==> 0 <= found.value < 9 && WinningCell(moves, player, found.value)
    ensures found.None? ==> !CanWin(moves, player)
  {
    var remaining := WinPatterns;
    while remaining != {}
      invariant remaining <= WinPatterns
      invariant forall pat, w :: pat in WinPatterns && pat !in remaining ==> !Completes(moves, positions, pat, w)
      decreases remaining
    {
      var pattern :| pattern in remaining;
      var winPositions := pattern - positions;
      if |winPositions| == 1 {
        var w :| w in winPositions;
        SingletonOf(winPositions, w);
        if !IsSquareOccupied(moves, w) {
          PatternsAreLines(pattern);
          assert Completes(moves, positions, pattern, w);
          return Some(w);
        }
      }
      forall w ensures !Completes(moves, positions, pattern, w) {
        if pattern - positions == {w} {
          assert w in winPositions;
          SingletonOf(winPositions, w);
        }
      }
      remaining := remaining - {pattern};
    }
    return None;
  }

  /**
   * The computer's next cell. The source redraws a random cell until it finds
   * a free one; here that last step is any free cell, so the board must have one.
   */
  method DetermineComputerMovePosition(moves: Board) returns (pos: int)
    requires exists c :: 0 <= c < 9 && !IsSquareOccupied(moves, c)
    ensures PolicyAllows(moves, pos)
  {
    var win := FindCompletion(moves, Positions(moves, Computer), Computer);
    if win.Some? {
      return win.value;
    }
    var block := FindCompletion(moves, Positions(moves, Human), Human);
    if block.Some? {
      return block.value;
    }
    if !IsSquareOccupied(moves, CenterCircle) {
      return CenterCircle;
    }
    pos :| 0 <= pos < 9 && !IsSquareOccupied(moves, pos);
  }

  /** On a well-formed board the policy only ever names an empty slot. */
  lemma PolicyPicksEmptySlot(moves: Board, pos: int)
    requires WellFormed(moves)
    requires PolicyAllows(moves, pos)
    ensures moves[pos].None?
  {
  }

  /** On a well-formed board, playing a winning cell of `player` gives `player` a won board. */
  lemma WinningCellCompletesLine(moves: Board, player: Player, w: int)
    requires WellFormed(moves)
    requires WinningCell(moves, player, w)
    ensures 0 <= w < 9 && moves[w].None?
    ensures CheckWinCondition(player, moves[w := Some(Move(player, w))])
  {
    var pattern :| pattern in WinPatterns && Completes(moves, Positions(moves, player), pattern, w);
    PatternsAreLines(pattern);
    assert w in pattern;
    OccupiedIffSlotFilled(moves, w);
    var after := moves[w := Some(Move(player, w))];
    PlaceKeepsWellFormed(moves, player, w);
    forall x | x in pattern ensures x in Positions(after, player) {
      if x != w {
        assert x !in pattern - Positions(moves, player);
      }
      assert Owns(after, player, x);
    }
  }

  /**
   * First priority: whenever the computer can finish a line, the policy's
   * cell finishes one, whatever the human threatens.
   */
  lemma WinFirst(moves: Board, pos: int)
    requires WellFormed(moves)
    requires PolicyAllows(moves, pos) && CanWin(moves, Computer)
    ensures WinningCell(moves, Computer, pos)
    ensures CheckWinCondition(Computer, moves[pos := Some(Move(Computer, pos))])
  {
    WinningCellCompletesLine(moves, Computer, pos);
  }

  /**
   * Second priority: when the computer cannot finish a line but the human
   * can, the policy's cell is one where the human's move would have won.
   */
  lemma BlockSecond(moves: Board, pos: int)
    requires WellFormed(moves)
    requires PolicyAllows(moves, pos) && !CanWin(moves, Computer) && CanWin(moves, Human)
    ensures WinningCell(moves, Human, pos)
    ensures CheckWinCondition(Human, moves[pos := Some(Move(Human, pos))])
  {
    WinningCellCompletesLine(moves, Human, pos);
  }

  /** Nobody threatens anything on an empty board, so the answer is the centre. */
  lemma EmptyBoardTakesCenter(pos: int)
    requires PolicyAllows(EmptyBoard(), pos)
    ensures pos == CenterCircle
  {
    var b := EmptyBoard();
    forall player: Player, w ensures !WinningCell(b, player, w) {
      assert Positions(b, player) == {};
      forall pattern | pattern in WinPatterns ensures pattern - Positions(b, player) != {w} {
        assert pattern - {} == pattern;
        PatternsAreLines(pattern);
        var k :| 0 <= k < LineCount && pattern == {LineAt(k).0, LineAt(k).1, LineAt(k).2};
        assert LineAt(k).0 in pattern && LineAt(k).1 in pattern && LineAt(k).0 != LineAt(k).1;
      }
    }
    assert !IsSquareOccupied(b, CenterCircle);
  }

  /** Two distinct members rule out being a singleton. */
  lemma NotSingleton(s: set<int>, a: int, b: int)
    requires a in s && b in s && a != b
    ensures forall w :: s != {w}
  {
  }

  /** The computer holds 3 and 4; the human holds 0, 1 and 8 and threatens 2. */
  function WinOrBlockBoard(): (b: Board)
    ensures WellFormed(b)
  {
    [Some(Move(Human, 0)), Some(Move(Human, 1)), None,
     Some(Move(Computer, 3)), Some(Move(Computer, 4)), None,
     None, None, Some(Move(Human, 8))]
  }

  /** Which cells each side holds on `WinOrBlockBoard`. */
  lemma WinOrBlockPositions()
    ensures Positions(WinOrBlockBoard(), Computer) == {3, 4}
    ensures Positions(WinOrBlockBoard(), Human) == {0, 1, 8}
  {
    var b := WinOrBlockBoard();
    forall x ensures x in Positions(b, Computer) <==> x in {3, 4} { }
    forall x ensures x in Positions(b, Human) <==> x in {0, 1, 8} { }
  }

  /** Two different lines share at most one cell. */
  lemma LinesShareAtMostOneCell(p: set<int>, q: set<int>, a: int, b: int)
    requires p in WinPatterns && q in WinPatterns && p != q
    requires a in p && b in p && a in q && b in q
    ensures a == b
  {
  }

  /**
   * When `held` contains two cells of `line` and at most one other, any other
   * pattern still misses at least two cells.
   */
  lemma OnlyLineCompletes(pattern: set<int>, line: set<int>, a: int, b: int, w: int)
    requires pattern in WinPatterns && line in WinPatterns && pattern != line
    requires a in line && b in line && a != b
    ensures pattern - {a, b} != {w}
  {
    PatternsAreLines(pattern);
    var k :| 0 <= k < LineCount && pattern == {LineAt(k).0, LineAt(k).1, LineAt(k).2};
    var (x, y, z) := LineAt(k);
    if a in pattern && b in pattern {
      LinesShareAtMostOneCell(pattern, line, a, b);
    }
    if x in {a, b} { NotSingleton(pattern - {a, b}, y, z); }
    else if y in {a, b} { NotSingleton(pattern - {a, b}, x, z); }
    else { NotSingleton(pattern - {a, b}, x, y); }
  }

  /** Completing its own line beats blocking: with both sides one move from a line, the computer takes 5. */
  lemma WinBeforeBlock(pos: int)
    requires PolicyAllows(WinOrBlockBoard(), pos)
    ensures WinningCell(WinOrBlockBoard(), Human, 2)
    ensures pos == 5
  {
    var b := WinOrBlockBoard();
    WinOrBlockPositions();
    var ai := Positions(b, Computer);
    var hu := Positions(b, Human);
    assert !IsSquareOccupied(b, 2) && !IsSquareOccupied(b, 5);
    assert {0, 1, 2} - hu == {2};
    assert Completes(b, hu, {0, 1, 2}, 2);
    assert {3, 4, 5} - ai == {5};
    assert Completes(b, ai, {3, 4, 5}, 5);
    assert WinningCell(b, Computer, 5);
    var pattern :| pattern in WinPatterns && Completes(b, ai, pattern, pos);
    if pattern != {3, 4, 5} {
      OnlyLineCompletes(pattern, {3, 4, 5}, 3, 4, pos);
    }
  }

  /** Holding one cell is never a threat: every pattern still misses two cells. */
  lemma OneCellNoThreat(pattern: set<int>, c: int, w: int)
    requires pattern in WinPatterns
    ensures pattern - {c} != {w}
  {
    PatternsAreLines(pattern);
    var k :| 0 <= k < LineCount && pattern == {LineAt(k).0, LineAt(k).1, LineAt(k).2};
    var (x, y, z) := LineAt(k);
    if x == c { NotSingleton(pattern - {c}, y, z); }
    else { NotSingleton(pattern - {c}, x, if y == c then z else y); }
  }

  /** The human holds 0 and 1, the computer holds the centre. */
  function BlockBoard(): (b: Board)
    ensures WellFormed(b)
  {
    [Some(Move(Human, 0)), Some(Move(Human, 1)), None,
     None, Some(Move(Computer, 4)), None,
     None, None, None]
  }

  /** Which cells each side holds on `BlockBoard`. */
  lemma BlockBoardPositions()
    ensures Positions(BlockBoard(), Computer) == {4}
    ensures Positions(BlockBoard(), Human) == {0, 1}
  {
    var b := BlockBoard();
    forall x ensures x in Positions(b, Computer) <==> x in {4} { }
    forall x ensures x in Positions(b, Human) <==> x in {0, 1} { }
  }

  /** With no line of its own to finish, the computer blocks the human's row at 2. */
  lemma BlockWhenNoWin(pos: int)
    requires PolicyAllows(BlockBoard(), pos)
    ensures !CanWin(BlockBoard(), Computer)
    ensures pos == 2
  {
    var b := BlockBoard();
    BlockBoardPositions();
    var ai := Positions(b, Computer);
    var hu := Positions(b, Human);
    forall w ensures !WinningCell(b, Computer, w) {
      forall pattern | pattern in WinPatterns ensures !Completes(b, ai, pattern, w) {
        OneCellNoThreat(pattern, 4, w);
      }
    }
    assert !IsSquareOccupied(b, 2);
    assert {0, 1, 2} - hu == {2};
    assert WinningCell(b, Human, 2);
    var pattern :| pattern in WinPatterns && Completes(b, hu, pattern, pos);
    if pattern != {0, 1, 2} {
      OnlyLineCompletes(pattern, {0, 1, 2}, 0, 1, pos);
    }
  }
}
