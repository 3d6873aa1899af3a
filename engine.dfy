/** The `Game` class: the grid kept in a 6 x 7 array, the move that
    overwrites one cell of it, and the read-only queries written as the
    loops they are, each proved equal to a function of Grid or WinCheck. */
module Engine {
  import opened Grid
  import opened WinCheck

  /** playChip either returns normally or throws one of the errors. */
  datatype Outcome = Pass | Fail(error: Error)

  class Game {
    const height: nat
    const width: nat
    var board: array2<int>
    /** The grid as a value: `cells[r][c]` is `board[r, c]`. */
    ghost var cells: Board

    /** The array has the dimensions the class announces and holds `cells`;
        the grid is no taller than wide (6 x 7), which is what lets the
        width guard of getLine pass every real line. */
    ghost predicate Valid()
      reads this, board
    {
      height <= width &&
      board.Length0 == height && board.Length1 == width && IsGrid(cells, height, width) &&
      forall r, c :: 0 <= r < height && 0 <= c < width ==> cells[r][c] == board[r, c]
    }

    /** A 6 x 7 grid of zeros, filled line by line. */
    constructor ()
      ensures Valid() && fresh(board)
      ensures height == 6 && width == 7
      ensures cells == EmptyBoard(6, 7)
    {
      height := 6;
      width := 7;
      var rows := new int[6, 7];
      for i := 0 to 6
        invariant forall r, c :: 0 <= r < i && 0 <= c < 7 ==> rows[r, c] == 0
      {
        for j := 0 to 7
          invariant forall r, c :: 0 <= r < i && 0 <= c < 7 ==> rows[r, c] == 0
          invariant forall c :: 0 <= c < j ==> rows[i, c] == 0
        {
          rows[i, j] := 0;
        }
      }
      board := rows;
      cells := EmptyBoard(6, 7);
    }

    /** getBoard: the grid's contents, line by line. */
    method GetBoard() returns (b: Board)
      requires Valid()
      ensures b == cells
    {
      var a := board;
      b := seq(a.Length0, r requires 0 <= r < a.Length0 reads a =>
        seq(a.Length1, c requires 0 <= c < a.Length1 reads a => a[r, c]));
      SameCells(b, cells, height, width);
    }

    /** getBoardTransposed: one getColumn per column, left to right. */
    method GetBoardTransposed() returns (transposed: Board)
      requires Valid()
      ensures transposed == Transposed(cells, height, width)
      ensures IsGrid(transposed, width, height)
      ensures forall c, r :: 0 <= c < width && 0 <= r < height ==> transposed[c][r] == board[r, c]
    {
      var b := GetBoard();
      transposed := [];
      for columnIndex := 0 to width
        invariant |transposed| == columnIndex
        invariant forall c :: 0 <= c < columnIndex ==> transposed[c] == Pick(b, c)
      {
        var column := GetColumn(b, height, width, columnIndex);
        transposed := transposed + [column.value];
      }
    }

    /** getLowestEmptyLine: the loop over the lines of `column`. */
    method GetLowestEmptyLine(column: seq<int>) returns (line: Option<nat>)
      ensures line == LowestEmptyLine(column, height)
    {
      if NonZeroAt(column, 0) {
        return None;
      }
      line := None;
      var lineIndex := 0;
      while lineIndex < height
        invariant 0 <= lineIndex <= height
        invariant ScanDown(column, height, lineIndex) == ScanDown(column, height, 0)
      {
        if lineIndex == height - 1 || NonZeroAt(column, lineIndex + 1) {
          line := Some(lineIndex);
          break;
        }
        lineIndex := lineIndex + 1;
      }
    }

    /** playChip: drop `playerId` into column `columnIndex`. On success
        exactly the cell at the line getLowestEmptyLine picks changes; on an
        error nothing changes; gravity is kept. */
    method PlayChip(playerId: int, columnIndex: int) returns (outcome: Outcome)
      requires Valid()
      modifies this, board
      ensures Valid() && board == old(board)
      ensures var played := Play(old(cells), height, width, playerId, columnIndex);
        if played.Ok? then outcome == Pass && cells == played.value
        else outcome == Fail(played.error) && cells == old(cells)
      ensures outcome.Fail? ==> unchanged(board)
      ensures outcome.Pass? ==> (0 <= columnIndex < width &&
        var l := LowestEmptyLine(Pick(old(cells), columnIndex), height).value;
        l < height && old(board[l, columnIndex]) == 0 && board[l, columnIndex] == playerId &&
        forall r, c :: 0 <= r < height && 0 <= c < width && (r, c) != (l, columnIndex) ==>
          board[r, c] == old(board[r, c]))
      ensures Gravity(old(cells), height, width) ==> Gravity(cells, height, width)
    {
      var b := GetBoard();
      var column := GetColumn(b, height, width, columnIndex);
      if column.Err? {
        return Fail(column.error);
      }
      var lineIndexToReplace := GetLowestEmptyLine(column.value);
      if lineIndexToReplace.None? {
        return Fail(ColumnFull);
      }
      var l := lineIndexToReplace.value;
      board[l, columnIndex] := playerId;
      outcome := Pass;
      PlayChangesOneCell(b, height, width, playerId, columnIndex);
      cells := Play(b, height, width, playerId, columnIndex).value;
      if Gravity(b, height, width) {
        PlayKeepsGravity(b, height, width, playerId, columnIndex);
      }
    }

    /** checkForWinInArray: the scan over the windows of four. */
    static method CheckForWinInArray(values: seq<int>) returns (winner: int)
      ensures winner == WinInArray(values)
    {
      if |values| < 4 {
        return 0;
      }
      var subArrayNumber := |values| - 4 + 1;
      for offset := 0 to subArrayNumber
        invariant ScanWindows(values, offset) == ScanWindows(values, 0)
      {
        var subArray := values[offset..offset + 4];
        if 0 !in subArray && IsConnectArray(subArray) {
          return subArray[0];
        }
      }
      return 0;
    }

    /** getDiagonalByHighestCellDescendingRight: the cells from `(l, c)`
        down and to the right, when there are at least four. */
    method GetDiagonalByHighestCellDescendingRight(lineIndex: int, columnIndex: int)
      returns (diagonal: Option<seq<int>>)
      requires Valid() && 0 <= lineIndex && 0 <= columnIndex
      ensures diagonal == Diagonal(cells, height, width, DescendingRight, lineIndex, columnIndex)
    {
      var maxCroppedSquareSideLength := Min(height - lineIndex, width - columnIndex);
      if maxCroppedSquareSideLength < 4 {
        return None;
      }
      var run := [];
      for cellIndex := 0 to maxCroppedSquareSideLength
        invariant |run| == cellIndex
        invariant forall k :: 0 <= k < cellIndex ==> run[k] == board[lineIndex + k, columnIndex + k]
      {
        run := run + [board[lineIndex + cellIndex, columnIndex + cellIndex]];
      }
      diagonal := Some(run);
      ghost var expected := Diagonal(cells, height, width, DescendingRight, lineIndex, columnIndex);
      assert |expected.value| == |run|;
      assert forall k :: 0 <= k < |run| ==> run[k] == expected.value[k];
      assert run == expected.value;
    }

    /** getDiagonalByHighestCellDescendingLeft: the cells from `(l, c)`
        down and to the left, when there are at least four. */
    method GetDiagonalByHighestCellDescendingLeft(lineIndex: int, columnIndex: int)
      returns (diagonal: Option<seq<int>>)
      requires Valid() && 0 <= lineIndex && columnIndex < width
      ensures diagonal == Diagonal(cells, height, width, DescendingLeft, lineIndex, columnIndex)
    {
      var maxCroppedSquareSideLength := Min(height - lineIndex, columnIndex + 1);
      if maxCroppedSquareSideLength < 4 {
        return None;
      }
      var run := [];
      for cellIndex := 0 to maxCroppedSquareSideLength
        invariant |run| == cellIndex
        invariant forall k :: 0 <= k < cellIndex ==> run[k] == board[lineIndex + k, columnIndex - k]
      {
        run := run + [board[lineIndex + cellIndex, columnIndex - cellIndex]];
      }
      diagonal := Some(run);
      ghost var expected := Diagonal(cells, height, width, DescendingLeft, lineIndex, columnIndex);
      assert |expected.value| == |run|;
      assert forall k :: 0 <= k < |run| ==> run[k] == expected.value[k];
      assert run == expected.value;
    }

    /** getAllDiagonalsDescendingRight: runs from the top line, then from
        the first column. */
    method GetAllDiagonalsDescendingRight() returns (diagonals: seq<seq<int>>)
      requires Valid()
      ensures diagonals == AllDiagonals(cells, height, width, DescendingRight)
    {
      ghost var b := cells;
      ghost var ss := Starts(height, width, DescendingRight);
      ghost var n := 0;
      diagonals := [];
      var columnIndex := 0;
      while columnIndex <= width - 4
        invariant 0 <= columnIndex <= Max0(width - 3) && n == columnIndex
        invariant diagonals == Collect(b, height, width, DescendingRight, ss, n)
      {
        var diagonal := GetDiagonalByHighestCellDescendingRight(0, columnIndex);
        CollectTopStep(b, height, width, DescendingRight, columnIndex, columnIndex, diagonal);
        if diagonal.Some? {
          diagonals := diagonals + [diagonal.value];
        }
        columnIndex := columnIndex + 1;
        n := n + 1;
      }
      var lineIndex := 1;
      while lineIndex <= height - 4
        invariant 1 <= lineIndex <= Max0(height - 4) + 1
        invariant n == Max0(width - 3) + lineIndex - 1
        invariant diagonals == Collect(b, height, width, DescendingRight, ss, n)
      {
        var diagonal := GetDiagonalByHighestCellDescendingRight(lineIndex, 0);
        CollectSideStep(b, height, width, DescendingRight, lineIndex, n, 0, diagonal);
        if diagonal.Some? {
          diagonals := diagonals + [diagonal.value];
        }
        lineIndex := lineIndex + 1;
        n := n + 1;
      }
      assert n == |ss|;
    }

    /** getAllDiagonalsDescendingLeft: runs from the top line, right to
        left, then from the last column. */
    method GetAllDiagonalsDescendingLeft() returns (diagonals: seq<seq<int>>)
      requires Valid()
      ensures diagonals == AllDiagonals(cells, height, width, DescendingLeft)
    {
      ghost var b := cells;
      ghost var ss := Starts(height, width, DescendingLeft);
      ghost var n := 0;
      diagonals := [];
      var columnIndex := 0;
      while columnIndex <= width - 4
        invariant 0 <= columnIndex <= Max0(width - 3) && n == columnIndex
        invariant diagonals == Collect(b, height, width, DescendingLeft, ss, n)
      {
        var diagonal := GetDiagonalByHighestCellDescendingLeft(0, width - columnIndex - 1);
        CollectTopStep(b, height, width, DescendingLeft, columnIndex, width - columnIndex - 1, diagonal);
        if diagonal.Some? {
          diagonals := diagonals + [diagonal.value];
        }
        columnIndex := columnIndex + 1;
        n := n + 1;
      }
      var lineIndex := 1;
      while lineIndex <= height - 4
        invariant 1 <= lineIndex <= Max0(height - 4) + 1
        invariant n == Max0(width - 3) + lineIndex - 1
        invariant diagonals == Collect(b, height, width, DescendingLeft, ss, n)
      {
        var diagonal := GetDiagonalByHighestCellDescendingLeft(lineIndex, width - 1);
        CollectSideStep(b, height, width, DescendingLeft, lineIndex, n, width - 1, diagonal);
        if diagonal.Some? {
          diagonals := diagonals + [diagonal.value];
        }
        lineIndex := lineIndex + 1;
        n := n + 1;
      }
      assert n == |ss|;
    }

    /** getAllDiagonals: the descending-left runs, then the descending-right
        ones; `2 * (height + width - 7)` runs of at least four cells when the
        board is at least 4 x 4 (12 on the standard board), none otherwise. */
    method GetAllDiagonals() returns (diagonals: seq<seq<int>>)
      requires Valid()
      ensures diagonals == Diagonals(cells, height, width)
      ensures |diagonals| == if height >= 4 && width >= 4 then 2 * (height + width - 7) else 0
      ensures forall j :: 0 <= j < |diagonals| ==> |diagonals[j]| >= 4
    {
      diagonals := [];
      var left := GetAllDiagonalsDescendingLeft();
      diagonals := diagonals + left;
      var right := GetAllDiagonalsDescendingRight();
      diagonals := diagonals + right;
      AllDiagonalsCount(cells, height, width, DescendingLeft);
      AllDiagonalsCount(cells, height, width, DescendingRight);
      assert forall j :: 0 <= j < |right| ==> diagonals[|left| + j] == right[j];
    }

    /** getAllLines: one getLine per line, top to bottom, with getLine's
        guard as written; on a grid no taller than wide it admits every
        line. */
    method GetAllLines() returns (lines: seq<seq<int>>)
      requires Valid()
      ensures lines == cells
      ensures forall r, c :: 0 <= r < height && 0 <= c < width ==> lines[r][c] == board[r, c]
    {
      var b := GetBoard();
      lines := [];
      for lineIndex := 0 to height
        invariant lines == b[..lineIndex]
      {
        var line := GetLineAsWritten(b, height, width, lineIndex);
        lines := lines + [line.value.value];
      }
    }

    /** getAllColumns: one getColumn per column, left to right. */
    method GetAllColumns() returns (columns: seq<seq<int>>)
      requires Valid()
      ensures columns == Transposed(cells, height, width)
      ensures forall c, r :: 0 <= c < width && 0 <= r < height ==> columns[c][r] == board[r, c]
    {
      var b := GetBoard();
      columns := [];
      for columnsIndex := 0 to width
        invariant |columns| == columnsIndex
        invariant forall c :: 0 <= c < columnsIndex ==> columns[c] == Pick(b, c)
      {
        var column := GetColumn(b, height, width, columnsIndex);
        columns := columns + [column.value];
      }
    }

    /** getAllArrays: lines, then columns, then diagonals. */
    method GetAllArrays() returns (arrays: seq<seq<int>>)
      requires Valid()
      ensures arrays == AllArrays(cells, height, width)
    {
      var lines := GetAllLines();
      var columns := GetAllColumns();
      var diagonals := GetAllDiagonals();
      arrays := lines;
      arrays := arrays + columns;
      arrays := arrays + diagonals;
    }

    /** checkForWin: the first non-zero checkForWinInArray over getAllArrays;
        non-zero exactly when some player has four in a row, and then one of
        the players who has. */
    method CheckForWin() returns (winner: int)
      requires Valid()
      ensures winner == Winner(cells, height, width)
      ensures winner != 0 ==> exists r, c, d :: FourInARow(cells, height, width, r, c, d, winner)
      ensures winner == 0 <==> forall r, c, d, p :: !FourInARow(cells, height, width, r, c, d, p)
    {
      ghost var b := cells;
      var arrays := GetAllArrays();
      winner := 0;
      for arrayIndex := 0 to |arrays|
        invariant FirstWin(arrays, arrayIndex) == FirstWin(arrays, 0)
        invariant arrays == AllArrays(b, height, width)
      {
        var winIndicator := CheckForWinInArray(arrays[arrayIndex]);
        if winIndicator != 0 {
          winner := winIndicator;
          break;
        }
      }
      assert winner == Winner(b, height, width);
      WinnerCharacterization(b, height, width);
    }
  }

  // ------------------------------------------------------------- scenarios

  /** The 6 x 7 board with `k` chips of `p` stacked at the bottom of
      column 0. */
  function Stacked(p: int, k: nat): (b: Board)
    ensures IsGrid(b, 6, 7)
  {
    seq(6, r => seq(7, c => if c == 0 && r >= 6 - k then p else 0))
  }

  /** Dropping `p` into column 0 of a stack of `k < 6` chips of `p` gives
      the stack of `k + 1`. */
  lemma PlayOntoStack(p: int, k: nat)
    requires p != 0 && k < 6
    ensures Play(Stacked(p, k), 6, 7, p, 0) == Ok(Stacked(p, k + 1))
  {
    var b := Stacked(p, k);
    var col := Pick(b, 0);
    var l := LowestEmptyLine(col, 6);
    assert !NonZeroAt(col, 0);
    assert Stops(col, 6, 5 - k);
    assert l == Some(5 - k);
    SameCells(Play(b, 6, 7, p, 0).value, Stacked(p, k + 1), 6, 7);
  }

  /** Three stacked chips are not four in a row. */
  lemma StackOfThreeHasNoFour(p: int, r: int, c: int, d: Direction, q: int)
    requires p != 0
    ensures !FourInARow(Stacked(p, 3), 6, 7, r, c, d, q)
  {
    var b := Stacked(p, 3);
    if FourInARow(b, 6, 7, r, c, d, q) {
      match d
      case Vertical =>
        CellOfFour(b, 6, 7, r, c, d, q, 0);
        CellOfFour(b, 6, 7, r, c, d, q, 3);
      case DownLeft =>
        CellOfFour(b, 6, 7, r, c, d, q, 0);
        CellOfFour(b, 6, 7, r, c, d, q, 3);
      case _ =>
        CellOfFour(b, 6, 7, r, c, d, q, 0);
        CellOfFour(b, 6, 7, r, c, d, q, 1);
    }
  }

  /** A board without chips has no winner; the fresh game's board is one. */
  lemma FreshBoardHasNoWinner(b: Board, h: nat, w: nat)
    requires IsGrid(b, h, w)
    requires forall r, c :: 0 <= r < h && 0 <= c < w ==> b[r][c] == 0
    ensures Winner(b, h, w) == 0
  {
    forall r, c, d, q
      ensures !FourInARow(b, h, w, r, c, d, q)
    {
      if FourInARow(b, h, w, r, c, d, q) {
        CellOfFour(b, h, w, r, c, d, q, 0);
      }
    }
    WinnerCharacterization(b, h, w);
  }

  /** Three stacked chips of one player are no win. */
  lemma StackOfThreeHasNoWinner(p: int)
    requires p != 0
    ensures Winner(Stacked(p, 3), 6, 7) == 0
  {
    forall r, c, d, q
      ensures !FourInARow(Stacked(p, 3), 6, 7, r, c, d, q)
    {
      StackOfThreeHasNoFour(p, r, c, d, q);
    }
    WinnerCharacterization(Stacked(p, 3), 6, 7);
  }

  /** With four stacked chips of `p`, `p` is the only player with four in
      a row, and checkForWin reports `p`. */
  lemma StackOfFourWins(p: int)
    requires p != 0
    ensures Winner(Stacked(p, 4), 6, 7) == p
  {
    var b := Stacked(p, 4);
    assert FourInARow(b, 6, 7, 2, 0, Vertical, p) by {
      forall i | 0 <= i < 4
        ensures InBoard(6, 7, RowAt(Vertical, 2, i), ColAt(Vertical, 0, i))
        ensures b[RowAt(Vertical, 2, i)][ColAt(Vertical, 0, i)] == p
      {
      }
    }
    forall r, c, d, q | FourInARow(b, 6, 7, r, c, d, q)
      ensures q == p
    {
      CellOfFour(b, 6, 7, r, c, d, q, 0);
    }
    OnlyPlayerWins(b, 6, 7, 2, 0, Vertical, p);
  }

  /** A fresh game reports no winner. */
  method FreshGameHasNoWinner() returns (winner: int)
    ensures winner == 0
  {
    var game := new Game();
    FreshBoardHasNoWinner(game.cells, game.height, game.width);
    winner := game.CheckForWin();
  }

  /** After three chips of `p` in column 0 of a fresh game there is no
      winner; after the fourth the winner is `p`. */
  method FourChipsInColumnZero(p: int) returns (afterThree: int, afterFour: int)
    requires p != 0
    ensures afterThree == 0 && afterFour == p
  {
    var game := new Game();
    SameCells(EmptyBoard(6, 7), Stacked(p, 0), 6, 7);
    var k := 0;
    while k < 3
      invariant 0 <= k <= 3 && game.Valid() && game.height == 6 && game.width == 7
      invariant fresh(game) && fresh(game.board)
      invariant game.cells == Stacked(p, k)
    {
      PlayOntoStack(p, k);
      var outcome := game.PlayChip(p, 0);
      k := k + 1;
    }
    StackOfThreeHasNoWinner(p);
    afterThree := game.CheckForWin();
    PlayOntoStack(p, 3);
    var outcome := game.PlayChip(p, 0);
    StackOfFourWins(p);
    afterFour := game.CheckForWin();
  }
}
