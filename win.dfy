/** Four-in-a-row detection: checkForWinInArray and isConnectArray on one
    array, checkForWin over every line, column and diagonal, and the proof
    that this scan finds exactly the four-in-a-rows of the board. */
module WinCheck {
  import opened Grid

  /** isConnectArray: the first four entries are strictly equal. JavaScript
      reads `undefined` past the end and `undefined === undefined`, so the
      empty array passes and any other array shorter than four fails. */
  function IsConnectArray(a: seq<int>): (b: bool)
    ensures |a| >= 4 ==> (b <==> a[0] == a[1] && a[1] == a[2] && a[2] == a[3])
    ensures 1 <= |a| < 4 ==> !b
    ensures a == [] ==> b
  {
    At(a, 0) == At(a, 1) && At(a, 1) == At(a, 2) && At(a, 2) == At(a, 3)
  }

  /** Window `k` of `a` is four equal cells other than 0 (negative values
      count as a player too). */
  predicate Winning(a: seq<int>, k: int)
  {
    0 <= k && k + 4 <= |a| && a[k] != 0 &&
    a[k] == a[k + 1] && a[k + 1] == a[k + 2] && a[k + 2] == a[k + 3]
  }

  /** The loop of checkForWinInArray from offset `k` on. */
  function ScanWindows(a: seq<int>, k: nat): (v: int)
    requires k + 3 <= |a|
    decreases |a| - k
    ensures v != 0 ==> exists j :: (k <= j && Winning(a, j) && a[j] == v &&
      forall i :: k <= i < j ==> !Winning(a, i))
    ensures v == 0 ==> forall j :: k <= j ==> !Winning(a, j)
  {
    if k + 3 == |a| then 0
    else
      var sub := a[k..k + 4];
      if 0 !in sub && IsConnectArray(sub) then sub[0]
      else
        assert sub[0] == a[k] && sub[1] == a[k + 1] && sub[2] == a[k + 2] && sub[3] == a[k + 3];
        ScanWindows(a, k + 1)
  }

  /** checkForWinInArray: 0 when no window of four is a win; otherwise the
      value of the first winning window. */
  function WinInArray(a: seq<int>): (v: int)
    ensures |a| < 4 ==> v == 0
    ensures v == 0 <==> forall k :: 0 <= k ==> !Winning(a, k)
    ensures v != 0 ==> exists k :: (Winning(a, k) && a[k] == v &&
      forall j :: 0 <= j < k ==> !Winning(a, j))
  {
    if |a| < 4 then 0 else ScanWindows(a, 0)
  }

  /** getAllArrays: the lines, then the columns, then the diagonals. */
  function AllArrays(b: Board, h: nat, w: nat): (arrays: seq<seq<int>>)
    requires IsGrid(b, h, w)
    ensures |arrays| == h + w + |Diagonals(b, h, w)|
  {
    b + Transposed(b, h, w) + Diagonals(b, h, w)
  }

  /** The loop of checkForWin from array `i` on. */
  function FirstWin(arrays: seq<seq<int>>, i: nat): (v: int)
    requires i <= |arrays|
    decreases |arrays| - i
    ensures v != 0 ==> exists j :: (i <= j < |arrays| && WinInArray(arrays[j]) == v &&
      forall k :: i <= k < j ==> WinInArray(arrays[k]) == 0)
    ensures v == 0 ==> forall j :: i <= j < |arrays| ==> WinInArray(arrays[j]) == 0
  {
    if i == |arrays| then 0
    else if WinInArray(arrays[i]) != 0 then WinInArray(arrays[i])
    else FirstWin(arrays, i + 1)
  }

  /** checkForWin on the board value: a non-zero result is what some
      scanned array reports, and 0 means that no scanned array reports a win. */
  function Winner(b: Board, h: nat, w: nat): (v: int)
    requires IsGrid(b, h, w)
    ensures v != 0 ==> exists j :: 0 <= j < |AllArrays(b, h, w)| && WinInArray(AllArrays(b, h, w)[j]) == v
    ensures v == 0 ==> forall j :: 0 <= j < |AllArrays(b, h, w)| ==> WinInArray(AllArrays(b, h, w)[j]) == 0
  {
    FirstWin(AllArrays(b, h, w), 0)
  }

  // ------------------------------------------------------- board geometry

  /** The four directions a row of four can run in. */
  datatype Direction = Horizontal | Vertical | DownRight | DownLeft

  /** Row of cell `i` of the run from row `r`. */
  function RowAt(d: Direction, r: int, i: int): int
  {
    match d
    case Horizontal => r
    case _ => r + i
  }

  /** Column of cell `i` of the run from column `c`. */
  function ColAt(d: Direction, c: int, i: int): int
  {
    match d
    case Vertical => c
    case DownRight => c + i
    case DownLeft => c - i
    case Horizontal => c + i
  }

  predicate InBoard(h: nat, w: nat, r: int, c: int)
  {
    0 <= r < h && 0 <= c < w
  }

  /** The four cells from `(r, c)` in direction `d` lie on the board and all
      hold player `p`, which is not 0. */
  predicate FourInARow(b: Board, h: nat, w: nat, r: int, c: int, d: Direction, p: int)
    requires IsGrid(b, h, w)
  {
    p != 0 &&
    forall i :: 0 <= i < 4 ==>
      InBoard(h, w, RowAt(d, r, i), ColAt(d, c, i)) && b[RowAt(d, r, i)][ColAt(d, c, i)] == p
  }

  /** A winning window of a line is a horizontal four-in-a-row. */
  lemma LineWindow(b: Board, h: nat, w: nat, r: nat, k: nat)
    requires IsGrid(b, h, w) && r < h && Winning(b[r], k)
    ensures FourInARow(b, h, w, r, k, Horizontal, b[r][k])
  {
  }

  /** A winning window of a column is a vertical four-in-a-row. */
  lemma ColumnWindow(b: Board, h: nat, w: nat, c: nat, k: nat)
    requires IsGrid(b, h, w) && c < w && Winning(Pick(b, c), k)
    ensures FourInARow(b, h, w, k, c, Vertical, b[k][c])
  {
  }

  /** A winning window of a run is a diagonal four-in-a-row. */
  lemma DiagonalWindow(b: Board, h: nat, w: nat, s: Slant, l: int, c: int, k: nat)
    requires IsGrid(b, h, w) && ValidStart(w, s, l, c) && Diagonal(b, h, w, s, l, c).Some?
    requires Winning(Diagonal(b, h, w, s, l, c).value, k)
    ensures FourInARow(b, h, w, l + k, ColumnStep(s, c, k), DirectionOf(s), Diagonal(b, h, w, s, l, c).value[k])
  {
    var d := Diagonal(b, h, w, s, l, c).value;
    var dir := DirectionOf(s);
    forall i | 0 <= i < 4
      ensures InBoard(h, w, RowAt(dir, l + k, i), ColAt(dir, ColumnStep(s, c, k), i))
      ensures b[RowAt(dir, l + k, i)][ColAt(dir, ColumnStep(s, c, k), i)] == d[k]
    {
      assert d[k + i] == b[l + (k + i)][ColumnStep(s, c, k + i)];
    }
  }

  /** A winning window of a collected run is a diagonal four-in-a-row. */
  lemma CollectedRunWindow(b: Board, h: nat, w: nat, s: Slant, ss: seq<(int, int)>, n: nat, j: nat, k: nat)
    returns (r: int, c: int, d: Direction)
    requires IsGrid(b, h, w) && n <= |ss|
    requires forall i :: 0 <= i < |ss| ==> ValidStart(w, s, ss[i].0, ss[i].1)
    requires j < |Collect(b, h, w, s, ss, n)| && Winning(Collect(b, h, w, s, ss, n)[j], k)
    ensures FourInARow(b, h, w, r, c, d, Collect(b, h, w, s, ss, n)[j][k])
  {
    var i := CollectFromStart(b, h, w, s, ss, n, j);
    var l, c0 := ss[i].0, ss[i].1;
    DiagonalWindow(b, h, w, s, l, c0, k);
    r, c, d := l + k, ColumnStep(s, c0, k), DirectionOf(s);
  }

  /** A winning window of run `n` of one slant is a diagonal four-in-a-row. */
  lemma SlantRunWindow(b: Board, h: nat, w: nat, s: Slant, n: nat, k: nat) returns (r: int, c: int, d: Direction)
    requires IsGrid(b, h, w) && n < |AllDiagonals(b, h, w, s)| && Winning(AllDiagonals(b, h, w, s)[n], k)
    ensures FourInARow(b, h, w, r, c, d, AllDiagonals(b, h, w, s)[n][k])
  {
    var ss := Starts(h, w, s);
    r, c, d := CollectedRunWindow(b, h, w, s, ss, |ss|, n, k);
  }

  /** A winning window of a run of getAllDiagonals is a diagonal
      four-in-a-row. */
  lemma DiagonalsWindow(b: Board, h: nat, w: nat, m: nat, k: nat) returns (r: int, c: int, d: Direction)
    requires IsGrid(b, h, w) && m < |Diagonals(b, h, w)| && Winning(Diagonals(b, h, w)[m], k)
    ensures FourInARow(b, h, w, r, c, d, Diagonals(b, h, w)[m][k])
  {
    var left := AllDiagonals(b, h, w, DescendingLeft);
    var right := AllDiagonals(b, h, w, DescendingRight);
    if m < |left| {
      assert Diagonals(b, h, w)[m] == left[m];
      r, c, d := SlantRunWindow(b, h, w, DescendingLeft, m, k);
    } else {
      assert Diagonals(b, h, w)[m] == right[m - |left|];
      r, c, d := SlantRunWindow(b, h, w, DescendingRight, m - |left|, k);
    }
  }

  /** Array `r` of the scan is line `r`. */
  lemma ScanHoldsLine(b: Board, h: nat, w: nat, r: nat)
    requires IsGrid(b, h, w) && r < h
    ensures r < |AllArrays(b, h, w)| && AllArrays(b, h, w)[r] == b[r]
  {
    var t := Transposed(b, h, w);
    assert (b + t)[r] == b[r];
    assert AllArrays(b, h, w)[r] == (b + t)[r];
  }

  /** Array `j = h + c` of the scan is column `c`. */
  lemma ScanHoldsColumn(b: Board, h: nat, w: nat, j: nat, c: nat)
    requires IsGrid(b, h, w) && c < w && j == h + c
    ensures j < |AllArrays(b, h, w)| && AllArrays(b, h, w)[j] == Pick(b, c)
  {
    var t := Transposed(b, h, w);
    var front := b + t;
    assert |front| == h + w && front[j] == t[c];
    assert (front + Diagonals(b, h, w))[j] == front[j];
  }

  /** Array `j = h + w + m` of the scan is run `m` of getAllDiagonals. */
  lemma ScanHoldsDiagonal(b: Board, h: nat, w: nat, j: nat, m: nat)
    requires IsGrid(b, h, w) && m < |Diagonals(b, h, w)| && j == h + w + m
    ensures j < |AllArrays(b, h, w)| && AllArrays(b, h, w)[j] == Diagonals(b, h, w)[m]
  {
    var front := b + Transposed(b, h, w);
    assert |front| == h + w;
    assert (front + Diagonals(b, h, w))[|front| + m] == Diagonals(b, h, w)[m];
  }

  /** Every winning array the scan can meet is a four-in-a-row on the board. */
  lemma WinningArrayIsFourInARow(b: Board, h: nat, w: nat, j: nat, k: nat)
    returns (r: int, c: int, d: Direction)
    requires IsGrid(b, h, w) && j < |AllArrays(b, h, w)| && Winning(AllArrays(b, h, w)[j], k)
    ensures FourInARow(b, h, w, r, c, d, AllArrays(b, h, w)[j][k])
  {
    if j < h {
      r, c, d := LineArrayWindow(b, h, w, j, k);
    } else if j < h + w {
      r, c, d := ColumnArrayWindow(b, h, w, j, j - h, k);
    } else {
      r, c, d := DiagonalArrayWindow(b, h, w, j, j - h - w, k);
    }
  }

  /** A winning window of array `j < h` of the scan, line `j`, is a
      horizontal four-in-a-row. */
  lemma LineArrayWindow(b: Board, h: nat, w: nat, j: nat, k: nat)
    returns (r: int, c: int, d: Direction)
    requires IsGrid(b, h, w) && j < h && j < |AllArrays(b, h, w)|
    requires Winning(AllArrays(b, h, w)[j], k)
    ensures FourInARow(b, h, w, r, c, d, AllArrays(b, h, w)[j][k])
  {
    ScanHoldsLine(b, h, w, j);
    LineWindow(b, h, w, j, k);
    r, c, d := j, k, Horizontal;
  }

  /** A winning window of array `j = h + c` of the scan, column `c`, is a
      vertical four-in-a-row. */
  lemma ColumnArrayWindow(b: Board, h: nat, w: nat, j: nat, c0: nat, k: nat)
    returns (r: int, c: int, d: Direction)
    requires IsGrid(b, h, w) && c0 < w && j == h + c0 && j < |AllArrays(b, h, w)|
    requires Winning(AllArrays(b, h, w)[j], k)
    ensures FourInARow(b, h, w, r, c, d, AllArrays(b, h, w)[j][k])
  {
    ScanHoldsColumn(b, h, w, j, c0);
    ColumnWindow(b, h, w, c0, k);
    r, c, d := k, c0, Vertical;
  }

  /** A winning window of array `j = h + w + m` of the scan, run `m` of
      getAllDiagonals, is a diagonal four-in-a-row. */
  lemma DiagonalArrayWindow(b: Board, h: nat, w: nat, j: nat, m: nat, k: nat)
    returns (r: int, c: int, d: Direction)
    requires IsGrid(b, h, w) && j < |AllArrays(b, h, w)| && j == h + w + m
    requires Winning(AllArrays(b, h, w)[j], k)
    ensures FourInARow(b, h, w, r, c, d, AllArrays(b, h, w)[j][k])
  {
    ScanHoldsDiagonal(b, h, w, j, m);
    r, c, d := DiagonalsWindow(b, h, w, m, k);
  }

  /** checkForWin reports a player only when that player has four in a row. */
  lemma WinnerHasFourInARow(b: Board, h: nat, w: nat)
    requires IsGrid(b, h, w) && Winner(b, h, w) != 0
    ensures exists r, c, d :: FourInARow(b, h, w, r, c, d, Winner(b, h, w))
  {
    var arrays := AllArrays(b, h, w);
    var v := Winner(b, h, w);
    var j :| 0 <= j < |arrays| && WinInArray(arrays[j]) == v;
    var k :| Winning(arrays[j], k) && arrays[j][k] == v;
    var r, c, d := WinningArrayIsFourInARow(b, h, w, j, k);
  }

  /** If array `j` of the scan has a winning window, checkForWin reports a
      player. */
  lemma WinningArrayReported(b: Board, h: nat, w: nat, j: nat, k: nat)
    requires IsGrid(b, h, w) && j < |AllArrays(b, h, w)| && Winning(AllArrays(b, h, w)[j], k)
    ensures Winner(b, h, w) != 0
  {
  }

  /** Cell `t` of a four-in-a-row. */
  lemma CellOfFour(b: Board, h: nat, w: nat, r: int, c: int, d: Direction, p: int, t: int)
    requires IsGrid(b, h, w) && FourInARow(b, h, w, r, c, d, p) && 0 <= t < 4
    ensures InBoard(h, w, RowAt(d, r, t), ColAt(d, c, t))
    ensures b[RowAt(d, r, t)][ColAt(d, c, t)] == p
  {
  }

  /** The direction of the board that a slant runs in. */
  function DirectionOf(s: Slant): Direction
  {
    match s
    case DescendingRight => DownRight
    case DescendingLeft => DownLeft
  }

  /** A four-in-a-row from `(r, c)` that starts at cell `k` of a run is a
      winning window of that run. */
  lemma RunHoldsFour(b: Board, h: nat, w: nat, s: Slant, l: int, c0: int, k: nat, r: int, c: int, p: int)
    requires IsGrid(b, h, w) && ValidStart(w, s, l, c0) && Diagonal(b, h, w, s, l, c0).Some?
    requires k + 4 <= |Diagonal(b, h, w, s, l, c0).value|
    requires l + k == r && ColumnStep(s, c0, k) == c
    requires FourInARow(b, h, w, r, c, DirectionOf(s), p)
    ensures Winning(Diagonal(b, h, w, s, l, c0).value, k)
  {
    var run := Diagonal(b, h, w, s, l, c0).value;
    var d := DirectionOf(s);
    CellOfFour(b, h, w, r, c, d, p, 0);
    CellOfFour(b, h, w, r, c, d, p, 1);
    CellOfFour(b, h, w, r, c, d, p, 2);
    CellOfFour(b, h, w, r, c, d, p, 3);
    assert run[k] == p && run[k + 1] == p && run[k + 2] == p && run[k + 3] == p;
  }

  /** On a board of at least 4 x 4, run `i` of a slant is the run from its
      start `i`. */
  lemma RunOfStart(b: Board, h: nat, w: nat, s: Slant, i: nat, l: int, c0: int)
    requires IsGrid(b, h, w) && h >= 4 && w >= 4 && i < |Starts(h, w, s)|
    requires Starts(h, w, s)[i] == (l, c0)
    ensures ValidStart(w, s, l, c0) && Diagonal(b, h, w, s, l, c0).Some?
    ensures |AllDiagonals(b, h, w, s)| == h + w - 7 && i < h + w - 7
    ensures AllDiagonals(b, h, w, s)[i] == Diagonal(b, h, w, s, l, c0).value
  {
    var ss := Starts(h, w, s);
    CollectKeepsAll(b, h, w, s, ss, |ss|);
  }

  /** On a board of at least 4 x 4, the run from start `i` of the
      descending-left slant is array `h + w + i` of the scan. */
  lemma LeftRunInScan(b: Board, h: nat, w: nat, i: nat, l: int, c0: int)
    requires IsGrid(b, h, w) && h >= 4 && w >= 4 && i < |Starts(h, w, DescendingLeft)|
    requires Starts(h, w, DescendingLeft)[i] == (l, c0)
    ensures ValidStart(w, DescendingLeft, l, c0) && Diagonal(b, h, w, DescendingLeft, l, c0).Some? &&
      h + w + i < |AllArrays(b, h, w)| &&
      AllArrays(b, h, w)[h + w + i] == Diagonal(b, h, w, DescendingLeft, l, c0).value
  {
    RunOfStart(b, h, w, DescendingLeft, i, l, c0);
    var left := AllDiagonals(b, h, w, DescendingLeft);
    var right := AllDiagonals(b, h, w, DescendingRight);
    assert (left + right)[i] == left[i];
    ScanHoldsDiagonal(b, h, w, h + w + i, i);
  }

  /** On a board of at least 4 x 4, the run from start `i` of the
      descending-right slant is array `2h + 2w - 7 + i` of the scan, after
      the `h + w - 7` descending-left runs. */
  lemma RightRunInScan(b: Board, h: nat, w: nat, i: nat, l: int, c0: int)
    requires IsGrid(b, h, w) && h >= 4 && w >= 4 && i < |Starts(h, w, DescendingRight)|
    requires Starts(h, w, DescendingRight)[i] == (l, c0)
    ensures ValidStart(w, DescendingRight, l, c0) && Diagonal(b, h, w, DescendingRight, l, c0).Some? &&
      h + w + (h + w - 7) + i < |AllArrays(b, h, w)| &&
      AllArrays(b, h, w)[h + w + (h + w - 7) + i] == Diagonal(b, h, w, DescendingRight, l, c0).value
  {
    RunOfStart(b, h, w, DescendingRight, i, l, c0);
    AllDiagonalsCount(b, h, w, DescendingLeft);
    var left := AllDiagonals(b, h, w, DescendingLeft);
    var right := AllDiagonals(b, h, w, DescendingRight);
    assert (left + right)[|left| + i] == right[i];
    ScanHoldsDiagonal(b, h, w, h + w + (h + w - 7) + i, |left| + i);
  }

  /** The start and the offset of the descending-right run through `(r, c)`. */
  lemma RightStartOf(h: nat, w: nat, r: nat, c: nat) returns (i: nat, k: nat)
    requires r + 3 < h && c + 3 < w
    ensures i < |Starts(h, w, DescendingRight)| && k <= r && k <= c
    ensures Starts(h, w, DescendingRight)[i] == (r - k, c - k)
    ensures k + 4 <= RunLength(h, w, DescendingRight, r - k, c - k)
  {
    var ss := Starts(h, w, DescendingRight);
    if r <= c {
      i, k := c - r, r;
      assert ss[i] == (0, c - r);
    } else {
      i, k := w - 3 + (r - c - 1), c;
      assert ss[i] == (r - c, 0);
    }
  }

  /** The start and the offset of the descending-left run through `(r, c)`. */
  lemma LeftStartOf(h: nat, w: nat, r: nat, c: nat) returns (i: nat, k: nat)
    requires r + 3 < h && 3 <= c < w
    ensures i < |Starts(h, w, DescendingLeft)| && k <= r
    ensures Starts(h, w, DescendingLeft)[i] == (r - k, c + k)
    ensures k + 4 <= RunLength(h, w, DescendingLeft, r - k, c + k)
  {
    var ss := Starts(h, w, DescendingLeft);
    if r <= w - 1 - c {
      i, k := w - 1 - c - r, r;
      assert ss[i] == (0, c + r);
    } else {
      i, k := w - 3 + (r - (w - 1 - c) - 1), w - 1 - c;
      assert ss[i] == (r - k, w - 1);
    }
  }

  /** A descending-right four-in-a-row lies in one of the descending-right
      runs, so the scan finds it. */
  lemma DownRightCovered(b: Board, h: nat, w: nat, r: int, c: int, p: int)
    requires IsGrid(b, h, w) && FourInARow(b, h, w, r, c, DownRight, p)
    ensures Winner(b, h, w) != 0
  {
    var i, k, l, c0 := RightRunWinning(b, h, w, r, c, p);
    RightRunInScan(b, h, w, i, l, c0);
    WinningArrayReported(b, h, w, h + w + (h + w - 7) + i, k);
  }

  /** The start `i` = `(l, c0)` of the descendingRight run through a
      four-in-a-row, and the offset `k` at which the run holds it. */
  lemma RightRunWinning(b: Board, h: nat, w: nat, r: int, c: int, p: int)
    returns (i: nat, k: nat, l: int, c0: int)
    requires IsGrid(b, h, w) && FourInARow(b, h, w, r, c, DownRight, p)
    ensures h >= 4 && w >= 4 && i < |Starts(h, w, DescendingRight)| && Starts(h, w, DescendingRight)[i] == (l, c0)
    ensures ValidStart(w, DescendingRight, l, c0) && Diagonal(b, h, w, DescendingRight, l, c0).Some?
    ensures Winning(Diagonal(b, h, w, DescendingRight, l, c0).value, k)
  {
    CellOfFour(b, h, w, r, c, DownRight, p, 0);
    CellOfFour(b, h, w, r, c, DownRight, p, 3);
    i, k := RightStartOf(h, w, r, c);
    l, c0 := r - k, c - k;
    RunHoldsFour(b, h, w, DescendingRight, l, c0, k, r, c, p);
  }

  /** A descending-left four-in-a-row lies in one of the descending-left
      runs, so the scan finds it. */
  lemma DownLeftCovered(b: Board, h: nat, w: nat, r: int, c: int, p: int)
    requires IsGrid(b, h, w) && FourInARow(b, h, w, r, c, DownLeft, p)
    ensures Winner(b, h, w) != 0
  {
    var i, k, l, c0 := LeftRunWinning(b, h, w, r, c, p);
    LeftRunInScan(b, h, w, i, l, c0);
    WinningArrayReported(b, h, w, h + w + i, k);
  }

  /** The start `i` = `(l, c0)` of the descendingLeft run through a
      four-in-a-row, and the offset `k` at which the run holds it. */
  lemma LeftRunWinning(b: Board, h: nat, w: nat, r: int, c: int, p: int)
    returns (i: nat, k: nat, l: int, c0: int)
    requires IsGrid(b, h, w) && FourInARow(b, h, w, r, c, DownLeft, p)
    ensures h >= 4 && w >= 4 && i < |Starts(h, w, DescendingLeft)| && Starts(h, w, DescendingLeft)[i] == (l, c0)
    ensures ValidStart(w, DescendingLeft, l, c0) && Diagonal(b, h, w, DescendingLeft, l, c0).Some?
    ensures Winning(Diagonal(b, h, w, DescendingLeft, l, c0).value, k)
  {
    CellOfFour(b, h, w, r, c, DownLeft, p, 0);
    CellOfFour(b, h, w, r, c, DownLeft, p, 3);
    i, k := LeftStartOf(h, w, r, c);
    l, c0 := r - k, c + k;
    RunHoldsFour(b, h, w, DescendingLeft, l, c0, k, r, c, p);
  }

  /** A horizontal four-in-a-row is a winning window of its line. */
  lemma HorizontalCovered(b: Board, h: nat, w: nat, r: int, c: int, p: int)
    requires IsGrid(b, h, w) && FourInARow(b, h, w, r, c, Horizontal, p)
    ensures Winner(b, h, w) != 0
  {
    CellOfFour(b, h, w, r, c, Horizontal, p, 0);
    CellOfFour(b, h, w, r, c, Horizontal, p, 1);
    CellOfFour(b, h, w, r, c, Horizontal, p, 2);
    CellOfFour(b, h, w, r, c, Horizontal, p, 3);
    assert Winning(b[r], c);
    WinningArrayReported(b, h, w, r, c);
  }

  /** A vertical four-in-a-row is a winning window of its column. */
  lemma VerticalCovered(b: Board, h: nat, w: nat, r: int, c: int, p: int)
    requires IsGrid(b, h, w) && FourInARow(b, h, w, r, c, Vertical, p)
    ensures Winner(b, h, w) != 0
  {
    CellOfFour(b, h, w, r, c, Vertical, p, 0);
    CellOfFour(b, h, w, r, c, Vertical, p, 1);
    CellOfFour(b, h, w, r, c, Vertical, p, 2);
    CellOfFour(b, h, w, r, c, Vertical, p, 3);
    var column := Pick(b, c);
    assert Winning(column, r);
    ScanHoldsColumn(b, h, w, h + c, c);
    WinningArrayReported(b, h, w, h + c, r);
  }

  /** Every four-in-a-row on the board, in any direction, is found. */
  lemma FourInARowIsReported(b: Board, h: nat, w: nat, r: int, c: int, d: Direction, p: int)
    requires IsGrid(b, h, w) && FourInARow(b, h, w, r, c, d, p)
    ensures Winner(b, h, w) != 0
  {
    match d
    case Horizontal => HorizontalCovered(b, h, w, r, c, p);
    case Vertical => VerticalCovered(b, h, w, r, c, p);
    case DownRight => DownRightCovered(b, h, w, r, c, p);
    case DownLeft => DownLeftCovered(b, h, w, r, c, p);
  }

  /** checkForWin is non-zero exactly when some line, column or diagonal holds
      four equal chips in a row, and then it names a player who has one. */
  lemma WinnerCharacterization(b: Board, h: nat, w: nat)
    requires IsGrid(b, h, w)
    ensures Winner(b, h, w) != 0 <==> exists r, c, d, p :: FourInARow(b, h, w, r, c, d, p)
    ensures Winner(b, h, w) != 0 ==> exists r, c, d :: FourInARow(b, h, w, r, c, d, Winner(b, h, w))
  {
    if Winner(b, h, w) != 0 {
      WinnerHasFourInARow(b, h, w);
    }
    if exists r, c, d, p :: FourInARow(b, h, w, r, c, d, p) {
      var r, c, d, p :| FourInARow(b, h, w, r, c, d, p);
      FourInARowIsReported(b, h, w, r, c, d, p);
    }
  }

  /** When only player `p` has four in a row, checkForWin returns `p`. */
  lemma OnlyPlayerWins(b: Board, h: nat, w: nat, r: int, c: int, d: Direction, p: int)
    requires IsGrid(b, h, w) && FourInARow(b, h, w, r, c, d, p)
    requires forall r', c', d', q :: FourInARow(b, h, w, r', c', d', q) ==> q == p
    ensures Winner(b, h, w) == p
  {
    WinnerCharacterization(b, h, w);
  }
}
