/** The board of a `Game` as a value, and the read-only queries over it:
    columns, lines, the transpose, the gravity drop and the diagonal runs.
    The class in engine.dfy holds the board in an array and proves its
    methods equal to the functions of this module. */
module Grid {

  datatype Option<T> = None | Some(value: T)

  /** The three errors `Game` throws. */
  datatype Error = ColumnOutOfBoundary | LineOutOfBoundary | ColumnFull

  datatype Result<T> = Ok(value: T) | Err(error: Error)

  /** Row-major: `b[row][col]`, row 0 on top; 0 is an empty cell and any
      other number a chip. */
  type Board = seq<seq<int>>

  /** `b` has `h` rows of `w` cells each. */
  predicate IsGrid(b: Board, h: nat, w: nat)
  {
    |b| == h && forall r :: 0 <= r < h ==> |b[r]| == w
  }

  /** `h` rows of `w` zeros, as the constructor builds them. */
  function EmptyBoard(h: nat, w: nat): (b: Board)
    ensures IsGrid(b, h, w)
    ensures forall r, c :: 0 <= r < h && 0 <= c < w ==> b[r][c] == 0
  {
    seq(h, _ => seq(w, _ => 0))
  }

  /** Two boards of the same shape with the same cells are equal. */
  lemma SameCells(a: Board, b: Board, h: nat, w: nat)
    requires IsGrid(a, h, w) && IsGrid(b, h, w)
    requires forall r, c :: 0 <= r < h && 0 <= c < w ==> a[r][c] == b[r][c]
    ensures a == b
  {
    forall r | 0 <= r < h
      ensures a[r] == b[r]
    {
      assert forall c :: 0 <= c < w ==> a[r][c] == b[r][c];
    }
  }

  function Min(x: int, y: int): int
  {
    if x <= y then x else y
  }

  function Max0(x: int): nat
  {
    if x < 0 then 0 else x
  }

  /** JavaScript's `a[i]`: `undefined` (here None) outside the array. */
  function At(a: seq<int>, i: int): Option<int>
  {
    if 0 <= i < |a| then Some(a[i]) else None
  }

  /** JavaScript's `a[i] !== 0`, which also holds when `a[i]` is undefined. */
  predicate NonZeroAt(a: seq<int>, i: int)
  {
    At(a, i) != Some(0)
  }

  // ---------------------------------------------------------------- columns

  /** The fold in getColumn: each line, top to bottom, pushes its entry `c`. */
  function Pick(lines: seq<seq<int>>, c: nat): (col: seq<int>)
    requires forall r :: 0 <= r < |lines| ==> c < |lines[r]|
    ensures |col| == |lines|
    ensures forall r :: 0 <= r < |lines| ==> col[r] == lines[r][c]
  {
    if lines == [] then []
    else Pick(lines[..|lines| - 1], c) + [lines[|lines| - 1][c]]
  }

  /** getColumn: column `c` read top to bottom, or the out-of-boundary error. */
  function GetColumn(b: Board, h: nat, w: nat, c: int): (r: Result<seq<int>>)
    requires IsGrid(b, h, w)
    ensures r.Err? <==> c < 0 || c >= w
    ensures r.Err? ==> r.error == ColumnOutOfBoundary
    ensures r.Ok? ==> |r.value| == h && forall i :: 0 <= i < h ==> r.value[i] == b[i][c]
  {
    if c >= w || c < 0 then Err(ColumnOutOfBoundary) else Ok(Pick(b, c))
  }

  /** getBoardTransposed: the `w` columns of the board, left to right. */
  function Transposed(b: Board, h: nat, w: nat): (t: Board)
    requires IsGrid(b, h, w)
    ensures IsGrid(t, w, h)
    ensures forall c :: 0 <= c < w ==> t[c] == Pick(b, c)
  {
    seq(w, c requires 0 <= c < w => Pick(b, c))
  }

  /** Entry `[c][r]` of the transpose is cell `[r][c]` of the board. */
  lemma TransposedAt(b: Board, h: nat, w: nat, r: nat, c: nat)
    requires IsGrid(b, h, w) && r < h && c < w
    ensures Transposed(b, h, w)[c][r] == b[r][c]
  {
  }

  /** Transposing twice gives the board back: the column-major view that the
      display receives loses nothing. */
  lemma TransposedTwice(b: Board, h: nat, w: nat)
    requires IsGrid(b, h, w)
    ensures Transposed(Transposed(b, h, w), w, h) == b
  {
    var t := Transposed(b, h, w);
    var tt := Transposed(t, w, h);
    forall r | 0 <= r < h
      ensures tt[r] == b[r]
    {
      forall c | 0 <= c < w
        ensures tt[r][c] == b[r][c]
      {
        TransposedAt(t, w, h, c, r);
        TransposedAt(b, h, w, r, c);
      }
    }
  }

  // ------------------------------------------------------------------ lines

  /** getLine as written: the guard compares the index with the width, so an
      index in [h, w) passes it and reads `undefined` (here Ok(None)). */
  function GetLineAsWritten(b: Board, h: nat, w: nat, l: int): (r: Result<Option<seq<int>>>)
    requires IsGrid(b, h, w)
    ensures r.Err? <==> l < 0 || l >= w
    ensures r.Err? ==> r.error == LineOutOfBoundary
    ensures r.Ok? ==> (r.value.Some? <==> l < h)
    ensures r.Ok? && r.value.Some? ==> r.value.value == b[l]
  {
    if l >= w || l < 0 then Err(LineOutOfBoundary)
    else if l < h then Ok(Some(b[l]))
    else Ok(None)
  }

  /** On the 6 x 7 board, line 6 does not exist, yet the guard of getLine
      lets it through and the call yields `undefined` instead of the error;
      the corrected GetLine rejects it. */
  lemma {:induction false} GetLineGuardLetsLineSixThrough(b: Board)
    requires IsGrid(b, 6, 7)
    ensures GetLineAsWritten(b, 6, 7, 6) == Ok(None)
    ensures GetLine(b, 6, 7, 6) == Err(LineOutOfBoundary)
  {
  }

  /** getLine with the guard it evidently intends: line `l` of the board, or
      the out-of-boundary error exactly when `l` is not a row index. */
  function GetLine(b: Board, h: nat, w: nat, l: int): (r: Result<seq<int>>)
    requires IsGrid(b, h, w)
    ensures r.Err? <==> l < 0 || l >= h
    ensures r.Err? ==> r.error == LineOutOfBoundary
    ensures r.Ok? ==> |r.value| == w && forall c :: 0 <= c < w ==> r.value[c] == b[l][c]
  {
    if l >= h || l < 0 then Err(LineOutOfBoundary) else Ok(b[l])
  }

  /** Where both guards admit the index they return the same line, so on a
      board no taller than wide every real row is read alike. */
  lemma GetLineAgreesWithAsWritten(b: Board, h: nat, w: nat, l: int)
    requires IsGrid(b, h, w) && 0 <= l < h && l < w
    ensures GetLineAsWritten(b, h, w, l) == Ok(Some(GetLine(b, h, w, l).value))
  {
  }

  // ---------------------------------------------------------- gravity drop

  /** The exit test of the loop in getLowestEmptyLine at line `i`. */
  predicate Stops(col: seq<int>, h: nat, i: int)
  {
    i == h - 1 || NonZeroAt(col, i + 1)
  }

  /** The loop of getLowestEmptyLine, from line `i` on. */
  function ScanDown(col: seq<int>, h: nat, i: nat): (r: Option<nat>)
    requires i <= h
    decreases h - i
    ensures r.Some? <==> i < h
    ensures r.Some? ==> i <= r.value < h && Stops(col, h, r.value)
    ensures r.Some? ==> forall j :: i <= j < r.value ==> !Stops(col, h, j)
  {
    if i == h then None
    else if Stops(col, h, i) then Some(i)
    else ScanDown(col, h, i + 1)
  }

  /** getLowestEmptyLine: None (null, or undefined when `h` is 0) when the
      top cell is not 0; otherwise the first line whose successor is not 0,
      or the last line. */
  function LowestEmptyLine(col: seq<int>, h: nat): (r: Option<nat>)
    ensures r.None? <==> NonZeroAt(col, 0) || h == 0
    ensures r.Some? ==> r.value < h && (r.value == h - 1 || NonZeroAt(col, r.value + 1))
    ensures r.Some? ==> forall j :: 0 <= j < r.value ==> !Stops(col, h, j)
  {
    if NonZeroAt(col, 0) then None else ScanDown(col, h, 0)
  }

  /** Gravity in one column: an occupied cell never sits above an empty one. */
  predicate Settled(col: seq<int>)
  {
    forall i :: 0 <= i < |col| - 1 && col[i] != 0 ==> col[i + 1] != 0
  }

  /** Gravity at cell `(r, c)`: if it holds a chip, so does the cell below. */
  predicate RestsOnChip(b: Board, h: nat, w: nat, r: int, c: int)
    requires IsGrid(b, h, w) && 0 <= r < h - 1 && 0 <= c < w
  {
    b[r][c] != 0 ==> b[r + 1][c] != 0
  }

  /** Gravity on the whole board. */
  predicate Gravity(b: Board, h: nat, w: nat)
    requires IsGrid(b, h, w)
  {
    forall r, c :: 0 <= r < h - 1 && 0 <= c < w ==> RestsOnChip(b, h, w, r, c)
  }

  lemma GravitySettlesColumns(b: Board, h: nat, w: nat, c: nat)
    requires IsGrid(b, h, w) && Gravity(b, h, w) && c < w
    ensures Settled(Pick(b, c))
  {
    var col := Pick(b, c);
    forall i | 0 <= i < |col| - 1 && col[i] != 0
      ensures col[i + 1] != 0
    {
      assert RestsOnChip(b, h, w, i, c);
    }
  }

  /** In a settled column everything below an occupied cell is occupied. */
  lemma {:induction false} SettledBelow(col: seq<int>, i: nat, j: nat)
    requires Settled(col) && i <= j < |col| && col[i] != 0
    ensures col[j] != 0
    decreases j - i
  {
    if i < j {
      SettledBelow(col, i + 1, j);
    }
  }

  /** The line found, and every line above it, is empty, whatever the column. */
  lemma LowestEmptyLineAboveIsEmpty(col: seq<int>, h: nat, j: nat)
    requires |col| == h && LowestEmptyLine(col, h).Some?
    requires j <= LowestEmptyLine(col, h).value
    ensures col[j] == 0
  {
    if j > 0 {
      assert !Stops(col, h, j - 1);
    }
  }

  /** Under gravity, the line found is the lowest empty cell: it is empty and
      every cell below it is occupied. */
  lemma LowestEmptyLineUnderGravity(col: seq<int>, h: nat)
    requires |col| == h && Settled(col) && LowestEmptyLine(col, h).Some?
    ensures col[LowestEmptyLine(col, h).value] == 0
    ensures forall j :: LowestEmptyLine(col, h).value < j < h ==> col[j] != 0
  {
    var i := LowestEmptyLine(col, h).value;
    LowestEmptyLineAboveIsEmpty(col, h, i);
    forall j | i < j < h
      ensures col[j] != 0
    {
      SettledBelow(col, i + 1, j);
    }
  }

  /** Without gravity the line found need not be the lowest empty one. */
  lemma LowestEmptyLineIgnoresGapsBelow()
    ensures LowestEmptyLine([0, 1, 0], 3) == Some(0)
  {
    assert NonZeroAt([0, 1, 0], 1);
  }

  /** playChip on the value: the chip goes to the line getLowestEmptyLine
      picks in column `c`; out-of-range columns and full columns fail. */
  function Play(b: Board, h: nat, w: nat, p: int, c: int): (r: Result<Board>)
    requires IsGrid(b, h, w)
    ensures r.Err? <==> c < 0 || c >= w || h == 0 || b[0][c] != 0
    ensures r.Err? ==> r.error == if c < 0 || c >= w then ColumnOutOfBoundary else ColumnFull
    ensures r.Ok? ==> IsGrid(r.value, h, w)
  {
    match GetColumn(b, h, w, c)
    case Err(e) => Err(e)
    case Ok(col) =>
      match LowestEmptyLine(col, h)
      case None => Err(ColumnFull)
      case Some(l) => Ok(b[l := b[l][c := p]])
  }

  /** A successful move writes `p` into the one cell `(l, c)`, where `l` is
      what getLowestEmptyLine returns for column `c`; that cell was empty,
      and every other cell keeps its value. */
  lemma PlayChangesOneCell(b: Board, h: nat, w: nat, p: int, c: int)
    requires IsGrid(b, h, w) && Play(b, h, w, p, c).Ok?
    ensures 0 <= c < w && LowestEmptyLine(Pick(b, c), h).Some?
    ensures var l := LowestEmptyLine(Pick(b, c), h).value;
      var b' := Play(b, h, w, p, c).value;
      b[l][c] == 0 && b'[l][c] == p &&
      forall i, j :: 0 <= i < h && 0 <= j < w && (i, j) != (l, c) ==> b'[i][j] == b[i][j]
  {
    LowestEmptyLineAboveIsEmpty(Pick(b, c), h, LowestEmptyLine(Pick(b, c), h).value);
  }

  /** Under gravity, the chip lands on the lowest empty cell of the column. */
  lemma PlayLandsOnLowestEmpty(b: Board, h: nat, w: nat, p: int, c: int)
    requires IsGrid(b, h, w) && Gravity(b, h, w) && Play(b, h, w, p, c).Ok?
    ensures 0 <= c < w
    ensures var l := LowestEmptyLine(Pick(b, c), h).value;
      l < h && b[l][c] == 0 && forall j :: l < j < h ==> b[j][c] != 0
  {
    GravitySettlesColumns(b, h, w, c);
    LowestEmptyLineUnderGravity(Pick(b, c), h);
  }

  /** A move keeps gravity: no empty cell ends up below a chip. */
  lemma PlayKeepsGravity(b: Board, h: nat, w: nat, p: int, c: int)
    requires IsGrid(b, h, w) && Gravity(b, h, w) && Play(b, h, w, p, c).Ok?
    ensures Gravity(Play(b, h, w, p, c).value, h, w)
  {
    PlayChangesOneCell(b, h, w, p, c);
    PlayLandsOnLowestEmpty(b, h, w, p, c);
    var l := LowestEmptyLine(Pick(b, c), h).value;
    var b' := Play(b, h, w, p, c).value;
    forall r, j | 0 <= r < h - 1 && 0 <= j < w
      ensures RestsOnChip(b', h, w, r, j)
    {
      assert RestsOnChip(b, h, w, r, j);
      if j == c && r + 1 == l {
        LowestEmptyLineAboveIsEmpty(Pick(b, c), h, r);
      }
    }
  }

  /** After a move, column `c` is the old column with the chip at line `l`,
      that is, exactly one more occupied cell; the other columns are as they
      were. */
  lemma PlayColumnRoundTrip(b: Board, h: nat, w: nat, p: int, c: int)
    requires IsGrid(b, h, w) && Play(b, h, w, p, c).Ok?
    ensures 0 <= c < w
    ensures var l := LowestEmptyLine(Pick(b, c), h).value;
      var b' := Play(b, h, w, p, c).value;
      Pick(b', c) == Pick(b, c)[l := p] &&
      forall j :: 0 <= j < w && j != c ==> Pick(b', j) == Pick(b, j)
  {
    PlayChangesOneCell(b, h, w, p, c);
    var l := LowestEmptyLine(Pick(b, c), h).value;
    var b' := Play(b, h, w, p, c).value;
    assert Pick(b', c) == Pick(b, c)[l := p];
    forall j | 0 <= j < w && j != c
      ensures Pick(b', j) == Pick(b, j)
    {
    }
  }

  /** A move with a chip (`p != 0`) fills exactly one empty cell of its
      column: the number of zeros drops by one. */
  lemma PlayFillsOneEmptyCell(b: Board, h: nat, w: nat, p: int, c: int)
    requires IsGrid(b, h, w) && p != 0 && Play(b, h, w, p, c).Ok?
    ensures 0 <= c < w
    ensures multiset(Pick(Play(b, h, w, p, c).value, c))[0] == multiset(Pick(b, c))[0] - 1
  {
    PlayColumnRoundTrip(b, h, w, p, c);
    PlayChangesOneCell(b, h, w, p, c);
    var l := LowestEmptyLine(Pick(b, c), h).value;
    var col := Pick(b, c);
    assert col[l] == 0;
    assert multiset(col[l := p]) == multiset(col) - multiset{0} + multiset{p};
  }

  // -------------------------------------------------------------- diagonals

  /** The two descending directions of the diagonal builders. */
  datatype Slant = DescendingLeft | DescendingRight

  /** `maxCroppedSquareSideLength`: the cells of the run from `(l, c)` down
      the slant before it leaves the board. */
  function RunLength(h: nat, w: nat, s: Slant, l: int, c: int): int
  {
    match s
    case DescendingRight => Min(h - l, w - c)
    case DescendingLeft => Min(h - l, c + 1)
  }

  /** The column of cell `k` of a run starting in column `c`. */
  function ColumnStep(s: Slant, c: int, k: int): int
  {
    match s
    case DescendingRight => c + k
    case DescendingLeft => c - k
  }

  /** The starting cells for which a builder reads only cells of the board. */
  predicate ValidStart(w: nat, s: Slant, l: int, c: int)
  {
    0 <= l && match s
              case DescendingRight => 0 <= c
              case DescendingLeft => c < w
  }

  /** getDiagonalByHighestCellDescendingRight / Left: null when the run has
      fewer than four cells, otherwise its cells from the highest down. */
  function Diagonal(b: Board, h: nat, w: nat, s: Slant, l: int, c: int): (d: Option<seq<int>>)
    requires IsGrid(b, h, w) && ValidStart(w, s, l, c)
    ensures d.None? <==> RunLength(h, w, s, l, c) < 4
    ensures d.Some? ==> |d.value| == RunLength(h, w, s, l, c)
  {
    var n := RunLength(h, w, s, l, c);
    if n < 4 then None
    else Some(seq(n, k requires 0 <= k < n => b[l + k][ColumnStep(s, c, k)]))
  }

  /** Cell `k` of the run from `(l, c)` is board cell `(l + k, c + k)` to the
      right or `(l + k, c - k)` to the left, and lies on the board. */
  lemma DiagonalCells(b: Board, h: nat, w: nat, s: Slant, l: int, c: int, k: nat)
    requires IsGrid(b, h, w) && ValidStart(w, s, l, c) && Diagonal(b, h, w, s, l, c).Some?
    requires k < |Diagonal(b, h, w, s, l, c).value|
    ensures 0 <= ColumnStep(s, c, k) < w && l + k < h
    ensures Diagonal(b, h, w, s, l, c).value[k] == b[l + k][ColumnStep(s, c, k)]
  {
  }

  /** The cells the getAllDiagonals... loops start from: first along the top
      line, then down the first (Right) or last (Left) column. */
  function Starts(h: nat, w: nat, s: Slant): (ss: seq<(int, int)>)
    ensures |ss| == Max0(w - 3) + Max0(h - 4)
    ensures forall j :: 0 <= j < |ss| ==> ValidStart(w, s, ss[j].0, ss[j].1)
    ensures forall j :: 0 <= j < Max0(w - 3) ==>
      ss[j] == (0, if s == DescendingRight then j else w - j - 1)
    ensures forall j :: Max0(w - 3) <= j < |ss| ==>
      ss[j] == (j - Max0(w - 3) + 1, if s == DescendingRight then 0 else w - 1)
  {
    match s
    case DescendingRight =>
      seq(Max0(w - 3), j => (0, j)) + seq(Max0(h - 4), i => (i + 1, 0))
    case DescendingLeft =>
      seq(Max0(w - 3), j => (0, w - j - 1)) + seq(Max0(h - 4), i => (i + 1, w - 1))
  }

  /** The loops of getAllDiagonals...: build from every start and keep the
      non-null results, in order. */
  function Collect(b: Board, h: nat, w: nat, s: Slant, ss: seq<(int, int)>, n: nat): (ds: seq<seq<int>>)
    requires IsGrid(b, h, w) && n <= |ss|
    requires forall j :: 0 <= j < |ss| ==> ValidStart(w, s, ss[j].0, ss[j].1)
    ensures |ds| <= n
  {
    if n == 0 then []
    else
      var rest := Collect(b, h, w, s, ss, n - 1);
      match Diagonal(b, h, w, s, ss[n - 1].0, ss[n - 1].1)
      case None => rest
      case Some(d) => rest + [d]
  }

  /** One more start: Collect appends the run it yields, if any. */
  lemma CollectStep(b: Board, h: nat, w: nat, s: Slant, ss: seq<(int, int)>, n: nat, d: Option<seq<int>>)
    requires IsGrid(b, h, w) && n < |ss|
    requires forall j :: 0 <= j < |ss| ==> ValidStart(w, s, ss[j].0, ss[j].1)
    requires d == Diagonal(b, h, w, s, ss[n].0, ss[n].1)
    ensures d.Some? ==> Collect(b, h, w, s, ss, n + 1) == Collect(b, h, w, s, ss, n) + [d.value]
    ensures d.None? ==> Collect(b, h, w, s, ss, n + 1) == Collect(b, h, w, s, ss, n)
  {
  }

  /** Start `j` along the top line, as the first loop of the collectors
      visits it, adds its run to what the earlier starts gave. */
  lemma CollectTopStep(b: Board, h: nat, w: nat, s: Slant, j: nat, c: int, d: Option<seq<int>>)
    requires IsGrid(b, h, w) && j < Max0(w - 3)
    requires c == if s == DescendingRight then j else w - j - 1
    requires d == Diagonal(b, h, w, s, 0, c)
    ensures var ss := Starts(h, w, s);
      j < |ss| &&
      (d.Some? ==> Collect(b, h, w, s, ss, j + 1) == Collect(b, h, w, s, ss, j) + [d.value]) &&
      (d.None? ==> Collect(b, h, w, s, ss, j + 1) == Collect(b, h, w, s, ss, j))
  {
    var ss := Starts(h, w, s);
    assert ss[j] == (0, c);
    CollectStep(b, h, w, s, ss, j, d);
  }

  /** Start `i >= 1` down the side column, as the second loop of the
      collectors visits it, adds its run after the top-line starts and the
      side starts above it. */
  lemma CollectSideStep(b: Board, h: nat, w: nat, s: Slant, i: nat, n: nat, c: int, d: Option<seq<int>>)
    requires IsGrid(b, h, w) && 1 <= i <= Max0(h - 4) && n == Max0(w - 3) + i - 1
    requires c == if s == DescendingRight then 0 else w - 1
    requires d == Diagonal(b, h, w, s, i, c)
    ensures var ss := Starts(h, w, s);
      n < |ss| &&
      (d.Some? ==> Collect(b, h, w, s, ss, n + 1) == Collect(b, h, w, s, ss, n) + [d.value]) &&
      (d.None? ==> Collect(b, h, w, s, ss, n + 1) == Collect(b, h, w, s, ss, n))
  {
    var ss := Starts(h, w, s);
    assert ss[n] == (i, c);
    CollectStep(b, h, w, s, ss, n, d);
  }

  /** getAllDiagonalsDescendingRight / Left. */
  function AllDiagonals(b: Board, h: nat, w: nat, s: Slant): seq<seq<int>>
    requires IsGrid(b, h, w)
  {
    var ss := Starts(h, w, s);
    Collect(b, h, w, s, ss, |ss|)
  }

  /** getAllDiagonals: the descending-left runs, then the descending-right
      ones, at most one per start of either direction. */
  function Diagonals(b: Board, h: nat, w: nat): (ds: seq<seq<int>>)
    requires IsGrid(b, h, w)
    ensures |ds| <= 2 * (Max0(w - 3) + Max0(h - 4))
  {
    AllDiagonals(b, h, w, DescendingLeft) + AllDiagonals(b, h, w, DescendingRight)
  }

  /** When every start yields a run, Collect keeps them all, one per start. */
  lemma {:induction false} CollectKeepsAll(b: Board, h: nat, w: nat, s: Slant, ss: seq<(int, int)>, n: nat)
    requires IsGrid(b, h, w) && n <= |ss|
    requires forall j :: 0 <= j < |ss| ==> ValidStart(w, s, ss[j].0, ss[j].1)
    requires forall j :: 0 <= j < |ss| ==> RunLength(h, w, s, ss[j].0, ss[j].1) >= 4
    ensures |Collect(b, h, w, s, ss, n)| == n
    ensures forall j :: 0 <= j < n ==>
      Collect(b, h, w, s, ss, n)[j] == Diagonal(b, h, w, s, ss[j].0, ss[j].1).value
  {
    if n > 0 {
      CollectKeepsAll(b, h, w, s, ss, n - 1);
    }
  }

  /** When no start yields a run, Collect returns nothing. */
  lemma {:induction false} CollectKeepsNone(b: Board, h: nat, w: nat, s: Slant, ss: seq<(int, int)>, n: nat)
    requires IsGrid(b, h, w) && n <= |ss|
    requires forall j :: 0 <= j < |ss| ==> ValidStart(w, s, ss[j].0, ss[j].1)
    requires forall j :: 0 <= j < |ss| ==> RunLength(h, w, s, ss[j].0, ss[j].1) < 4
    ensures Collect(b, h, w, s, ss, n) == []
  {
    if n > 0 {
      CollectKeepsNone(b, h, w, s, ss, n - 1);
    }
  }

  /** Every run Collect returns is the run built from one of the starts:
      run `j` comes from start `i`. */
  lemma {:induction false} CollectFromStart(b: Board, h: nat, w: nat, s: Slant, ss: seq<(int, int)>, n: nat, j: nat)
    returns (i: nat)
    requires IsGrid(b, h, w) && n <= |ss|
    requires forall i :: 0 <= i < |ss| ==> ValidStart(w, s, ss[i].0, ss[i].1)
    requires j < |Collect(b, h, w, s, ss, n)|
    ensures i < n && Diagonal(b, h, w, s, ss[i].0, ss[i].1) == Some(Collect(b, h, w, s, ss, n)[j])
  {
    var rest := Collect(b, h, w, s, ss, n - 1);
    if j < |rest| {
      i := CollectFromStart(b, h, w, s, ss, n - 1, j);
    } else {
      i := n - 1;
    }
  }

  /** A board of at least 4 x 4 has `h + w - 7` runs of four or more cells in
      each descending direction, and a smaller one has none. */
  lemma AllDiagonalsCount(b: Board, h: nat, w: nat, s: Slant)
    requires IsGrid(b, h, w)
    ensures |AllDiagonals(b, h, w, s)| == if h >= 4 && w >= 4 then h + w - 7 else 0
    ensures forall j :: 0 <= j < |AllDiagonals(b, h, w, s)| ==> |AllDiagonals(b, h, w, s)[j]| >= 4
  {
    var ss := Starts(h, w, s);
    if h >= 4 && w >= 4 {
      CollectKeepsAll(b, h, w, s, ss, |ss|);
    } else {
      CollectKeepsNone(b, h, w, s, ss, |ss|);
    }
  }

  /** On the standard 6 x 7 board each direction has 6 runs and
      getAllDiagonals returns 12, the descending-left ones first. */
  lemma DiagonalsOnStandardBoard(b: Board)
    requires IsGrid(b, 6, 7)
    ensures |AllDiagonals(b, 6, 7, DescendingLeft)| == 6
    ensures |AllDiagonals(b, 6, 7, DescendingRight)| == 6
    ensures |Diagonals(b, 6, 7)| == 12
    ensures Diagonals(b, 6, 7)[..6] == AllDiagonals(b, 6, 7, DescendingLeft)
    ensures forall j :: 0 <= j < 12 ==> |Diagonals(b, 6, 7)[j]| >= 4
  {
    AllDiagonalsCount(b, 6, 7, DescendingLeft);
    AllDiagonalsCount(b, 6, 7, DescendingRight);
    var left := AllDiagonals(b, 6, 7, DescendingLeft);
    var right := AllDiagonals(b, 6, 7, DescendingRight);
    assert (left + right)[..6] == left;
    forall j | 0 <= j < 12
      ensures |Diagonals(b, 6, 7)[j]| >= 4
    {
      if j >= 6 {
        assert (left + right)[j] == right[j - 6];
      }
    }
  }
}
