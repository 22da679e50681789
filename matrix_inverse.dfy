/** `Matrix4::GetInverse`: Gauss-Jordan elimination with full pivoting on a
    copy `minv` of the matrix, with the bookkeeping arrays `ipiv` (whether
    each index has been a pivot column yet), `indxr` and `indxc` (the pivot's
    row and column at each step), row swaps during elimination and column
    swaps at the end.

    The first half of the module states the algorithm on values:
    `PivotSearch`, `PivotStepOf`, `ReduceFrom` and `InverseOf`. The second
    half is the in-place algorithm on arrays, proved to compute exactly
    `InverseOf`. */
module MatrixInverse {
  import opened Matrices
  import Vectors

  datatype Inversion = Inverted(inverse: Matrix4) | Singular

  predicate IsDiagonal(m: Matrix4)
  {
    forall i, j :: 0 <= i < 4 && 0 <= j < 4 && i != j ==> m[i][j] == 0.0
  }

  predicate NonzeroDiagonal(m: Matrix4)
  {
    forall i :: 0 <= i < 4 ==> m[i][i] != 0.0
  }

  /** The diagonal matrix of the reciprocals of `m`'s diagonal. */
  function DiagonalReciprocal(m: Matrix4): (r: Matrix4)
    requires NonzeroDiagonal(m)
    ensures forall i, j :: InRange(i) && InRange(j) ==> r[i][j] == if i == j then 1.0 / m[i][i] else 0.0
  {
    [[1.0 / m[0][0], 0.0, 0.0, 0.0],
     [0.0, 1.0 / m[1][1], 0.0, 0.0],
     [0.0, 0.0, 1.0 / m[2][2], 0.0],
     [0.0, 0.0, 0.0, 1.0 / m[3][3]]]
  }

  /** Entry (i,j) of a product of two diagonal matrices. */
  lemma DiagonalProductEntry(a: Matrix4, b: Matrix4, i: int, j: int)
    requires IsDiagonal(a) && IsDiagonal(b) && InRange(i) && InRange(j)
    ensures ProductEntry(a, b, i, j) == if i == j then a[i][i] * b[i][i] else 0.0
  {
    assert forall k :: InRange(k) && k != i ==> a[i][k] == 0.0;
    assert forall k :: InRange(k) && k != j ==> b[k][j] == 0.0;
  }

  /** For a diagonal matrix with no zero on its diagonal, the reciprocal
      diagonal is a right inverse. */
  lemma DiagonalReciprocalIsRightInverse(m: Matrix4)
    requires IsDiagonal(m) && NonzeroDiagonal(m)
    ensures Product(m, DiagonalReciprocal(m)) == Identity()
  {
    var d := DiagonalReciprocal(m);
    var p := Product(m, d);
    forall i, j | InRange(i) && InRange(j)
      ensures p[i][j] == Identity()[i][j]
    {
      DiagonalProductEntry(m, d, i, j);
    }
    Extensionality(p, Identity());
  }

  /** ... and a left inverse. */
  lemma DiagonalReciprocalIsLeftInverse(m: Matrix4)
    requires IsDiagonal(m) && NonzeroDiagonal(m)
    ensures Product(DiagonalReciprocal(m), m) == Identity()
  {
    var d := DiagonalReciprocal(m);
    var q := Product(d, m);
    forall i, j | InRange(i) && InRange(j)
      ensures q[i][j] == Identity()[i][j]
    {
      DiagonalProductEntry(d, m, i, j);
    }
    Extensionality(q, Identity());
  }

  lemma IdentityIsOwnReciprocal()
    ensures IsDiagonal(Identity()) && NonzeroDiagonal(Identity())
    ensures DiagonalReciprocal(Identity()) == Identity()
  {
    Extensionality(DiagonalReciprocal(Identity()), Identity());
  }

  /** A sequence of fewer than four column indices leaves some column out. */
  lemma SomeColumnUnused(s: seq<int>)
    requires |s| < 4
    ensures exists k :: InRange(k) && k !in s
  {
    if |s| == 0 {
      assert 0 !in s;
    } else if 0 !in s {
    } else if 1 !in s {
    } else if 2 !in s {
    } else {
      assert 3 !in s;
    }
  }

  /** Four distinct column indices name every column. */
  lemma AllColumnsUsed(s: seq<int>)
    requires |s| == 4
    requires forall a :: 0 <= a < 4 ==> InRange(s[a])
    requires forall a, b :: 0 <= a < b < 4 ==> s[a] != s[b]
    ensures forall k :: InRange(k) ==> k in s
  {
    var a, b, c, e := s[0], s[1], s[2], s[3];
    assert InRange(a) && InRange(b) && InRange(c) && InRange(e);
    assert a != b && a != c && a != e && b != c && b != e && c != e;
    assert s == [a, b, c, e];
  }

  // ---------------------------------------------------------------------
  // The pivot search

  /** The pivot candidate of the search: its row, its column and its
      magnitude `big`. */
  datatype Pick = Pick(row: int, col: int, big: real)

  /** `irow = -1, icol = -1, big = 0` before the search. */
  const NoPick: Pick := Pick(-1, -1, 0.0)

  /** `ipiv` as the search sees it: four flags, 1 for a column already used
      as a pivot column. */
  predicate PivotFlags(piv: seq<int>)
  {
    |piv| == 4 && forall k :: 0 <= k < 4 ==> piv[k] == 0 || piv[k] == 1
  }

  /** The inner loop of the search over row `j`, after columns `0..k-1`:
      an unpivoted column whose entry is at least as large as the best so far
      becomes the candidate. So the result is the last entry of greatest
      magnitude among those visited, or the incoming candidate `c` when none
      reaches `c.big`; a candidate in row `j` is an unpivoted column visited,
      with its magnitude. */
  function ScanRowOf(m: Matrix4, piv: seq<int>, c: Pick, j: int, k: int): (r: Pick)
    requires PivotFlags(piv) && InRange(j) && 0 <= k <= 4 && c.row < j
    ensures r.row == j || r == c
    ensures r.row == j ==> 0 <= r.col < k && piv[r.col] == 0 && r.big == Vectors.Abs(m[j][r.col])
    decreases k
  {
    if k == 0 then c
    else
      var prev := ScanRowOf(m, piv, c, j, k - 1);
      if piv[k - 1] == 0 && Vectors.Abs(m[j][k - 1]) >= prev.big then Pick(j, k - 1, Vectors.Abs(m[j][k - 1]))
      else prev
  }

  /** What the scan of row `j` promises beyond the candidate's own shape:
      the candidate only grows, no unpivoted entry visited is larger, and
      every one after the candidate is smaller. */
  lemma {:induction false} ScanRowFinds(m: Matrix4, piv: seq<int>, c: Pick, j: int, k: int)
    requires PivotFlags(piv) && InRange(j) && 0 <= k <= 4 && c.row < j
    ensures var r := ScanRowOf(m, piv, c, j, k);
      && r.big >= c.big
      && (forall b :: 0 <= b < k && piv[b] == 0 ==> Vectors.Abs(m[j][b]) <= r.big)
      && (forall b :: 0 <= b < k && piv[b] == 0 && (r.row != j || b > r.col) ==> Vectors.Abs(m[j][b]) < r.big)
    decreases k
  {
    if k > 0 {
      ScanRowFinds(m, piv, c, j, k - 1);
      var prev := ScanRowOf(m, piv, c, j, k - 1);
      var r := ScanRowOf(m, piv, c, j, k);
      var x := Vectors.Abs(m[j][k - 1]);
      if piv[k - 1] == 0 && x >= prev.big {
        assert r == Pick(j, k - 1, x);
        assert forall b :: 0 <= b < k - 1 && piv[b] == 0 ==> Vectors.Abs(m[j][b]) <= prev.big;
      } else {
        assert r == prev;
        assert piv[k - 1] == 0 ==> x < r.big;
      }
    }
  }

  /** What the pivot search promises after rows `0..j-1`: `r` is the LAST
      entry in row-major order whose magnitude is greatest among the
      unpivoted rows and columns visited, and it is `NoPick` exactly when
      every row visited is already pivoted. */
  predicate Searched(m: Matrix4, piv: seq<int>, j: int, r: Pick)
    requires PivotFlags(piv) && 0 <= j <= 4
  {
    r.row < j &&
    (r.row == -1 <==> forall a :: 0 <= a < j ==> piv[a] == 1) &&
    (r.row == -1 ==> r == NoPick) &&
    (r.row != -1 ==>
       0 <= r.row && InRange(r.col) && piv[r.row] == 0 && piv[r.col] == 0 && r.big == Vectors.Abs(m[r.row][r.col])) &&
    (forall a, b :: 0 <= a < j && 0 <= b < 4 && piv[a] == 0 && piv[b] == 0 ==>
       Vectors.Abs(m[a][b]) <= r.big) &&
    (forall a, b :: 0 <= a < j && 0 <= b < 4 && piv[a] == 0 && piv[b] == 0 && (a > r.row || (a == r.row && b > r.col)) ==>
       Vectors.Abs(m[a][b]) < r.big)
  }

  /** Scanning one more unpivoted row keeps what the search promises. */
  lemma ScanExtendsSearch(m: Matrix4, piv: seq<int>, j: int, prev: Pick)
    requires PivotFlags(piv) && InRange(j) && piv[j] == 0 && Searched(m, piv, j, prev)
    ensures Searched(m, piv, j + 1, ScanRowOf(m, piv, prev, j, 4))
  {
    var r := ScanRowOf(m, piv, prev, j, 4);
    ScanRowFinds(m, piv, prev, j, 4);
    assert Vectors.Abs(m[j][j]) <= r.big;
  }

  /** Skipping a row already pivoted keeps what the search promises. */
  lemma SkipExtendsSearch(m: Matrix4, piv: seq<int>, j: int, prev: Pick)
    requires PivotFlags(piv) && InRange(j) && piv[j] == 1 && Searched(m, piv, j, prev)
    ensures Searched(m, piv, j + 1, prev)
  {
  }

  /** The pivot search over rows `0..j-1`, skipping the rows whose flag is 1. */
  function PivotSearch(m: Matrix4, piv: seq<int>, j: int): (r: Pick)
    requires PivotFlags(piv) && 0 <= j <= 4
    ensures r.row < j
    ensures r.row == -1 ==> r == NoPick
    ensures r.row != -1 ==>
      0 <= r.row && InRange(r.col) && piv[r.row] == 0 && piv[r.col] == 0 && r.big == Vectors.Abs(m[r.row][r.col])
    decreases j
  {
    if j == 0 then NoPick
    else
      var prev := PivotSearch(m, piv, j - 1);
      if piv[j - 1] != 1 then ScanRowOf(m, piv, prev, j - 1, 4) else prev
  }

  /** The search finds the last entry of greatest magnitude in the
      unpivoted block, in row-major order. */
  lemma {:induction false} PivotSearchFinds(m: Matrix4, piv: seq<int>, j: int)
    requires PivotFlags(piv) && 0 <= j <= 4
    ensures Searched(m, piv, j, PivotSearch(m, piv, j))
    decreases j
  {
    if j > 0 {
      PivotSearchFinds(m, piv, j - 1);
      var prev := PivotSearch(m, piv, j - 1);
      if piv[j - 1] != 1 {
        ScanExtendsSearch(m, piv, j - 1, prev);
      } else {
        SkipExtendsSearch(m, piv, j - 1, prev);
      }
    }
  }

  // ---------------------------------------------------------------------
  // The row and column operations on values

  /** `m` with rows `r1` and `r2` exchanged. */
  function SwapRowsOf(m: Matrix4, r1: int, r2: int): (r: Matrix4)
    requires InRange(r1) && InRange(r2)
    ensures forall a, b :: InRange(a) && InRange(b) ==>
      r[a][b] == m[if a == r1 then r2 else if a == r2 then r1 else a][b]
  {
    seq(4, a requires 0 <= a < 4 => m[if a == r1 then r2 else if a == r2 then r1 else a])
  }

  /** `m` with columns `c1` and `c2` exchanged. */
  function SwapColumnsOf(m: Matrix4, c1: int, c2: int): (r: Matrix4)
    requires InRange(c1) && InRange(c2)
    ensures forall a, b :: InRange(a) && InRange(b) ==>
      r[a][b] == m[a][if b == c1 then c2 else if b == c2 then c1 else b]
  {
    seq(4, a requires 0 <= a < 4 => seq(4, b requires 0 <= b < 4 => m[a][if b == c1 then c2 else if b == c2 then c1 else b]))
  }

  /** `m` with row `row` multiplied by `s`. */
  function ScaleRowOf(m: Matrix4, row: int, s: real): (r: Matrix4)
    requires InRange(row)
    ensures forall a, b :: InRange(a) && InRange(b) ==> r[a][b] == if a == row then m[a][b] * s else m[a][b]
  {
    seq(4, a requires 0 <= a < 4 => seq(4, b requires 0 <= b < 4 => if a == row then m[a][b] * s else m[a][b]))
  }

  /** An entry after `factor` times the pivot row's entry is subtracted. */
  function Reduced(entry: real, pivotEntry: real, factor: real): (r: real)
  {
    entry - pivotEntry * factor
  }

  /** The elimination loop of one step: every row `a` other than the pivot
      row has its column-`icol` entry saved and cleared, and then `save`
      times the pivot row subtracted. */
  function EliminateColumnOf(m: Matrix4, icol: int): (r: Matrix4)
    requires InRange(icol)
    ensures forall a, b :: InRange(a) && InRange(b) ==>
      r[a][b] == if a == icol then m[a][b] else Reduced(if b == icol then 0.0 else m[a][b], m[icol][b], m[a][icol])
  {
    seq(4, a requires 0 <= a < 4 => seq(4, b requires 0 <= b < 4 =>
      if a == icol then m[a][b] else Reduced(if b == icol then 0.0 else m[a][b], m[icol][b], m[a][icol])))
  }

  /** The rest of one step once the pivot sits at `(icol, icol)`: the pivot
      entry is set to 1 and the row scaled by `pivinv = 1/p`, then column
      `icol` is eliminated from the other rows. The four lemmas below give
      the result entry by entry: the in-place Gauss-Jordan update, in which
      the pivot becomes `1/p`, the rest of its row `m[icol][b]/p`, the rest
      of its column `-m[a][icol]/p` and every other entry
      `m[a][b] - (m[icol][b]/p) * m[a][icol]`. */
  function PivotStepOf(m: Matrix4, icol: int): (r: Matrix4)
    requires InRange(icol) && m[icol][icol] != 0.0
    ensures r[icol][icol] == 1.0 / m[icol][icol]
  {
    var p := m[icol][icol];
    var scaled := ScaleRowOf(Set(m, icol, icol, 1.0), icol, 1.0 / p);
    assert scaled[icol][icol] == 1.0 * (1.0 / p);
    assert EliminateColumnOf(scaled, icol)[icol][icol] == scaled[icol][icol];
    EliminateColumnOf(scaled, icol)
  }

  /** The rest of the pivot row is multiplied by `pivinv`. */
  lemma PivotStepRow(m: Matrix4, icol: int, b: int)
    requires InRange(icol) && m[icol][icol] != 0.0 && InRange(b) && b != icol
    ensures PivotStepOf(m, icol)[icol][b] == m[icol][b] * (1.0 / m[icol][icol])
  {
    var pivinv := 1.0 / m[icol][icol];
    var pivotSet := Set(m, icol, icol, 1.0);
    assert pivotSet[icol][b] == m[icol][b];
    var scaled := ScaleRowOf(pivotSet, icol, pivinv);
    assert scaled[icol][b] == m[icol][b] * pivinv;
    assert EliminateColumnOf(scaled, icol)[icol][b] == scaled[icol][b];
  }

  /** The rest of the pivot column becomes `0 - pivinv * m[a][icol]`. */
  lemma PivotStepColumn(m: Matrix4, icol: int, a: int)
    requires InRange(icol) && m[icol][icol] != 0.0 && InRange(a) && a != icol
    ensures PivotStepOf(m, icol)[a][icol] == Reduced(0.0, 1.0 / m[icol][icol], m[a][icol])
  {
    var p := m[icol][icol];
    var scaled := ScaleRowOf(Set(m, icol, icol, 1.0), icol, 1.0 / p);
    assert scaled[icol][icol] == 1.0 * (1.0 / p) == 1.0 / p;
    assert scaled[a][icol] == m[a][icol];
  }

  /** Every entry outside the pivot row and column loses `m[a][icol]` times
      the new entry of the pivot row in its column. */
  lemma PivotStepEliminates(m: Matrix4, icol: int, a: int, b: int)
    requires InRange(icol) && m[icol][icol] != 0.0 && InRange(a) && a != icol && InRange(b) && b != icol
    ensures PivotStepOf(m, icol)[a][b] == Reduced(m[a][b], PivotStepOf(m, icol)[icol][b], m[a][icol])
  {
    var scaled := ScaleRowOf(Set(m, icol, icol, 1.0), icol, 1.0 / m[icol][icol]);
    assert scaled[a][b] == m[a][b] && scaled[a][icol] == m[a][icol];
  }

  // ---------------------------------------------------------------------
  // The elimination on values

  /** The local state of `GetInverse` between two steps of the outer loop. */
  datatype Stage = Stage(minv: Matrix4, ipiv: seq<int>, indxr: seq<int>, indxc: seq<int>)

  /** `minv` copied from `m`, `ipiv` all zero; `indxr` and `indxc` are
      uninitialised in the source and only read where written, so zeros
      stand for their first contents. */
  function StartStage(m: Matrix4): (t: Stage)
    ensures t.minv == m && StageOk(t, 0)
    ensures forall k :: 0 <= k < 4 ==> t.ipiv[k] == 0
  {
    var t := Stage(m, [0, 0, 0, 0], [0, 0, 0, 0], [0, 0, 0, 0]);
    assert t.indxc[..0] == [];
    t
  }

  /** What the bookkeeping holds after `i` steps: `ipiv` flags with a 1
      exactly the columns of `indxc[..i]`, which are distinct, and every
      recorded index is in range. */
  predicate StageOk(s: Stage, i: int)
  {
    |s.ipiv| == 4 && |s.indxr| == 4 && |s.indxc| == 4 && 0 <= i <= 4 &&
    (forall k :: 0 <= k < 4 ==> (s.ipiv[k] == 0 || s.ipiv[k] == 1) && (s.ipiv[k] == 1 <==> k in s.indxc[..i])) &&
    (forall a :: 0 <= a < i ==> InRange(s.indxr[a]) && InRange(s.indxc[a])) &&
    (forall a, b :: 0 <= a < b < i ==> s.indxc[a] != s.indxc[b])
  }

  /** The pivot of step `i`. As `big` starts at 0 and some column is still
      unpivoted, the search always finds one. */
  function StepPivot(s: Stage, i: int): (p: Pick)
    requires StageOk(s, i) && i < 4
    ensures InRange(p.row) && InRange(p.col) && s.ipiv[p.row] == 0 && s.ipiv[p.col] == 0
    ensures p.big == Vectors.Abs(s.minv[p.row][p.col])
  {
    SomeColumnUnused(s.indxc[..i]);
    var k :| InRange(k) && k !in s.indxc[..i];
    assert s.ipiv[k] == 0;
    PivotSearchFinds(s.minv, s.ipiv, 4);
    PivotSearch(s.minv, s.ipiv, 4)
  }

  /** The first half of step `i`: the pivot search, `++ipiv[icol]`, the row
      swap that brings the pivot to `(icol, icol)` and the record of its
      position in `indxr[i]` and `indxc[i]`. */
  function SearchAndSwap(s: Stage, i: int): (t: Stage)
    requires StageOk(s, i) && i < 4
    ensures StageOk(t, i + 1)
    ensures var p := StepPivot(s, i);
      t.indxr[i] == p.row && t.indxc[i] == p.col && t.minv[p.col][p.col] == s.minv[p.row][p.col]
  {
    var p := StepPivot(s, i);
    SwapAndRecord(s, i, p.row, p.col)
  }

  /** The row swap and the record of the pivot `(irow, icol)` at step `i`. */
  function SwapAndRecord(s: Stage, i: int, irow: int, icol: int): (t: Stage)
    requires StageOk(s, i) && i < 4 && InRange(irow) && InRange(icol) && s.ipiv[icol] == 0
    ensures StageOk(t, i + 1)
    ensures t.indxr[i] == irow && t.indxc[i] == icol && t.minv[icol][icol] == s.minv[irow][icol]
  {
    var swapped := if irow != icol then SwapRowsOf(s.minv, irow, icol) else s.minv;
    var t := Stage(swapped, s.ipiv[icol := s.ipiv[icol] + 1], s.indxr[i := irow], s.indxc[i := icol]);
    RecordPivot(s, i, irow, icol, t);
    t
  }

  /** `++ipiv[icol]`, `indxr[i] = irow` and `indxc[i] = icol` keep the
      bookkeeping, for a pivot in an unpivoted column. */
  lemma RecordPivot(s: Stage, i: int, irow: int, icol: int, t: Stage)
    requires StageOk(s, i) && i < 4 && InRange(irow) && InRange(icol) && s.ipiv[icol] == 0
    requires t.ipiv == s.ipiv[icol := s.ipiv[icol] + 1] && t.indxr == s.indxr[i := irow] && t.indxc == s.indxc[i := icol]
    ensures StageOk(t, i + 1)
  {
    assert t.indxc[..i + 1] == s.indxc[..i] + [icol];
    assert icol !in s.indxc[..i];
    forall a, b | 0 <= a < b < i + 1
      ensures t.indxc[a] != t.indxc[b]
    {
      if b == i {
        assert t.indxc[a] == s.indxc[..i][a];
      }
    }
  }

  /** The zero-pivot report of step `i`: the entry chosen is 0, which by the
      maximality of the search means the whole unpivoted block is zero. */
  predicate PivotIsZero(s: Stage, i: int)
    requires StageOk(s, i) && i < 4
    ensures PivotIsZero(s, i) <==> StepPivot(s, i).big == 0.0
  {
    var t := SearchAndSwap(s, i);
    t.minv[t.indxc[i]][t.indxc[i]] == 0.0
  }

  /** Step `i` with a nonzero pivot. */
  function NextStage(s: Stage, i: int): (t: Stage)
    requires StageOk(s, i) && i < 4 && !PivotIsZero(s, i)
    ensures StageOk(t, i + 1)
  {
    var u := SearchAndSwap(s, i);
    u.(minv := PivotStepOf(u.minv, u.indxc[i]))
  }

  /** Every row and column index not yet pivoted meets only zeros: the
      unpivoted block is nonempty and all zero. */
  predicate ZeroBlock(s: Stage)
    requires |s.ipiv| == 4
  {
    (exists k :: 0 <= k < 4 && s.ipiv[k] == 0) &&
    forall a, b :: 0 <= a < 4 && 0 <= b < 4 && s.ipiv[a] == 0 && s.ipiv[b] == 0 ==> s.minv[a][b] == 0.0
  }

  /** What the bookkeeping holds after four steps: every column has been the
      pivot column once, so `indxc` is a permutation of 0..3. */
  predicate PivotsComplete(pivotCounts: seq<int>, pivotRows: seq<int>, pivotColumns: seq<int>)
  {
    |pivotCounts| == 4 && |pivotRows| == 4 && |pivotColumns| == 4 &&
    (forall k :: 0 <= k < 4 ==> pivotCounts[k] == 1) &&
    (forall a :: 0 <= a < 4 ==> InRange(pivotRows[a]) && InRange(pivotColumns[a])) &&
    (forall a, b :: 0 <= a < b < 4 ==> pivotColumns[a] != pivotColumns[b]) &&
    (forall k :: 0 <= k < 4 ==> k in pivotColumns)
  }

  lemma BookkeepingComplete(s: Stage)
    requires StageOk(s, 4)
    ensures PivotsComplete(s.ipiv, s.indxr, s.indxc)
  {
    assert s.indxc == s.indxc[..4];
    AllColumnsUsed(s.indxc);
    assert forall k :: 0 <= k < 4 ==> s.ipiv[k] == 1;
  }

  /** The zero-pivot test fails exactly on a zero block. */
  lemma PivotIsZeroIff(s: Stage, i: int)
    requires StageOk(s, i) && i < 4
    ensures PivotIsZero(s, i) <==> ZeroBlock(s)
  {
    var p := StepPivot(s, i);
    assert p == PivotSearch(s.minv, s.ipiv, 4);
    PivotSearchFinds(s.minv, s.ipiv, 4);
    if PivotIsZero(s, i) {
      assert p.big == 0.0;
      forall a, b | 0 <= a < 4 && 0 <= b < 4 && s.ipiv[a] == 0 && s.ipiv[b] == 0
        ensures s.minv[a][b] == 0.0
      {
        assert Vectors.Abs(s.minv[a][b]) <= 0.0;
      }
    }
  }

  /** The outer loop from step `i` on. It stops at the first zero pivot with
      `ok == false` and the stage before that step; otherwise all four steps
      run. */
  function ReduceFrom(s: Stage, i: int): (r: Reduction)
    requires StageOk(s, i)
    ensures |r.stage.ipiv| == 4 && |r.stage.indxr| == 4 && |r.stage.indxc| == 4
    ensures r.ok ==> StageOk(r.stage, 4)
    decreases 4 - i
  {
    if i == 4 then Reduction(true, s)
    else if PivotIsZero(s, i) then Reduction(false, s)
    else ReduceFrom(NextStage(s, i), i + 1)
  }

  /** When the loop runs to the end every column has been the pivot column
      once; when it stops, the unpivoted block of the stage it stopped at
      is all zero. */
  lemma {:induction false} ReduceFromOutcome(s: Stage, i: int)
    requires StageOk(s, i)
    ensures var r := ReduceFrom(s, i);
      && |r.stage.ipiv| == 4
      && (r.ok ==> PivotsComplete(r.stage.ipiv, r.stage.indxr, r.stage.indxc))
      && (!r.ok ==> ZeroBlock(r.stage))
    decreases 4 - i
  {
    if i == 4 {
      BookkeepingComplete(s);
    } else if PivotIsZero(s, i) {
      PivotIsZeroIff(s, i);
    } else {
      ReduceFromOutcome(NextStage(s, i), i + 1);
    }
  }

  datatype Reduction = Reduction(ok: bool, stage: Stage)

  /** A step with a nonzero pivot leaves the outcome of the loop unchanged. */
  lemma ReduceFromNext(s: Stage, i: int)
    requires StageOk(s, i) && i < 4 && !PivotIsZero(s, i)
    ensures ReduceFrom(NextStage(s, i), i + 1) == ReduceFrom(s, i)
  {
  }

  predicate ValidPivots(rows: seq<int>, cols: seq<int>)
  {
    |rows| == 4 && |cols| == 4 && forall a :: 0 <= a < 4 ==> InRange(rows[a]) && InRange(cols[a])
  }

  /** Every pivot from step `j` on was found on the diagonal. */
  predicate DiagonalPivotsFrom(rows: seq<int>, cols: seq<int>, j: int)
    requires 0 <= j <= 4 && ValidPivots(rows, cols)
  {
    forall a :: j <= a < 4 ==> rows[a] == cols[a]
  }

  /** The column exchanges of the last loop of `GetInverse` at indices
      3, 2, ..., `j`, applied in that order; when every pivot from `j` on
      was found on the diagonal, no column is exchanged. */
  function SwapsFrom(m: Matrix4, rows: seq<int>, cols: seq<int>, j: int): (r: Matrix4)
    requires 0 <= j <= 4 && ValidPivots(rows, cols)
    ensures DiagonalPivotsFrom(rows, cols, j) ==> r == m
    decreases 4 - j
  {
    if j == 4 then m
    else
      var prev := SwapsFrom(m, rows, cols, j + 1);
      if rows[j] != cols[j] then SwapColumnsOf(prev, rows[j], cols[j]) else prev
  }

  /** `GetInverse` on values: the four elimination steps, then the column
      exchanges; `Singular` where the source reports a zero pivot. */
  function InverseOf(m: Matrix4): (r: Inversion)
    ensures var red := ReduceFrom(StartStage(m), 0);
      && (r == Singular <==> !red.ok)
      && (r == Singular ==> ZeroBlock(red.stage))
      && (r != Singular ==> PivotsComplete(red.stage.ipiv, red.stage.indxr, red.stage.indxc))
  {
    ReduceFromOutcome(StartStage(m), 0);
    var red := ReduceFrom(StartStage(m), 0);
    if red.ok then Inverted(SwapsFrom(red.stage.minv, red.stage.indxr, red.stage.indxc, 0)) else Singular
  }

  const ZeroMatrix: Matrix4 := [[0.0, 0.0, 0.0, 0.0], [0.0, 0.0, 0.0, 0.0], [0.0, 0.0, 0.0, 0.0], [0.0, 0.0, 0.0, 0.0]]

  /** The zero matrix is reported singular at the first step. */
  lemma ZeroMatrixIsSingular()
    ensures InverseOf(ZeroMatrix) == Singular
  {
    var s := StartStage(ZeroMatrix);
    var p := StepPivot(s, 0);
    var t := SearchAndSwap(s, 0);
    assert t.minv[p.col][p.col] == ZeroMatrix[p.row][p.col] == 0.0;
    assert PivotIsZero(s, 0);
  }

  /** A stage reached from the diagonal matrix `d`: still diagonal, with the
      reciprocal of `d`'s entry at every index already pivoted and `d`'s
      own entry at every other. */
  predicate DiagonalStage(s: Stage, d: Matrix4)
    requires |s.ipiv| == 4 && NonzeroDiagonal(d)
  {
    IsDiagonal(s.minv) &&
    forall k :: 0 <= k < 4 ==> s.minv[k][k] == if s.ipiv[k] == 1 then 1.0 / d[k][k] else d[k][k]
  }

  /** On such a stage the search picks an unpivoted diagonal entry, which
      is nonzero. */
  lemma DiagonalPivot(s: Stage, i: int, d: Matrix4)
    requires StageOk(s, i) && i < 4 && NonzeroDiagonal(d) && DiagonalStage(s, d)
    ensures var p := StepPivot(s, i); p.row == p.col && s.minv[p.col][p.col] == d[p.col][p.col]
  {
    var p := StepPivot(s, i);
    assert p == PivotSearch(s.minv, s.ipiv, 4);
    PivotSearchFinds(s.minv, s.ipiv, 4);
    assert s.minv[p.col][p.col] == d[p.col][p.col] != 0.0;
    assert Vectors.Abs(s.minv[p.col][p.col]) <= p.big;
    assert s.minv[p.row][p.col] == if p.row == p.col then d[p.col][p.col] else 0.0;
  }

  /** One step on a diagonal matrix at the pivot `(c, c)` only replaces the
      pivot by its reciprocal. */
  lemma PivotStepOfDiagonal(m: Matrix4, c: int)
    requires IsDiagonal(m) && InRange(c) && m[c][c] != 0.0
    ensures PivotStepOf(m, c) == Set(m, c, c, 1.0 / m[c][c])
  {
    var r := PivotStepOf(m, c);
    var goal := Set(m, c, c, 1.0 / m[c][c]);
    forall a, b | InRange(a) && InRange(b)
      ensures r[a][b] == goal[a][b]
    {
      if a == c && b == c {
      } else if a == c {
        PivotStepRow(m, c, b);
      } else if b == c {
        PivotStepColumn(m, c, a);
      } else {
        PivotStepEliminates(m, c, a, b);
        PivotStepRow(m, c, b);
      }
    }
    Extensionality(r, goal);
  }

  /** A step on a stage reached from `d` has a nonzero pivot on the
      diagonal, inverts that one entry, and records no exchange. */
  lemma DiagonalStep(s: Stage, i: int, d: Matrix4)
    requires StageOk(s, i) && i < 4 && NonzeroDiagonal(d) && DiagonalStage(s, d)
    ensures !PivotIsZero(s, i)
    ensures var t := NextStage(s, i);
      && DiagonalStage(t, d) && t.indxr[i] == t.indxc[i]
      && t.indxr[..i] == s.indxr[..i] && t.indxc[..i] == s.indxc[..i]
  {
    DiagonalPivot(s, i, d);
    var p := StepPivot(s, i);
    var c := p.col;
    var u := SearchAndSwap(s, i);
    assert u == SwapAndRecord(s, i, c, c);
    assert u.minv == s.minv && u.ipiv == s.ipiv[c := 1];
    PivotStepOfDiagonal(s.minv, c);
    DiagonalStageInverts(s, c, d, NextStage(s, i));
  }

  /** Inverting the entry at an unpivoted index `c` and flagging `c` keeps
      the shape of a stage reached from `d`. */
  lemma DiagonalStageInverts(s: Stage, c: int, d: Matrix4, t: Stage)
    requires |s.ipiv| == 4 && NonzeroDiagonal(d) && InRange(c) && s.ipiv[c] == 0 && DiagonalStage(s, d)
    requires t.minv == Set(s.minv, c, c, 1.0 / d[c][c]) && t.ipiv == s.ipiv[c := 1]
    ensures DiagonalStage(t, d)
  {
  }

  /** Once every index has been pivoted, the stage holds the reciprocals. */
  lemma DiagonalStageFinished(t: Stage, d: Matrix4)
    requires |t.ipiv| == 4 && NonzeroDiagonal(d) && DiagonalStage(t, d)
    requires forall k :: 0 <= k < 4 ==> t.ipiv[k] == 1
    ensures t.minv == DiagonalReciprocal(d)
  {
    var r := DiagonalReciprocal(d);
    forall a, b | InRange(a) && InRange(b)
      ensures t.minv[a][b] == r[a][b]
    {
      if a == b {
        assert t.minv[a][a] == 1.0 / d[a][a];
      }
    }
    Extensionality(t.minv, r);
  }

  /** From a stage reached from `d` with no exchange recorded so far, the
      loop runs to the end, keeping that shape and recording no exchange. */
  lemma {:induction false} ReduceDiagonal(s: Stage, i: int, d: Matrix4)
    requires StageOk(s, i) && NonzeroDiagonal(d) && DiagonalStage(s, d)
    requires forall a :: 0 <= a < i ==> s.indxr[a] == s.indxc[a]
    ensures var r := ReduceFrom(s, i);
      && r.ok && |r.stage.ipiv| == 4 && DiagonalStage(r.stage, d) && |r.stage.indxr| == 4 && |r.stage.indxc| == 4
      && forall a :: 0 <= a < 4 ==> r.stage.indxr[a] == r.stage.indxc[a]
    decreases 4 - i
  {
    if i < 4 {
      DiagonalStep(s, i, d);
      var t := NextStage(s, i);
      forall a | 0 <= a < i + 1
        ensures t.indxr[a] == t.indxc[a]
      {
        if a < i {
          assert t.indxr[a] == t.indxr[..i][a] == s.indxr[..i][a];
          assert t.indxc[a] == t.indxc[..i][a] == s.indxc[..i][a];
        }
      }
      ReduceDiagonal(t, i + 1, d);
    }
  }

  /** `GetInverse` of a diagonal matrix with no zero on its diagonal is the
      diagonal of reciprocals, which `DiagonalReciprocalIsRightInverse` and
      `DiagonalReciprocalIsLeftInverse` show to be its two-sided inverse. */
  lemma DiagonalInverse(d: Matrix4)
    requires IsDiagonal(d) && NonzeroDiagonal(d)
    ensures InverseOf(d) == Inverted(DiagonalReciprocal(d))
  {
    var s := StartStage(d);
    assert DiagonalStage(s, d);
    ReduceDiagonal(s, 0, d);
    ReduceFromOutcome(s, 0);
    var red := ReduceFrom(s, 0);
    DiagonalStageFinished(red.stage, d);
  }

  /** `GetInverse` of the identity is the identity. */
  lemma IdentityInverse()
    ensures InverseOf(Identity()) == Inverted(Identity())
  {
    IdentityIsOwnReciprocal();
    DiagonalInverse(Identity());
  }

  // ---------------------------------------------------------------------
  // The in-place algorithm on arrays

  /** The 4x4 array `a` holds the entries of `m`. */
  ghost predicate Holds(a: array2<real>, m: Matrix4)
    reads a
  {
    a.Length0 == 4 && a.Length1 == 4 && forall i, j :: 0 <= i < 4 && 0 <= j < 4 ==> a[i, j] == m[i][j]
  }

  /** The inner loop of the pivot search over row `j`, from the candidate
      `(irow0, icol0, big0)`. */
  method ScanRow(minv: array2<real>, ipiv: array<int>, j: int, irow0: int, icol0: int, big0: real, ghost m: Matrix4)
    returns (irow: int, icol: int, big: real)
    requires Holds(minv, m) && ipiv.Length == 4 && PivotFlags(ipiv[..]) && InRange(j) && irow0 < j
    ensures Pick(irow, icol, big) == ScanRowOf(m, ipiv[..], Pick(irow0, icol0, big0), j, 4)
  {
    irow, icol, big := irow0, icol0, big0;
    for k := 0 to 4
      invariant Pick(irow, icol, big) == ScanRowOf(m, ipiv[..], Pick(irow0, icol0, big0), j, k)
    {
      assert ipiv[k] == ipiv[..][k];
      if ipiv[k] == 0 {
        if Vectors.Abs(minv[j, k]) >= big {
          big := Vectors.Abs(minv[j, k]);
          irow := j;
          icol := k;
        }
      } else if ipiv[k] > 1 {
        // the "Singular matrix" report: no flag ever exceeds 1
        assert false;
      }
    }
  }

  /** The pivot search: rows whose flag is 1 are skipped. */
  method ChoosePivot(minv: array2<real>, ipiv: array<int>, ghost m: Matrix4) returns (irow: int, icol: int)
    requires Holds(minv, m) && ipiv.Length == 4 && PivotFlags(ipiv[..])
    ensures irow == PivotSearch(m, ipiv[..], 4).row && icol == PivotSearch(m, ipiv[..], 4).col
  {
    irow, icol := -1, -1;
    var big := 0.0;
    for j := 0 to 4
      invariant Pick(irow, icol, big) == PivotSearch(m, ipiv[..], j)
    {
      if ipiv[j] != 1 {
        irow, icol, big := ScanRow(minv, ipiv, j, irow, icol, big, m);
      }
    }
  }

  /** `std::swap(minv[r1][k], minv[r2][k])` for every `k`. */
  method SwapRows(minv: array2<real>, r1: int, r2: int, ghost m: Matrix4)
    requires Holds(minv, m) && InRange(r1) && InRange(r2)
    modifies minv
    ensures Holds(minv, SwapRowsOf(m, r1, r2))
  {
    ghost var target := SwapRowsOf(m, r1, r2);
    for k := 0 to 4
      invariant forall a, b :: 0 <= a < 4 && 0 <= b < 4 ==> minv[a, b] == if b < k then target[a][b] else m[a][b]
    {
      var t := minv[r1, k];
      minv[r1, k] := minv[r2, k];
      minv[r2, k] := t;
    }
  }

  /** `minv[row][j] *= s` for every `j`. */
  method ScaleRow(minv: array2<real>, row: int, s: real, ghost m: Matrix4)
    requires Holds(minv, m) && InRange(row)
    modifies minv
    ensures Holds(minv, ScaleRowOf(m, row, s))
  {
    ghost var target := ScaleRowOf(m, row, s);
    for j := 0 to 4
      invariant forall a, b :: 0 <= a < 4 && 0 <= b < 4 ==> minv[a, b] == if a == row && b < j then target[a][b] else m[a][b]
    {
      minv[row, j] := minv[row, j] * s;
    }
  }

  /** `std::swap(minv[k][c1], minv[k][c2])` for every `k`. */
  method SwapColumns(minv: array2<real>, c1: int, c2: int, ghost m: Matrix4)
    requires Holds(minv, m) && InRange(c1) && InRange(c2)
    modifies minv
    ensures Holds(minv, SwapColumnsOf(m, c1, c2))
  {
    ghost var target := SwapColumnsOf(m, c1, c2);
    for k := 0 to 4
      invariant forall a, b :: 0 <= a < 4 && 0 <= b < 4 ==> minv[a, b] == if a < k then target[a][b] else m[a][b]
    {
      var t := minv[k, c1];
      minv[k, c1] := minv[k, c2];
      minv[k, c2] := t;
    }
  }

  /** One row of the elimination loop: `save = minv[j][icol]`,
      `minv[j][icol] = 0`, then `minv[j][k] -= minv[icol][k] * save`. */
  method EliminateRow(minv: array2<real>, j: int, icol: int)
    requires minv.Length0 == 4 && minv.Length1 == 4 && InRange(j) && InRange(icol) && j != icol
    modifies minv
    ensures forall a, b :: 0 <= a < 4 && 0 <= b < 4 ==>
      minv[a, b] == if a == j then Reduced(if b == icol then 0.0 else old(minv[j, b]), old(minv[icol, b]), old(minv[j, icol]))
                    else old(minv[a, b])
  {
    var save := minv[j, icol];
    minv[j, icol] := 0.0;
    for k := 0 to 4
      invariant forall a, b :: 0 <= a < 4 && 0 <= b < 4 ==>
        minv[a, b] == if a == j && b < k then Reduced(if b == icol then 0.0 else old(minv[j, b]), old(minv[icol, b]), save)
                      else if a == j && b == icol then 0.0
                      else old(minv[a, b])
    {
      minv[j, k] := minv[j, k] - minv[icol, k] * save;
    }
  }

  /** The elimination loop of one step: every row but `icol`. */
  method EliminateColumn(minv: array2<real>, icol: int, ghost m: Matrix4)
    requires Holds(minv, m) && InRange(icol)
    modifies minv
    ensures Holds(minv, EliminateColumnOf(m, icol))
  {
    ghost var target := EliminateColumnOf(m, icol);
    for j := 0 to 4
      invariant forall a, b :: 0 <= a < 4 && 0 <= b < 4 ==> minv[a, b] == if a < j then target[a][b] else m[a][b]
    {
      if j != icol {
        EliminateRow(minv, j, icol);
      }
    }
  }

  /** The second half of one step, once the pivot sits at `(icol, icol)`:
      the zero-pivot test, then `pivinv = 1 / minv[icol][icol]`,
      `minv[icol][icol] = 1`, the row scaled by `pivinv` and the column
      eliminated. On a zero pivot it reports `false` and changes nothing. */
  method PivotStep(minv: array2<real>, icol: int, ghost m: Matrix4) returns (ok: bool)
    requires Holds(minv, m) && InRange(icol)
    modifies minv
    ensures ok <==> m[icol][icol] != 0.0
    ensures ok ==> Holds(minv, PivotStepOf(m, icol))
    ensures !ok ==> Holds(minv, m)
  {
    if minv[icol, icol] == 0.0 {
      return false;
    }
    var pivinv := 1.0 / minv[icol, icol];
    minv[icol, icol] := 1.0;
    ghost var pivotSet := Set(m, icol, icol, 1.0);
    ScaleRow(minv, icol, pivinv, pivotSet);
    EliminateColumn(minv, icol, ScaleRowOf(pivotSet, icol, pivinv));
    ok := true;
  }

  /** Step `i` of the outer loop on the arrays, which hold the stage `s`.
      It reports `false` exactly when the pivot is zero; otherwise the
      arrays hold `NextStage(s, i)`. */
  method EliminationStep(minv: array2<real>, ipiv: array<int>, indxr: array<int>, indxc: array<int>, i: int, ghost s: Stage)
    returns (ok: bool)
    requires Holds(minv, s.minv) && ipiv[..] == s.ipiv && indxr[..] == s.indxr && indxc[..] == s.indxc
    requires StageOk(s, i) && i < 4
    requires ipiv != indxr && ipiv != indxc && indxr != indxc
    modifies minv, ipiv, indxr, indxc
    ensures ok <==> !PivotIsZero(s, i)
    ensures ok ==> var t := NextStage(s, i);
      Holds(minv, t.minv) && ipiv[..] == t.ipiv && indxr[..] == t.indxr && indxc[..] == t.indxc
  {
    var icol := SearchAndRecord(minv, ipiv, indxr, indxc, i, s);
    ok := PivotStep(minv, icol, SearchAndSwap(s, i).minv);
  }

  /** The first half of step `i`: the pivot search, `++ipiv[icol]`, the row
      swap and `indxr[i] = irow`, `indxc[i] = icol`. The arrays then hold
      `SearchAndSwap(s, i)`, and `icol` is the pivot's column. */
  method SearchAndRecord(minv: array2<real>, ipiv: array<int>, indxr: array<int>, indxc: array<int>, i: int, ghost s: Stage)
    returns (icol: int)
    requires Holds(minv, s.minv) && ipiv[..] == s.ipiv && indxr[..] == s.indxr && indxc[..] == s.indxc
    requires StageOk(s, i) && i < 4
    requires ipiv != indxr && ipiv != indxc && indxr != indxc
    modifies minv, ipiv, indxr, indxc
    ensures var u := SearchAndSwap(s, i);
      icol == u.indxc[i] && Holds(minv, u.minv) && ipiv[..] == u.ipiv && indxr[..] == u.indxr && indxc[..] == u.indxc
  {
    var irow;
    irow, icol := ChoosePivot(minv, ipiv, s.minv);
    ghost var p := StepPivot(s, i);
    assert p == PivotSearch(s.minv, s.ipiv, 4);
    RecordAndSwap(minv, ipiv, indxr, indxc, i, irow, icol, s);
  }

  /** `++ipiv[icol]`, the swap of rows `irow` and `icol` and the record of
      the pivot: the arrays then hold `SwapAndRecord(s, i, irow, icol)`. */
  method RecordAndSwap(minv: array2<real>, ipiv: array<int>, indxr: array<int>, indxc: array<int>, i: int,
                       irow: int, icol: int, ghost s: Stage)
    requires Holds(minv, s.minv) && ipiv[..] == s.ipiv && indxr[..] == s.indxr && indxc[..] == s.indxc
    requires StageOk(s, i) && i < 4 && InRange(irow) && InRange(icol) && s.ipiv[icol] == 0
    requires ipiv != indxr && ipiv != indxc && indxr != indxc
    modifies minv, ipiv, indxr, indxc
    ensures var u := SwapAndRecord(s, i, irow, icol);
      Holds(minv, u.minv) && ipiv[..] == u.ipiv && indxr[..] == u.indxr && indxc[..] == u.indxc
  {
    ipiv[icol] := ipiv[icol] + 1;
    if irow != icol {
      SwapRows(minv, irow, icol, s.minv);
    }
    indxr[i] := irow;
    indxc[i] := icol;
  }

  /** The outer loop of `GetInverse` on the arrays: up to four elimination
      steps, stopping at the first zero pivot. */
  method Reduce(minv: array2<real>, ghost m: Matrix4) returns (ok: bool, pivotRows: seq<int>, pivotColumns: seq<int>)
    requires Holds(minv, m)
    modifies minv
    ensures StageOk(StartStage(m), 0)
    ensures ok == ReduceFrom(StartStage(m), 0).ok
    ensures ok ==> var t := ReduceFrom(StartStage(m), 0).stage;
      Holds(minv, t.minv) && pivotRows == t.indxr && pivotColumns == t.indxc
    ensures |ReduceFrom(StartStage(m), 0).stage.ipiv| == 4
    ensures ok ==> PivotsComplete(ReduceFrom(StartStage(m), 0).stage.ipiv, pivotRows, pivotColumns)
    ensures !ok ==> ZeroBlock(ReduceFrom(StartStage(m), 0).stage)
  {
    var ipiv := new int[4](_ => 0);
    var indxr := new int[4](_ => 0);
    var indxc := new int[4](_ => 0);
    ghost var s := StartStage(m);
    assert ipiv[..] == s.ipiv && indxr[..] == s.indxr && indxc[..] == s.indxc;
    ReduceFromOutcome(s, 0);
    var i := 0;
    ok := true;
    ghost var goal := ReduceFrom(s, i);
    assert ReduceFrom(s, i) == goal;
    while i < 4
      invariant 0 <= i <= 4 && StageOk(s, i)
      invariant Holds(minv, s.minv) && ipiv[..] == s.ipiv && indxr[..] == s.indxr && indxc[..] == s.indxc
      invariant ReduceFrom(s, i) == goal
      invariant ok
      decreases 4 - i
    {
      ok := EliminationStep(minv, ipiv, indxr, indxc, i, s);
      if !ok {
        return false, indxr[..], indxc[..];
      }
      ReduceFromNext(s, i);
      s := NextStage(s, i);
      i := i + 1;
    }
    pivotRows, pivotColumns := indxr[..], indxc[..];
  }

  /** The last loop of `GetInverse`: for `j` from 3 down to 0, columns
      `indxr[j]` and `indxc[j]` are exchanged when they differ. */
  method RestoreColumnOrder(minv: array2<real>, indxr: seq<int>, indxc: seq<int>, ghost m: Matrix4)
    requires Holds(minv, m) && ValidPivots(indxr, indxc)
    modifies minv
    ensures Holds(minv, SwapsFrom(m, indxr, indxc, 0))
  {
    var j := 4;
    while j > 0
      invariant 0 <= j <= 4
      invariant Holds(minv, SwapsFrom(m, indxr, indxc, j))
    {
      j := j - 1;
      if indxr[j] != indxc[j] {
        SwapColumns(minv, indxr[j], indxc[j], SwapsFrom(m, indxr, indxc, j + 1));
      }
    }
  }

  /** `GetInverse`: the elimination on a copy of `m`, then the column
      exchanges; `Singular` where the source reports a zero pivot. */
  method Inverse(m: Matrix4) returns (r: Inversion)
    ensures r == InverseOf(m)
  {
    var minv := new real[4, 4]((i, j) => if InRange(i) && InRange(j) then m[i][j] else 0.0);
    var ok, pivotRows, pivotColumns := Reduce(minv, m);
    if !ok {
      return Singular;
    }
    ReduceFromOutcome(StartStage(m), 0);
    var inv := RestoredMatrix(minv, pivotRows, pivotColumns, ReduceFrom(StartStage(m), 0).stage.minv);
    r := Inverted(inv);
  }

  /** The column exchanges, then `Matrix4(minv)`. */
  method RestoredMatrix(minv: array2<real>, pivotRows: seq<int>, pivotColumns: seq<int>, ghost reduced: Matrix4)
    returns (inv: Matrix4)
    requires Holds(minv, reduced) && ValidPivots(pivotRows, pivotColumns)
    modifies minv
    ensures inv == SwapsFrom(reduced, pivotRows, pivotColumns, 0)
  {
    RestoreColumnOrder(minv, pivotRows, pivotColumns, reduced);
    inv := FromArray(minv);
    SameEntries(inv, minv, SwapsFrom(reduced, pivotRows, pivotColumns, 0));
  }

  /** A matrix read from an array that holds `n` is `n`. */
  lemma SameEntries(m: Matrix4, a: array2<real>, n: Matrix4)
    requires a.Length0 == 4 && a.Length1 == 4
    requires forall i, j :: InRange(i) && InRange(j) ==> m[i][j] == a[i, j]
    requires Holds(a, n)
    ensures m == n
  {
    Extensionality(m, n);
  }
}
