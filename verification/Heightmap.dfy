/**
  The remaining stock as a mesh: cells gathered into blocks, a flat top for
  each block that stands, and walls between blocks.
*/
module Heightmap {
  import opened Results

  const FLAT: real := 0.000000001
  const LEVEL: real := 0.000001

  datatype Grid = Grid(columns: nat, rows: nat, bottom: real, heights: seq<real>)

  predicate ValidGrid(g: Grid) {
    g.columns > 0 && g.rows > 0 && |g.heights| == g.columns * g.rows
  }

  lemma IndexFits(column: nat, row: nat, columns: nat, rows: nat)
    requires column < columns && row < rows
    ensures row * columns + column < columns * rows
  {
    assert (row + 1) * columns <= rows * columns;
  }

  function Height(g: Grid, column: nat, row: nat): real
    requires ValidGrid(g) && column < g.columns && row < g.rows
  {
    IndexFits(column, row, g.columns, g.rows);
    g.heights[row * g.columns + column]
  }

  // -- blocks ----------------------------------------------------------------

  function DivCeil(n: nat, block: nat): nat
    requires block > 0
  {
    (n + block - 1) / block
  }

  predicate InBlock(block: nat, column: nat, row: nat, c: nat, r: nat)
    requires block > 0
  {
    c / block == column && r / block == row
  }

  predicate Lowest(g: Grid, block: nat, column: nat, row: nat, h: real)
    requires ValidGrid(g) && block > 0
  {
    && (exists c: nat, r: nat ::
          c < g.columns && r < g.rows && InBlock(block, column, row, c, r) && Height(g, c, r) == h)
    && (forall c: nat, r: nat ::
          c < g.columns && r < g.rows && InBlock(block, column, row, c, r) ==> h <= Height(g, c, r))
  }

  /** Each block stands as high as its lowest cell. */
  predicate CoarseOf(coarse: Grid, g: Grid, block: nat)
    requires ValidGrid(g) && block > 0
  {
    && ValidGrid(coarse)
    && coarse.columns == DivCeil(g.columns, block) && coarse.rows == DivCeil(g.rows, block)
    && coarse.bottom == g.bottom
    && (forall column: nat, row: nat :: column < coarse.columns && row < coarse.rows ==>
          Lowest(g, block, column, row, Height(coarse, column, row)))
  }

  lemma QuotientRange(n: nat, block: nat, q: nat)
    requires block > 0
    ensures n / block == q <==> q * block <= n < (q + 1) * block
  {
    var d, m := n / block, n % block;
    assert n == d * block + m;
    if d < q {
      assert (d + 1) * block <= q * block;
    } else if d > q {
      assert (q + 1) * block <= d * block;
    }
  }

  lemma Scales(a: nat, b: nat, block: nat)
    requires a <= b
    ensures a * block <= b * block
  {
  }

  lemma BlockStarts(n: nat, block: nat, q: nat)
    requires block > 0 && q < DivCeil(n, block)
    ensures q * block < n
  {
    var k := DivCeil(n, block);
    QuotientRange(n + block - 1, block, k);
    Scales(q + 1, k, block);
    assert (q + 1) * block == q * block + block;
  }

  lemma CellHasBlock(n: nat, block: nat, c: nat)
    requires block > 0 && c < n
    ensures c / block < DivCeil(n, block)
  {
    var k := DivCeil(n, block);
    QuotientRange(n + block - 1, block, k);
    QuotientRange(c, block, c / block);
  }

  function Lower(a: Option<real>, b: real): real {
    if a.None? || b < a.value then b else a.value
  }

  /** Where the cells of a block lie along one side. */
  function BlockEnd(n: nat, block: nat, q: nat): nat {
    if (q + 1) * block < n then (q + 1) * block else n
  }

  lemma InRange(n: nat, block: nat, q: nat, c: nat)
    requires block > 0 && c < n
    ensures c / block == q <==> q * block <= c < BlockEnd(n, block, q)
  {
    QuotientRange(c, block, q);
  }

  lemma BlockSpan(n: nat, block: nat, q: nat)
    requires block > 0 && q < DivCeil(n, block)
    ensures q * block < BlockEnd(n, block, q) <= n
  {
    BlockStarts(n, block, q);
    assert (q + 1) * block == q * block + block;
  }

  method LowestInBlock(g: Grid, block: nat, column: nat, row: nat) returns (h: real)
    requires ValidGrid(g) && block > 0 && column < DivCeil(g.columns, block) && row < DivCeil(g.rows, block)
    ensures Lowest(g, block, column, row, h)
  {
    BlockSpan(g.columns, block, column);
    BlockSpan(g.rows, block, row);
    h := LowestInRange(g, column * block, BlockEnd(g.columns, block, column), row * block,
                       BlockEnd(g.rows, block, row));
    RangeIsBlock(g, block, column, row, h);
  }

  lemma RangeIsBlock(g: Grid, block: nat, column: nat, row: nat, h: real)
    requires ValidGrid(g) && block > 0
    requires Swept(g, column * block, BlockEnd(g.columns, block, column), row * block, BlockEnd(g.rows, block, row),
                   Some(h))
    ensures Lowest(g, block, column, row, h)
  {
    forall c: nat, r: nat | c < g.columns && r < g.rows
      ensures InBlock(block, column, row, c, r) <==>
              column * block <= c < BlockEnd(g.columns, block, column) &&
              row * block <= r < BlockEnd(g.rows, block, row)
    {
      InRange(g.columns, block, column, c);
      InRange(g.rows, block, row, r);
    }
  }

  method LowestInRange(g: Grid, c0: nat, c1: nat, r0: nat, r1: nat) returns (h: real)
    requires ValidGrid(g) && c0 < c1 <= g.columns && r0 < r1 <= g.rows
    ensures Swept(g, c0, c1, r0, r1, Some(h))
  {
    var lowest: Option<real> := None;
    for r := r0 to r1
      invariant Swept(g, c0, c1, r0, r, lowest)
    {
      ghost var before := lowest;
      for c := c0 to c1
        invariant RowSwept(g, c0, c, r, before, lowest)
      {
        lowest := Some(Lower(lowest, Height(g, c, r)));
      }
    }
    h := lowest.value;
  }

  /** The lowest over the rows swept, if any. */
  ghost predicate Swept(g: Grid, c0: nat, c1: nat, r0: nat, r1: nat, lowest: Option<real>)
    requires ValidGrid(g) && c1 <= g.columns && r1 <= g.rows
  {
    && (lowest.None? <==> r0 == r1 || c0 == c1)
    && (forall c: nat, r: nat :: c0 <= c < c1 && r0 <= r < r1 ==> lowest.Some? && lowest.value <= Height(g, c, r))
    && (lowest.Some? ==> exists c: nat, r: nat :: c0 <= c < c1 && r0 <= r < r1 && Height(g, c, r) == lowest.value)
  }

  ghost predicate RowSwept(g: Grid, c0: nat, c1: nat, r: nat, before: Option<real>, lowest: Option<real>)
    requires ValidGrid(g) && c1 <= g.columns && r < g.rows
  {
    && (lowest.None? <==> before.None? && c0 == c1)
    && (before.Some? ==> lowest.Some? && lowest.value <= before.value)
    && (forall c: nat :: c0 <= c < c1 ==> lowest.Some? && lowest.value <= Height(g, c, r))
    && (lowest.Some? ==> before == lowest || exists c: nat :: c0 <= c < c1 && Height(g, c, r) == lowest.value)
  }

  lemma DivMod(column: nat, row: nat, columns: nat)
    requires column < columns
    ensures (row * columns + column) / columns == row && (row * columns + column) % columns == column
  {
    QuotientRange(row * columns + column, columns, row);
  }

  predicate LowestAt(g: Grid, block: nat, columns: nat, k: nat, h: real)
    requires ValidGrid(g) && block > 0 && columns > 0
  {
    Lowest(g, block, k % columns, k / columns, h)
  }

  /** The first `n` blocks, row by row, have their heights. */
  predicate Filled(g: Grid, block: nat, columns: nat, heights: seq<real>, n: nat)
    requires ValidGrid(g) && block > 0 && columns > 0
  {
    n <= |heights| && forall k: nat :: k < n ==> LowestAt(g, block, columns, k, heights[k])
  }

  lemma FillsNext(g: Grid, block: nat, columns: nat, column: nat, row: nat, before: seq<real>, after: seq<real>, n: nat)
    requires ValidGrid(g) && block > 0 && column < columns && n == row * columns + column
    requires Filled(g, block, columns, before, n) && n < |before| == |after|
    requires after == before[n := after[n]] && Lowest(g, block, column, row, after[n])
    ensures Filled(g, block, columns, after, n + 1)
  {
    DivMod(column, row, columns);
  }

  method Coarsen(g: Grid, block: nat) returns (coarse: Grid)
    requires ValidGrid(g) && block > 0
    ensures CoarseOf(coarse, g, block)
  {
    var columns, rows := DivCeil(g.columns, block), DivCeil(g.rows, block);
    CellHasBlock(g.columns, block, 0);
    CellHasBlock(g.rows, block, 0);
    var heights := new real[columns * rows](_ => g.bottom);
    for row := 0 to rows
      invariant Filled(g, block, columns, heights[..], row * columns)
    {
      var first := row * columns;
      for column := 0 to columns
        invariant Filled(g, block, columns, heights[..], first + column)
      {
        var h := LowestInBlock(g, block, column, row);
        IndexFits(column, row, columns, rows);
        ghost var before := heights[..];
        heights[first + column] := h;
        FillsNext(g, block, columns, column, row, before, heights[..], first + column);
      }
      assert first + columns == (row + 1) * columns;
    }
    assert rows * columns == heights.Length;
    coarse := Grid(columns, rows, g.bottom, heights[..]);
    FilledIsCoarse(g, block, coarse);
  }

  lemma FilledAt(g: Grid, block: nat, coarse: Grid, column: nat, row: nat)
    requires ValidGrid(g) && block > 0 && ValidGrid(coarse) && column < coarse.columns && row < coarse.rows
    requires Filled(g, block, coarse.columns, coarse.heights, |coarse.heights|)
    ensures Lowest(g, block, column, row, Height(coarse, column, row))
  {
    IndexFits(column, row, coarse.columns, coarse.rows);
    DivMod(column, row, coarse.columns);
    var k := row * coarse.columns + column;
    assert LowestAt(g, block, coarse.columns, k, coarse.heights[k]);
  }

  lemma FilledIsCoarse(g: Grid, block: nat, coarse: Grid)
    requires ValidGrid(g) && block > 0 && ValidGrid(coarse) && coarse.bottom == g.bottom
    requires coarse.columns == DivCeil(g.columns, block) && coarse.rows == DivCeil(g.rows, block)
    requires Filled(g, block, coarse.columns, coarse.heights, |coarse.heights|)
    ensures CoarseOf(coarse, g, block)
  {
    forall column: nat, row: nat | column < coarse.columns && row < coarse.rows
      ensures Lowest(g, block, column, row, Height(coarse, column, row))
    {
      FilledAt(g, block, coarse, column, row);
    }
  }

  lemma LowestIsBelow(g: Grid, block: nat, column: nat, row: nat, h: real, c: nat, r: nat)
    requires ValidGrid(g) && block > 0 && Lowest(g, block, column, row, h)
    requires c < g.columns && r < g.rows && InBlock(block, column, row, c, r)
    ensures h <= Height(g, c, r)
  {
  }

  /** The mesh never stands above the stock: every cell lies in a block, and
      the block is no higher. */
  lemma CoarseStaysBelow(coarse: Grid, g: Grid, block: nat, c: nat, r: nat)
    requires ValidGrid(g) && block > 0 && CoarseOf(coarse, g, block) && c < g.columns && r < g.rows
    ensures c / block < coarse.columns && r / block < coarse.rows
    ensures Height(coarse, c / block, r / block) <= Height(g, c, r)
  {
    CellHasBlock(g.columns, block, c);
    CellHasBlock(g.rows, block, r);
    var column, row := c / block, r / block;
    LowestIsBelow(g, block, column, row, Height(coarse, column, row), c, r);
  }

  // -- faces -----------------------------------------------------------------

  /** A quadrilateral, drawn as two triangles. `WallX` stands on the line
      `x`, along the blocks of a row; `WallY` on the line `y`. */
  datatype Face =
    | Top(column: nat, row: nat, height: real)
    | WallX(x: nat, row: nat, low: real, high: real)
    | WallY(column: nat, y: nat, low: real, high: real)

  predicate Stands(g: Grid, h: real) {
    h > g.bottom + FLAT
  }

  predicate Differ(a: real, b: real) {
    a - b > LEVEL || b - a > LEVEL
  }

  function Least(a: real, b: real): real {
    if b < a then b else a
  }

  function Most(a: real, b: real): real {
    if b > a then b else a
  }

  function RightOf(g: Grid, column: nat, row: nat): real
    requires ValidGrid(g) && column < g.columns && row < g.rows
  {
    if column + 1 < g.columns then Height(g, column + 1, row) else g.bottom
  }

  function Beyond(g: Grid, column: nat, row: nat): real
    requires ValidGrid(g) && column < g.columns && row < g.rows
  {
    if row + 1 < g.rows then Height(g, column, row + 1) else g.bottom
  }

  /** The faces a block contributes. */
  function BlockFaces(g: Grid, column: nat, row: nat): seq<Face>
    requires ValidGrid(g) && column < g.columns && row < g.rows
  {
    var h := Height(g, column, row);
    if !Stands(g, h) then []
    else
      var right, beyond := RightOf(g, column, row), Beyond(g, column, row);
      [Top(column, row, h)]
        + (if Differ(right, h) then [WallX(column + 1, row, Least(right, h), Most(right, h))] else [])
        + (if Differ(beyond, h) then [WallY(column, row + 1, Least(beyond, h), Most(beyond, h))] else [])
        + (if column == 0 then [WallX(0, row, g.bottom, h)] else [])
        + (if row == 0 then [WallY(column, 0, g.bottom, h)] else [])
  }

  /** The faces of the first `n` blocks of a row. */
  function RowFaces(g: Grid, row: nat, n: nat): seq<Face>
    requires ValidGrid(g) && row < g.rows && n <= g.columns
  {
    if n == 0 then [] else RowFaces(g, row, n - 1) + BlockFaces(g, n - 1, row)
  }

  /** The faces of the first `n` rows. */
  function Faces(g: Grid, n: nat): seq<Face>
    requires ValidGrid(g) && n <= g.rows
  {
    if n == 0 then [] else Faces(g, n - 1) + RowFaces(g, n - 1, g.columns)
  }

  method HeightmapFaces(g: Grid) returns (faces: seq<Face>)
    requires ValidGrid(g)
    ensures faces == Faces(g, g.rows)
    ensures NoneTwice(faces) && forall f :: f in faces <==> Belongs(g, f)
  {
    faces := [];
    for row := 0 to g.rows
      invariant faces == Faces(g, row)
    {
      faces := PushRow(g, row, faces);
    }
    FacesAreTheMesh(g);
  }

  method PushRow(g: Grid, row: nat, before: seq<Face>) returns (faces: seq<Face>)
    requires ValidGrid(g) && row < g.rows
    ensures faces == before + RowFaces(g, row, g.columns)
  {
    faces := before;
    for column := 0 to g.columns
      invariant faces == before + RowFaces(g, row, column)
    {
      faces := PushBlock(g, column, row, faces);
    }
  }

  method PushBlock(g: Grid, column: nat, row: nat, before: seq<Face>) returns (faces: seq<Face>)
    requires ValidGrid(g) && column < g.columns && row < g.rows
    ensures faces == before + BlockFaces(g, column, row)
  {
    faces := before;
    var h := Height(g, column, row);
    if !Stands(g, h) {
      return;
    }
    faces := faces + [Top(column, row, h)];
    var right := RightOf(g, column, row);
    if Differ(right, h) {
      faces := faces + [WallX(column + 1, row, Least(right, h), Most(right, h))];
    }
    ghost var side := if Differ(right, h) then [WallX(column + 1, row, Least(right, h), Most(right, h))] else [];
    assert faces == before + ([Top(column, row, h)] + side);
    var beyond := Beyond(g, column, row);
    if Differ(beyond, h) {
      faces := faces + [WallY(column, row + 1, Least(beyond, h), Most(beyond, h))];
    }
    ghost var back := if Differ(beyond, h) then [WallY(column, row + 1, Least(beyond, h), Most(beyond, h))] else [];
    assert faces == before + ([Top(column, row, h)] + side + back);
    if column == 0 {
      faces := faces + [WallX(0, row, g.bottom, h)];
    }
    ghost var left := if column == 0 then [WallX(0, row, g.bottom, h)] else [];
    assert faces == before + ([Top(column, row, h)] + side + back + left);
    if row == 0 {
      faces := faces + [WallY(column, 0, g.bottom, h)];
    }
  }

  // -- which faces there are -------------------------------------------------

  ghost predicate NoneTwice(faces: seq<Face>) {
    forall i, j :: 0 <= i < j < |faces| ==> faces[i] != faces[j]
  }

  /** A block of the grid that stands over the bottom. */
  predicate Raised(g: Grid, column: int, row: int)
    requires ValidGrid(g)
  {
    0 <= column < g.columns && 0 <= row < g.rows && Height(g, column, row) > g.bottom + 0.000000001
  }

  /** A wall between heights further apart than the level, from the lower to
      the higher. */
  predicate Spans(low: real, high: real, a: real, b: real) {
    (a + 0.000001 < b && low == a && high == b) || (b + 0.000001 < a && low == b && high == a)
  }

  /** The mesh, face by face: the tops of the blocks that stand; the left and
      near sides of the grid along them, from the bottom up; the right and far
      sides likewise; and to the right of and beyond each of them a wall to a
      neighbour of another height. */
  predicate Belongs(g: Grid, f: Face)
    requires ValidGrid(g)
  {
    match f
    case Top(column, row, height) => Raised(g, column, row) && height == Height(g, column, row)
    case WallX(x, row, low, high) =>
      if x == 0 then Raised(g, 0, row) && low == g.bottom && high == Height(g, 0, row)
      else Raised(g, x - 1, row) &&
           if x == g.columns
           then low == g.bottom && high == Height(g, x - 1, row) && high > low + 0.000001
           else Spans(low, high, Height(g, x - 1, row), Height(g, x, row))
    case WallY(column, y, low, high) =>
      if y == 0 then Raised(g, column, 0) && low == g.bottom && high == Height(g, column, 0)
      else Raised(g, column, y - 1) &&
           if y == g.rows
           then low == g.bottom && high == Height(g, column, y - 1) && high > low + 0.000001
           else Spans(low, high, Height(g, column, y - 1), Height(g, column, y))
  }

  /** The block a face is drawn for. */
  function Owner(f: Face): (int, int) {
    match f
    case Top(column, row, _) => (column, row)
    case WallX(x, row, _, _) => (if x == 0 then 0 else x - 1, row)
    case WallY(column, y, _, _) => (column, if y == 0 then 0 else y - 1)
  }

  lemma BlockBelongs(g: Grid, column: nat, row: nat, f: Face)
    requires ValidGrid(g) && column < g.columns && row < g.rows
    ensures f in BlockFaces(g, column, row) <==> Belongs(g, f) && Owner(f) == (column, row)
  {
  }

  /** A face of a row is drawn for one of its blocks. */
  lemma RowOwner(g: Grid, row: nat, n: nat, f: Face)
    requires ValidGrid(g) && row < g.rows && n <= g.columns && f in RowFaces(g, row, n)
    ensures Belongs(g, f) && 0 <= Owner(f).0 < n && Owner(f).1 == row
  {
    InRow(g, row, n, f);
    forall column: nat | column < n && f in BlockFaces(g, column, row)
      ensures Belongs(g, f) && Owner(f) == (column, row)
    {
      BlockBelongs(g, column, row, f);
    }
  }

  lemma RowsOwner(g: Grid, n: nat, f: Face)
    requires ValidGrid(g) && n <= g.rows && f in Faces(g, n)
    ensures Belongs(g, f) && 0 <= Owner(f).1 < n
  {
    InRows(g, n, f);
    forall column: nat, row: nat | column < g.columns && row < n && f in BlockFaces(g, column, row)
      ensures Belongs(g, f) && Owner(f) == (column, row)
    {
      BlockBelongs(g, column, row, f);
    }
  }

  lemma FaceBelongs(g: Grid, f: Face)
    requires ValidGrid(g)
    ensures f in Faces(g, g.rows) <==> Belongs(g, f)
  {
    InRows(g, g.rows, f);
    if f in Faces(g, g.rows) {
      RowsOwner(g, g.rows, f);
    }
    if Belongs(g, f) {
      BlockBelongs(g, Owner(f).0, Owner(f).1, f);
    }
  }

  lemma JoinedOnce(a: seq<Face>, b: seq<Face>)
    requires NoneTwice(a) && NoneTwice(b) && forall f :: f in a ==> f !in b
    ensures NoneTwice(a + b)
  {
    var all := a + b;
    forall i, j | 0 <= i < j < |all| ensures all[i] != all[j] {
      if i < |a| <= j {
        assert all[i] in a && all[j] in b;
      }
    }
  }

  lemma BlockOnce(g: Grid, column: nat, row: nat)
    requires ValidGrid(g) && column < g.columns && row < g.rows
    ensures NoneTwice(BlockFaces(g, column, row))
  {
  }

  lemma {:induction false} RowOnce(g: Grid, row: nat, n: nat)
    requires ValidGrid(g) && row < g.rows && n <= g.columns
    ensures NoneTwice(RowFaces(g, row, n))
  {
    if n > 0 {
      RowOnce(g, row, n - 1);
      BlockOnce(g, n - 1, row);
      var before, last := RowFaces(g, row, n - 1), BlockFaces(g, n - 1, row);
      forall f | f in before ensures f !in last {
        RowOwner(g, row, n - 1, f);
        BlockBelongs(g, n - 1, row, f);
      }
      JoinedOnce(before, last);
    }
  }

  lemma NextRowApart(g: Grid, n: nat, f: Face)
    requires ValidGrid(g) && n < g.rows && f in Faces(g, n)
    ensures f !in RowFaces(g, n, g.columns)
  {
    RowsOwner(g, n, f);
    if f in RowFaces(g, n, g.columns) {
      RowOwner(g, n, g.columns, f);
    }
  }

  lemma {:induction false} RowsOnce(g: Grid, n: nat)
    requires ValidGrid(g) && n <= g.rows
    ensures NoneTwice(Faces(g, n))
  {
    if n > 0 {
      RowsOnce(g, n - 1);
      RowOnce(g, n - 1, g.columns);
      var before, last := Faces(g, n - 1), RowFaces(g, n - 1, g.columns);
      forall f | f in before ensures f !in last {
        NextRowApart(g, n - 1, f);
      }
      JoinedOnce(before, last);
    }
  }

  /** The faces pushed are exactly the faces of the mesh, each once. */
  lemma FacesAreTheMesh(g: Grid)
    requires ValidGrid(g)
    ensures NoneTwice(Faces(g, g.rows)) && forall f :: f in Faces(g, g.rows) <==> Belongs(g, f)
  {
    RowsOnce(g, g.rows);
    forall f ensures f in Faces(g, g.rows) <==> Belongs(g, f) {
      FaceBelongs(g, f);
    }
  }

  // -- which walls there are -------------------------------------------------

  lemma {:induction false} InRow(g: Grid, row: nat, n: nat, f: Face)
    requires ValidGrid(g) && row < g.rows && n <= g.columns
    ensures f in RowFaces(g, row, n) <==> exists column: nat :: column < n && f in BlockFaces(g, column, row)
  {
    if n > 0 {
      InRow(g, row, n - 1, f);
    }
  }

  lemma {:induction false} InRows(g: Grid, n: nat, f: Face)
    requires ValidGrid(g) && n <= g.rows
    ensures f in Faces(g, n) <==>
            exists column: nat, row: nat :: column < g.columns && row < n && f in BlockFaces(g, column, row)
  {
    if n > 0 {
      InRows(g, n - 1, f);
      InRow(g, n - 1, g.columns, f);
    }
  }

  /** The wall between a block and the one to its right. */
  function WallBetween(g: Grid, column: nat, row: nat): Face
    requires ValidGrid(g) && column + 1 < g.columns && row < g.rows
  {
    var left, right := Height(g, column, row), Height(g, column + 1, row);
    WallX(column + 1, row, Least(right, left), Most(right, left))
  }

  /** The wall between a block and the one beyond it. */
  function WallBehind(g: Grid, column: nat, row: nat): Face
    requires ValidGrid(g) && column < g.columns && row + 1 < g.rows
  {
    var near, far := Height(g, column, row), Height(g, column, row + 1);
    WallY(column, row + 1, Least(far, near), Most(far, near))
  }

  predicate IsDrawn(g: Grid, f: Face)
    requires ValidGrid(g)
  {
    f in Faces(g, g.rows)
  }

  /** A block and the one to its right differ. */
  predicate StepRight(g: Grid, column: nat, row: nat)
    requires ValidGrid(g)
  {
    column + 1 < g.columns && row < g.rows && Differ(Height(g, column + 1, row), Height(g, column, row))
  }

  /** A block and the one beyond it differ. */
  predicate StepBeyond(g: Grid, column: nat, row: nat)
    requires ValidGrid(g)
  {
    column < g.columns && row + 1 < g.rows && Differ(Height(g, column, row + 1), Height(g, column, row))
  }

  /** Between neighbours of different height a wall is drawn exactly when the
      left one stands: beside a left block cut through to the bottom the
      right one's side stays open. */
  lemma WallNeedsTheLeft(g: Grid, column: nat, row: nat)
    requires ValidGrid(g) && StepRight(g, column, row)
    ensures IsDrawn(g, WallBetween(g, column, row)) <==> Stands(g, Height(g, column, row))
  {
    var f := WallBetween(g, column, row);
    InRows(g, g.rows, f);
    if Stands(g, Height(g, column, row)) {
      assert f in BlockFaces(g, column, row);
    }
    forall c: nat, r: nat | c < g.columns && r < g.rows && f in BlockFaces(g, c, r)
      ensures c == column && r == row
    {
    }
  }

  /** And likewise for the one in front. */
  lemma WallNeedsTheNear(g: Grid, column: nat, row: nat)
    requires ValidGrid(g) && StepBeyond(g, column, row)
    ensures IsDrawn(g, WallBehind(g, column, row)) <==> Stands(g, Height(g, column, row))
  {
    var f := WallBehind(g, column, row);
    InRows(g, g.rows, f);
    if Stands(g, Height(g, column, row)) {
      assert f in BlockFaces(g, column, row);
    }
    forall c: nat, r: nat | c < g.columns && r < g.rows && f in BlockFaces(g, c, r)
      ensures c == column && r == row
    {
    }
  }

  /** A wall stands wherever two neighbours differ. */
  ghost predicate Walled(g: Grid)
    requires ValidGrid(g)
  {
    && (forall column: nat, row: nat :: StepRight(g, column, row) ==> IsDrawn(g, WallBetween(g, column, row)))
    && (forall column: nat, row: nat :: StepBeyond(g, column, row) ==> IsDrawn(g, WallBehind(g, column, row)))
  }

  /** No block cut through has a different one to its right or beyond it. */
  predicate NoSlotBefore(g: Grid, column: nat, row: nat)
    requires ValidGrid(g)
  {
    StepRight(g, column, row) || StepBeyond(g, column, row) ==> Stands(g, Height(g, column, row))
  }

  /** There is a wall wherever two neighbours differ exactly when no block cut
      through to the bottom has a different one to its right or beyond it. */
  lemma WalledExactly(g: Grid)
    requires ValidGrid(g)
    ensures Walled(g) <==> forall column: nat, row: nat :: NoSlotBefore(g, column, row)
  {
    forall column: nat, row: nat | StepRight(g, column, row)
      ensures IsDrawn(g, WallBetween(g, column, row)) <==> Stands(g, Height(g, column, row))
    {
      WallNeedsTheLeft(g, column, row);
    }
    forall column: nat, row: nat | StepBeyond(g, column, row)
      ensures IsDrawn(g, WallBehind(g, column, row)) <==> Stands(g, Height(g, column, row))
    {
      WallNeedsTheNear(g, column, row);
    }
    if forall column: nat, row: nat :: NoSlotBefore(g, column, row) {
      forall column: nat, row: nat | StepRight(g, column, row) ensures IsDrawn(g, WallBetween(g, column, row)) {
        assert NoSlotBefore(g, column, row);
      }
      forall column: nat, row: nat | StepBeyond(g, column, row) ensures IsDrawn(g, WallBehind(g, column, row)) {
        assert NoSlotBefore(g, column, row);
      }
    }
  }

  /** One slot cut through a plate is drawn open on its right side. */
  lemma CutThroughIsOpen() returns (g: Grid)
    ensures ValidGrid(g) && StepRight(g, 1, 0) && !IsDrawn(g, WallBetween(g, 1, 0)) && !Walled(g)
  {
    g := Grid(3, 1, 0.0, [5.0, 0.0, 5.0]);
    assert Height(g, 1, 0) == 0.0 && Height(g, 2, 0) == 5.0;
    assert StepRight(g, 1, 0);
    WallNeedsTheLeft(g, 1, 0);
  }
}
