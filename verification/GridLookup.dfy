/** Distances at beam endpoints: looking them up by integer offsets gives what the map lookup gives. */
module GridLookup {

  /** Cell size, corner of cell (0, 0), and cosine and sine of the map's heading. */
  datatype Grid = Grid(width: nat, height: nat, resolution: real, x: real, y: real, cos: real, sin: real) {
    ghost predicate Valid() {
      resolution > 0.0 && cos * cos + sin * sin == 1.0
    }
  }

  type Field = seq<seq<real>>

  ghost predicate Fits(field: Field, g: Grid) {
    |field| == g.height && forall r :: 0 <= r < g.height ==> |field[r]| == g.width
  }

  /** The distance at a cell; outside the map it is the largest one. */
  ghost function At(field: Field, g: Grid, largest: real, row: int, col: int): real
    requires Fits(field, g)
  {
    if 0 <= row < g.height && 0 <= col < g.width then field[row][col] else largest
  }

  // ---------------------------------------------------------------- flat arrays with a border

  function Index(stride: int, row: int, col: int): int {
    row * stride + col
  }

  lemma RowStep(stride: int, a: int, b: int)
    requires stride > 0 && a < b
    ensures (a + 1) * stride <= b * stride
  {
    assert (b - a - 1) * stride >= 0;
  }

  /** Indices of different cells differ, and stay inside the array. */
  lemma IndexUnique(stride: int, rows: int, r: int, c: int, q: int, d: int)
    requires 0 <= r < rows && 0 <= c < stride && 0 <= q < rows && 0 <= d < stride
    ensures Index(stride, r, c) == Index(stride, q, d) ==> r == q && c == d
    ensures 0 <= Index(stride, r, c) < rows * stride
  {
    if r < q {
      RowStep(stride, r, q);
    } else if q < r {
      RowStep(stride, q, r);
    }
    RowStep(stride, r, rows);
    assert r * stride >= 0;
  }

  /** The flat array holds the field with a border of the given width. */
  ghost predicate Bordered(flat: seq<real>, field: Field, g: Grid, largest: real, pad: nat)
    requires Fits(field, g)
  {
    && |flat| == (g.height + 2 * pad) * (g.width + 2 * pad)
    && forall r, c :: 0 <= r < g.height + 2 * pad && 0 <= c < g.width + 2 * pad ==> Holds(flat, field, g, largest, pad, r, c)
  }

  ghost predicate Holds(flat: seq<real>, field: Field, g: Grid, largest: real, pad: nat, r: int, c: int)
    requires Fits(field, g)
  {
    0 <= Index(g.width + 2 * pad, r, c) < |flat| &&
    flat[Index(g.width + 2 * pad, r, c)] == At(field, g, largest, r - pad, c - pad)
  }

  /** The cells of the field that come before (row, col), row by row, are copied; all else is the largest distance. */
  ghost predicate Copied(flat: seq<real>, field: Field, g: Grid, largest: real, pad: nat, row: int, col: int)
    requires Fits(field, g)
  {
    && |flat| == (g.height + 2 * pad) * (g.width + 2 * pad)
    && forall r, c :: 0 <= r < g.height + 2 * pad && 0 <= c < g.width + 2 * pad ==>
         CopiedAt(flat, field, g, largest, pad, row, col, r, c)
  }

  ghost predicate CopiedAt(flat: seq<real>, field: Field, g: Grid, largest: real, pad: nat, row: int, col: int, r: int,
                           c: int)
    requires Fits(field, g)
  {
    var k := Index(g.width + 2 * pad, r, c);
    0 <= k < |flat| &&
    flat[k] == if r - pad < row || (r - pad == row && c - pad < col) then At(field, g, largest, r - pad, c - pad) else largest
  }

  lemma CopyOne(flat: seq<real>, field: Field, g: Grid, largest: real, pad: nat, row: nat, col: nat)
    requires Fits(field, g) && Copied(flat, field, g, largest, pad, row, col) && row < g.height && col < g.width
    ensures 0 <= Index(g.width + 2 * pad, row + pad, col + pad) < |flat|
    ensures Copied(flat[Index(g.width + 2 * pad, row + pad, col + pad) := field[row][col]], field, g, largest, pad, row, col + 1)
  {
    var stride, rows := g.width + 2 * pad, g.height + 2 * pad;
    IndexUnique(stride, rows, row + pad, col + pad, row + pad, col + pad);
    var k := Index(stride, row + pad, col + pad);
    var f := flat[k := field[row][col]];
    hide Index;
    var next := col + 1;
    forall r, c | 0 <= r < rows && 0 <= c < stride ensures CopiedAt(f, field, g, largest, pad, row, next, r, c) {
      IndexUnique(stride, rows, row + pad, col + pad, r, c);
      assert CopiedAt(flat, field, g, largest, pad, row, col, r, c);
    }
  }

  /** The end of a row of the field is the start of the next. */
  lemma NextRow(flat: seq<real>, field: Field, g: Grid, largest: real, pad: nat, row: nat)
    requires Fits(field, g) && Copied(flat, field, g, largest, pad, row, g.width)
    ensures Copied(flat, field, g, largest, pad, row + 1, 0)
  {
    hide Index;
    var next := row + 1;
    forall r, c | 0 <= r < g.height + 2 * pad && 0 <= c < g.width + 2 * pad
      ensures CopiedAt(flat, field, g, largest, pad, next, 0, r, c)
    {
      assert CopiedAt(flat, field, g, largest, pad, row, g.width, r, c);
    }
  }

  lemma AllCopied(flat: seq<real>, field: Field, g: Grid, largest: real, pad: nat)
    requires Fits(field, g) && Copied(flat, field, g, largest, pad, g.height, 0)
    ensures Bordered(flat, field, g, largest, pad)
  {
    hide Index;
    forall r, c | 0 <= r < g.height + 2 * pad && 0 <= c < g.width + 2 * pad ensures Holds(flat, field, g, largest, pad, r, c) {
      assert CopiedAt(flat, field, g, largest, pad, g.height, 0, r, c);
    }
  }

  lemma NothingCopied(flat: seq<real>, field: Field, g: Grid, largest: real, pad: nat)
    requires Fits(field, g) && |flat| == (g.height + 2 * pad) * (g.width + 2 * pad)
    requires forall k :: 0 <= k < |flat| ==> flat[k] == largest
    ensures Copied(flat, field, g, largest, pad, 0, 0)
  {
    forall r, c | 0 <= r < g.height + 2 * pad && 0 <= c < g.width + 2 * pad
      ensures CopiedAt(flat, field, g, largest, pad, 0, 0, r, c)
    {
      IndexUnique(g.width + 2 * pad, g.height + 2 * pad, r, c, r, c);
    }
  }

  lemma AreaNotNegative(a: nat, b: nat)
    ensures a * b >= 0
  {
  }

  /** Fills an array with the largest distance and copies the field into its middle. */
  method Border(field: Field, g: Grid, largest: real, pad: nat) returns (flat: array<real>)
    requires Fits(field, g)
    ensures fresh(flat) && Bordered(flat[..], field, g, largest, pad)
  {
    hide Index, Bordered, Copied;
    var rows, stride := g.height + 2 * pad, g.width + 2 * pad;
    AreaNotNegative(rows, stride);
    flat := new real[rows * stride](_ => largest);
    NothingCopied(flat[..], field, g, largest, pad);
    for row := 0 to g.height
      invariant Copied(flat[..], field, g, largest, pad, row, 0)
    {
      for col := 0 to g.width
        invariant Copied(flat[..], field, g, largest, pad, row, col)
      {
        CopyOne(flat[..], field, g, largest, pad, row, col);
        ghost var before := flat[..];
        flat[Index(stride, row + pad, col + pad)] := field[row][col];
        assert flat[..] == before[Index(stride, row + pad, col + pad) := field[row][col]];
      }
      NextRow(flat[..], field, g, largest, pad, row);
    }
    AllCopied(flat[..], field, g, largest, pad);
  }

  // ---------------------------------------------------------------- the map lookup

  function Clip(v: int, low: int, high: int): int {
    if v < low then low else if v > high then high else v
  }

  /** Grid coordinates of a point of the map frame, in cells. */
  function GridX(g: Grid, x: real, y: real): real
    requires g.resolution > 0.0
  {
    (g.cos * (x - g.x) + g.sin * (y - g.y)) / g.resolution
  }

  function GridY(g: Grid, x: real, y: real): real
    requires g.resolution > 0.0
  {
    (g.cos * (y - g.y) - g.sin * (x - g.x)) / g.resolution
  }

  /** Where the lookup reads: the cell of the point, points off the map go to the border. */
  function SlowIndex(g: Grid, x: real, y: real): int
    requires g.resolution > 0.0
  {
    Index(g.width + 2, Clip(GridY(g, x, y).Floor, -1, g.height) + 1, Clip(GridX(g, x, y).Floor, -1, g.width) + 1)
  }

  lemma SlowReads(flat: seq<real>, field: Field, g: Grid, largest: real, x: real, y: real)
    requires g.resolution > 0.0 && Fits(field, g) && Bordered(flat, field, g, largest, 1)
    ensures 0 <= SlowIndex(g, x, y) < |flat|
    ensures flat[SlowIndex(g, x, y)] == At(field, g, largest, GridY(g, x, y).Floor, GridX(g, x, y).Floor)
  {
    hide Index, GridX, GridY;
    var row, col := Clip(GridY(g, x, y).Floor, -1, g.height), Clip(GridX(g, x, y).Floor, -1, g.width);
    assert Holds(flat, field, g, largest, 1, row + 1, col + 1);
  }

  // ---------------------------------------------------------------- offsets

  function Ceil(v: real): int {
    -((-v).Floor)
  }

  function Pad(longest: real, resolution: real): (pad: int)
    requires resolution > 0.0
    ensures longest >= 0.0 ==> pad >= 2
  {
    Ceil(longest / resolution) + 2
  }

  /** A heading, by its cosine and sine. */
  datatype Heading = Heading(cos: real, sin: real) {
    ghost predicate Valid() {
      cos * cos + sin * sin == 1.0
    }
  }

  /** The heading relative to the map's. */
  function Turn(g: Grid, h: Heading): Heading {
    Heading(h.cos * g.cos + h.sin * g.sin, h.sin * g.cos - h.cos * g.sin)
  }

  /** A beam's endpoint in the robot frame. */
  datatype Beam = Beam(x: real, y: real)

  function TurnedX(h: Heading, b: Beam): real {
    h.cos * b.x - h.sin * b.y
  }

  function TurnedY(h: Heading, b: Beam): real {
    h.sin * b.x + h.cos * b.y
  }

  /** Whole cells from the robot's cell to the endpoint's. */
  function Offset(o: real, resolution: real): int
    requires resolution > 0.0
  {
    (0.5 + o / resolution).Floor
  }

  function FastIndex(g: Grid, pad: int, row: int, col: int, h: Heading, b: Beam): int
    requires g.resolution > 0.0
  {
    var stride := g.width + 2 * pad;
    var t := Turn(g, h);
    Index(stride, row + pad, col + pad) +
    (Offset(TurnedY(t, b), g.resolution) * stride + Offset(TurnedX(t, b), g.resolution))
  }

  /** The endpoint of the beam in the map frame, for a robot at the centre of the cell. */
  function EndX(g: Grid, row: int, col: int, h: Heading, b: Beam): real {
    g.x + (g.cos * CellX(g, col) - g.sin * CellX(g, row)) + (h.cos * b.x - h.sin * b.y)
  }

  function EndY(g: Grid, row: int, col: int, h: Heading, b: Beam): real {
    g.y + (g.sin * CellX(g, col) + g.cos * CellX(g, row)) + (h.sin * b.x + h.cos * b.y)
  }

  /** Distance from the map's edge to the middle of column or row k. */
  function CellX(g: Grid, k: int): real {
    (k as real + 0.5) * g.resolution
  }

  lemma FloorShift(v: real, k: int)
    ensures (k as real + v).Floor == k + v.Floor
  {
  }

  /** From the map's corner to the endpoint. */
  function AwayX(g: Grid, row: int, col: int, h: Heading, b: Beam): real {
    (g.cos * CellX(g, col) - g.sin * CellX(g, row)) + TurnedX(h, b)
  }

  function AwayY(g: Grid, row: int, col: int, h: Heading, b: Beam): real {
    (g.sin * CellX(g, col) + g.cos * CellX(g, row)) + TurnedY(h, b)
  }

  lemma EndAway(g: Grid, row: int, col: int, h: Heading, b: Beam)
    ensures EndX(g, row, col, h, b) - g.x == AwayX(g, row, col, h, b)
    ensures EndY(g, row, col, h, b) - g.y == AwayY(g, row, col, h, b)
  {
    hide CellX;
  }

  /** Turning a sum of a turned point and a beam back. */
  lemma TurnSum(c: real, s: real, lx: real, ly: real, p: real, q: real, dx: real, dy: real)
    requires c * c + s * s == 1.0 && dx == (c * lx - s * ly) + p && dy == (s * lx + c * ly) + q
    ensures c * dx + s * dy == lx + (c * p + s * q) && c * dy - s * dx == ly + (c * q - s * p)
  {
    assert c * dx + s * dy == (c * c + s * s) * lx + (c * p + s * q);
    assert c * dy - s * dx == (c * c + s * s) * ly + (c * q - s * p);
  }

  lemma TurnAway(g: Grid, row: int, col: int, h: Heading, b: Beam)
    requires g.cos * g.cos + g.sin * g.sin == 1.0
    ensures Along(g, row, col, h, b) == CellX(g, col) + (g.cos * TurnedX(h, b) + g.sin * TurnedY(h, b))
    ensures Across(g, row, col, h, b) == CellX(g, row) + (g.cos * TurnedY(h, b) - g.sin * TurnedX(h, b))
  {
    hide TurnedX, TurnedY, CellX;
    TurnSum(g.cos, g.sin, CellX(g, col), CellX(g, row), TurnedX(h, b), TurnedY(h, b), AwayX(g, row, col, h, b),
            AwayY(g, row, col, h, b));
  }

  lemma TurnBeam(g: Grid, h: Heading, b: Beam)
    ensures g.cos * TurnedX(h, b) + g.sin * TurnedY(h, b) == TurnedX(Turn(g, h), b)
    ensures g.cos * TurnedY(h, b) - g.sin * TurnedX(h, b) == TurnedY(Turn(g, h), b)
  {
    BeamSum(g.cos, g.sin, h.cos, h.sin, b.x, b.y);
  }

  lemma BeamSum(c: real, s: real, a: real, b: real, x: real, y: real)
    ensures c * (a * x - b * y) + s * (b * x + a * y) == (a * c + b * s) * x - (b * c - a * s) * y
    ensures c * (b * x + a * y) - s * (a * x - b * y) == (b * c - a * s) * x + (a * c + b * s) * y
  {
    TwoProducts(c, a, b, x, y);
    TwoProducts(s, a, b, x, y);
    assert (a * c + b * s) * x == a * c * x + b * s * x && (b * c - a * s) * y == b * c * y - a * s * y;
    assert (b * c - a * s) * x == b * c * x - a * s * x && (a * c + b * s) * y == a * c * y + b * s * y;
  }

  lemma TwoProducts(c: real, a: real, b: real, x: real, y: real)
    ensures c * (a * x - b * y) == a * c * x - b * c * y
    ensures c * (b * x + a * y) == b * c * x + a * c * y
  {
  }

  /** Turning into the map's axes takes the endpoint apart into the cell's middle and the turned beam. */
  lemma TurnBack(g: Grid, row: int, col: int, h: Heading, b: Beam)
    requires g.cos * g.cos + g.sin * g.sin == 1.0
    ensures Along(g, row, col, h, b) == CellX(g, col) + TurnedX(Turn(g, h), b)
    ensures Across(g, row, col, h, b) == CellX(g, row) + TurnedY(Turn(g, h), b)
  {
    hide TurnedX, TurnedY, CellX, Turn, Along, Across, AwayX, AwayY;
    TurnAway(g, row, col, h, b);
    TurnBeam(g, h, b);
  }

  /** The endpoint's grid coordinates are the cell's, moved by half a cell and the turned beam. */
  lemma EndInGrid(g: Grid, row: int, col: int, h: Heading, b: Beam)
    requires g.Valid()
    ensures var t := Turn(g, h);
            && GridX(g, EndX(g, row, col, h, b), EndY(g, row, col, h, b)) ==
                 col as real + (0.5 + TurnedX(t, b) / g.resolution)
            && GridY(g, EndX(g, row, col, h, b), EndY(g, row, col, h, b)) ==
                 row as real + (0.5 + TurnedY(t, b) / g.resolution)
  {
    hide TurnedX, TurnedY, Turn, CellX, EndX, EndY, AwayX, AwayY, GridX, GridY, Along, Across;
    var x, y := EndX(g, row, col, h, b), EndY(g, row, col, h, b);
    var n, m := Along(g, row, col, h, b), Across(g, row, col, h, b);
    TurnBack(g, row, col, h, b);
    SamePoint(g, row, col, h, b);
    Coordinate(g, GridX(g, x, y), n, col, TurnedX(Turn(g, h), b));
    Coordinate(g, GridY(g, x, y), m, row, TurnedY(Turn(g, h), b));
  }

  /** The endpoint's distances from the corner along the map's axes. */
  function Along(g: Grid, row: int, col: int, h: Heading, b: Beam): real {
    g.cos * AwayX(g, row, col, h, b) + g.sin * AwayY(g, row, col, h, b)
  }

  function Across(g: Grid, row: int, col: int, h: Heading, b: Beam): real {
    g.cos * AwayY(g, row, col, h, b) - g.sin * AwayX(g, row, col, h, b)
  }

  lemma Coordinate(g: Grid, x: real, n: real, k: int, o: real)
    requires g.resolution > 0.0 && x == n / g.resolution && n == CellX(g, k) + o
    ensures x == k as real + (0.5 + o / g.resolution)
  {
    Middle(g, k, o);
  }

  lemma SamePoint(g: Grid, row: int, col: int, h: Heading, b: Beam)
    requires g.resolution > 0.0
    ensures GridX(g, EndX(g, row, col, h, b), EndY(g, row, col, h, b)) == Along(g, row, col, h, b) / g.resolution
    ensures GridY(g, EndX(g, row, col, h, b), EndY(g, row, col, h, b)) == Across(g, row, col, h, b) / g.resolution
  {
    hide AwayX, AwayY, EndX, EndY;
    EndAway(g, row, col, h, b);
  }

  lemma Middle(g: Grid, k: int, o: real)
    requires g.resolution > 0.0
    ensures (CellX(g, k) + o) / g.resolution == k as real + (0.5 + o / g.resolution)
  {
    Divide(k as real + 0.5, CellX(g, k), o, g.resolution);
  }

  lemma Divide(m: real, l: real, o: real, resolution: real)
    requires resolution > 0.0 && l == m * resolution
    ensures (l + o) / resolution == m + o / resolution
  {
    var q := o / resolution;
    Uncancel(o, resolution);
    Distribute(m, q, resolution);
    Cancel(m + q, resolution);
  }

  lemma Distribute(a: real, b: real, c: real)
    ensures (a + b) * c == a * c + b * c
  {
  }

  lemma Uncancel(o: real, resolution: real)
    requires resolution > 0.0
    ensures o / resolution * resolution == o
  {
  }

  lemma Cancel(z: real, resolution: real)
    requires resolution > 0.0
    ensures z * resolution / resolution == z
  {
  }

  lemma TurnKeepsUnit(g: Grid, h: Heading)
    requires g.cos * g.cos + g.sin * g.sin == 1.0 && h.Valid()
    ensures Turn(g, h).Valid()
  {
    var t := Turn(g, h);
    assert t.cos * t.cos + t.sin * t.sin == (h.cos * h.cos + h.sin * h.sin) * (g.cos * g.cos + g.sin * g.sin);
  }

  lemma SquareBound(v: real, l: real)
    requires v * v <= l * l && l >= 0.0
    ensures -l <= v <= l
  {
    if v > l {
      SquareGrows(v, l);
      assert false;
    } else if -v > l {
      SquareGrows(-v, l);
      assert false;
    }
  }

  lemma SquareGrows(v: real, l: real)
    requires v > l >= 0.0
    ensures v * v > l * l
  {
    Positive(v - l, v + l);
    assert (v - l) * (v + l) == v * v - l * l;
  }

  lemma Positive(a: real, b: real)
    requires a > 0.0 && b > 0.0
    ensures a * b > 0.0
  {
  }

  /** Turning does not lengthen a beam. */
  lemma TurnedBound(h: Heading, b: Beam, longest: real)
    requires h.Valid() && longest >= 0.0 && b.x * b.x + b.y * b.y <= longest * longest
    ensures -longest <= TurnedX(h, b) <= longest && -longest <= TurnedY(h, b) <= longest
  {
    var p, q := TurnedX(h, b), TurnedY(h, b);
    assert p * p + q * q == (h.cos * h.cos + h.sin * h.sin) * (b.x * b.x + b.y * b.y);
    SquareBound(p, longest);
    SquareBound(q, longest);
  }

  lemma OffsetBound(o: real, longest: real, resolution: real)
    requires resolution > 0.0 && -longest <= o <= longest
    ensures -(Pad(longest, resolution) - 2) <= Offset(o, resolution) <= Pad(longest, resolution) - 2
  {
    DivideBound(o, longest, resolution);
  }

  lemma DivideBound(o: real, longest: real, resolution: real)
    requires resolution > 0.0 && -longest <= o <= longest
    ensures -(longest / resolution) <= o / resolution <= longest / resolution
  {
  }

  lemma IndexShift(stride: int, r: int, c: int, dr: int, dc: int)
    ensures Index(stride, r, c) + (dr * stride + dc) == Index(stride, r + dr, c + dc)
  {
  }

  /**
   For a robot in the middle of any cell of the map and any beam no longer than the border was made
   for, the fast index stays inside the array and inside its row, and reads the same distance as
   the map lookup at the endpoint, on the map or off it.
   */
  lemma FastIsSlow(g: Grid, field: Field, largest: real, longest: real, row: int, col: int, h: Heading, b: Beam,
                   slow: seq<real>, fast: seq<real>)
    requires g.Valid() && h.Valid() && Fits(field, g) && 0 <= row < g.height && 0 <= col < g.width
    requires longest >= 0.0 && b.x * b.x + b.y * b.y <= longest * longest
    requires Bordered(slow, field, g, largest, 1) && Bordered(fast, field, g, largest, Pad(longest, g.resolution))
    ensures var pad := Pad(longest, g.resolution);
            var dc := Offset(TurnedX(Turn(g, h), b), g.resolution);
            var k := FastIndex(g, pad, row, col, h, b);
            var x, y := EndX(g, row, col, h, b), EndY(g, row, col, h, b);
            && 0 <= col + pad + dc < g.width + 2 * pad
            && 0 <= k < |fast| && 0 <= SlowIndex(g, x, y) < |slow|
            && fast[k] == slow[SlowIndex(g, x, y)]
  {
    hide Index, TurnedX, TurnedY, Turn, GridX, GridY, EndX, EndY, Offset, Pad, At;
    var pad, t := Pad(longest, g.resolution), Turn(g, h);
    var dr, dc := Offset(TurnedY(t, b), g.resolution), Offset(TurnedX(t, b), g.resolution);
    TurnKeepsUnit(g, h);
    TurnedBound(t, b, longest);
    OffsetBound(TurnedX(t, b), longest, g.resolution);
    OffsetBound(TurnedY(t, b), longest, g.resolution);
    IndexShift(g.width + 2 * pad, row + pad, col + pad, dr, dc);
    assert Holds(fast, field, g, largest, pad, row + pad + dr, col + pad + dc);
    EndCell(g, row, col, h, b);
    SlowReads(slow, field, g, largest, EndX(g, row, col, h, b), EndY(g, row, col, h, b));
  }

  /** The endpoint's cell is the robot's cell moved by the offsets. */
  lemma EndCell(g: Grid, row: int, col: int, h: Heading, b: Beam)
    requires g.Valid()
    ensures GridX(g, EndX(g, row, col, h, b), EndY(g, row, col, h, b)).Floor ==
              col + Offset(TurnedX(Turn(g, h), b), g.resolution)
    ensures GridY(g, EndX(g, row, col, h, b), EndY(g, row, col, h, b)).Floor ==
              row + Offset(TurnedY(Turn(g, h), b), g.resolution)
  {
    hide GridX, GridY, EndX, EndY, TurnedX, TurnedY, Turn;
    EndInGrid(g, row, col, h, b);
    FloorShift(0.5 + TurnedX(Turn(g, h), b) / g.resolution, col);
    FloorShift(0.5 + TurnedY(Turn(g, h), b) / g.resolution, row);
  }
}
