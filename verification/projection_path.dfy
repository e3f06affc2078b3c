/**
 * Model of src/target/projection-path-calculator.c: the integer-only line
 * rasteriser that decides which grids a bolt, beam or ball passes through.
 *
 * The C routine keeps its working variables in a projection_path_type record
 * and runs one of three `while (TRUE)` loops (steep, shallow, diagonal).  The
 * model gives
 *   - a closed-form reference for the cells a loop visits (PathCell) and for the
 *     number of minor-axis moves made so far (MinorMoves),
 *   - the stop rule evaluated after every cell, in the source's order (StopAt),
 *   - the whole traced path as a function of the request (Trace), and
 *   - the imperative routine itself (ProjectionPath and its three loops), proved
 *     to write exactly Trace into the caller's buffer.
 */
module ProjectionPathCalculator {

  /** A grid position (POSITION y, POSITION x). */
  datatype Cell = Cell(y: int, x: int)

  /** The PROJECT_* bits of `flg` that projection_path looks at. */
  datatype ProjectFlags = ProjectFlags(
    thru: bool,   // PROJECT_THRU: reaching the target is not a stop
    disi: bool,   // PROJECT_DISI: stop at a disintegration barrier
    los: bool,    // PROJECT_LOS: stop where line of sight is broken
    path: bool,   // PROJECT_PATH: skip the FF_PROJECT terrain test
    stop: bool)   // PROJECT_STOP: stop at the player or a monster

  /**
   * The floor queries made by the loops.  Each one is a read-only question
   * about a single grid; the floor itself is not part of this model.
   */
  datatype Terrain = Terrain(
    stopsDisintegration: (int, int) -> bool,  // cave_stop_disintegration
    losClear: (int, int) -> bool,             // cave_los_bold
    projectable: (int, int) -> bool,          // cave_have_flag_bold(.., FF_PROJECT)
    occupied: (int, int) -> bool,             // player_bold(..) || m_idx != 0
    inBounds: (int, int) -> bool)             // in_bounds

  /** The arguments of projection_path other than the buffer and the floor. */
  datatype Request = Request(range: int, y1: int, x1: int, y2: int, x2: int, flags: ProjectFlags)

  /** The fields ay, ax, sy, sx that set_asxy fills in. */
  datatype Deltas = Deltas(ay: nat, ax: nat, sy: int, sx: int)

  /** location_to_grid: the encoded grid `256 * y + x`, truncated to a u16b. */
  function LocationToGrid(y: int, x: int): (g: int)
    ensures 0 <= g < 0x1_0000
    ensures 0 <= y < 256 && 0 <= x < 256 ==> g / 256 == y && g % 256 == x
  {
    (256 * y + x) % 0x1_0000
  }

  function Encode(c: Cell): int
  {
    LocationToGrid(c.y, c.x)
  }

  /** set_asxy: absolute deltas and the unit step towards the target on each axis. */
  function SetAsxy(y1: int, x1: int, y2: int, x2: int): (d: Deltas)
    ensures d.sy == 1 || d.sy == -1
    ensures d.sx == 1 || d.sx == -1
    ensures y1 + d.sy * d.ay == y2 && x1 + d.sx * d.ax == x2
    ensures d.sy == -1 <==> y2 < y1
    ensures d.sx == -1 <==> x2 < x1
  {
    var ay, sy := if y2 < y1 then y1 - y2 else y2 - y1, if y2 < y1 then -1 else 1;
    var ax, sx := if x2 < x1 then x1 - x2 else x2 - x1, if x2 < x1 then -1 else 1;
    Deltas(ay, ax, sy, sx)
  }

  function DeltasOf(r: Request): Deltas
  {
    SetAsxy(r.y1, r.x1, r.y2, r.x2)
  }

  /** The number of cells from origin to target along the major axis. */
  function Distance(r: Request): nat
  {
    var d := DeltasOf(r);
    if d.ay > d.ax then d.ay else d.ax
  }

  /**
   * The error accumulator of the steep and shallow loops after i major steps,
   * for a line whose major delta is b and minor delta a: the number k of
   * minor-axis moves so far and the scaled error e = 2*i*a - 2*k*b (the C
   * field `frac` holds a*e, and `half`, `full` are a*b and 2*a*b).  Each step
   * adds 2*a to the error and moves the minor axis when the error then exceeds b.
   */
  function Walk(i: nat, a: nat, b: nat): (nat, int)
  {
    if i == 0 then (0, 0)
    else
      var w := Walk(i - 1, a, b);
      if w.1 + 2 * a > b then (w.0 + 1, w.1 + 2 * a - 2 * b) else (w.0, w.1 + 2 * a)
  }

  /** Offset along the minor axis after i major steps (see MinorOffsetNearest). */
  function MinorOffset(i: nat, a: nat, b: nat): nat
  {
    Walk(i, a, b).0
  }

  /** The i-th cell a loop reaches (cell 0 is the origin). */
  function PathCell(r: Request, i: nat): Cell
  {
    var d := DeltasOf(r);
    if d.ay > d.ax then Cell(r.y1 + d.sy * i, r.x1 + d.sx * MinorOffset(i, d.ax, d.ay))
    else if d.ax > d.ay then Cell(r.y1 + d.sy * MinorOffset(i, d.ay, d.ax), r.x1 + d.sx * i)
    else Cell(r.y1 + d.sy * i, r.x1 + d.sx * i)
  }

  /**
   * The diagonal-step count the range test charges after the i-th cell: `k` in
   * the steep and shallow loops, `n` itself in the diagonal loop.
   */
  function MinorMoves(r: Request, i: nat): nat
  {
    var d := DeltasOf(r);
    if d.ay > d.ax then MinorOffset(i, d.ax, d.ay)
    else if d.ax > d.ay then MinorOffset(i, d.ay, d.ax)
    else i
  }

  /** The single terrain test that runs: PROJECT_DISI, else PROJECT_LOS, else FF_PROJECT unless PROJECT_PATH. */
  predicate TerrainStop(f: ProjectFlags, t: Terrain, c: Cell)
  {
    if f.disi then t.stopsDisintegration(c.y, c.x)
    else if f.los then !t.losClear(c.y, c.x)
    else if !f.path then !t.projectable(c.y, c.x)
    else false
  }

  /** The range test: diagonal steps cost half as much as straight ones. */
  predicate RangeStop(r: Request, i: nat)
  {
    i + MinorMoves(r, i) / 2 >= r.range
  }

  /** The stop rules other than reaching the target. */
  predicate OtherStop(r: Request, t: Terrain, i: nat)
  {
    var c := PathCell(r, i);
    || RangeStop(r, i)
    || TerrainStop(r.flags, t, c)
    || (r.flags.stop && t.occupied(c.y, c.x))
    || !t.inBounds(c.y, c.x)
  }

  /** Whether the loop breaks right after writing the i-th cell. */
  predicate StopAt(r: Request, t: Terrain, i: nat)
  {
    var c := PathCell(r, i);
    || RangeStop(r, i)
    || (!r.flags.thru && c == Cell(r.y2, r.x2))
    || TerrainStop(r.flags, t, c)
    || (r.flags.stop && t.occupied(c.y, c.x))
    || !t.inBounds(c.y, c.x)
  }

  /** The most cells a trace can hold: `range`, but at least one. */
  function MaxLen(range: int): nat
  {
    if range < 1 then 1 else range
  }

  /** The first index, from i on, at which the loop breaks. */
  function StopIndex(r: Request, t: Terrain, i: nat): (n: nat)
    requires 1 <= i <= MaxLen(r.range)
    ensures i <= n <= MaxLen(r.range)
    ensures StopAt(r, t, n)
    ensures forall j :: i <= j < n ==> !StopAt(r, t, j)
    decreases MaxLen(r.range) - i
  {
    if StopAt(r, t, i) then i else StopIndex(r, t, i + 1)
  }

  /** The cells projection_path writes, in order. */
  function Trace(r: Request, t: Terrain): (p: seq<Cell>)
    ensures |p| <= MaxLen(r.range)
    ensures p == [] <==> r.y1 == r.y2 && r.x1 == r.x2
  {
    if r.y1 == r.y2 && r.x1 == r.x2 then []
    else
      var n := StopIndex(r, t, 1);
      seq(n, i requires 0 <= i < n => PathCell(r, i + 1))
  }

  /** Chebyshev adjacency: distinct cells at most one step apart on each axis. */
  predicate Adjacent(a: Cell, b: Cell)
  {
    a != b && -1 <= a.y - b.y <= 1 && -1 <= a.x - b.x <= 1
  }

  // ---------------------------------------------------------------------
  // Arithmetic of the error accumulator
  // ---------------------------------------------------------------------

  lemma MulMonoLe(p: int, q: int, d: int)
    requires p <= q && d > 0
    ensures p * d <= q * d
  {
    assert q * d - p * d == (q - p) * d;
  }

  lemma MulSucc(p: int, q: int)
    ensures (p + 1) * q == p * q + q
    ensures q * (p + 1) == q * p + q
  {
  }

  lemma MulDiff(p: int, q: int, d: int)
    ensures (p - q) * (d + d) == 2 * (p * d) - 2 * (q * d)
    ensures (q - p) * (d + d) == 2 * (q * d) - 2 * (p * d)
  {
  }

  lemma MulBelowOne(p: int, d: int)
    requires d > 0 && p * d < d
    ensures p < 1
  {
    if p >= 1 {
      MulMonoLe(1, p, d);
    }
  }

  lemma {:induction false} DivUnique(n: int, d: int, q: int)
    requires d > 0 && q * d <= n < q * d + d
    ensures n / d == q
  {
    var q0, r0 := n / d, n % d;
    assert n == q0 * d + r0 && 0 <= r0 < d;
    assert (q - q0) * d == q * d - q0 * d;
    MulBelowOne(q - q0, d);
    MulBelowOne(q0 - q, d);
  }

  /** One step of the walk, stated for the loops. */
  lemma WalkNext(i: nat, a: nat, b: nat)
    ensures var w := Walk(i, a, b);
            Walk(i + 1, a, b) == if w.1 + 2 * a > b then (w.0 + 1, w.1 + 2 * a - 2 * b) else (w.0, w.1 + 2 * a)
  {
  }

  /** The accumulator holds exactly the scaled error 2*i*a - 2*k*b. */
  lemma {:induction false} WalkError(i: nat, a: nat, b: nat)
    ensures Walk(i, a, b).1 == 2 * (i * a) - 2 * (Walk(i, a, b).0 * b)
  {
    if i > 0 {
      WalkError(i - 1, a, b);
      var w := Walk(i - 1, a, b);
      MulSucc(i - 1, a);
      MulSucc(w.0, b);
    }
  }

  /** For a < b the scaled error stays in (-b, b]. */
  lemma {:induction false} WalkBounded(i: nat, a: nat, b: nat)
    requires a < b
    ensures 0 < Walk(i, a, b).1 + b && Walk(i, a, b).1 <= b
  {
    if i > 0 {
      WalkBounded(i - 1, a, b);
    }
  }

  /**
   * MinorOffset is the nearest integer to i*a/b, ties rounded down: k is the
   * offset exactly when the scaled error 2*i*a - 2*k*b lies in (-b, b].
   */
  lemma MinorOffsetNearest(i: nat, a: nat, b: nat, k: int)
    requires a < b
    ensures k == MinorOffset(i, a, b) <==> 2 * (k * b) - b < 2 * (i * a) <= 2 * (k * b) + b
  {
    var k0 := MinorOffset(i, a, b);
    WalkError(i, a, b);
    WalkBounded(i, a, b);
    if 2 * (k * b) - b < 2 * (i * a) <= 2 * (k * b) + b {
      MulDiff(k, k0, b);
      MulBelowOne(k - k0, b + b);
      MulBelowOne(k0 - k, b + b);
    }
  }

  /** The closed form: MinorOffset(i, a, b) is (2*i*a + b - 1) div (2*b). */
  lemma MinorOffsetClosedForm(i: nat, a: nat, b: nat)
    requires a < b
    ensures MinorOffset(i, a, b) == (2 * i * a + b - 1) / (2 * b)
  {
    var k := MinorOffset(i, a, b);
    MinorOffsetNearest(i, a, b, k);
    assert k * (2 * b) == 2 * k * b;
    DivUnique(2 * i * a + b - 1, 2 * b, k);
  }

  lemma MinorOffsetEnds(a: nat, b: nat)
    requires a < b
    ensures MinorOffset(0, a, b) == 0
    ensures MinorOffset(b, a, b) == a
  {
    assert 2 * b * a == 2 * a * b;
    MinorOffsetNearest(b, a, b, a);
  }

  /** The minor offset never decreases and never jumps by more than one. */
  lemma MinorOffsetUnit(i: nat, a: nat, b: nat)
    ensures MinorOffset(i, a, b) <= MinorOffset(i + 1, a, b) <= MinorOffset(i, a, b) + 1
  {
  }

  /** Scaling a comparison by a positive factor, as `frac > half` does. */
  lemma ScaleGreater(a: int, u: int, v: int)
    requires a > 0
    ensures a * u > a * v <==> u > v
  {
    if u > v {
      assert a * u - a * v == a * (u - v);
    } else {
      assert a * v - a * u == a * (v - u);
    }
  }

  /**
   * One update of the accumulator `frac` = a*e of a line with minor delta a
   * and major delta b: adding m = 2*a*a is adding 2*a to e, the test
   * `frac > half` is the test e > b, and subtracting full = 2*a*b is
   * subtracting 2*b from e.
   */
  lemma AccumulatorStep(a: int, b: int, e: int, frac: int, m: int, half: int, full: int)
    requires a >= 0 && frac == a * e && (a == 0 ==> e <= b)
    requires m == a * a * 2 && half == a * b && full == half * 2
    ensures frac + m == a * (e + 2 * a)
    ensures frac + m > half <==> e + 2 * a > b
    ensures frac + m - full == a * (e + 2 * a - 2 * b)
  {
    if a > 0 {
      ScaleGreater(a, e + 2 * a, b);
    }
  }

  // ---------------------------------------------------------------------
  // Properties of the traced path
  // ---------------------------------------------------------------------

  /** Cell 0 is the origin and cell Distance(r) is the target. */
  lemma PathEnds(r: Request)
    ensures PathCell(r, 0) == Cell(r.y1, r.x1)
    ensures PathCell(r, Distance(r)) == Cell(r.y2, r.x2)
  {
    var d := DeltasOf(r);
    if d.ay > d.ax {
      MinorOffsetEnds(d.ax, d.ay);
    } else if d.ax > d.ay {
      MinorOffsetEnds(d.ay, d.ax);
    }
  }

  /** Every step moves one cell along the major axis and at most one along the minor axis. */
  lemma PathStepAdjacent(r: Request, i: nat)
    ensures Adjacent(PathCell(r, i), PathCell(r, i + 1))
  {
    var d := DeltasOf(r);
    if d.ay > d.ax {
      MinorOffsetUnit(i, d.ax, d.ay);
    } else if d.ax > d.ay {
      MinorOffsetUnit(i, d.ay, d.ax);
    }
  }

  /**
   * Along the major axis the path advances one cell per step, so the i-th cell
   * is i cells from the origin on that axis, and the minor coordinate is the
   * nearest grid line to the true line (within half a cell, ties towards the origin).
   */
  lemma PathCellGeometry(r: Request, i: nat)
    ensures var d := DeltasOf(r); var c := PathCell(r, i);
            if d.ay > d.ax then
              c.y == r.y1 + d.sy * i &&
              var off := d.sx * (c.x - r.x1);
              2 * (off * d.ay) - d.ay < 2 * (i * d.ax) <= 2 * (off * d.ay) + d.ay
            else if d.ax > d.ay then
              c.x == r.x1 + d.sx * i &&
              var off := d.sy * (c.y - r.y1);
              2 * (off * d.ax) - d.ax < 2 * (i * d.ay) <= 2 * (off * d.ax) + d.ax
            else
              c.y == r.y1 + d.sy * i && c.x == r.x1 + d.sx * i
  {
    var d := DeltasOf(r);
    if d.ay > d.ax {
      var k := MinorOffset(i, d.ax, d.ay);
      MinorOffsetNearest(i, d.ax, d.ay, k);
      UnitBackAndForth(d.sx, k);
    } else if d.ax > d.ay {
      var k := MinorOffset(i, d.ay, d.ax);
      MinorOffsetNearest(i, d.ay, d.ax, k);
      UnitBackAndForth(d.sy, k);
    }
  }

  /** Stepping k times by a unit s and measuring the result along s gives back k. */
  lemma UnitBackAndForth(s: int, k: int)
    requires s == 1 || s == -1
    ensures s * (s * k) == k
  {
  }

  /** A line along a row or a column never leaves it. */
  lemma PathCellStraight(r: Request, i: nat)
    ensures var d := DeltasOf(r);
            (d.ay == 0 < d.ax ==> PathCell(r, i) == Cell(r.y1, r.x1 + d.sx * i) && MinorMoves(r, i) == 0) &&
            (d.ax == 0 < d.ay ==> PathCell(r, i) == Cell(r.y1 + d.sy * i, r.x1) && MinorMoves(r, i) == 0)
  {
    var d := DeltasOf(r);
    if d.ay == 0 && d.ax > 0 {
      MinorOffsetNearest(i, 0, d.ax, 0);
    } else if d.ax == 0 && d.ay > 0 {
      MinorOffsetNearest(i, 0, d.ay, 0);
    }
  }

  /** The line reaches the target at step Distance(r) and at no other step. */
  lemma PathHitsTargetOnlyAtDistance(r: Request, i: nat)
    ensures PathCell(r, i) == Cell(r.y2, r.x2) <==> i == Distance(r)
  {
    PathEnds(r);
    var d := DeltasOf(r);
    if i != Distance(r) {
      if d.ay >= d.ax {
        assert PathCell(r, i).y - r.y1 == d.sy * i;
        assert r.y2 - r.y1 == d.sy * d.ay;
        assert d.sy * i != d.sy * d.ay;
      } else {
        assert PathCell(r, i).x - r.x1 == d.sx * i;
        assert r.x2 - r.x1 == d.sx * d.ax;
        assert d.sx * i != d.sx * d.ax;
      }
    }
  }

  /** StopIndex is the first stopping index. */
  lemma {:induction false} StopIndexIsFirst(r: Request, t: Terrain, i: nat, n: nat)
    requires 1 <= i <= n <= MaxLen(r.range)
    requires StopAt(r, t, n)
    requires forall j :: i <= j < n ==> !StopAt(r, t, j)
    ensures StopIndex(r, t, i) == n
    decreases n - i
  {
    if i < n {
      StopIndexIsFirst(r, t, i + 1, n);
    }
  }

  /** Distinct endpoints give at least one cell, and never more than max(range, 1). */
  lemma TraceLength(r: Request, t: Terrain)
    requires r.y1 != r.y2 || r.x1 != r.x2
    ensures 1 <= |Trace(r, t)| <= MaxLen(r.range)
  {
  }

  /** The first cell is adjacent to the origin and each cell to the one before it. */
  lemma TraceAdjacent(r: Request, t: Terrain)
    ensures var p := Trace(r, t);
            (|p| > 0 ==> Adjacent(Cell(r.y1, r.x1), p[0])) &&
            forall i :: 0 <= i < |p| - 1 ==> Adjacent(p[i], p[i + 1])
  {
    var p := Trace(r, t);
    if |p| > 0 {
      PathEnds(r);
      PathStepAdjacent(r, 0);
    }
    forall i | 0 <= i < |p| - 1
      ensures Adjacent(p[i], p[i + 1])
    {
      PathStepAdjacent(r, i + 1);
    }
  }

  /**
   * The cell that triggers a stop is the last one written; no earlier cell
   * satisfied any stop rule.
   */
  lemma TraceStopsAtFirstRule(r: Request, t: Terrain)
    requires r.y1 != r.y2 || r.x1 != r.x2
    ensures var p := Trace(r, t);
            StopAt(r, t, |p|) && p[|p| - 1] == PathCell(r, |p|) &&
            forall j :: 1 <= j < |p| ==> !StopAt(r, t, j)
  {
  }

  /**
   * Without PROJECT_THRU, and with no other rule firing before the target,
   * the path ends exactly at the target after Distance(r) cells.
   */
  lemma TraceEndsAtTarget(r: Request, t: Terrain)
    requires r.y1 != r.y2 || r.x1 != r.x2
    requires !r.flags.thru
    requires forall j :: 1 <= j < Distance(r) ==> !OtherStop(r, t, j)
    ensures |Trace(r, t)| == Distance(r)
    ensures Trace(r, t)[Distance(r) - 1] == Cell(r.y2, r.x2)
  {
    var dist := Distance(r);
    assert dist >= 1;
    forall j | 1 <= j < dist
      ensures !StopAt(r, t, j)
    {
      assert !OtherStop(r, t, j);
      PathHitsTargetOnlyAtDistance(r, j);
    }
    if dist > 1 {
      assert !OtherStop(r, t, dist - 1);
    }
    PathHitsTargetOnlyAtDistance(r, dist);
    StopIndexIsFirst(r, t, 1, dist);
  }

  /**
   * With PROJECT_THRU, reaching the target is not a stop: if no other rule
   * fires up to and including the target, the path goes beyond it.
   */
  lemma TraceThruPassesTarget(r: Request, t: Terrain)
    requires r.y1 != r.y2 || r.x1 != r.x2
    requires r.flags.thru
    requires forall j :: 1 <= j <= Distance(r) ==> !OtherStop(r, t, j)
    ensures |Trace(r, t)| > Distance(r)
    ensures Trace(r, t)[Distance(r) - 1] == Cell(r.y2, r.x2)
  {
    var n := |Trace(r, t)|;
    assert StopAt(r, t, n);
    assert OtherStop(r, t, n);
    PathEnds(r);
  }

  // ---------------------------------------------------------------------
  // The routine
  // ---------------------------------------------------------------------

  /**
   * The tests each loop makes after writing the n-th cell (y, x), in the
   * source's order; `moves` is the diagonal-step count charged by the range
   * test.  The `n > 0` guards of the C code always hold here.
   */
  method StopsHere(r: Request, t: Terrain, n: nat, moves: nat, y: int, x: int) returns (stop: bool)
    requires n >= 1 && moves == MinorMoves(r, n) && Cell(y, x) == PathCell(r, n)
    ensures stop == StopAt(r, t, n)
  {
    if n + moves / 2 >= r.range {
      return true;
    }
    if !r.flags.thru {
      if x == r.x2 && y == r.y2 {
        return true;
      }
    }
    if r.flags.disi {
      if n > 0 && t.stopsDisintegration(y, x) {
        return true;
      }
    } else if r.flags.los {
      if n > 0 && !t.losClear(y, x) {
        return true;
      }
    } else if !r.flags.path {
      if n > 0 && !t.projectable(y, x) {
        return true;
      }
    }
    if r.flags.stop {
      if n > 0 && t.occupied(y, x) {
        return true;
      }
    }
    if !t.inBounds(y, x) {
      return true;
    }
    return false;
  }

  /**
   * The end of each steep or shallow iteration: when m is non-zero, add it to
   * `frac` and, if `frac` then exceeds `half`, take one step of s along the
   * minor axis, subtract `full` and count the move in k.  For a line with minor
   * delta a and major delta b, this takes the accumulator from Walk(i, a, b)
   * to Walk(i + 1, a, b).
   */
  method StepMinor(a: nat, b: nat, i: nat, m: int, half: int, full: int,
                   frac: int, k: nat, minor: int, base: int, s: int)
    returns (frac': int, k': nat, minor': int)
    requires a < b && m == a * a * 2 && half == a * b && full == half * 2
    requires k == Walk(i, a, b).0 && frac == a * Walk(i, a, b).1 && minor == base + s * k
    ensures k' == Walk(i + 1, a, b).0 && frac' == a * Walk(i + 1, a, b).1
    ensures minor' == base + s * k'
  {
    frac', k', minor' := frac, k, minor;
    WalkNext(i, a, b);
    if m != 0 {
      AccumulatorStep(a, b, Walk(i, a, b).1, frac, m, half, full);
      frac' := frac' + m;
      if frac' > half {
        MulSucc(k, s);
        minor' := minor' + s;
        frac' := frac' - full;
        k' := k' + 1;
      }
    } else {
      WalkBounded(i, a, b);
    }
  }

  /**
   * The buffer s holds the encoded cells 1..n of the line in its first n
   * entries and the caller's contents o everywhere after them.
   */
  predicate Written(s: seq<int>, o: seq<int>, r: Request, n: nat)
  {
    n <= |s| == |o| &&
    (forall i :: 0 <= i < n ==> s[i] == Encode(PathCell(r, i + 1))) &&
    (forall i :: n <= i < |s| ==> s[i] == o[i])
  }

  /** Writing the (n+1)-th cell at index n extends what is written by one entry. */
  lemma WrittenStep(s: seq<int>, o: seq<int>, r: Request, n: nat, y: int, x: int)
    requires Written(s, o, r, n) && n < |s| && PathCell(r, n + 1) == Cell(y, x)
    ensures Written(s[n := LocationToGrid(y, x)], o, r, n + 1)
  {
  }

  /** The steep loop's position after i steps is the i-th path cell, and k its diagonal-move count. */
  lemma SteepCell(r: Request, i: nat, y: int, x: int)
    requires DeltasOf(r).ay > DeltasOf(r).ax
    requires y == r.y1 + DeltasOf(r).sy * i
    requires x == r.x1 + DeltasOf(r).sx * Walk(i, DeltasOf(r).ax, DeltasOf(r).ay).0
    ensures PathCell(r, i) == Cell(y, x)
    ensures MinorMoves(r, i) == Walk(i, DeltasOf(r).ax, DeltasOf(r).ay).0
  {
  }

  /** The shallow loop's position after i steps is the i-th path cell, and k its diagonal-move count. */
  lemma ShallowCell(r: Request, i: nat, y: int, x: int)
    requires DeltasOf(r).ax > DeltasOf(r).ay
    requires x == r.x1 + DeltasOf(r).sx * i
    requires y == r.y1 + DeltasOf(r).sy * Walk(i, DeltasOf(r).ay, DeltasOf(r).ax).0
    ensures PathCell(r, i) == Cell(y, x)
    ensures MinorMoves(r, i) == Walk(i, DeltasOf(r).ay, DeltasOf(r).ax).0
  {
  }

  /** The diagonal loop's position after i steps is the i-th path cell, every step charged as diagonal. */
  lemma DiagonalCell(r: Request, i: nat, y: int, x: int)
    requires DeltasOf(r).ax == DeltasOf(r).ay
    requires y == r.y1 + DeltasOf(r).sy * i && x == r.x1 + DeltasOf(r).sx * i
    ensures PathCell(r, i) == Cell(y, x) && MinorMoves(r, i) == i
  {
  }

  /** No stop rule fires at any of the cells 1..n. */
  predicate GoesOn(r: Request, t: Terrain, n: nat)
  {
    forall j :: 1 <= j <= n ==> !StopAt(r, t, j)
  }

  /** A loop that does not stop after its n-th cell has gone on so far and has room for another one. */
  lemma GoesOnStep(r: Request, t: Terrain, n: nat)
    requires 1 <= n && GoesOn(r, t, n - 1) && !StopAt(r, t, n)
    ensures GoesOn(r, t, n) && n < MaxLen(r.range)
  {
  }

  /** The steep loop (ay > ax): the row advances every step, the column when `frac > half`. */
  method TraceSteep(gp: array<int>, r: Request, t: Terrain) returns (n: int)
    requires DeltasOf(r).ay > DeltasOf(r).ax
    requires gp.Length >= MaxLen(r.range)
    modifies gp
    ensures n == StopIndex(r, t, 1)
    ensures forall i :: 0 <= i < n ==> gp[i] == Encode(PathCell(r, i + 1))
    ensures forall i :: n <= i < gp.Length ==> gp[i] == old(gp[i])
  {
    var d := DeltasOf(r);
    var ay, ax, sy, sx := d.ay, d.ax, d.sy, d.sx;
    var half := ay * ax;
    var full := half * 2;
    n := 0;
    var k := 0;
    var m := ax * ax * 2;
    var y := r.y1 + sy;
    var x := r.x1;
    var frac: int := m;
    AccumulatorStep(ax, ay, 0, 0, m, half, full);
    if frac > half {
      x := x + sx;
      frac := frac - full;
      k := k + 1;
    }
    while true
      invariant 0 <= n < MaxLen(r.range)
      invariant y == r.y1 + sy * (n + 1)
      invariant k == Walk(n + 1, ax, ay).0 && frac == ax * Walk(n + 1, ax, ay).1
      invariant x == r.x1 + sx * k
      invariant Written(gp[..], old(gp[..]), r, n)
      invariant GoesOn(r, t, n)
      decreases MaxLen(r.range) - n
    {
      SteepCell(r, n + 1, y, x);
      WrittenStep(gp[..], old(gp[..]), r, n, y, x);
      gp[n] := LocationToGrid(y, x);
      n := n + 1;
      var stop := StopsHere(r, t, n, k, y, x);
      if stop {
        break;
      }
      GoesOnStep(r, t, n);
      frac, k, x := StepMinor(ax, ay, n, m, half, full, frac, k, x, r.x1, sx);
      MulSucc(n, sy);
      y := y + sy;
    }
    StopIndexIsFirst(r, t, 1, n);
  }

  /** The shallow loop (ax > ay): the column advances every step, the row when `frac > half`. */
  method TraceShallow(gp: array<int>, r: Request, t: Terrain) returns (n: int)
    requires DeltasOf(r).ax > DeltasOf(r).ay
    requires gp.Length >= MaxLen(r.range)
    modifies gp
    ensures n == StopIndex(r, t, 1)
    ensures forall i :: 0 <= i < n ==> gp[i] == Encode(PathCell(r, i + 1))
    ensures forall i :: n <= i < gp.Length ==> gp[i] == old(gp[i])
  {
    var d := DeltasOf(r);
    var ay, ax, sy, sx := d.ay, d.ax, d.sy, d.sx;
    var half := ay * ax;
    var full := half * 2;
    n := 0;
    var k := 0;
    var m := ay * ay * 2;
    var y := r.y1;
    var x := r.x1 + sx;
    var frac: int := m;
    AccumulatorStep(ay, ax, 0, 0, m, half, full);
    if frac > half {
      y := y + sy;
      frac := frac - full;
      k := k + 1;
    }
    while true
      invariant 0 <= n < MaxLen(r.range)
      invariant x == r.x1 + sx * (n + 1)
      invariant k == Walk(n + 1, ay, ax).0 && frac == ay * Walk(n + 1, ay, ax).1
      invariant y == r.y1 + sy * k
      invariant Written(gp[..], old(gp[..]), r, n)
      invariant GoesOn(r, t, n)
      decreases MaxLen(r.range) - n
    {
      ShallowCell(r, n + 1, y, x);
      WrittenStep(gp[..], old(gp[..]), r, n, y, x);
      gp[n] := LocationToGrid(y, x);
      n := n + 1;
      var stop := StopsHere(r, t, n, k, y, x);
      if stop {
        break;
      }
      GoesOnStep(r, t, n);
      frac, k, y := StepMinor(ay, ax, n, m, half, full, frac, k, y, r.y1, sy);
      MulSucc(n, sx);
      x := x + sx;
    }
    StopIndexIsFirst(r, t, 1, n);
  }

  /** The diagonal loop (ax == ay): both coordinates advance every step. */
  method TraceDiagonal(gp: array<int>, r: Request, t: Terrain) returns (n: int)
    requires DeltasOf(r).ax == DeltasOf(r).ay
    requires gp.Length >= MaxLen(r.range)
    modifies gp
    ensures n == StopIndex(r, t, 1)
    ensures forall i :: 0 <= i < n ==> gp[i] == Encode(PathCell(r, i + 1))
    ensures forall i :: n <= i < gp.Length ==> gp[i] == old(gp[i])
  {
    var d := DeltasOf(r);
    var y := r.y1 + d.sy;
    var x := r.x1 + d.sx;
    n := 0;
    while true
      invariant 0 <= n < MaxLen(r.range)
      invariant y == r.y1 + d.sy * (n + 1) && x == r.x1 + d.sx * (n + 1)
      invariant Written(gp[..], old(gp[..]), r, n)
      invariant GoesOn(r, t, n)
      decreases MaxLen(r.range) - n
    {
      DiagonalCell(r, n + 1, y, x);
      WrittenStep(gp[..], old(gp[..]), r, n, y, x);
      gp[n] := LocationToGrid(y, x);
      n := n + 1;
      var stop := StopsHere(r, t, n, n, y, x);
      if stop {
        break;
      }
      GoesOnStep(r, t, n);
      y := y + d.sy;
      x := x + d.sx;
    }
    StopIndexIsFirst(r, t, 1, n);
  }

  /**
   * projection_path: writes the encoded cells of Trace(r, t) into gp[0..n)
   * and returns n; the rest of the caller's buffer is left alone.  The caller
   * must supply room for max(range, 1) entries, as the routine does not check.
   */
  method ProjectionPath(gp: array<int>, r: Request, t: Terrain) returns (n: int)
    requires gp.Length >= MaxLen(r.range)
    modifies gp
    ensures n == |Trace(r, t)|
    ensures forall i :: 0 <= i < n ==> gp[i] == Encode(Trace(r, t)[i])
    ensures forall i :: n <= i < gp.Length ==> gp[i] == old(gp[i])
  {
    if r.x1 == r.x2 && r.y1 == r.y2 {
      return 0;
    }
    var d := SetAsxy(r.y1, r.x1, r.y2, r.x2);
    if d.ay > d.ax {
      n := TraceSteep(gp, r, t);
    } else if d.ax > d.ay {
      n := TraceShallow(gp, r, t);
    } else {
      n := TraceDiagonal(gp, r, t);
    }
  }

  /**
   * Trace is characterised by its stop rule: a run of line cells that ends at
   * the first stopping index, with no stop before it, is the trace.
   */
  lemma TraceIs(r: Request, t: Terrain, cells: seq<Cell>)
    requires r.y1 != r.y2 || r.x1 != r.x2
    requires 1 <= |cells| <= MaxLen(r.range)
    requires forall i :: 0 <= i < |cells| ==> cells[i] == PathCell(r, i + 1)
    requires forall j :: 1 <= j < |cells| ==> !StopAt(r, t, j)
    requires StopAt(r, t, |cells|)
    ensures Trace(r, t) == cells
  {
    StopIndexIsFirst(r, t, 1, |cells|);
    assert Trace(r, t) == seq(|cells|, i requires 0 <= i < |cells| => PathCell(r, i + 1));
    LineIs(r, cells);
  }

  /** A list of line cells from the first step on is the comprehension of those cells. */
  lemma LineIs(r: Request, cells: seq<Cell>)
    requires forall i :: 0 <= i < |cells| ==> cells[i] == PathCell(r, i + 1)
    ensures seq(|cells|, i requires 0 <= i < |cells| => PathCell(r, i + 1)) == cells
  {
  }

  // ---------------------------------------------------------------------
  // Worked traces on floors with no walls and no edge
  // ---------------------------------------------------------------------

  const DefaultFlags := ProjectFlags(false, false, false, false, false)

  /** The row line from (5,5) towards (5,10): one column per step, never charged a diagonal move. */
  lemma RowLine(r: Request, i: nat)
    requires r.range == 20 && r.y1 == 5 && r.x1 == 5 && r.y2 == 5 && r.x2 == 10
    ensures PathCell(r, i) == Cell(5, 5 + i) && MinorMoves(r, i) == 0
  {
    assert DeltasOf(r) == Deltas(0, 5, 1, 1);
    PathCellStraight(r, i);
  }

  /** A straight row trace from (5,5) to (5,10) stops at the target, five cells out. */
  lemma HorizontalTrace(r: Request, t: Terrain)
    requires r.range == 20 && r.y1 == 5 && r.x1 == 5 && r.y2 == 5 && r.x2 == 10
    requires r.flags == DefaultFlags
    requires forall y, x :: t.projectable(y, x) && t.inBounds(y, x) && !t.occupied(y, x)
    ensures Trace(r, t) == [Cell(5, 6), Cell(5, 7), Cell(5, 8), Cell(5, 9), Cell(5, 10)]
  {
    var cells := [Cell(5, 6), Cell(5, 7), Cell(5, 8), Cell(5, 9), Cell(5, 10)];
    var line := seq(5, i requires 0 <= i < 5 => PathCell(r, i + 1));
    forall i: nat { RowLine(r, i); }
    forall j | 1 <= j < 5
      ensures !StopAt(r, t, j)
    {
      RowLine(r, j);
    }
    assert StopAt(r, t, 5);
    assert line == cells;
    TraceIs(r, t, line);
  }

  /** A diagonal trace from (0,0) to (3,3) emits (1,1), (2,2), (3,3). */
  lemma DiagonalTrace(r: Request, t: Terrain)
    requires r.range == 10 && r.y1 == 0 && r.x1 == 0 && r.y2 == 3 && r.x2 == 3
    requires r.flags == DefaultFlags
    requires forall y, x :: t.projectable(y, x) && t.inBounds(y, x) && !t.occupied(y, x)
    ensures Trace(r, t) == [Cell(1, 1), Cell(2, 2), Cell(3, 3)]
  {
    var cells := [Cell(1, 1), Cell(2, 2), Cell(3, 3)];
    var line := seq(3, i requires 0 <= i < 3 => PathCell(r, i + 1));
    forall i: nat { DiagonalLine(r, i); }
    forall j | 1 <= j < 3
      ensures !StopAt(r, t, j)
    {
      DiagonalLine(r, j);
    }
    assert StopAt(r, t, 3);
    assert line == cells;
    TraceIs(r, t, line);
  }

  /** The diagonal line from (0,0) towards (3,3): every step moves both axes and is charged as diagonal. */
  lemma DiagonalLine(r: Request, i: nat)
    requires r.y1 == 0 && r.x1 == 0 && r.y2 == 3 && r.x2 == 3
    ensures PathCell(r, i) == Cell(i, i) && MinorMoves(r, i) == i
  {
    assert DeltasOf(r) == Deltas(3, 3, 1, 1);
  }

  /** The steep line from (0,0) towards (4,1): it moves its column at the third step. */
  lemma SteepLine(r: Request)
    requires r.range == 10 && r.y1 == 0 && r.x1 == 0 && r.y2 == 4 && r.x2 == 1
    ensures PathCell(r, 1) == Cell(1, 0) && PathCell(r, 2) == Cell(2, 0)
    ensures PathCell(r, 3) == Cell(3, 1) && PathCell(r, 4) == Cell(4, 1)
    ensures MinorMoves(r, 1) == 0 && MinorMoves(r, 2) == 0 && MinorMoves(r, 3) == 1
  {
    var d := DeltasOf(r);
    assert d == Deltas(4, 1, 1, 1);
    MinorOffsetNearest(1, d.ax, d.ay, 0);
    MinorOffsetNearest(2, d.ax, d.ay, 0);
    MinorOffsetNearest(3, d.ax, d.ay, 1);
    MinorOffsetNearest(4, d.ax, d.ay, 1);
  }

  /** With PROJECT_STOP, a monster at (5,7) ends the row trace there, even with PROJECT_THRU. */
  lemma OccupantStopsTrace(r: Request, t: Terrain)
    requires r.range == 20 && r.y1 == 5 && r.x1 == 5 && r.y2 == 5 && r.x2 == 10
    requires r.flags == ProjectFlags(true, false, false, false, true)
    requires forall y, x :: t.projectable(y, x) && t.inBounds(y, x) && (t.occupied(y, x) <==> y == 5 && x == 7)
    ensures Trace(r, t) == [Cell(5, 6), Cell(5, 7)]
  {
    var cells := [Cell(5, 6), Cell(5, 7)];
    var line := seq(2, i requires 0 <= i < 2 => PathCell(r, i + 1));
    forall i: nat { RowLine(r, i); }
    assert !StopAt(r, t, 1);
    assert StopAt(r, t, 2);
    assert line == cells;
    TraceIs(r, t, line);
  }

  /** With PROJECT_LOS, a grid at (5,8) that breaks line of sight is the last one written. */
  lemma SightStopsTrace(r: Request, t: Terrain)
    requires r.range == 20 && r.y1 == 5 && r.x1 == 5 && r.y2 == 5 && r.x2 == 10
    requires r.flags == ProjectFlags(false, false, true, false, false)
    requires forall y, x :: t.inBounds(y, x) && (t.losClear(y, x) <==> !(y == 5 && x == 8))
    ensures Trace(r, t) == [Cell(5, 6), Cell(5, 7), Cell(5, 8)]
  {
    var cells := [Cell(5, 6), Cell(5, 7), Cell(5, 8)];
    var line := seq(3, i requires 0 <= i < 3 => PathCell(r, i + 1));
    forall i: nat { RowLine(r, i); }
    forall j | 1 <= j < 3
      ensures !StopAt(r, t, j)
    {
      RowLine(r, j);
    }
    assert StopAt(r, t, 3);
    assert line == cells;
    TraceIs(r, t, line);
  }
}
