/** The Gray-Scott reaction-diffusion simulation of `morpho_patterns.py`, its
    conversion to points and to a sampled surface grid, and its preset table.

    A grid is a list of rows of concentrations. The simulation keeps two
    grids, A and B, of `height` rows by `width` columns; each step builds a
    fresh pair from the previous pair only, clamping every cell into [0, 1],
    and the result is the final B. The random choice of seed spots is a
    parameter here: the caller supplies the spot centres. */
module ReactionDiffusion {
  import opened Common
  import opened Geometry
  import opened Text

  type Grid = seq<seq<real>>

  /** `g` has `h` rows of `w` cells each. */
  predicate Shape(g: Grid, h: nat, w: nat) {
    |g| == h && forall y :: 0 <= y < h ==> |g[y]| == w
  }

  /** Every cell lies in [0, 1]. */
  predicate InUnit(g: Grid) {
    forall y, x :: 0 <= y < |g| && 0 <= x < |g[y]| ==> 0.0 <= g[y][x] <= 1.0
  }

  /** The grid of `h` rows of `w` copies of `v` (a nested list comprehension). */
  function Filled(h: nat, w: nat, v: real): (g: Grid)
    ensures Shape(g, h, w)
    ensures forall y, x :: 0 <= y < h && 0 <= x < w ==> g[y][x] == v
  {
    seq(h, _ => seq(w, _ => v))
  }

  // ---------------------------------------------------------------------------
  // Laplacian on a torus
  // ---------------------------------------------------------------------------

  /** The index `i` wrapped onto `[0, n)`, for the neighbour indices
      `-1 .. n` a Laplacian reads; `WrapIsMod` shows it is Python's `i % n`. */
  function Wrap(i: int, n: int): (r: int)
    requires n > 0 && -1 <= i <= n
    ensures 0 <= r < n
  {
    if i < 0 then i + n else if i == n then 0 else i
  }

  /** The wrapped index is the Euclidean (for a positive divisor, also
      Python's floored) remainder. */
  lemma WrapIsMod(i: int, n: int)
    requires n > 0 && -1 <= i <= n
    ensures Wrap(i, n) == i % n
  {
    if i < 0 {
      ModOf(i, n, -1, i + n);
    } else if i == n {
      ModOf(i, n, 1, 0);
    } else {
      ModOf(i, n, 0, i);
    }
  }

  /** Euclidean remainder is determined by any quotient and in-range rest. */
  lemma ModOf(a: int, n: int, q: int, r: int)
    requires n > 0 && 0 <= r < n && a == q * n + r
    ensures a % n == r
  {
    var q', r' := a / n, a % n;
    assert a == q' * n + r';
    var d := q - q';
    assert d * n == r' - r;
    if d >= 1 {
      MulAtLeast(d, n);
    } else if d <= -1 {
      MulAtLeast(-d, n);
    }
  }

  lemma MulAtLeast(d: int, n: int)
    requires d >= 1 && n > 0
    ensures d * n >= n
  {
  }

  /** The neighbours of a cell are the adjacent indices, except across an
      edge, where they wrap to the opposite side. */
  lemma WrapNeighbours(i: int, n: int)
    requires 0 <= i < n
    ensures (i - 1) % n == if i == 0 then n - 1 else i - 1
    ensures (i + 1) % n == if i == n - 1 then 0 else i + 1
  {
    WrapIsMod(i - 1, n);
    WrapIsMod(i + 1, n);
  }

  /** The rectangular grid shape `laplacian` reads: as many rows as it has,
      each as long as the first. */
  predicate Rect(g: Grid) {
    |g| > 0 && Shape(g, |g|, |g[0]|)
  }

  /** The inner `laplacian` of `reaction_diffusion`: the four toroidal
      neighbours minus four times the centre. */
  function Laplacian(grid: Grid, x: int, y: int): real
    requires Rect(grid) && 0 <= y < |grid| && 0 <= x < |grid[0]|
  {
    var h, w := |grid|, |grid[0]|;
    var center := grid[y][x];
    var top := grid[Wrap(y - 1, h)][x];
    var bottom := grid[Wrap(y + 1, h)][x];
    var left := grid[y][Wrap(x - 1, w)];
    var right := grid[y][Wrap(x + 1, w)];
    top + bottom + left + right - 4.0 * center
  }

  /** A uniform concentration does not diffuse, on the border as anywhere. */
  lemma LaplacianOfConstant(grid: Grid, v: real, x: int, y: int)
    requires Rect(grid) && 0 <= y < |grid| && 0 <= x < |grid[0]|
    requires forall j, i :: 0 <= j < |grid| && 0 <= i < |grid[0]| ==> grid[j][i] == v
    ensures Laplacian(grid, x, y) == 0.0
  {
    var h, w := |grid|, |grid[0]|;
    assert grid[Wrap(y - 1, h)][x] == v && grid[Wrap(y + 1, h)][x] == v;
    assert grid[y][Wrap(x - 1, w)] == v && grid[y][Wrap(x + 1, w)] == v;
  }

  // ---------------------------------------------------------------------------
  // One simulation step
  // ---------------------------------------------------------------------------

  /** Diffusion rates of A and B, and the time step. */
  const DiffusionA: real := 1.0
  const DiffusionB: real := 0.5
  const TimeStep: real := 1.0

  /** The new, clamped concentration of A at a cell with concentrations
      `a`, `b` and Laplacian `lapA` of A. */
  function CellA(a: real, b: real, lapA: real, feedRate: real): (r: real)
    ensures 0.0 <= r <= 1.0
  {
    Clamp(a + TimeStep * (DiffusionA * lapA - a * b * b + feedRate * (1.0 - a)), 0.0, 1.0)
  }

  /** The new, clamped concentration of B at a cell. */
  function CellB(a: real, b: real, lapB: real, feedRate: real, killRate: real): (r: real)
    ensures 0.0 <= r <= 1.0
  {
    Clamp(b + TimeStep * (DiffusionB * lapB + a * b * b - (killRate + feedRate) * b), 0.0, 1.0)
  }

  /** Full A with no B and no curvature is a steady state of the reaction. */
  lemma CellsAtRest(a: real, b: real, lap: real, feedRate: real, killRate: real)
    requires a == 1.0 && b == 0.0 && lap == 0.0
    ensures CellA(a, b, lap, feedRate) == 1.0
    ensures CellB(a, b, lap, feedRate, killRate) == 0.0
  {
  }

  /** The pair of grids one step after `(A, B)`: every new cell is computed
      from the previous grids only. */
  function Next(A: Grid, B: Grid, h: nat, w: nat, feedRate: real, killRate: real): (r: (Grid, Grid))
    requires Shape(A, h, w) && Shape(B, h, w)
    ensures Shape(r.0, h, w) && Shape(r.1, h, w)
  {
    (seq(h, y requires 0 <= y < h =>
       seq(w, x requires 0 <= x < w =>
         CellA(A[y][x], B[y][x], Laplacian(A, x, y), feedRate))),
     seq(h, y requires 0 <= y < h =>
       seq(w, x requires 0 <= x < w =>
         CellB(A[y][x], B[y][x], Laplacian(B, x, y), feedRate, killRate))))
  }

  /** Cell `(x, y)` of the next grids is computed from cell `(x, y)` of the
      previous ones and their Laplacians there. */
  lemma NextCell(A: Grid, B: Grid, h: nat, w: nat, feedRate: real, killRate: real, y: int, x: int)
    requires Shape(A, h, w) && Shape(B, h, w) && 0 <= y < h && 0 <= x < w
    ensures Next(A, B, h, w, feedRate, killRate).0[y][x]
      == CellA(A[y][x], B[y][x], Laplacian(A, x, y), feedRate)
    ensures Next(A, B, h, w, feedRate, killRate).1[y][x]
      == CellB(A[y][x], B[y][x], Laplacian(B, x, y), feedRate, killRate)
  {
  }

  /** `grid[y][x] = v` on a list of lists. */
  function SetCell(g: Grid, y: int, x: int, v: real): (r: Grid)
    requires 0 <= y < |g| && 0 <= x < |g[y]|
    ensures |r| == |g|
    ensures forall j :: 0 <= j < |g| ==> |r[j]| == |g[j]|
    ensures r[y][x] == v
    ensures forall j, i :: 0 <= j < |g| && 0 <= i < |g[j]| && (j != y || i != x) ==> r[j][i] == g[j][i]
  {
    g[y := g[y][x := v]]
  }

  /** The cells of `g` before `(x, y)` in row-major order are those of `ref`. */
  predicate DoneUpTo(g: Grid, ref: Grid, h: nat, w: nat, y: int, x: int)
    requires Shape(g, h, w) && Shape(ref, h, w)
  {
    forall j, i :: 0 <= j < h && 0 <= i < w && (j < y || (j == y && i < x)) ==> g[j][i] == ref[j][i]
  }

  /** Setting the next cell in row-major order to its target value extends
      the finished part by one cell. */
  lemma DoneOneMore(g: Grid, ref: Grid, h: nat, w: nat, y: int, x: int)
    requires Shape(g, h, w) && Shape(ref, h, w) && 0 <= y < h && 0 <= x < w
    requires DoneUpTo(g, ref, h, w, y, x)
    ensures Shape(SetCell(g, y, x, ref[y][x]), h, w)
    ensures DoneUpTo(SetCell(g, y, x, ref[y][x]), ref, h, w, y, x + 1)
  {
  }

  /** A finished row is the start of the next one. */
  lemma NextRow(g: Grid, ref: Grid, h: nat, w: nat, y: int)
    requires Shape(g, h, w) && Shape(ref, h, w) && DoneUpTo(g, ref, h, w, y, w)
    ensures DoneUpTo(g, ref, h, w, y + 1, 0)
  {
  }

  /** One iteration of the simulation loop: fresh zero grids `newA`, `newB`
      filled cell by cell from `A` and `B`. */
  method Step(A: Grid, B: Grid, h: nat, w: nat, feedRate: real, killRate: real)
    returns (newA: Grid, newB: Grid)
    requires Shape(A, h, w) && Shape(B, h, w)
    ensures (newA, newB) == Next(A, B, h, w, feedRate, killRate)
  {
    ghost var next := Next(A, B, h, w, feedRate, killRate);
    newA := Filled(h, w, 0.0);
    newB := Filled(h, w, 0.0);
    for y := 0 to h
      invariant Shape(newA, h, w) && Shape(newB, h, w)
      invariant DoneUpTo(newA, next.0, h, w, y, 0) && DoneUpTo(newB, next.1, h, w, y, 0)
    {
      for x := 0 to w
        invariant Shape(newA, h, w) && Shape(newB, h, w)
        invariant DoneUpTo(newA, next.0, h, w, y, x) && DoneUpTo(newB, next.1, h, w, y, x)
      {
        var a := A[y][x];
        var b := B[y][x];
        var lapA := Laplacian(A, x, y);
        var lapB := Laplacian(B, x, y);
        NextCell(A, B, h, w, feedRate, killRate, y, x);
        DoneOneMore(newA, next.0, h, w, y, x);
        DoneOneMore(newB, next.1, h, w, y, x);
        newA := SetCell(newA, y, x, CellA(a, b, lapA, feedRate));
        newB := SetCell(newB, y, x, CellB(a, b, lapB, feedRate, killRate));
      }
      NextRow(newA, next.0, h, w, y);
      NextRow(newB, next.1, h, w, y);
    }
    SameCells(newA, next.0, h, w);
    SameCells(newB, next.1, h, w);
  }

  /** Two grids of one shape that agree cell by cell are equal. */
  lemma SameCells(g: Grid, g': Grid, h: nat, w: nat)
    requires Shape(g, h, w) && Shape(g', h, w)
    requires forall j, i :: 0 <= j < h && 0 <= i < w ==> g[j][i] == g'[j][i]
    ensures g == g'
  {
    forall j | 0 <= j < h
      ensures g[j] == g'[j]
    {
      assert forall i :: 0 <= i < w ==> g[j][i] == g'[j][i];
    }
  }

  /** The grids after `n` steps from `(A, B)`. */
  function Simulate(A: Grid, B: Grid, h: nat, w: nat, feedRate: real, killRate: real, n: nat)
    : (r: (Grid, Grid))
    requires Shape(A, h, w) && Shape(B, h, w)
    ensures Shape(r.0, h, w) && Shape(r.1, h, w)
    decreases n
  {
    if n == 0 then (A, B)
    else
      var prev := Simulate(A, B, h, w, feedRate, killRate, n - 1);
      Next(prev.0, prev.1, h, w, feedRate, killRate)
  }

  /** The clamp puts every cell of a new grid into [0, 1]. */
  lemma NextInUnit(A: Grid, B: Grid, h: nat, w: nat, feedRate: real, killRate: real)
    requires Shape(A, h, w) && Shape(B, h, w)
    ensures InUnit(Next(A, B, h, w, feedRate, killRate).0)
    ensures InUnit(Next(A, B, h, w, feedRate, killRate).1)
  {
    var next := Next(A, B, h, w, feedRate, killRate);
    forall y, x | 0 <= y < h && 0 <= x < w
      ensures 0.0 <= next.0[y][x] <= 1.0 && 0.0 <= next.1[y][x] <= 1.0
    {
      NextCell(A, B, h, w, feedRate, killRate, y, x);
    }
  }

  /** Concentrations lie in [0, 1] after any step, and at every step when
      they start there. */
  lemma SimulateInUnit(A: Grid, B: Grid, h: nat, w: nat, feedRate: real, killRate: real, n: nat)
    requires Shape(A, h, w) && Shape(B, h, w)
    requires n == 0 ==> InUnit(A) && InUnit(B)
    ensures InUnit(Simulate(A, B, h, w, feedRate, killRate, n).0)
    ensures InUnit(Simulate(A, B, h, w, feedRate, killRate, n).1)
  {
    if n > 0 {
      var prev := Simulate(A, B, h, w, feedRate, killRate, n - 1);
      NextInUnit(prev.0, prev.1, h, w, feedRate, killRate);
    }
  }

  /** One step from uniform A = 1, B = 0 changes nothing. */
  lemma NextAtRest(h: nat, w: nat, feedRate: real, killRate: real)
    ensures Next(Filled(h, w, 1.0), Filled(h, w, 0.0), h, w, feedRate, killRate)
      == (Filled(h, w, 1.0), Filled(h, w, 0.0))
  {
    var ones, zeros := Filled(h, w, 1.0), Filled(h, w, 0.0);
    var next := Next(ones, zeros, h, w, feedRate, killRate);
    CellsAtRest(1.0, 0.0, 0.0, feedRate, killRate);
    forall j, i | 0 <= j < h && 0 <= i < w
      ensures next.0[j][i] == 1.0 && next.1[j][i] == 0.0
    {
      NextOfUniform(ones, zeros, h, w, feedRate, killRate, 1.0, 0.0, j, i);
    }
    SameCells(next.0, ones, h, w);
    SameCells(next.1, zeros, h, w);
  }

  lemma NextOfUniform(A: Grid, B: Grid, h: nat, w: nat, feedRate: real, killRate: real,
                      a0: real, b0: real, y: int, x: int)
    requires Shape(A, h, w) && Shape(B, h, w) && 0 <= y < h && 0 <= x < w
    requires forall j, i :: 0 <= j < h && 0 <= i < w ==> A[j][i] == a0 && B[j][i] == b0
    ensures Next(A, B, h, w, feedRate, killRate).0[y][x] == CellA(a0, b0, 0.0, feedRate)
    ensures Next(A, B, h, w, feedRate, killRate).1[y][x] == CellB(a0, b0, 0.0, feedRate, killRate)
  {
    assert A[y][x] == a0 && B[y][x] == b0;
    LaplacianOfConstant(A, a0, x, y);
    LaplacianOfConstant(B, b0, x, y);
    NextCell(A, B, h, w, feedRate, killRate, y, x);
  }

  /** Uniform A = 1, B = 0 is a fixed point of the whole simulation: without
      seed spots no pattern ever forms. */
  lemma {:induction false} SteadyState(h: nat, w: nat, feedRate: real, killRate: real, n: nat)
    ensures Simulate(Filled(h, w, 1.0), Filled(h, w, 0.0), h, w, feedRate, killRate, n)
      == (Filled(h, w, 1.0), Filled(h, w, 0.0))
    decreases n
  {
    if n > 0 {
      SteadyState(h, w, feedRate, killRate, n - 1);
      NextAtRest(h, w, feedRate, killRate);
    }
  }

  // ---------------------------------------------------------------------------
  // Seeding and the whole simulation
  // ---------------------------------------------------------------------------

  /** A seed spot centre `(cx, cy)`. */
  type Centre = (int, int)

  /** Cell `(x, y)` lies in the 7 by 7 square around centre `c`. */
  predicate Near(c: Centre, x: int, y: int) {
    -3 <= x - c.0 <= 3 && -3 <= y - c.1 <= 3
  }

  /** Some centre of `cs` is near cell `(x, y)`. */
  predicate NearSeed(cs: seq<Centre>, x: int, y: int)
    decreases |cs|
  {
    cs != [] && (NearSeed(cs[..|cs| - 1], x, y) || Near(cs[|cs| - 1], x, y))
  }

  lemma {:induction false} NearSeedExists(cs: seq<Centre>, x: int, y: int)
    ensures NearSeed(cs, x, y) <==> exists k :: 0 <= k < |cs| && Near(cs[k], x, y)
    decreases |cs|
  {
    if cs != [] {
      var init := cs[..|cs| - 1];
      NearSeedExists(init, x, y);
      if NearSeed(init, x, y) {
        var k :| 0 <= k < |init| && Near(init[k], x, y);
        assert cs[k] == init[k];
      }
      if exists k :: 0 <= k < |cs| && Near(cs[k], x, y) {
        var k :| 0 <= k < |cs| && Near(cs[k], x, y);
        if k < |init| {
          assert init[k] == cs[k];
        }
      }
    }
  }

  /** The seeded B: 1 within three cells of a seed centre, 0 elsewhere. */
  function Seeded(h: nat, w: nat, cs: seq<Centre>): (g: Grid)
    ensures Shape(g, h, w) && InUnit(g)
  {
    seq(h, y => seq(w, x => if NearSeed(cs, x, y) then 1.0 else 0.0))
  }

  /** The cells a spot around `c` has set once its rows above `dy` are done
      and, in row `dy`, its columns left of `dx`. */
  predicate Covered(c: Centre, dy: int, dx: int, x: int, y: int) {
    -3 <= x - c.0 <= 3 && -3 <= y - c.1
    && (y - c.1 < dy || (y - c.1 == dy && x - c.0 < dx))
  }

  /** The seeding loop: for each centre, set every in-grid cell of its 7 by 7
      square to 1. */
  method SeedSpots(h: nat, w: nat, centres: seq<Centre>) returns (B: Grid)
    ensures B == Seeded(h, w, centres)
  {
    B := Filled(h, w, 0.0);
    for k := 0 to |centres|
      invariant Shape(B, h, w)
      invariant forall y, x :: 0 <= y < h && 0 <= x < w ==>
        B[y][x] == if NearSeed(centres[..k], x, y) then 1.0 else 0.0
    {
      assert centres[..k + 1][..k] == centres[..k];
      var (cx, cy) := centres[k];
      var dy := -3;
      while dy < 4
        invariant -3 <= dy <= 4
        invariant Shape(B, h, w)
        invariant forall y, x :: 0 <= y < h && 0 <= x < w ==>
          B[y][x] == if NearSeed(centres[..k], x, y) || Covered(centres[k], dy, -3, x, y) then 1.0 else 0.0
      {
        var dx := -3;
        while dx < 4
          invariant -3 <= dx <= 4
          invariant Shape(B, h, w)
          invariant forall y, x :: 0 <= y < h && 0 <= x < w ==>
            B[y][x] == if NearSeed(centres[..k], x, y) || Covered(centres[k], dy, dx, x, y) then 1.0 else 0.0
        {
          if 0 <= cy + dy < h && 0 <= cx + dx < w {
            B := B[cy + dy := B[cy + dy][cx + dx := 1.0]];
          }
          dx := dx + 1;
        }
        dy := dy + 1;
      }
    }
    assert centres[..|centres|] == centres;
    SameCells(B, Seeded(h, w, centres), h, w);
  }

  /** The grid B returned by `reaction_diffusion` for these spot centres. */
  function Pattern(width: int, height: int, iterations: int, feedRate: real, killRate: real,
                   centres: seq<Centre>): (g: Grid)
    ensures Shape(g, Max(height, 0), Max(width, 0))
  {
    var h, w := Max(height, 0), Max(width, 0);
    Simulate(Filled(h, w, 1.0), Seeded(h, w, centres), h, w, feedRate, killRate, Max(iterations, 0)).1
  }

  /** `reaction_diffusion`, with the spot centres given instead of drawn at
      random. */
  method RunReactionDiffusion(width: int, height: int, iterations: int, feedRate: real,
                              killRate: real, centres: seq<Centre>)
    returns (B: Grid)
    ensures B == Pattern(width, height, iterations, feedRate, killRate, centres)
    ensures Shape(B, Max(height, 0), Max(width, 0)) && InUnit(B)
  {
    var h, w := Max(height, 0), Max(width, 0);
    var A := Filled(h, w, 1.0);
    B := SeedSpots(h, w, centres);
    ghost var A0, B0 := A, B;
    for i := 0 to Max(iterations, 0)
      invariant (A, B) == Simulate(A0, B0, h, w, feedRate, killRate, i)
    {
      A, B := Step(A, B, h, w, feedRate, killRate);
    }
    SimulateInUnit(A0, B0, h, w, feedRate, killRate, Max(iterations, 0));
  }

  /** With no iterations the result is the seeded grid. */
  lemma NoIterations(width: int, height: int, iterations: int, feedRate: real, killRate: real,
                     centres: seq<Centre>)
    requires iterations <= 0
    ensures Pattern(width, height, iterations, feedRate, killRate, centres)
      == Seeded(Max(height, 0), Max(width, 0), centres)
  {
  }

  /** Without seed spots the result is all zeros, however long it runs. */
  lemma NoSeedsNoPattern(width: int, height: int, iterations: int, feedRate: real, killRate: real)
    ensures Pattern(width, height, iterations, feedRate, killRate, [])
      == Filled(Max(height, 0), Max(width, 0), 0.0)
  {
    var h, w := Max(height, 0), Max(width, 0);
    SameCells(Seeded(h, w, []), Filled(h, w, 0.0), h, w);
    SteadyState(h, w, feedRate, killRate, Max(iterations, 0));
  }

  // ---------------------------------------------------------------------------
  // Conversion to points
  // ---------------------------------------------------------------------------

  /** The width the conversions read: the length of the first row, or 0 for
      a pattern without rows. */
  function PatternWidth(pattern: Grid): nat {
    if |pattern| > 0 then |pattern[0]| else 0
  }

  /** Every row has at least `PatternWidth(pattern)` cells, so that every
      index the conversions visit exists. */
  predicate Readable(pattern: Grid) {
    forall y :: 0 <= y < |pattern| ==> |pattern[y]| >= PatternWidth(pattern)
  }

  /** The point for cell (x, y): x and y scaled by `scaleXY`, the value by
      `scaleZ`. */
  function CellPoint(pattern: Grid, x: int, y: int, scaleXY: real, scaleZ: real): Point {
    Point(x as real * scaleXY, y as real * scaleXY, ValueAt(pattern, x, y) * scaleZ)
  }

  /** The value of cell (x, y). The conversions only read cells inside the
      pattern; 0.0 stands in for any other. */
  function ValueAt(pattern: Grid, x: int, y: int): (v: real)
    ensures 0 <= y < |pattern| && 0 <= x < |pattern[y]| ==> v == pattern[y][x]
  {
    if 0 <= y < |pattern| && 0 <= x < |pattern[y]| then pattern[y][x] else 0.0
  }

  /** A cell of a pattern, by column and row. */
  datatype Cell = Cell(x: int, y: int)

  /** The cells among the first `n` of row `y` whose value is above
      `threshold`, left to right. */
  function RowCells(pattern: Grid, y: int, n: nat, threshold: real): seq<Cell>
    requires 0 <= y < |pattern| && n <= |pattern[y]|
  {
    if n == 0 then []
    else RowCells(pattern, y, n - 1, threshold)
         + (if pattern[y][n - 1] > threshold then [Cell(n - 1, y)] else [])
  }

  /** The cells among the first `m` rows, each read across the width, whose
      value is above `threshold`, in row-major order. */
  function GridCells(pattern: Grid, m: nat, threshold: real): seq<Cell>
    requires Readable(pattern) && m <= |pattern|
  {
    if m == 0 then []
    else GridCells(pattern, m - 1, threshold)
         + RowCells(pattern, m - 1, PatternWidth(pattern), threshold)
  }

  /** The points of the given cells, in the same order. */
  function PointsOf(pattern: Grid, cells: seq<Cell>, scaleXY: real, scaleZ: real): seq<Point> {
    seq(|cells|, k requires 0 <= k < |cells| =>
                   CellPoint(pattern, cells[k].x, cells[k].y, scaleXY, scaleZ))
  }

  /** The cells `reaction_diffusion_to_points` turns into points. */
  function CellsAbove(pattern: Grid, threshold: real): seq<Cell>
    requires Readable(pattern)
  {
    GridCells(pattern, |pattern|, threshold)
  }

  /** What `reaction_diffusion_to_points` returns. */
  function ToPoints(pattern: Grid, scaleXY: real, scaleZ: real, threshold: real): seq<Point>
    requires Readable(pattern)
  {
    PointsOf(pattern, CellsAbove(pattern, threshold), scaleXY, scaleZ)
  }

  /** `reaction_diffusion_to_points`: one point per cell above the threshold,
      visiting rows top to bottom and each row left to right. */
  method PatternToPoints(pattern: Grid, scaleXY: real, scaleZ: real, threshold: real)
    returns (points: seq<Point>)
    requires Readable(pattern)
    ensures points == ToPoints(pattern, scaleXY, scaleZ, threshold)
  {
    points := [];
    var height := |pattern|;
    var width := if height > 0 then |pattern[0]| else 0;
    assert width == PatternWidth(pattern);
    for y := 0 to height
      invariant points == PointsOf(pattern, GridCells(pattern, y, threshold), scaleXY, scaleZ)
    {
      var rowPoints := RowToPoints(pattern, y, width, scaleXY, scaleZ, threshold);
      PointsOfAppend(pattern, GridCells(pattern, y, threshold), RowCells(pattern, y, width, threshold),
                     scaleXY, scaleZ);
      points := points + rowPoints;
    }
  }

  /** The inner loop of `reaction_diffusion_to_points`: the points of the
      first `width` cells of row `y` above the threshold. */
  method RowToPoints(pattern: Grid, y: int, width: nat, scaleXY: real, scaleZ: real,
                     threshold: real)
    returns (points: seq<Point>)
    requires 0 <= y < |pattern| && width <= |pattern[y]|
    ensures points == PointsOf(pattern, RowCells(pattern, y, width, threshold), scaleXY, scaleZ)
  {
    points := [];
    for x := 0 to width
      invariant points == PointsOf(pattern, RowCells(pattern, y, x, threshold), scaleXY, scaleZ)
    {
      var value := pattern[y][x];
      ghost var before := RowCells(pattern, y, x, threshold);
      if value > threshold {
        assert RowCells(pattern, y, x + 1, threshold) == before + [Cell(x, y)];
        PointsOfSnoc(pattern, before, Cell(x, y), scaleXY, scaleZ);
        assert Point(x as real * scaleXY, y as real * scaleXY, value * scaleZ)
               == CellPoint(pattern, x, y, scaleXY, scaleZ);
        points := points + [Point(x as real * scaleXY, y as real * scaleXY, value * scaleZ)];
      } else {
        assert RowCells(pattern, y, x + 1, threshold) == before + [];
        assert before + [] == before;
      }
    }
  }

  /** The points of two runs of cells, one after the other. */
  lemma PointsOfAppend(pattern: Grid, a: seq<Cell>, b: seq<Cell>, scaleXY: real, scaleZ: real)
    ensures PointsOf(pattern, a + b, scaleXY, scaleZ)
            == PointsOf(pattern, a, scaleXY, scaleZ) + PointsOf(pattern, b, scaleXY, scaleZ)
  {
    forall k | 0 <= k < |a| + |b|
      ensures PointsOf(pattern, a + b, scaleXY, scaleZ)[k]
              == (PointsOf(pattern, a, scaleXY, scaleZ) + PointsOf(pattern, b, scaleXY, scaleZ))[k]
    {
      if k < |a| {
        assert (a + b)[k] == a[k];
      } else {
        assert (a + b)[k] == b[k - |a|];
      }
    }
  }

  /** Every listed cell of row `y` is among its first `n` cells and holds a
      value above the threshold. */
  lemma {:induction false} RowCellsSound(pattern: Grid, y: int, n: nat, threshold: real)
    requires 0 <= y < |pattern| && n <= |pattern[y]|
    ensures forall c :: c in RowCells(pattern, y, n, threshold) ==>
              c.y == y && 0 <= c.x < n && pattern[y][c.x] > threshold
  {
    if n > 0 {
      RowCellsSound(pattern, y, n - 1, threshold);
    }
  }

  /** Every listed cell of the first `m` rows lies among them, within the
      pattern's width, and holds a value above the threshold. */
  lemma {:induction false} GridCellsSound(pattern: Grid, m: nat, threshold: real)
    requires Readable(pattern) && m <= |pattern|
    ensures forall c :: c in GridCells(pattern, m, threshold) ==>
              0 <= c.y < m && 0 <= c.x < PatternWidth(pattern) && pattern[c.y][c.x] > threshold
  {
    if m > 0 {
      GridCellsSound(pattern, m - 1, threshold);
      RowCellsSound(pattern, m - 1, PatternWidth(pattern), threshold);
    }
  }

  /** One more cell adds its point at the end. */
  lemma PointsOfSnoc(pattern: Grid, cells: seq<Cell>, c: Cell, scaleXY: real, scaleZ: real)
    ensures PointsOf(pattern, cells + [c], scaleXY, scaleZ)
            == PointsOf(pattern, cells, scaleXY, scaleZ) + [CellPoint(pattern, c.x, c.y, scaleXY, scaleZ)]
  {
    assert (cells + [c])[|cells|] == c;
  }

  /** Each of the first `n` cells of row `y` above the threshold is listed. */
  lemma {:induction false} RowCellsComplete(pattern: Grid, y: int, n: nat, threshold: real, x: int)
    requires 0 <= y < |pattern| && n <= |pattern[y]|
    requires 0 <= x < n && pattern[y][x] > threshold
    ensures Cell(x, y) in RowCells(pattern, y, n, threshold)
  {
    if x < n - 1 {
      RowCellsComplete(pattern, y, n - 1, threshold, x);
    }
  }

  /** Each cell of the first `m` rows, within the pattern's width, above the
      threshold is listed. */
  lemma {:induction false} GridCellsComplete(pattern: Grid, m: nat, threshold: real,
                                             y: int, x: int)
    requires Readable(pattern) && m <= |pattern|
    requires 0 <= y < m && 0 <= x < PatternWidth(pattern) && pattern[y][x] > threshold
    ensures Cell(x, y) in GridCells(pattern, m, threshold)
  {
    if y == m - 1 {
      RowCellsComplete(pattern, y, PatternWidth(pattern), threshold, x);
    } else {
      GridCellsComplete(pattern, m - 1, threshold, y, x);
    }
  }

  /** Cell `a` comes before cell `b` in row-major order. */
  predicate Before(a: Cell, b: Cell) {
    a.y < b.y || (a.y == b.y && a.x < b.x)
  }

  /** The cells are listed in strictly increasing row-major order. */
  predicate RowMajor(cells: seq<Cell>) {
    forall i, j :: 0 <= i < j < |cells| ==> Before(cells[i], cells[j])
  }

  /** Two runs in row-major order, the first wholly before the second, make
      one run in row-major order. */
  lemma RowMajorAppend(a: seq<Cell>, b: seq<Cell>)
    requires RowMajor(a) && RowMajor(b)
    requires forall c, d :: c in a && d in b ==> Before(c, d)
    ensures RowMajor(a + b)
  {
    var cs := a + b;
    forall i, j | 0 <= i < j < |cs|
      ensures Before(cs[i], cs[j])
    {
      if j < |a| {
        assert cs[i] == a[i] && cs[j] == a[j];
      } else if i < |a| {
        assert cs[i] == a[i] && cs[j] == b[j - |a|];
        assert a[i] in a && b[j - |a|] in b;
      } else {
        assert cs[i] == b[i - |a|] && cs[j] == b[j - |a|];
      }
    }
  }

  /** The cells of a row are listed left to right, each at most once. */
  lemma {:induction false} RowCellsRowMajor(pattern: Grid, y: int, n: nat, threshold: real)
    requires 0 <= y < |pattern| && n <= |pattern[y]|
    ensures RowMajor(RowCells(pattern, y, n, threshold))
  {
    if n > 0 {
      RowCellsRowMajor(pattern, y, n - 1, threshold);
      RowCellsSound(pattern, y, n - 1, threshold);
      var last := if pattern[y][n - 1] > threshold then [Cell(n - 1, y)] else [];
      RowMajorAppend(RowCells(pattern, y, n - 1, threshold), last);
    }
  }

  /** The listed cells of a pattern are in row-major order, each at most
      once, so no cell gives two points. */
  lemma {:induction false} GridCellsRowMajor(pattern: Grid, m: nat, threshold: real)
    requires Readable(pattern) && m <= |pattern|
    ensures RowMajor(GridCells(pattern, m, threshold))
  {
    if m > 0 {
      GridCellsRowMajor(pattern, m - 1, threshold);
      RowCellsRowMajor(pattern, m - 1, PatternWidth(pattern), threshold);
      GridCellsSound(pattern, m - 1, threshold);
      RowCellsSound(pattern, m - 1, PatternWidth(pattern), threshold);
      RowMajorAppend(GridCells(pattern, m - 1, threshold),
                     RowCells(pattern, m - 1, PatternWidth(pattern), threshold));
    }
  }

  /** The points of a pattern are exactly the points of its cells above the
      threshold. */
  lemma ToPointsExactly(pattern: Grid, scaleXY: real, scaleZ: real, threshold: real, p: Point)
    requires Readable(pattern)
    ensures p in ToPoints(pattern, scaleXY, scaleZ, threshold)
      <==> exists y, x :: 0 <= y < |pattern| && 0 <= x < PatternWidth(pattern)
                          && pattern[y][x] > threshold
                          && p == CellPoint(pattern, x, y, scaleXY, scaleZ)
  {
    var h, w := |pattern|, PatternWidth(pattern);
    var cells := CellsAbove(pattern, threshold);
    var points := ToPoints(pattern, scaleXY, scaleZ, threshold);
    GridCellsSound(pattern, h, threshold);
    if p in points {
      var k :| 0 <= k < |points| && points[k] == p;
      assert cells[k] in cells;
      assert 0 <= cells[k].y < h && 0 <= cells[k].x < w && pattern[cells[k].y][cells[k].x] > threshold
             && p == CellPoint(pattern, cells[k].x, cells[k].y, scaleXY, scaleZ);
    }
    if exists y, x :: 0 <= y < h && 0 <= x < w && pattern[y][x] > threshold
                      && p == CellPoint(pattern, x, y, scaleXY, scaleZ)
    {
      var y, x :| 0 <= y < h && 0 <= x < w && pattern[y][x] > threshold
                  && p == CellPoint(pattern, x, y, scaleXY, scaleZ);
      GridCellsComplete(pattern, h, threshold, y, x);
      var k :| 0 <= k < |cells| && cells[k] == Cell(x, y);
      assert points[k] == p;
    }
  }

  /** A row gives at most one point per cell, and exactly one per cell when
      every cell is above the threshold. */
  lemma {:induction false} RowCellsCount(pattern: Grid, y: int, n: nat, threshold: real)
    requires 0 <= y < |pattern| && n <= |pattern[y]|
    ensures |RowCells(pattern, y, n, threshold)| <= n
    ensures (forall x :: 0 <= x < n ==> pattern[y][x] > threshold)
            ==> |RowCells(pattern, y, n, threshold)| == n
  {
    if n > 0 {
      RowCellsCount(pattern, y, n - 1, threshold);
    }
  }

  // ---------------------------------------------------------------------------
  // Conversion to a sampled surface grid
  // ---------------------------------------------------------------------------

  /** Python's `range(start, stop, step)` for a positive step. */
  function Range(start: int, stop: int, step: int): (r: seq<int>)
    requires step > 0
    ensures forall k :: 0 <= k < |r| ==> start <= r[k] < stop
    decreases stop - start
  {
    if start >= stop then [] else [start] + Range(start + step, stop, step)
  }

  /** `range` counts up from `start` in steps of `step` and stops at the last
      value below `stop`. */
  lemma {:induction false} RangeShape(start: int, stop: int, step: int)
    requires step > 0
    ensures var r := Range(start, stop, step);
      && (r == [] <==> start >= stop)
      && (r != [] ==> r[0] == start && stop <= r[|r| - 1] + step)
      && (forall k :: 0 < k < |r| ==> r[k] == r[k - 1] + step)
    decreases stop - start
  {
    if start < stop {
      RangeShape(start + step, stop, step);
    }
  }

  /** A value is produced by `range` exactly when it lies in [start, stop) and
      is a whole number of steps past `start`. */
  lemma {:induction false} RangeMembers(start: int, stop: int, step: int, i: int)
    requires step > 0
    ensures i in Range(start, stop, step) <==> start <= i < stop && (i - start) % step == 0
    decreases stop - start
  {
    if start < stop {
      RangeMembers(start + step, stop, step, i);
      ModShift(i - start - step, step);
      if start < i < start + step {
        ModOf(i - start, step, 0, i - start);
      }
    }
  }

  /** Adding the divisor leaves the remainder unchanged. */
  lemma ModShift(a: int, n: int)
    requires n > 0
    ensures (a + n) % n == a % n
  {
    ModOf(a + n, n, a / n + 1, a % n);
  }

  /** With step 1, `range` lists every integer of [start, stop). */
  lemma {:induction false} RangeByOne(start: int, stop: int)
    ensures Range(start, stop, 1) == seq(Max(stop - start, 0), k => start + k)
    decreases stop - start
  {
    if start < stop {
      RangeByOne(start + 1, stop);
    }
  }

  /** The sampling stride: one cell in fifty of the width, and at least 1. */
  function Stride(pattern: Grid): (step: int)
    ensures step >= 1
  {
    Max(1, PatternWidth(pattern) / 50)
  }

  /** The sampled points of row `y` from column `x` on: columns x, x + step,
      ... below the width. */
  function SampledRow(pattern: Grid, y: int, x: int, step: int, scaleXY: real, scaleZ: real)
    : seq<Point>
    requires 0 <= y < |pattern| && 0 <= x && step > 0
    decreases PatternWidth(pattern) - x
  {
    if x >= PatternWidth(pattern) then []
    else [CellPoint(pattern, x, y, scaleXY, scaleZ)]
         + SampledRow(pattern, y, x + step, step, scaleXY, scaleZ)
  }

  /** The sampled rows from row `y` on: rows y, y + step, ... below the
      height, each sampled from column 0. */
  function SampledRows(pattern: Grid, y: int, step: int, scaleXY: real, scaleZ: real)
    : seq<seq<Point>>
    requires 0 <= y && step > 0
    decreases |pattern| - y
  {
    if y >= |pattern| then []
    else [SampledRow(pattern, y, 0, step, scaleXY, scaleZ)]
         + SampledRows(pattern, y + step, step, scaleXY, scaleZ)
  }

  /** The point grid `reaction_diffusion_to_surface` builds its surface from. */
  function Surface(pattern: Grid, scaleXY: real, scaleZ: real): seq<seq<Point>>
  {
    SampledRows(pattern, 0, Stride(pattern), scaleXY, scaleZ)
  }

  /** The length a row needs for the sampling to read it: one more than the
      last column `range(0, width, step)` reaches, or 0 for an empty width. */
  function SampledLength(pattern: Grid): nat {
    var w, step := PatternWidth(pattern), Stride(pattern);
    if w == 0 then 0 else ((w - 1) / step) * step + 1
  }

  /** Every row the sampling visits is long enough for the columns it reads. */
  predicate SampledReadable(pattern: Grid) {
    forall y :: 0 <= y < |pattern| && y % Stride(pattern) == 0 ==> |pattern[y]| >= SampledLength(pattern)
  }

  /** A value strictly between a multiple of `step` and the next one has the
      distance from the lower multiple as its remainder. */
  lemma RemainderPastMultiple(x: int, q: int, step: int)
    requires step > 0
    ensures q * step < x < q * step + step ==> x % step == x - q * step
  {
    if q * step < x < q * step + step {
      ModOf(x, step, q, x - q * step);
    }
  }

  /** A column of `range(0, w, step)` lies at or before the last one. */
  lemma SampledColumnBelow(x: int, w: int, step: int)
    requires step > 0 && 0 <= x < w && x % step == 0
    ensures x <= ((w - 1) / step) * step
  {
    var last := (w - 1) / step;
    assert w - 1 == last * step + (w - 1) % step;
    RemainderPastMultiple(x, last, step);
  }

  /** The last column the sampling reads is one the sampling produces. */
  lemma LastSampledColumn(w: int, step: int)
    requires step > 0 && w > 0
    ensures var last := ((w - 1) / step) * step;
      0 <= last < w && last % step == 0
  {
    var last := ((w - 1) / step) * step;
    SampledColumnBelow(0, w, step);
    assert w - 1 == last + (w - 1) % step;
    ModOf(last, step, (w - 1) / step, 0);
  }

  /** In a sampled-readable pattern each cell the sampling reads is inside its row. */
  lemma SampledCellInRow(pattern: Grid, y: int, x: int)
    requires SampledReadable(pattern)
    requires y in Range(0, |pattern|, Stride(pattern)) && x in Range(0, PatternWidth(pattern), Stride(pattern))
    ensures 0 <= y < |pattern| && x < |pattern[y]|
  {
    var step, w := Stride(pattern), PatternWidth(pattern);
    RangeMembers(0, |pattern|, step, y);
    RangeMembers(0, w, step, x);
    SampledColumnBelow(x, w, step);
  }

  /** If every cell the sampling reads is inside its row, each sampled row
      reaches the last sampled column. */
  lemma SampledRowLongEnough(pattern: Grid, y: int)
    requires forall y, x :: y in Range(0, |pattern|, Stride(pattern)) && x in Range(0, PatternWidth(pattern), Stride(pattern))
               ==> 0 <= y < |pattern| && x < |pattern[y]|
    requires 0 <= y < |pattern| && y % Stride(pattern) == 0
    ensures |pattern[y]| >= SampledLength(pattern)
  {
    var step, w := Stride(pattern), PatternWidth(pattern);
    RangeMembers(0, |pattern|, step, y);
    if w > 0 {
      var last := ((w - 1) / step) * step;
      LastSampledColumn(w, step);
      RangeMembers(0, w, step, last);
    }
  }

  /** `SampledReadable` is exactly the condition under which every cell the
      sampling loops of `reaction_diffusion_to_surface` read is inside its
      row, so the model excludes precisely the patterns for which Python's
      `pattern[y][x]` raises an `IndexError`. */
  lemma SampledReadableExactly(pattern: Grid)
    ensures SampledReadable(pattern) <==>
      forall y, x :: y in Range(0, |pattern|, Stride(pattern)) && x in Range(0, PatternWidth(pattern), Stride(pattern))
        ==> 0 <= y < |pattern| && x < |pattern[y]|
  {
    if SampledReadable(pattern) {
      forall y, x | y in Range(0, |pattern|, Stride(pattern)) && x in Range(0, PatternWidth(pattern), Stride(pattern))
        ensures 0 <= y < |pattern| && x < |pattern[y]|
      {
        SampledCellInRow(pattern, y, x);
      }
    }
    if forall y, x :: y in Range(0, |pattern|, Stride(pattern)) && x in Range(0, PatternWidth(pattern), Stride(pattern))
         ==> 0 <= y < |pattern| && x < |pattern[y]|
    {
      forall y | 0 <= y < |pattern| && y % Stride(pattern) == 0
        ensures |pattern[y]| >= SampledLength(pattern)
      {
        SampledRowLongEnough(pattern, y);
      }
    }
  }

  /** A pattern whose rows are all as long as the first can be sampled. */
  lemma ReadableIsSampledReadable(pattern: Grid)
    requires Readable(pattern)
    ensures SampledReadable(pattern)
  {
    var w, step := PatternWidth(pattern), Stride(pattern);
    if w > 0 {
      SampledColumnBelow(0, w, step);
      assert ((w - 1) / step) * step <= w - 1 by {
        assert w - 1 == ((w - 1) / step) * step + (w - 1) % step;
      }
    }
  }

  /** The sampling loops of `reaction_diffusion_to_surface`, returning the
      point grid. */
  method PatternToSurface(pattern: Grid, scaleXY: real, scaleZ: real)
    returns (grid: seq<seq<Point>>)
    requires SampledReadable(pattern)
    ensures grid == Surface(pattern, scaleXY, scaleZ)
  {
    var height := |pattern|;
    var width := if height > 0 then |pattern[0]| else 0;
    var step := Max(1, width / 50);
    assert step == Stride(pattern);
    grid := [];
    var y := 0;
    while y < height
      invariant 0 <= y && y % step == 0
      invariant grid + SampledRows(pattern, y, step, scaleXY, scaleZ)
                == Surface(pattern, scaleXY, scaleZ)
      decreases height - y
    {
      var row := SampleRow(pattern, y, step, scaleXY, scaleZ);
      grid := grid + [row];
      ModShift(y, step);
      y := y + step;
    }
  }

  /** The inner loop of `reaction_diffusion_to_surface`: the sampled points of
      row `y`. */
  method SampleRow(pattern: Grid, y: int, step: int, scaleXY: real, scaleZ: real)
    returns (row: seq<Point>)
    requires SampledReadable(pattern) && step == Stride(pattern)
    requires 0 <= y < |pattern| && y % step == 0
    ensures row == SampledRow(pattern, y, 0, step, scaleXY, scaleZ)
  {
    var width := if |pattern| > 0 then |pattern[0]| else 0;
    assert width == PatternWidth(pattern);
    row := [];
    var x := 0;
    while x < width
      invariant 0 <= x && x % step == 0
      invariant row + SampledRow(pattern, y, x, step, scaleXY, scaleZ)
                == SampledRow(pattern, y, 0, step, scaleXY, scaleZ)
      decreases width - x
    {
      SampledColumnBelow(x, width, step);
      var value := pattern[y][x];
      ghost var done, point := row, CellPoint(pattern, x, y, scaleXY, scaleZ);
      ghost var rest := SampledRow(pattern, y, x + step, step, scaleXY, scaleZ);
      assert SampledRow(pattern, y, x, step, scaleXY, scaleZ) == [point] + rest;
      assert Point(x as real * scaleXY, y as real * scaleXY, value * scaleZ) == point;
      row := row + [Point(x as real * scaleXY, y as real * scaleXY, value * scaleZ)];
      assert row + rest == done + ([point] + rest);
      ModShift(x, step);
      x := x + step;
    }
  }

  /** A sampled row holds the points of the columns `range(x, width, step)`
      yields, in that order. */
  lemma {:induction false} SampledRowIsRange(pattern: Grid, y: int, x: int, step: int,
                                             scaleXY: real, scaleZ: real)
    requires 0 <= y < |pattern| && 0 <= x && step > 0
    ensures var r, xs := SampledRow(pattern, y, x, step, scaleXY, scaleZ),
                         Range(x, PatternWidth(pattern), step);
      |r| == |xs| && forall k :: 0 <= k < |r| ==> r[k] == CellPoint(pattern, xs[k], y, scaleXY, scaleZ)
    decreases PatternWidth(pattern) - x
  {
    if x < PatternWidth(pattern) {
      SampledRowIsRange(pattern, y, x + step, step, scaleXY, scaleZ);
    }
  }

  /** The sampled rows are the rows `range(y, height, step)` yields, in that
      order. */
  lemma {:induction false} SampledRowsIsRange(pattern: Grid, y: int, step: int,
                                              scaleXY: real, scaleZ: real)
    requires 0 <= y && step > 0
    ensures var g, ys := SampledRows(pattern, y, step, scaleXY, scaleZ), Range(y, |pattern|, step);
      |g| == |ys| && forall k :: 0 <= k < |g| ==> g[k] == SampledRow(pattern, ys[k], 0, step, scaleXY, scaleZ)
    decreases |pattern| - y
  {
    if y < |pattern| {
      SampledRowsIsRange(pattern, y + step, step, scaleXY, scaleZ);
    }
  }

  /** `p` is one of the points of `grid`. */
  predicate OnGrid(grid: seq<seq<Point>>, p: Point) {
    exists i, j :: 0 <= i < |grid| && 0 <= j < |grid[i]| && grid[i][j] == p
  }

  /** Every point of the sampled grid is the point of a cell whose row and
      column are both whole multiples of the stride. */
  lemma SurfaceSound(pattern: Grid, scaleXY: real, scaleZ: real, i: int, j: int)
    requires 0 <= i < |Surface(pattern, scaleXY, scaleZ)|
    requires 0 <= j < |Surface(pattern, scaleXY, scaleZ)[i]|
    ensures exists y, x :: 0 <= y < |pattern| && 0 <= x < PatternWidth(pattern)
                           && y % Stride(pattern) == 0 && x % Stride(pattern) == 0
                           && Surface(pattern, scaleXY, scaleZ)[i][j]
                              == CellPoint(pattern, x, y, scaleXY, scaleZ)
  {
    var step, w := Stride(pattern), PatternWidth(pattern);
    var ys, xs := Range(0, |pattern|, step), Range(0, w, step);
    SampledRowsIsRange(pattern, 0, step, scaleXY, scaleZ);
    var y := ys[i];
    SampledRowIsRange(pattern, y, 0, step, scaleXY, scaleZ);
    var x := xs[j];
    RangeMembers(0, |pattern|, step, y);
    RangeMembers(0, w, step, x);
    assert Surface(pattern, scaleXY, scaleZ)[i][j] == CellPoint(pattern, x, y, scaleXY, scaleZ);
  }

  /** The point of every cell whose row and column are both whole multiples
      of the stride is on the sampled grid. */
  lemma SurfaceComplete(pattern: Grid, scaleXY: real, scaleZ: real, y: int, x: int)
    requires 0 <= y < |pattern| && 0 <= x < PatternWidth(pattern)
    requires y % Stride(pattern) == 0 && x % Stride(pattern) == 0
    ensures OnGrid(Surface(pattern, scaleXY, scaleZ), CellPoint(pattern, x, y, scaleXY, scaleZ))
  {
    var step, w := Stride(pattern), PatternWidth(pattern);
    var ys, xs := Range(0, |pattern|, step), Range(0, w, step);
    var g := Surface(pattern, scaleXY, scaleZ);
    RangeMembers(0, |pattern|, step, y);
    RangeMembers(0, w, step, x);
    var i :| 0 <= i < |ys| && ys[i] == y;
    var j :| 0 <= j < |xs| && xs[j] == x;
    SampledRowsIsRange(pattern, 0, step, scaleXY, scaleZ);
    SampledRowIsRange(pattern, y, 0, step, scaleXY, scaleZ);
    assert g[i][j] == CellPoint(pattern, x, y, scaleXY, scaleZ);
  }

  /** Patterns narrower than 100 cells are not thinned: the grid holds the
      point of every cell, row by row. */
  lemma FullResolution(pattern: Grid, scaleXY: real, scaleZ: real)
    requires PatternWidth(pattern) < 100
    ensures var g := Surface(pattern, scaleXY, scaleZ);
      && |g| == |pattern|
      && forall y :: 0 <= y < |g| ==>
           |g[y]| == PatternWidth(pattern)
           && forall x :: 0 <= x < |g[y]| ==> g[y][x] == CellPoint(pattern, x, y, scaleXY, scaleZ)
  {
    var w := PatternWidth(pattern);
    assert Stride(pattern) == 1;
    RangeByOne(0, |pattern|);
    RangeByOne(0, w);
    SampledRowsIsRange(pattern, 0, 1, scaleXY, scaleZ);
    forall y | 0 <= y < |pattern|
      ensures SampledRow(pattern, y, 0, 1, scaleXY, scaleZ)
              == seq(w, x requires 0 <= x < w => CellPoint(pattern, x, y, scaleXY, scaleZ))
    {
      SampledRowIsRange(pattern, y, 0, 1, scaleXY, scaleZ);
    }
  }

  // ---------------------------------------------------------------------------
  // Presets
  // ---------------------------------------------------------------------------

  /** The preset names, in the order the error message lists them. */
  const RdPresetNames: seq<string> :=
    ["spots", "stripes", "labyrinth", "holes", "worms", "mitosis", "coral"]

  /** Each preset's feed rate and kill rate. */
  const RdPresets: map<string, (real, real)> := map[
    "spots" := (0.037, 0.06),
    "stripes" := (0.055, 0.062),
    "labyrinth" := (0.029, 0.057),
    "holes" := (0.039, 0.058),
    "worms" := (0.046, 0.063),
    "mitosis" := (0.037, 0.062),
    "coral" := (0.062, 0.063)
  ]

  /** `get_rd_preset`: the preset's (feed rate, kill rate), or the error
      naming every preset when the name is unknown. */
  function GetRdPreset(name: string): (r: Result<(real, real)>)
    ensures r.Ok? <==> name in RdPresets
    ensures r.Ok? ==> r.value == RdPresets[name]
    ensures name !in RdPresets ==>
      r == ValueError("Unknown preset '" + name + "'. Available: " + Join(RdPresetNames, ", "))
  {
    if name !in RdPresets then
      ValueError("Unknown preset '" + name + "'. Available: " + Join(RdPresetNames, ", "))
    else
      Ok(RdPresets[name])
  }

  /** The listed names are the table's keys, each listed once, so each one
      loads. */
  lemma RdPresetNamesAreKeys()
    ensures forall n :: n in RdPresetNames <==> n in RdPresets
    ensures forall i, j :: 0 <= i < j < |RdPresetNames| ==> RdPresetNames[i] != RdPresetNames[j]
    ensures forall n :: n in RdPresetNames ==> GetRdPreset(n).Ok?
  {
    forall i, j | 0 <= i < j < |RdPresetNames|
      ensures RdPresetNames[i] != RdPresetNames[j]
    {
      assert |RdPresetNames[i]| != |RdPresetNames[j]| || RdPresetNames[i][0] != RdPresetNames[j][0];
    }
  }

  /** Every preset feeds and kills at a positive rate below 0.1, and kills at
      least as fast as it feeds. */
  lemma RdPresetRates(name: string)
    requires name in RdPresets
    ensures var (f, k) := RdPresets[name];
      0.0 < f < 0.1 && 0.0 < k < 0.1 && f <= k
  {
  }
}
