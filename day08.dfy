/** Day 8: a grid of tree heights, read as a square as tall as the grid. Part 1 counts the trees visible from outside the
    grid; part 2 finds the best scenic score, the product of how far a tree sees in each of
    the four directions. */
module Day08 {
  import opened Basics
  import opened Text

  /** Rows of heights; `grid[x][y]` is row `x`, column `y`. */
  type Grid = seq<seq<nat>>

  /** Every row is at least as long as the grid is tall. Both parts read columns `0` to
      `len() - 1` only, so the columns past those are never looked at. */
  predicate Fits(g: Grid)
  {
    forall i :: 0 <= i < |g| ==> |g[i]| >= |g|
  }

  /** Every height is a digit's. */
  predicate Digits(g: Grid)
  {
    forall i, j :: 0 <= i < |g| && 0 <= j < |g[i]| ==> g[i][j] <= 9
  }

  // ----- Reading the grid -----

  /** One line's bytes less `b'0'`. `None` is the `u8` subtraction panicking below `'0'`. */
  function ParseRow(line: string): (r: Option<seq<nat>>)
    ensures r.Some? <==> forall k :: 0 <= k < |line| ==> line[k] >= '0'
    ensures r.Some? ==> |r.value| == |line|
    ensures r.Some? ==> forall k :: 0 <= k < |line| ==> r.value[k] == line[k] as int - '0' as int
  {
    if forall k :: 0 <= k < |line| ==> line[k] >= '0' then
      Some(seq(|line|, k requires 0 <= k < |line| => line[k] as int - '0' as int))
    else None
  }

  /** A row of digit heights written as text. */
  function RenderRow(row: seq<nat>): (line: string)
    requires forall k :: 0 <= k < |row| ==> row[k] <= 9
    ensures |line| == |row|
  {
    seq(|row|, k requires 0 <= k < |row| => (row[k] + '0' as int) as char)
  }

  /** Reading a written row gives the row back. */
  lemma RowRoundTrip(row: seq<nat>)
    requires forall k :: 0 <= k < |row| ==> row[k] <= 9
    ensures ParseRow(RenderRow(row)) == Some(row)
  {
    var line := RenderRow(row);
    assert forall k :: 0 <= k < |line| ==> line[k] >= '0' && line[k] as int - '0' as int == row[k];
    assert ParseRow(line).value == row;
  }

  /** Every line of the input as a row; `None` when any line panics. */
  function ParseGrid(lines: seq<string>): (r: Option<Grid>)
    ensures r.Some? ==> |r.value| == |lines|
    ensures r.Some? ==> forall i :: 0 <= i < |lines| ==> ParseRow(lines[i]) == Some(r.value[i])
    ensures r.None? ==> exists i :: 0 <= i < |lines| && ParseRow(lines[i]).None?
  {
    if lines == [] then Some([])
    else
      match ParseGrid(lines[..|lines| - 1])
      case None => None
      case Some(g) =>
        match ParseRow(lines[|lines| - 1])
        case None => None
        case Some(row) => Some(g + [row])
  }

  // ----- Sightlines and the scenic score -----

  /** How many trees of `ray`, read outward, a tree of height `h` sees: up to and including
      the first one at least as tall, or all of them. */
  function Seen(h: nat, ray: seq<nat>): (r: nat)
    ensures r <= |ray|
  {
    if ray == [] then 0
    else if ray[0] >= h then 1
    else 1 + Seen(h, ray[1..])
  }

  /** The sightline stops at the first tree at least as tall, which it counts. */
  lemma {:induction false} SeenBlocked(h: nat, ray: seq<nat>, k: nat)
    requires k < |ray| && ray[k] >= h
    requires forall j :: 0 <= j < k ==> ray[j] < h
    ensures Seen(h, ray) == k + 1
  {
    if k > 0 {
      SeenBlocked(h, ray[1..], k - 1);
    }
  }

  /** With no tree at least as tall the sightline runs to the edge. */
  lemma {:induction false} SeenClear(h: nat, ray: seq<nat>)
    requires forall j :: 0 <= j < |ray| ==> ray[j] < h
    ensures Seen(h, ray) == |ray|
  {
    if ray != [] {
      SeenClear(h, ray[1..]);
    }
  }

  /** The trees above, below, left of and right of `(x, y)`, nearest first. */
  function Up(g: Grid, x: nat, y: nat): (r: seq<nat>)
    requires Fits(g) && x < |g| && y < |g|
    ensures |r| == x && forall k :: 0 <= k < x ==> r[k] == g[x - 1 - k][y]
  {
    seq(x, k requires 0 <= k < x => g[x - 1 - k][y])
  }

  function Down(g: Grid, x: nat, y: nat): (r: seq<nat>)
    requires Fits(g) && x < |g| && y < |g|
    ensures |r| == |g| - 1 - x && forall k :: 0 <= k < |r| ==> r[k] == g[x + 1 + k][y]
  {
    seq(|g| - 1 - x, k requires 0 <= k < |g| - 1 - x => g[x + 1 + k][y])
  }

  function Left(g: Grid, x: nat, y: nat): (r: seq<nat>)
    requires Fits(g) && x < |g| && y < |g|
    ensures |r| == y && forall k :: 0 <= k < y ==> r[k] == g[x][y - 1 - k]
  {
    seq(y, k requires 0 <= k < y => g[x][y - 1 - k])
  }

  function Right(g: Grid, x: nat, y: nat): (r: seq<nat>)
    requires Fits(g) && x < |g| && y < |g|
    ensures |r| == |g| - 1 - y && forall k :: 0 <= k < |r| ==> r[k] == g[x][y + 1 + k]
  {
    seq(|g| - 1 - y, k requires 0 <= k < |g| - 1 - y => g[x][y + 1 + k])
  }

  /** The scenic score: the product of the four sightlines. */
  function Score(g: Grid, x: nat, y: nat): nat
    requires Fits(g) && x < |g| && y < |g|
  {
    var h := g[x][y];
    Mul(Mul(Mul(Seen(h, Up(g, x, y)), Seen(h, Down(g, x, y))), Seen(h, Left(g, x, y))), Seen(h, Right(g, x, y)))
  }

  function Mul(a: nat, b: nat): nat
  {
    a * b
  }

  /** A tree on the edge sees nothing in one direction, so it scores 0. */
  lemma EdgeScoresZero(g: Grid, x: nat, y: nat)
    requires Fits(g) && x < |g| && y < |g|
    requires x == 0 || y == 0 || x == |g| - 1 || y == |g| - 1
    ensures Score(g, x, y) == 0
  {
    var h := g[x][y];
    var u, d, l, r := Seen(h, Up(g, x, y)), Seen(h, Down(g, x, y)), Seen(h, Left(g, x, y)), Seen(h, Right(g, x, y));
    assert u == 0 || d == 0 || l == 0 || r == 0;
  }

  /** A sightline never reaches past the edge, so the score is at most the product of the
      four distances to the edges. */
  lemma ScoreBound(g: Grid, x: nat, y: nat)
    requires Fits(g) && x < |g| && y < |g|
    ensures Score(g, x, y) <= Mul(Mul(Mul(x, |g| - 1 - x), y), |g| - 1 - y)
  {
    var h := g[x][y];
    var u, d, l, r := Seen(h, Up(g, x, y)), Seen(h, Down(g, x, y)), Seen(h, Left(g, x, y)), Seen(h, Right(g, x, y));
    MulMono(u, d, x, |g| - 1 - x);
    MulMono(Mul(u, d), l, Mul(x, |g| - 1 - x), y);
    MulMono(Mul(Mul(u, d), l), r, Mul(Mul(x, |g| - 1 - x), y), |g| - 1 - y);
  }

  lemma MulMono(a: nat, b: nat, c: nat, d: nat)
    requires a <= c && b <= d
    ensures Mul(a, b) <= Mul(c, d)
  {
    assert a * b <= c * b;
  }

  /** One of `scenic_score`'s loops: count outward, stopping after the first tree at least as
      tall. */
  method Sightline(h: nat, ray: seq<nat>) returns (n: nat)
    ensures n == Seen(h, ray)
  {
    n := 0;
    for k := 0 to |ray|
      invariant n == k
      invariant forall j :: 0 <= j < k ==> ray[j] < h
    {
      n := n + 1;
      if ray[k] >= h {
        SeenBlocked(h, ray, k);
        return;
      }
    }
    SeenClear(h, ray);
  }

  /** `scenic_score`: the four sightlines multiplied into a running score. */
  method ScenicScore(g: Grid, x: nat, y: nat) returns (score: nat)
    requires Fits(g) && x < |g| && y < |g|
    ensures score == Score(g, x, y)
  {
    var mySize := g[x][y];
    score := 1;
    var sightline := Sightline(mySize, Up(g, x, y));
    score := Mul(score, sightline);
    sightline := Sightline(mySize, Down(g, x, y));
    score := Mul(score, sightline);
    sightline := Sightline(mySize, Left(g, x, y));
    score := Mul(score, sightline);
    sightline := Sightline(mySize, Right(g, x, y));
    score := Mul(score, sightline);
  }

  // ----- Part 1: the visibility scans -----

  /** The scan from the left edge of row `x` marks `(x, y)`: no 9 stopped it before `y`, and
      the tree is taller than every tree from the edge to it. */
  predicate FromLeft(g: Grid, x: nat, y: nat)
    requires Fits(g) && x < |g| && y < |g|
  {
    && (forall j :: 0 < j < y ==> g[x][j] != 9)
    && (forall j :: 0 <= j < y ==> g[x][j] < g[x][y])
  }

  predicate FromRight(g: Grid, x: nat, y: nat)
    requires Fits(g) && x < |g| && y < |g|
  {
    && (forall j :: y < j < |g| - 1 ==> g[x][j] != 9)
    && (forall j :: y < j < |g| ==> g[x][j] < g[x][y])
  }

  predicate FromTop(g: Grid, x: nat, y: nat)
    requires Fits(g) && x < |g| && y < |g|
  {
    && (forall i :: 0 < i < x ==> g[i][y] != 9)
    && (forall i :: 0 <= i < x ==> g[i][y] < g[x][y])
  }

  predicate FromBottom(g: Grid, x: nat, y: nat)
    requires Fits(g) && x < |g| && y < |g|
  {
    && (forall i :: x < i < |g| - 1 ==> g[i][y] != 9)
    && (forall i :: x < i < |g| ==> g[i][y] < g[x][y])
  }

  /** Some scan marks the tree. */
  predicate Marked(g: Grid, x: nat, y: nat)
    requires Fits(g) && x < |g| && y < |g|
  {
    FromLeft(g, x, y) || FromRight(g, x, y) || FromTop(g, x, y) || FromBottom(g, x, y)
  }

  /** The puzzle's visibility: every tree between it and some edge is shorter. */
  predicate Visible(g: Grid, x: nat, y: nat)
    requires Fits(g) && x < |g| && y < |g|
  {
    || (forall j :: 0 <= j < y ==> g[x][j] < g[x][y])
    || (forall j :: y < j < |g| ==> g[x][j] < g[x][y])
    || (forall i :: 0 <= i < x ==> g[i][y] < g[x][y])
    || (forall i :: x < i < |g| ==> g[i][y] < g[x][y])
  }

  /** Stopping a scan at a 9 loses nothing on digit heights: the scans mark exactly the
      visible trees. */
  lemma MarkedIsVisible(g: Grid, x: nat, y: nat)
    requires Fits(g) && Digits(g) && x < |g| && y < |g|
    ensures Marked(g, x, y) <==> Visible(g, x, y)
  {
    var h := g[x][y];
    assert h <= 9;
  }

  /** `visibility_map` when the scans are done: one flag per interior tree. */
  function VisibilityMap(g: Grid): (m: seq<seq<bool>>)
    requires Fits(g) && |g| >= 2
    ensures |m| == |g| - 2 && forall i :: 0 <= i < |m| ==> |m[i]| == |g| - 2
  {
    seq(|g| - 2, i requires 0 <= i < |g| - 2 =>
      seq(|g| - 2, j requires 0 <= j < |g| - 2 => Marked(g, i + 1, j + 1)))
  }

  /** A map of `n` by `n` flags. */
  predicate Shape(m: seq<seq<bool>>, n: nat)
  {
    |m| == n && forall i :: 0 <= i < n ==> |m[i]| == n
  }

  /** The scan of row `x` from its left edge: a running maximum from the edge tree, marking
      each tree that beats it, stopping after a 9. */
  method ScanFromLeft(g: Grid, vis: seq<seq<bool>>, x: nat) returns (v: seq<seq<bool>>)
    requires Fits(g) && 1 <= x < |g| - 1 && Shape(vis, |g| - 2)
    ensures Shape(v, |g| - 2)
    ensures forall i, j :: 0 <= i < |g| - 2 && 0 <= j < |g| - 2 ==>
      v[i][j] == (vis[i][j] || (i == x - 1 && FromLeft(g, x, j + 1)))
  {
    var n := |g|;
    v := vis;
    var minimum := g[x][0];
    ghost var at := 0;
    for y := 1 to n - 1
      invariant Shape(v, n - 2)
      invariant forall j :: 0 < j < y ==> g[x][j] != 9
      invariant forall j :: 0 <= j < y ==> g[x][j] <= minimum
      invariant 0 <= at < y && g[x][at] == minimum
      invariant forall i, j :: 0 <= i < n - 2 && 0 <= j < n - 2 ==>
        v[i][j] == (vis[i][j] || (i == x - 1 && j < y - 1 && FromLeft(g, x, j + 1)))
    {
      assert FromLeft(g, x, y) <==> g[x][y] > minimum;
      if g[x][y] > minimum {
        minimum, at := g[x][y], y;
        v := v[x - 1 := v[x - 1][y - 1 := true]];
      }
      if g[x][y] == 9 {
        assert forall j :: y < j < n - 1 ==> !FromLeft(g, x, j);
        return;
      }
    }
  }

  /** The scan of row `x` from its right edge. */
  method ScanFromRight(g: Grid, vis: seq<seq<bool>>, x: nat) returns (v: seq<seq<bool>>)
    requires Fits(g) && 1 <= x < |g| - 1 && Shape(vis, |g| - 2)
    ensures Shape(v, |g| - 2)
    ensures forall i, j :: 0 <= i < |g| - 2 && 0 <= j < |g| - 2 ==>
      v[i][j] == (vis[i][j] || (i == x - 1 && FromRight(g, x, j + 1)))
  {
    var n := |g|;
    v := vis;
    var minimum := g[x][n - 1];
    ghost var at := n - 1;
    var y := n - 2;
    while y >= 1
      invariant 0 <= y <= n - 2
      invariant Shape(v, n - 2)
      invariant forall j :: y < j < n - 1 ==> g[x][j] != 9
      invariant forall j :: y < j < n ==> g[x][j] <= minimum
      invariant y < at < n && g[x][at] == minimum
      invariant forall i, j :: 0 <= i < n - 2 && 0 <= j < n - 2 ==>
        v[i][j] == (vis[i][j] || (i == x - 1 && j >= y && FromRight(g, x, j + 1)))
    {
      assert FromRight(g, x, y) <==> g[x][y] > minimum;
      if g[x][y] > minimum {
        minimum, at := g[x][y], y;
        v := v[x - 1 := v[x - 1][y - 1 := true]];
      }
      if g[x][y] == 9 {
        assert forall j :: 0 < j < y ==> !FromRight(g, x, j);
        return;
      }
      y := y - 1;
    }
  }

  /** The scan of column `y` from the top edge. */
  method ScanFromTop(g: Grid, vis: seq<seq<bool>>, y: nat) returns (v: seq<seq<bool>>)
    requires Fits(g) && 1 <= y < |g| - 1 && Shape(vis, |g| - 2)
    ensures Shape(v, |g| - 2)
    ensures forall i, j :: 0 <= i < |g| - 2 && 0 <= j < |g| - 2 ==>
      v[i][j] == (vis[i][j] || (j == y - 1 && FromTop(g, i + 1, y)))
  {
    var n := |g|;
    v := vis;
    var minimum := g[0][y];
    ghost var at := 0;
    for x := 1 to n - 1
      invariant Shape(v, n - 2)
      invariant forall i :: 0 < i < x ==> g[i][y] != 9
      invariant forall i :: 0 <= i < x ==> g[i][y] <= minimum
      invariant 0 <= at < x && g[at][y] == minimum
      invariant forall i, j :: 0 <= i < n - 2 && 0 <= j < n - 2 ==>
        v[i][j] == (vis[i][j] || (j == y - 1 && i < x - 1 && FromTop(g, i + 1, y)))
    {
      assert FromTop(g, x, y) <==> g[x][y] > minimum;
      if g[x][y] > minimum {
        minimum, at := g[x][y], x;
        v := v[x - 1 := v[x - 1][y - 1 := true]];
      }
      if g[x][y] == 9 {
        assert forall i :: x < i < n - 1 ==> !FromTop(g, i, y);
        return;
      }
    }
  }

  /** The scan of column `y` from the bottom edge. */
  method ScanFromBottom(g: Grid, vis: seq<seq<bool>>, y: nat) returns (v: seq<seq<bool>>)
    requires Fits(g) && 1 <= y < |g| - 1 && Shape(vis, |g| - 2)
    ensures Shape(v, |g| - 2)
    ensures forall i, j :: 0 <= i < |g| - 2 && 0 <= j < |g| - 2 ==>
      v[i][j] == (vis[i][j] || (j == y - 1 && FromBottom(g, i + 1, y)))
  {
    var n := |g|;
    v := vis;
    var minimum := g[n - 1][y];
    ghost var at := n - 1;
    var x := n - 2;
    while x >= 1
      invariant 0 <= x <= n - 2
      invariant Shape(v, n - 2)
      invariant forall i :: x < i < n - 1 ==> g[i][y] != 9
      invariant forall i :: x < i < n ==> g[i][y] <= minimum
      invariant x < at < n && g[at][y] == minimum
      invariant forall i, j :: 0 <= i < n - 2 && 0 <= j < n - 2 ==>
        v[i][j] == (vis[i][j] || (j == y - 1 && i >= x && FromBottom(g, i + 1, y)))
    {
      assert FromBottom(g, x, y) <==> g[x][y] > minimum;
      if g[x][y] > minimum {
        minimum, at := g[x][y], x;
        v := v[x - 1 := v[x - 1][y - 1 := true]];
      }
      if g[x][y] == 9 {
        assert forall i :: 0 < i < x ==> !FromBottom(g, i, y);
        return;
      }
      x := x - 1;
    }
  }

  /** The scans of `part_1`: both ends of every interior row, then of every interior column. */
  method Visibility(g: Grid) returns (vis: seq<seq<bool>>)
    requires Fits(g) && |g| >= 2
    ensures vis == VisibilityMap(g)
  {
    var n := |g|;
    vis := seq(n - 2, _ => seq(n - 2, _ => false));
    for x := 1 to n - 1
      invariant Shape(vis, n - 2)
      invariant forall i, j :: 0 <= i < n - 2 && 0 <= j < n - 2 ==>
        vis[i][j] == (i < x - 1 && (FromLeft(g, i + 1, j + 1) || FromRight(g, i + 1, j + 1)))
    {
      vis := ScanFromLeft(g, vis, x);
      vis := ScanFromRight(g, vis, x);
    }
    for y := 1 to n - 1
      invariant Shape(vis, n - 2)
      invariant forall i, j :: 0 <= i < n - 2 && 0 <= j < n - 2 ==>
        vis[i][j] == (FromLeft(g, i + 1, j + 1) || FromRight(g, i + 1, j + 1) ||
          (j < y - 1 && (FromTop(g, i + 1, j + 1) || FromBottom(g, i + 1, j + 1))))
    {
      vis := ScanFromTop(g, vis, y);
      vis := ScanFromBottom(g, vis, y);
    }
    assert forall i :: 0 <= i < n - 2 ==> vis[i] == VisibilityMap(g)[i];
  }

  /** The number of set flags in a row. */
  function RowCount(row: seq<bool>): (r: nat)
    ensures r <= |row|
  {
    if row == [] then 0 else RowCount(row[..|row| - 1]) + (if row[|row| - 1] then 1 else 0)
  }

  /** The number of set flags in the map. */
  function CountTrue(m: seq<seq<bool>>): nat
  {
    if m == [] then 0 else CountTrue(m[..|m| - 1]) + RowCount(m[|m| - 1])
  }

  lemma {:induction false} CountTrueBound(m: seq<seq<bool>>, n: nat)
    requires forall i :: 0 <= i < |m| ==> |m[i]| == n
    ensures CountTrue(m) <= |m| * n
  {
    if m != [] {
      CountTrueBound(m[..|m| - 1], n);
      assert (|m| - 1) * n + n == |m| * n;
    }
  }

  /** `part_1` as a function: the marked interior trees plus the `4 * length - 4` on the
      edge. Only the first `length` columns are read, so longer rows run normally. `None` is a
      panic: fewer than two rows (`length - 2` underflows), a row shorter than the grid is
      tall, or a byte below `'0'`. */
  function VisibleCount(lines: seq<string>): Option<nat>
  {
    match ParseGrid(lines)
    case None => None
    case Some(g) =>
      if |g| < 2 || !Fits(g) then None
      else Some(CountTrue(VisibilityMap(g)) + 4 * |g| - 4)
  }

  /** No tree is counted twice: the answer is at most the number of trees. */
  lemma VisibleCountBound(lines: seq<string>)
    ensures VisibleCount(lines).Some? ==>
      var g := ParseGrid(lines).value;
      4 * |g| - 4 <= VisibleCount(lines).value <= |g| * |g|
  {
    if VisibleCount(lines).Some? {
      var g := ParseGrid(lines).value;
      CountTrueBound(VisibilityMap(g), |g| - 2);
      SquareOfSum(|g| - 2);
    }
  }

  lemma SquareOfSum(k: nat)
    ensures k * k + 4 * (k + 2) - 4 == (k + 2) * (k + 2)
  {
  }

  method Part1(input: string) returns (r: Option<nat>)
    ensures r == VisibleCount(Lines(input))
  {
    var grid := ParseGrid(Lines(input));
    if grid.None? {
      return None;
    }
    var g := grid.value;
    var length := |g|;
    if length < 2 || !Fits(g) {
      return None;
    }
    var vis := Visibility(g);
    return Some(CountTrue(vis) + length * 4 - 4);
  }

  // ----- Part 2: the best score -----

  /** `scores` when filled: the score of each interior tree, 0 on the edges. */
  function ScoreMap(g: Grid): (m: seq<seq<nat>>)
    requires Fits(g)
    ensures |m| == |g|
  {
    seq(|g|, x requires 0 <= x < |g| => ScoreLine(g, x))
  }

  /** Row `x` of `scores` when filled. */
  function ScoreLine(g: Grid, x: nat): (row: seq<nat>)
    requires Fits(g) && x < |g|
    ensures |row| == |g|
  {
    var n := |g|;
    seq(n, y requires 0 <= y < n => if 1 <= x < n - 1 && 1 <= y < n - 1 then Score(g, x, y) else 0)
  }

  /** Leaving the edges at 0 is the same as scoring them. */
  lemma ScoreMapIsScores(g: Grid)
    requires Fits(g)
    ensures forall x, y :: 0 <= x < |g| && 0 <= y < |g| ==> ScoreMap(g)[x][y] == Score(g, x, y)
  {
    forall x, y | 0 <= x < |g| && 0 <= y < |g|
      ensures ScoreMap(g)[x][y] == Score(g, x, y)
    {
      if !(1 <= x < |g| - 1 && 1 <= y < |g| - 1) {
        EdgeScoresZero(g, x, y);
      }
    }
  }

  /** The fold over a row: the largest entry, 0 for none. */
  function RowMax(row: seq<nat>): nat
  {
    if row == [] then 0
    else
      var acc := RowMax(row[..|row| - 1]);
      var item := row[|row| - 1];
      if item > acc then item else acc
  }

  lemma {:induction false} RowMaxMeaning(row: seq<nat>)
    ensures forall j :: 0 <= j < |row| ==> row[j] <= RowMax(row)
    ensures RowMax(row) == 0 || exists j :: 0 <= j < |row| && row[j] == RowMax(row)
  {
    if row != [] {
      var init := row[..|row| - 1];
      RowMaxMeaning(init);
      assert forall j :: 0 <= j < |init| ==> init[j] == row[j];
    }
  }

  /** The fold over the flattened map. */
  function Largest(m: seq<seq<nat>>): nat
  {
    if m == [] then 0
    else
      var acc := Largest(m[..|m| - 1]);
      var item := RowMax(m[|m| - 1]);
      if item > acc then item else acc
  }

  /** The fold finds the largest entry of the map, or 0 when every entry is 0 or there is
      none. */
  lemma {:induction false} LargestMeaning(m: seq<seq<nat>>)
    ensures forall i, j :: 0 <= i < |m| && 0 <= j < |m[i]| ==> m[i][j] <= Largest(m)
    ensures Largest(m) == 0 || exists i, j :: 0 <= i < |m| && 0 <= j < |m[i]| && m[i][j] == Largest(m)
  {
    if m != [] {
      var init := m[..|m| - 1];
      LargestMeaning(init);
      RowMaxMeaning(m[|m| - 1]);
      assert forall i :: 0 <= i < |init| ==> init[i] == m[i];
    }
  }

  /** `part_2` as a function. `None` is the panic of an empty grid (`len() - 1` underflows),
      a row shorter than the grid is tall or a byte below `'0'`; longer rows are read up to
      column `len() - 1`. */
  function BestScore(lines: seq<string>): Option<nat>
  {
    match ParseGrid(lines)
    case None => None
    case Some(g) =>
      if |g| == 0 || !Fits(g) then None
      else Some(Largest(ScoreMap(g)))
  }

  /** The answer is the highest scenic score of any tree in the grid. */
  lemma BestScoreMeaning(lines: seq<string>)
    ensures BestScore(lines).Some? ==>
      var g := ParseGrid(lines).value;
      var r := BestScore(lines).value;
      && (forall x, y :: 0 <= x < |g| && 0 <= y < |g| ==> Score(g, x, y) <= r)
      && exists x, y :: 0 <= x < |g| && 0 <= y < |g| && Score(g, x, y) == r
  {
    if BestScore(lines).Some? {
      LargestScore(ParseGrid(lines).value);
    }
  }

  /** Rows longer than the grid is tall are read as far as the grid is tall. */
  lemma WideRows()
    ensures VisibleCount(["000", "000"]) == Some(4)
    ensures BestScore(["00"]) == Some(0)
  {
    var three: string, two: string := "000", "00";
    assert forall k :: 0 <= k < |three| ==> three[k] == '0';
    assert forall k :: 0 <= k < |two| ==> two[k] == '0';
    assert ParseRow(three).value == [0, 0, 0];
    assert ParseRow(two).value == [0, 0];
    assert ParseRow(three) == Some([0, 0, 0]) && ParseRow(two) == Some([0, 0]);
    var one: seq<string> := [three];
    var none: seq<string> := [];
    assert one[..0] == none && ParseGrid(none) == Some([]);
    assert one[|one| - 1] == three;
    var empty: Grid := [];
    assert ParseGrid(one) == Some(empty + [[0, 0, 0]]);
    assert empty + [[0, 0, 0]] == [[0, 0, 0]];
    var both := [three, three];
    assert both[..1] == one;
    var g := [[0, 0, 0], [0, 0, 0]];
    assert both[|both| - 1] == three;
    assert ParseGrid(both) == Some([[0, 0, 0]] + [[0, 0, 0]]);
    assert VisibilityMap(g) == [];
    var single: seq<string> := [two];
    assert single[..0] == none;
    var h := [[0, 0]];
    assert single[|single| - 1] == two;
    assert ParseGrid(single) == Some(empty + h);
    assert ScoreLine(h, 0) == [0];
    assert ScoreMap(h) == [[0]];
    assert Largest([[0]]) == 0 by {
      assert |[[0]][..0]| == 0;
      assert RowMax([0]) == 0 by {
        assert |[0][..0]| == 0;
      }
    }
  }

  lemma LargestScore(g: Grid)
    requires Fits(g) && |g| >= 1
    ensures forall x, y :: 0 <= x < |g| && 0 <= y < |g| ==> Score(g, x, y) <= Largest(ScoreMap(g))
    ensures exists x, y :: 0 <= x < |g| && 0 <= y < |g| && Score(g, x, y) == Largest(ScoreMap(g))
  {
    var m := ScoreMap(g);
    var r := Largest(m);
    LargestMeaning(m);
    ScoreMapIsScores(g);
    forall x, y | 0 <= x < |g| && 0 <= y < |g|
      ensures Score(g, x, y) <= r
    {
      assert m[x][y] == Score(g, x, y);
    }
    if r == 0 {
      EdgeScoresZero(g, 0, 0);
    } else {
      var x, y :| 0 <= x < |m| && 0 <= y < |m[x]| && m[x][y] == r;
      assert Score(g, x, y) == r;
    }
  }

  /** The inner loop of `part_2`: the scores of interior row `x`, into a row of zeros. */
  method ScoreRow(g: Grid, x: nat) returns (row: seq<nat>)
    requires Fits(g) && 1 <= x < |g| - 1
    ensures row == ScoreLine(g, x)
  {
    var n := |g|;
    row := seq(n, _ => 0);
    for y := 1 to n - 1
      invariant |row| == n
      invariant forall j :: 0 <= j < n ==> row[j] == if 1 <= j < y then Score(g, x, j) else 0
    {
      var score := ScenicScore(g, x, y);
      row := row[y := score];
    }
  }

  method Part2(input: string) returns (r: Option<nat>)
    ensures r == BestScore(Lines(input))
  {
    var grid := ParseGrid(Lines(input));
    if grid.None? {
      return None;
    }
    var g := grid.value;
    var n := |g|;
    if n == 0 || !Fits(g) {
      return None;
    }
    var scores := seq(n, _ => seq(n, _ => 0));
    var x := 1;
    while x < n - 1
      invariant 1 <= x && (n >= 2 ==> x <= n - 1)
      invariant |scores| == n
      invariant forall i :: 0 <= i < n ==> scores[i] == if 1 <= i < x then ScoreLine(g, i) else seq(n, _ => 0)
    {
      var row := ScoreRow(g, x);
      scores := scores[x := row];
      x := x + 1;
    }
    assert forall i :: 0 <= i < n ==> scores[i] == ScoreLine(g, i);
    assert scores == ScoreMap(g);
    return Some(Largest(scores));
  }
}
