// Day 14: sand falling into a cave slice.
// The slice holds a window of the cave: rows from `yStart`, columns from `xStart`. Grains
// enter at (500, 0), fall straight down, else down-left, else down-right, into air only, and
// come to rest where none of the three is air; a grain whose next candidate lies outside the
// window falls out of the cave.

module Day14 {
  import opened Basics
  import opened Text

  datatype Element = Sand | Rock | Air | Source

  type Grid = seq<seq<Element>>

  /** The fields of a `CaveSlice`: the cave coordinates of `cells[0][0]`, and the rows. */
  datatype Slice = Slice(xStart: nat, yStart: nat, cells: Grid)

  /** At least one row, and every row as wide as row 0. */
  predicate WellFormed(s: Slice)
  {
    |s.cells| > 0 && forall r :: 0 <= r < |s.cells| ==> |s.cells[r]| == |s.cells[0]|
  }

  predicate InBounds(s: Slice, x: nat, y: nat)
    requires WellFormed(s)
  {
    s.xStart <= x < s.xStart + |s.cells[0]| && s.yStart <= y < s.yStart + |s.cells|
  }

  /** A slice the simulation can run on: the source cell (500, 0) lies inside it. */
  predicate Valid(s: Slice)
  {
    WellFormed(s) && InBounds(s, 500, 0)
  }

  /** `CaveSlice::get`: the cell at cave coordinates `(x, y)`, or `None` outside the window.
      Below the start the `usize` offsets wrap to values past every row, so the bound check
      turns them away as well. */
  function Get(s: Slice, x: nat, y: nat): (r: Option<Element>)
    requires WellFormed(s)
    ensures r.Some? <==> InBounds(s, x, y)
    ensures r.Some? ==> r.value == s.cells[y - s.yStart][x - s.xStart]
  {
    if x < s.xStart || y < s.yStart then None
    else if y - s.yStart >= |s.cells| || x - s.xStart >= |s.cells[0]| then None
    else Some(s.cells[y - s.yStart][x - s.xStart])
  }

  /** `Index<(usize, usize)>`: the cell itself, for coordinates inside the window. */
  function At(s: Slice, x: nat, y: nat): (e: Element)
    requires WellFormed(s) && InBounds(s, x, y)
    ensures Get(s, x, y) == Some(e)
  {
    s.cells[y - s.yStart][x - s.xStart]
  }

  /** `IndexMut<(usize, usize)>` followed by an assignment, on the slice's value. */
  function SetCell(s: Slice, x: nat, y: nat, e: Element): (r: Slice)
    requires WellFormed(s) && InBounds(s, x, y)
    ensures WellFormed(r) && r.xStart == s.xStart && r.yStart == s.yStart
    ensures |r.cells| == |s.cells| && |r.cells[0]| == |s.cells[0]|
  {
    var row := y - s.yStart;
    s.(cells := s.cells[row := s.cells[row][x - s.xStart := e]])
  }

  /** Writing a cell changes that cell and no other. */
  lemma SetCellGet(s: Slice, x: nat, y: nat, e: Element, x': nat, y': nat)
    requires WellFormed(s) && InBounds(s, x, y)
    ensures Get(SetCell(s, x, y, e), x', y') == if x' == x && y' == y then Some(e) else Get(s, x', y')
  {
  }

  function Row(e: Element, width: nat): (row: seq<Element>)
    ensures |row| == width && forall i :: 0 <= i < width ==> row[i] == e
  {
    seq(width, _ => e)
  }

  /** `vec![vec![Element::Air; width]; height]`. */
  function AirGrid(height: nat, width: nat): (g: Grid)
    ensures |g| == height && forall y :: 0 <= y < height ==> g[y] == Row(Air, width)
  {
    seq(height, _ => Row(Air, width))
  }

  // ----- One grain of sand -----

  /** `get` for a candidate column; column -1 is `0 - 1`, which wraps past every row. */
  function Probe(s: Slice, column: int, y: nat): (r: Option<Element>)
    requires WellFormed(s)
    ensures r.Some? ==> column >= 0 && Get(s, column, y + 1) == r
  {
    if column < 0 then None else Get(s, column, y + 1)
  }

  datatype Move = Rest | Escape | Fall(x: nat)

  /** The `for x_prime in [...]` loop: the first candidate outside the window lets the grain
      escape, the first air cell takes it, and blocked candidates are passed over. */
  function TryCandidates(s: Slice, candidates: seq<int>, y: nat): (m: Move)
    requires WellFormed(s)
    ensures m.Fall? ==> Get(s, m.x, y + 1) == Some(Air)
  {
    if candidates == [] then Rest
    else
      match Probe(s, candidates[0], y)
      case None => Escape
      case Some(Air) => Fall(candidates[0] as nat)
      case Some(_) => TryCandidates(s, candidates[1..], y)
  }

  /** A candidate the grain cannot take: inside the window and not air. */
  predicate Blocked(s: Slice, column: int, y: nat)
    requires WellFormed(s)
  {
    Probe(s, column, y).Some? && Probe(s, column, y).value != Air
  }

  /** The candidates are tried in order. The grain rests exactly when every one is blocked;
      it falls to the first candidate that is air, and escapes at the first one outside the
      window, in both cases after blocked candidates only. */
  lemma {:induction false} TryCandidatesOrder(s: Slice, candidates: seq<int>, y: nat)
    requires WellFormed(s)
    ensures TryCandidates(s, candidates, y).Rest? <==>
      forall k :: 0 <= k < |candidates| ==> Blocked(s, candidates[k], y)
    ensures TryCandidates(s, candidates, y).Fall? ==>
      exists i :: 0 <= i < |candidates| && candidates[i] == TryCandidates(s, candidates, y).x
        && Probe(s, candidates[i], y) == Some(Air)
        && forall k :: 0 <= k < i ==> Blocked(s, candidates[k], y)
    ensures TryCandidates(s, candidates, y).Escape? ==>
      exists i :: 0 <= i < |candidates| && Probe(s, candidates[i], y).None?
        && forall k :: 0 <= k < i ==> Blocked(s, candidates[k], y)
  {
    if candidates != [] {
      var rest := candidates[1..];
      TryCandidatesOrder(s, rest, y);
      assert forall k :: 1 <= k < |candidates| ==> candidates[k] == rest[k - 1];
      match Probe(s, candidates[0], y)
      case None =>
      case Some(Air) =>
      case Some(_) =>
        var m := TryCandidates(s, rest, y);
        if m.Fall? {
          var i :| 0 <= i < |rest| && rest[i] == m.x && Probe(s, rest[i], y) == Some(Air)
            && forall k :: 0 <= k < i ==> Blocked(s, rest[k], y);
          assert candidates[i + 1] == rest[i];
        } else if m.Escape? {
          var i :| 0 <= i < |rest| && Probe(s, rest[i], y).None?
            && forall k :: 0 <= k < i ==> Blocked(s, rest[k], y);
          assert candidates[i + 1] == rest[i];
        }
    }
  }

  /** The candidates below `(x, y)`, in the order tried: down, down-left, down-right. */
  function Candidates(x: nat): seq<int>
  {
    [x, x - 1, x + 1]
  }

  /** Where a grain at `(x, y)` comes to rest, or `None` if it falls out of the window.
      Every fall goes one row down, so this ends within the number of rows. */
  function Landing(s: Slice, x: nat, y: nat): (r: Option<(nat, nat)>)
    requires WellFormed(s) && InBounds(s, x, y)
    ensures r.Some? ==> InBounds(s, r.value.0, r.value.1)
    decreases s.yStart + |s.cells| - y
  {
    match TryCandidates(s, Candidates(x), y)
    case Escape => None
    case Rest => Some((x, y))
    case Fall(x') => Landing(s, x', y + 1)
  }

  /** A grain comes to rest only where the cells below, below-left and below-right are all
      inside the window and none of them is air. */
  lemma {:induction false} LandingRests(s: Slice, x: nat, y: nat)
    requires WellFormed(s) && InBounds(s, x, y)
    ensures Landing(s, x, y).Some? ==>
      var p := Landing(s, x, y).value;
      Blocked(s, p.0, p.1) && Blocked(s, p.0 - 1, p.1) && Blocked(s, p.0 + 1, p.1)
    decreases s.yStart + |s.cells| - y
  {
    TryCandidatesOrder(s, Candidates(x), y);
    match TryCandidates(s, Candidates(x), y)
    case Escape =>
    case Rest =>
      assert Candidates(x)[0] == x && Candidates(x)[1] == x - 1 && Candidates(x)[2] == x + 1;
    case Fall(x') =>
      LandingRests(s, x', y + 1);
  }

  /** What `simulate_sand` returns: `None` when the source cell holds anything but the
      source, otherwise where the grain from (500, 0) lands. */
  function Drop(s: Slice): (r: Option<(nat, nat)>)
    requires Valid(s)
    ensures r.Some? ==> InBounds(s, r.value.0, r.value.1)
  {
    if At(s, 500, 0) != Source then None else Landing(s, 500, 0)
  }

  /** The slice after `simulate_sand`: the landing cell turned to sand, or nothing changed. */
  function After(s: Slice): (r: Slice)
    requires Valid(s)
    ensures Valid(r)
  {
    match Drop(s)
    case None => s
    case Some(p) => SetCell(s, p.0, p.1, Sand)
  }

  predicate Open(e: Element)
  {
    e == Air || e == Source
  }

  /** A grain comes to rest on an open cell: sand never replaces rock or other sand. */
  lemma {:induction false} LandsOnOpen(s: Slice, x: nat, y: nat)
    requires WellFormed(s) && InBounds(s, x, y) && Open(At(s, x, y))
    ensures Landing(s, x, y).Some? ==> Open(At(s, Landing(s, x, y).value.0, Landing(s, x, y).value.1))
    decreases s.yStart + |s.cells| - y
  {
    match TryCandidates(s, Candidates(x), y)
    case Escape =>
    case Rest =>
    case Fall(x') => LandsOnOpen(s, x', y + 1);
  }

  /** Once the source cell itself has filled, every later grain is refused. */
  lemma SourceFilledStops(s: Slice)
    requires Valid(s) && Drop(s) == Some((500, 0))
    ensures At(After(s), 500, 0) == Sand && Drop(After(s)) == None
  {
    SetCellGet(s, 500, 0, Sand, 500, 0);
  }

  // ----- Counting the open cells -----

  function CountOpen(row: seq<Element>): (n: nat)
    ensures n <= |row|
  {
    if row == [] then 0 else CountOpen(row[..|row| - 1]) + (if Open(row[|row| - 1]) then 1 else 0)
  }

  lemma {:induction false} CountOpenUpdate(row: seq<Element>, i: nat)
    requires i < |row| && Open(row[i])
    ensures CountOpen(row[i := Sand]) + 1 == CountOpen(row)
  {
    var last := |row| - 1;
    var row' := row[i := Sand];
    if i < last {
      assert row'[..last] == row[..last][i := Sand];
      CountOpenUpdate(row[..last], i);
    } else {
      assert row'[..last] == row[..last];
    }
  }

  function OpenCells(g: Grid): nat
  {
    if g == [] then 0 else OpenCells(g[..|g| - 1]) + CountOpen(g[|g| - 1])
  }

  lemma {:induction false} OpenCellsUpdate(g: Grid, r: nat, i: nat)
    requires r < |g| && i < |g[r]| && Open(g[r][i])
    ensures OpenCells(g[r := g[r][i := Sand]]) + 1 == OpenCells(g)
  {
    var last := |g| - 1;
    var g' := g[r := g[r][i := Sand]];
    CountOpenUpdate(g[r], i);
    if r < last {
      assert g'[..last] == g[..last][r := g[r][i := Sand]];
      OpenCellsUpdate(g[..last], r, i);
    } else {
      assert g'[..last] == g[..last];
    }
  }

  /** Every grain that comes to rest fills one open cell. */
  lemma DropFillsOpenCell(s: Slice)
    requires Valid(s) && Drop(s).Some?
    ensures OpenCells(After(s).cells) + 1 == OpenCells(s.cells)
  {
    var p := Drop(s).value;
    LandsOnOpen(s, 500, 0);
    OpenCellsUpdate(s.cells, p.1 - s.yStart, p.0 - s.xStart);
  }

  /** The number of grains that come to rest before one is refused or falls out. */
  function PourCount(s: Slice): nat
    requires Valid(s)
    decreases OpenCells(s.cells)
  {
    match Drop(s)
    case None => 0
    case Some(_) =>
      DropFillsOpenCell(s);
      1 + PourCount(After(s))
  }

  /** No more grains come to rest than the slice has open cells. */
  lemma {:induction false} PourCountBound(s: Slice)
    requires Valid(s)
    ensures PourCount(s) <= OpenCells(s.cells)
    decreases OpenCells(s.cells)
  {
    if Drop(s).Some? {
      DropFillsOpenCell(s);
      PourCountBound(After(s));
    }
  }

  /** The slice with a row of air and then a row of rock below it, as wide as row 0. */
  function Floored(s: Slice): (r: Slice)
    requires WellFormed(s)
    ensures WellFormed(r) && |r.cells| == |s.cells| + 2
    ensures Valid(s) ==> Valid(r)
    ensures forall x: nat, y: nat :: InBounds(s, x, y) ==> Get(r, x, y) == Get(s, x, y)
    ensures forall x: nat, y: nat :: !InBounds(s, x, y) && InBounds(r, x, y) ==>
      Get(r, x, y) == Some(if y == s.yStart + |s.cells| then Air else Rock)
  {
    var width := |s.cells[0]|;
    s.(cells := s.cells + [Row(Air, width), Row(Rock, width)])
  }

  // ----- The slice as an object -----

  class CaveSlice {
    var xStart: nat
    var yStart: nat
    var cells: Grid

    function View(): Slice
      reads this
    {
      Slice(xStart, yStart, cells)
    }

    constructor (xStart: nat, yStart: nat, cells: Grid)
      ensures View() == Slice(xStart, yStart, cells)
    {
      this.xStart := xStart;
      this.yStart := yStart;
      this.cells := cells;
    }

    /** `self[(x, y)] = e`. */
    method Set(x: nat, y: nat, e: Element)
      requires WellFormed(View()) && InBounds(View(), x, y)
      modifies this
      ensures View() == SetCell(old(View()), x, y, e)
    {
      var row := y - yStart;
      cells := cells[row := cells[row][x - xStart := e]];
    }

    /** `insert_floor`. */
    method InsertFloor()
      requires WellFormed(View())
      modifies this
      ensures View() == Floored(old(View()))
    {
      cells := cells + [Row(Air, |cells[0]|)];
      cells := cells + [Row(Rock, |cells[0]|)];
    }

    /** `simulate_sand`: drops one grain from (500, 0) and returns where it came to rest. */
    method SimulateSand() returns (r: Option<(nat, nat)>)
      requires Valid(View())
      modifies this
      ensures r == Drop(old(View()))
      ensures View() == After(old(View()))
    {
      ghost var s := View();
      var sandPoint: (nat, nat) := (500, 0);
      if At(View(), sandPoint.0, sandPoint.1) != Source {
        return None;
      }
      label outer: while true
        invariant View() == s
        invariant InBounds(s, sandPoint.0, sandPoint.1)
        invariant Landing(s, sandPoint.0, sandPoint.1) == Landing(s, 500, 0)
        decreases s.yStart + |s.cells| - sandPoint.1
      {
        var candidates := Candidates(sandPoint.0);
        for i := 0 to 3
          invariant TryCandidates(s, candidates[i..], sandPoint.1) == TryCandidates(s, candidates, sandPoint.1)
        {
          var xPrime := candidates[i];
          assert candidates[i..][0] == xPrime && candidates[i..][1..] == candidates[i + 1..];
          match Probe(View(), xPrime, sandPoint.1)
          case None =>
            return None;
          case Some(Air) =>
            sandPoint := (xPrime as nat, sandPoint.1 + 1);
            continue outer;
          case Some(_) =>
        }
        Set(sandPoint.0, sandPoint.1, Sand);
        return Some(sandPoint);
      }
    }
  }

  /** The counting loop of `part_1` and `part_2`: grains are dropped until one is refused or
      falls out. */
  method CountSand(slice: CaveSlice) returns (count: nat)
    requires Valid(slice.View())
    modifies slice
    ensures count == PourCount(old(slice.View()))
  {
    ghost var start := slice.View();
    count := 0;
    while true
      invariant Valid(slice.View())
      invariant count + PourCount(slice.View()) == PourCount(start)
      decreases OpenCells(slice.View().cells)
    {
      ghost var before := slice.View();
      var r := slice.SimulateSand();
      if r.None? {
        break;
      }
      DropFillsOpenCell(before);
      count := count + 1;
    }
  }

  // ----- Reading the rock paths (`FromStr`) -----

  type Point = (nat, nat)

  /** `str::split_once` on a character: the text before its first occurrence and after. */
  function SplitOnce(s: string, c: char): (r: Option<(string, string)>)
    ensures r.None? <==> c !in s
    ensures r.Some? ==> s == r.value.0 + [c] + r.value.1 && c !in r.value.0
  {
    if s == [] then None
    else if s[0] == c then Some(([], s[1..]))
    else
      match SplitOnce(s[1..], c)
      case None => None
      case Some((before, after)) => Some(([s[0]] + before, after))
  }

  /** `{row:?}`: the row between double quotes (escapes are not modelled). */
  function Quoted(row: string): string
  {
    "\"" + row + "\""
  }

  /** One `x,y` pair, with the source's error messages. */
  function ParsePoint(row: string, pair: string): Result<Point>
  {
    match SplitOnce(pair, ',')
    case None => Err("could not split row " + Quoted(row))
    case Some((x, y)) =>
      match (ParseNat(x), ParseNat(y))
      case (None, _) => Err("could not parse string " + x + " as int")
      case (_, None) => Err("could not parse string " + y + " as int")
      case (Some(px), Some(py)) => Ok((px, py))
  }

  /** The pairs of a row, read left to right onto `done`; the first error ends the read. */
  function ParsePairs(row: string, pairs: seq<string>, done: seq<Point>): Result<seq<Point>>
  {
    if pairs == [] then Ok(done)
    else
      match ParsePoint(row, pairs[0])
      case Err(e) => Err(e)
      case Ok(p) => ParsePairs(row, pairs[1..], done + [p])
  }

  /** The rows, each split on `" -> "`, read onto `done`. */
  function ParseRows(rows: seq<string>, done: seq<seq<Point>>): Result<seq<seq<Point>>>
  {
    if rows == [] then Ok(done)
    else
      match ParsePairs(rows[0], SplitOn(rows[0], " -> "), [])
      case Err(e) => Err(e)
      case Ok(path) => ParseRows(rows[1..], done + [path])
  }

  /** All points of all paths, in reading order. */
  function Points(paths: seq<seq<Point>>): seq<Point>
  {
    if paths == [] then [] else Points(paths[..|paths| - 1]) + paths[|paths| - 1]
  }

  lemma {:induction false} PointsContain(paths: seq<seq<Point>>, c: nat, k: nat)
    requires c < |paths| && k < |paths[c]|
    ensures paths[c][k] in Points(paths)
  {
    var last := |paths| - 1;
    if c < last {
      assert paths[..last][c] == paths[c];
      PointsContain(paths[..last], c, k);
    } else {
      assert Points(paths) == Points(paths[..last]) + paths[c];
      assert Points(paths)[|Points(paths[..last])| + k] == paths[c][k];
    }
  }

  /** `x_size.0`: the least x among the points and 500. */
  function MinX(ps: seq<Point>): (m: nat)
    ensures m <= 500 && forall p :: p in ps ==> m <= p.0
  {
    if ps == [] then 500
    else
      var m := MinX(ps[..|ps| - 1]);
      assert forall p :: p in ps ==> p in ps[..|ps| - 1] || p == ps[|ps| - 1];
      if ps[|ps| - 1].0 < m then ps[|ps| - 1].0 else m
  }

  /** `x_size.1`: the greatest x among the points and 500. */
  function MaxX(ps: seq<Point>): (m: nat)
    ensures m >= 500 && forall p :: p in ps ==> p.0 <= m
  {
    if ps == [] then 500
    else
      var m := MaxX(ps[..|ps| - 1]);
      assert forall p :: p in ps ==> p in ps[..|ps| - 1] || p == ps[|ps| - 1];
      if ps[|ps| - 1].0 > m then ps[|ps| - 1].0 else m
  }

  /** `y_size.1`: the greatest y among the points and 0. */
  function MaxY(ps: seq<Point>): (m: nat)
    ensures forall p :: p in ps ==> p.1 <= m
  {
    if ps == [] then 0
    else
      var m := MaxY(ps[..|ps| - 1]);
      assert forall p :: p in ps ==> p in ps[..|ps| - 1] || p == ps[|ps| - 1];
      if ps[|ps| - 1].1 > m then ps[|ps| - 1].1 else m
  }

  function Min(a: nat, b: nat): nat { if a < b then a else b }
  function Max(a: nat, b: nat): nat { if a > b then a else b }

  /** The rectangle spanned by two consecutive points of a path: a segment when they share
      a row or a column. */
  predicate InRect(segment: (Point, Point), x: nat, y: nat)
  {
    var (a, b) := segment;
    Min(a.0, b.0) <= x <= Max(a.0, b.0) && Min(a.1, b.1) <= y <= Max(a.1, b.1)
  }

  /** `tuple_windows`: each point with the next. */
  function Windows(path: seq<Point>): (ws: seq<(Point, Point)>)
    ensures |ws| == if |path| < 2 then 0 else |path| - 1
    ensures forall k :: 0 <= k < |ws| ==> ws[k] == (path[k], path[k + 1])
  {
    if |path| < 2 then [] else seq(|path| - 1, k requires 0 <= k < |path| - 1 => (path[k], path[k + 1]))
  }

  function Segments(paths: seq<seq<Point>>): seq<(Point, Point)>
  {
    if paths == [] then [] else Segments(paths[..|paths| - 1]) + Windows(paths[|paths| - 1])
  }

  predicate Covered(paths: seq<seq<Point>>, x: nat, y: nat)
  {
    exists j :: 0 <= j < |Segments(paths)| && InRect(Segments(paths)[j], x, y)
  }

  /** The cells `from_str` builds: rock on every segment, the source at (500, 0) unless rock
      covers it, air elsewhere. */
  function Drawn(paths: seq<seq<Point>>, xStart: nat, width: nat, height: nat): (g: Grid)
    ensures |g| == height && forall r :: 0 <= r < height ==> |g[r]| == width
  {
    seq(height, y requires 0 <= y < height => seq(width, i requires 0 <= i < width =>
      if Covered(paths, xStart + i, y) then Rock
      else if xStart + i == 500 && y == 0 then Source
      else Air))
  }

  /** Rust's message for a `usize` subtraction below zero, which panics. */
  const Underflow := "attempt to subtract with overflow"

  /** The slice for paths of the given height and least and greatest x: columns wide enough
      for a pile from (500, 0) as tall as the slice, widened to take in every point, with a
      margin of five on either side. */
  function Sized(paths: seq<seq<Point>>, height: nat, xLow: nat, xHigh: nat): (r: Result<Slice>)
    requires height >= 1
    ensures r.Ok? ==> Valid(r.value)
  {
    if height > 500 then Err(Underflow)
    else
      var xMin := Min(500 - height, xLow + 1);
      var xMax := Max(500 + height, xHigh);
      if xMin < 5 then Err(Underflow)
      else Ok(Slice(xMin - 5, 0, Drawn(paths, xMin - 5, xMax - xMin + 10, height)))
  }

  /** The slice for the parsed paths, with rows down to the lowest point. */
  function Build(paths: seq<seq<Point>>): (r: Result<Slice>)
    ensures r.Ok? ==> Valid(r.value)
  {
    var ps := Points(paths);
    Sized(paths, MaxY(ps) - 0 + 1, MinX(ps), MaxX(ps))
  }

  /** `CaveSlice::from_str` on the input text. */
  function ParseCave(input: string): (r: Result<Slice>)
    ensures r.Ok? ==> Valid(r.value)
  {
    match ParseRows(Lines(input), [])
    case Err(e) => Err(e)
    case Ok(paths) => Build(paths)
  }

  // ----- Drawing rock -----

  /** Every cell of the rectangle of `segment` turned to rock. */
  function Paint(s: Slice, segment: (Point, Point)): (r: Slice)
    requires WellFormed(s)
    ensures WellFormed(r) && r.xStart == s.xStart && r.yStart == s.yStart
    ensures |r.cells| == |s.cells| && |r.cells[0]| == |s.cells[0]|
  {
    var width := |s.cells[0]|;
    s.(cells := seq(|s.cells|, y requires 0 <= y < |s.cells| => seq(width, i requires 0 <= i < width =>
      if InRect(segment, s.xStart + i, s.yStart + y) then Rock else s.cells[y][i])))
  }

  lemma PaintCell(s: Slice, segment: (Point, Point), y: nat, i: nat)
    requires WellFormed(s) && y < |s.cells| && i < |s.cells[0]|
    ensures Paint(s, segment).cells[y][i] == if InRect(segment, s.xStart + i, s.yStart + y) then Rock else s.cells[y][i]
  {
  }

  function PaintAll(s: Slice, segments: seq<(Point, Point)>): (r: Slice)
    requires WellFormed(s)
    ensures WellFormed(r) && r.xStart == s.xStart && r.yStart == s.yStart
    ensures |r.cells| == |s.cells| && |r.cells[0]| == |s.cells[0]|
  {
    if segments == [] then s else Paint(PaintAll(s, segments[..|segments| - 1]), segments[|segments| - 1])
  }

  lemma PaintAllSnoc(s: Slice, segments: seq<(Point, Point)>, segment: (Point, Point))
    requires WellFormed(s)
    ensures PaintAll(s, segments + [segment]) == Paint(PaintAll(s, segments), segment)
  {
    assert (segments + [segment])[..|segments|] == segments;
  }

  lemma {:induction false} PaintAllAppend(s: Slice, done: seq<(Point, Point)>, more: seq<(Point, Point)>)
    requires WellFormed(s)
    ensures PaintAll(s, done + more) == PaintAll(PaintAll(s, done), more)
    decreases |more|
  {
    if more == [] {
      assert done + more == done;
    } else {
      var init := more[..|more| - 1];
      PaintAllAppend(s, done, init);
      assert done + more == (done + init) + [more[|more| - 1]];
      PaintAllSnoc(s, done + init, more[|more| - 1]);
    }
  }

  /** After painting, a cell is rock iff some segment covers it or it was rock before. */
  lemma {:induction false} PaintAllCell(s: Slice, segments: seq<(Point, Point)>, y: nat, i: nat)
    requires WellFormed(s) && y < |s.cells| && i < |s.cells[0]|
    ensures PaintAll(s, segments).cells[y][i] ==
      if exists j :: 0 <= j < |segments| && InRect(segments[j], s.xStart + i, s.yStart + y) then Rock
      else s.cells[y][i]
  {
    if segments != [] {
      var init := segments[..|segments| - 1];
      PaintAllCell(s, init, y, i);
      if exists j :: 0 <= j < |init| && InRect(init[j], s.xStart + i, s.yStart + y) {
        var j :| 0 <= j < |init| && InRect(init[j], s.xStart + i, s.yStart + y);
        assert segments[j] == init[j];
      }
    }
  }

  /** The cells `from_str` draws are the source cell painted over by every segment. */
  lemma DrawnIsPainted(paths: seq<seq<Point>>, base: Slice, width: nat, height: nat)
    requires height >= 1 && width >= 1 && base.yStart == 0
    requires base.cells == AirGrid(height, width)
    requires InBounds(base, 500, 0)
    ensures PaintAll(SetCell(base, 500, 0, Source), Segments(paths)) == Slice(base.xStart, 0, Drawn(paths, base.xStart, width, height))
  {
    var start := SetCell(base, 500, 0, Source);
    var painted := PaintAll(start, Segments(paths));
    var drawn := Drawn(paths, base.xStart, width, height);
    forall y | 0 <= y < height
      ensures painted.cells[y] == drawn[y]
    {
      forall i | 0 <= i < width
        ensures painted.cells[y][i] == drawn[y][i]
      {
        PaintAllCell(start, Segments(paths), y, i);
      }
    }
    assert painted.cells == drawn;
  }

  /** Every point lies inside a slice that reaches past the least and greatest coordinates. */
  lemma PathsInside(paths: seq<seq<Point>>, s: Slice)
    requires WellFormed(s) && s.yStart == 0
    requires s.xStart <= MinX(Points(paths)) && MaxX(Points(paths)) < s.xStart + |s.cells[0]|
    requires MaxY(Points(paths)) < |s.cells|
    ensures forall c, k :: 0 <= c < |paths| && 0 <= k < |paths[c]| ==>
      InBounds(s, paths[c][k].0, paths[c][k].1)
  {
    forall c, k | 0 <= c < |paths| && 0 <= k < |paths[c]|
      ensures InBounds(s, paths[c][k].0, paths[c][k].1)
    {
      PointsContain(paths, c, k);
    }
  }

  /** One more point moves each extreme only when the point lies beyond it. */
  lemma ExtremesSnoc(seen: seq<Point>, current: seq<Point>, p: Point)
    ensures var before := seen + current;
      var after := seen + (current + [p]);
      && MinX(after) == (if p.0 < MinX(before) then p.0 else MinX(before))
      && MaxX(after) == (if p.0 > MaxX(before) then p.0 else MaxX(before))
      && MaxY(after) == (if p.1 > MaxY(before) then p.1 else MaxY(before))
  {
    var before := seen + current;
    assert seen + (current + [p]) == before + [p];
    assert (before + [p])[..|before|] == before;
  }

  /** The inner reading loop of `from_str`: the pairs of one row, parsed in order, while the
      least and greatest coordinates seen so far are kept up to date. */
  method ReadRow(line: string, ghost seen: seq<Point>, xLow0: nat, xHigh0: nat, yHigh0: nat)
    returns (r: Result<seq<Point>>, xLow: nat, xHigh: nat, yHigh: nat)
    requires xLow0 == MinX(seen) && xHigh0 == MaxX(seen) && yHigh0 == MaxY(seen)
    ensures r == ParsePairs(line, SplitOn(line, " -> "), [])
    ensures r.Ok? ==> xLow == MinX(seen + r.value) && xHigh == MaxX(seen + r.value) && yHigh == MaxY(seen + r.value)
  {
    xLow, xHigh, yHigh := xLow0, xHigh0, yHigh0;
    var pairs := SplitOn(line, " -> ");
    var current: seq<Point> := [];
    assert seen + current == seen;
    for k := 0 to |pairs|
      invariant ParsePairs(line, pairs[k..], current) == ParsePairs(line, pairs, [])
      invariant xLow == MinX(seen + current) && xHigh == MaxX(seen + current) && yHigh == MaxY(seen + current)
    {
      assert pairs[k..][0] == pairs[k] && pairs[k..][1..] == pairs[k + 1..];
      match ParsePoint(line, pairs[k])
      case Err(e) =>
        r := Err(e);
        return;
      case Ok(p) =>
        var (x, y) := p;
        ExtremesSnoc(seen, current, p);
        if x > xHigh {
          xHigh := x;
        }
        if x < xLow {
          xLow := x;
        }
        if y > yHigh {
          yHigh := y;
        }
        current := current + [(x, y)];
    }
    assert pairs[|pairs|..] == [];
    r := Ok(current);
  }

  /** The reading loop of `from_str`: every row split on `" -> "` and every pair parsed. The
      least y is never updated below its start of 0, as no coordinate is negative. */
  method ReadPaths(lines: seq<string>) returns (r: Result<seq<seq<Point>>>, xLow: nat, xHigh: nat, yLow: nat, yHigh: nat)
    ensures r == ParseRows(lines, [])
    ensures r.Ok? ==> && xLow == MinX(Points(r.value)) && xHigh == MaxX(Points(r.value))
                      && yLow == 0 && yHigh == MaxY(Points(r.value))
  {
    xLow, xHigh := 500, 500;
    yLow, yHigh := 0, 0;
    var commands: seq<seq<Point>> := [];
    for row := 0 to |lines|
      invariant ParseRows(lines[row..], commands) == ParseRows(lines, [])
      invariant xLow == MinX(Points(commands)) && xHigh == MaxX(Points(commands))
      invariant yLow == 0 && yHigh == MaxY(Points(commands))
    {
      assert lines[row..][0] == lines[row] && lines[row..][1..] == lines[row + 1..];
      var path;
      path, xLow, xHigh, yHigh := ReadRow(lines[row], Points(commands), xLow, xHigh, yHigh);
      if path.Err? {
        r := Err(path.message);
        return;
      }
      assert (commands + [path.value])[..|commands|] == commands;
      commands := commands + [path.value];
    }
    assert lines[|lines|..] == [];
    r := Ok(commands);
  }

  /** Turns to rock every cell of the rectangle between two consecutive points. */
  method DrawSegment(cave: CaveSlice, start: Point, finish: Point)
    requires WellFormed(cave.View())
    requires InBounds(cave.View(), start.0, start.1) && InBounds(cave.View(), finish.0, finish.1)
    modifies cave
    ensures cave.View() == Paint(old(cave.View()), (start, finish))
  {
    ghost var before := cave.View();
    var xRange := if start.0 != finish.0 then (Min(start.0, finish.0), Max(start.0, finish.0)) else (start.0, start.0);
    var yRange := if start.1 != finish.1 then (Min(start.1, finish.1), Max(start.1, finish.1)) else (start.1, start.1);
    for x := xRange.0 to xRange.1 + 1
      invariant cave.xStart == before.xStart && cave.yStart == before.yStart
      invariant WellFormed(cave.View()) && |cave.cells| == |before.cells| && |cave.cells[0]| == |before.cells[0]|
      invariant forall r, i :: 0 <= r < |before.cells| && 0 <= i < |before.cells[0]| ==>
        cave.cells[r][i] ==
          if xRange.0 <= before.xStart + i < x && yRange.0 <= before.yStart + r <= yRange.1 then Rock
          else before.cells[r][i]
    {
      for y := yRange.0 to yRange.1 + 1
        invariant cave.xStart == before.xStart && cave.yStart == before.yStart
        invariant WellFormed(cave.View()) && |cave.cells| == |before.cells| && |cave.cells[0]| == |before.cells[0]|
        invariant forall r, i :: 0 <= r < |before.cells| && 0 <= i < |before.cells[0]| ==>
          cave.cells[r][i] ==
            if || (xRange.0 <= before.xStart + i < x && yRange.0 <= before.yStart + r <= yRange.1)
               || (before.xStart + i == x && yRange.0 <= before.yStart + r < y)
            then Rock
            else before.cells[r][i]
      {
        cave.Set(x, y, Rock);
      }
    }
    var painted := Paint(before, (start, finish));
    forall r | 0 <= r < |before.cells|
      ensures cave.cells[r] == painted.cells[r]
    {
      forall i | 0 <= i < |before.cells[0]|
        ensures cave.cells[r][i] == painted.cells[r][i]
      {
        PaintCell(before, (start, finish), r, i);
      }
    }
  }

  /** The inner drawing loop of `from_str`: each segment of one path, in order. */
  method DrawPath(cave: CaveSlice, command: seq<Point>)
    requires WellFormed(cave.View())
    requires forall k :: 0 <= k < |command| ==> InBounds(cave.View(), command[k].0, command[k].1)
    modifies cave
    ensures cave.View() == PaintAll(old(cave.View()), Windows(command))
  {
    ghost var start := cave.View();
    ghost var ws := Windows(command);
    var k := 0;
    assert ws[..0] == [];
    while k + 1 < |command|
      invariant k <= |command| && (|command| >= 1 ==> k <= |command| - 1)
      invariant cave.View() == PaintAll(start, ws[..k])
    {
      assert ws[..k + 1] == ws[..k] + [ws[k]];
      PaintAllSnoc(start, ws[..k], ws[k]);
      DrawSegment(cave, command[k], command[k + 1]);
      k := k + 1;
    }
    assert ws[..k] == ws;
  }

  /** The drawing loops of `from_str`: every segment of every path, in order. */
  method DrawRocks(cave: CaveSlice, paths: seq<seq<Point>>)
    requires WellFormed(cave.View())
    requires forall c, k :: 0 <= c < |paths| && 0 <= k < |paths[c]| ==>
      InBounds(cave.View(), paths[c][k].0, paths[c][k].1)
    modifies cave
    ensures cave.View() == PaintAll(old(cave.View()), Segments(paths))
  {
    ghost var start := cave.View();
    for c := 0 to |paths|
      invariant cave.View() == PaintAll(start, Segments(paths[..c]))
    {
      assert paths[..c + 1][..c] == paths[..c] && paths[..c + 1][c] == paths[c];
      PaintAllAppend(start, Segments(paths[..c]), Windows(paths[c]));
      DrawPath(cave, paths[c]);
    }
    assert paths[..|paths|] == paths;
  }

  lemma SizedOk(paths: seq<seq<Point>>, height: nat, xLow: nat, xHigh: nat, xMin: nat, xStart: nat, width: nat)
    requires 1 <= height <= 500 && xMin == Min(500 - height, xLow + 1) >= 5 && xStart == xMin - 5
    requires width == Max(500 + height, xHigh) - xMin + 10
    ensures Sized(paths, height, xLow, xHigh) == Ok(Slice(xStart, 0, Drawn(paths, xStart, width, height)))
  {
  }

  lemma ParseCaveSized(input: string, paths: seq<seq<Point>>, height: nat, xLow: nat, xHigh: nat)
    requires ParseRows(Lines(input), []) == Ok(paths)
    requires height == MaxY(Points(paths)) + 1 && xLow == MinX(Points(paths)) && xHigh == MaxX(Points(paths))
    ensures ParseCave(input) == Sized(paths, height, xLow, xHigh)
  {
  }

  /** `CaveSlice::from_str`. Its two `usize` subtractions that can go below zero panic in
      the source; here they give `Err` with Rust's panic message. */
  method FromStr(input: string) returns (r: Result<CaveSlice>)
    ensures r.Ok? <==> ParseCave(input).Ok?
    ensures r.Err? ==> r.message == ParseCave(input).message
    ensures r.Ok? ==> fresh(r.value) && r.value.View() == ParseCave(input).value
  {
    var parsed, xLow, xHigh, yLow, yHigh := ReadPaths(Lines(input));
    if parsed.Err? {
      assert ParseCave(input) == Err(parsed.message);
      return Err(parsed.message);
    }
    var paths: seq<seq<Point>> := parsed.value;
    var height := yHigh - yLow + 1;
    ParseCaveSized(input, paths, height, xLow, xHigh);
    r := SizeCave(paths, height, xLow, xHigh);
  }

  /** The sizing part of `from_str`: the slice's width and left edge from the extremes of the
      paths and the height, with the two subtractions that can panic. */
  method SizeCave(paths: seq<seq<Point>>, height: nat, xLow: nat, xHigh: nat) returns (r: Result<CaveSlice>)
    requires height == MaxY(Points(paths)) + 1 && xLow == MinX(Points(paths)) && xHigh == MaxX(Points(paths))
    ensures r.Ok? <==> Sized(paths, height, xLow, xHigh).Ok?
    ensures r.Err? ==> r.message == Sized(paths, height, xLow, xHigh).message
    ensures r.Ok? ==> fresh(r.value) && r.value.View() == Sized(paths, height, xLow, xHigh).value
  {
    if height > 500 {
      return Err(Underflow);
    }
    var xMinSize := Min(500 - height, xLow + 1);
    var xMaxSize := Max(500 + height, xHigh);
    if xMinSize < 5 {
      return Err(Underflow);
    }
    var width := xMaxSize - xMinSize + 10;
    var xStart := xMinSize - 5;
    SizedOk(paths, height, xLow, xHigh, xMinSize, xStart, width);
    var cave := NewCave(paths, xStart, width, height);
    r := Ok(cave);
  }

  /** The body of `from_str` once the size is known: a slice of air, the source at (500, 0)
      and every path drawn in rock. */
  method NewCave(paths: seq<seq<Point>>, xStart: nat, width: nat, height: nat) returns (cave: CaveSlice)
    requires height >= 1 && xStart < 500 < xStart + width
    requires xStart <= MinX(Points(paths)) && MaxX(Points(paths)) < xStart + width
    requires MaxY(Points(paths)) < height
    ensures fresh(cave) && cave.View() == Slice(xStart, 0, Drawn(paths, xStart, width, height))
  {
    cave := new CaveSlice(xStart, 0, AirGrid(height, width));
    ghost var base := cave.View();
    DrawnIsPainted(paths, base, width, height);
    cave.Set(500, 0, Source);
    PathsInside(paths, cave.View());
    DrawRocks(cave, paths);
  }

  // ----- The two parts -----

  /** Part 1: grains that come to rest before one falls out of the slice. */
  function Part1Answer(input: string): Option<nat>
  {
    match ParseCave(input)
    case Err(_) => None
    case Ok(s) => Some(PourCount(s))
  }

  /** Part 2: the same with a floor two rows below the lowest rock. */
  function Part2Answer(input: string): Option<nat>
  {
    match ParseCave(input)
    case Err(_) => None
    case Ok(s) => Some(PourCount(Floored(s)))
  }

  /** `part_1`; `None` where the source's `unwrap` panics. */
  method Part1(input: string) returns (r: Option<nat>)
    ensures r == Part1Answer(input)
  {
    var cave := FromStr(input);
    if cave.Err? {
      return None;
    }
    var count := CountSand(cave.value);
    r := Some(count);
  }

  /** `part_2`. */
  method Part2(input: string) returns (r: Option<nat>)
    ensures r == Part2Answer(input)
  {
    var cave := FromStr(input);
    if cave.Err? {
      return None;
    }
    cave.value.InsertFloor();
    var count := CountSand(cave.value);
    r := Some(count);
  }
}
