/** Day 9: a rope of knots dragged around a grid by its head; the answer is how many distinct
    cells the last knot visits. */
module Day09 {
  import opened Basics
  import opened Text

  /** A knot position `(isize, isize)`. */
  datatype Pos = Pos(x: int, y: int)

  /** One input line: a direction and its signed (`isize`) count. */
  datatype Command = Up(n: int) | Down(n: int) | Left(n: int) | Right(n: int)

  // ---------------------------------------------------------------------------------------
  // Parsing

  /** `parse_command`: the count is everything from the third character on, parsed as an
      `isize`; the first character picks the direction and the second is ignored. `None`
      stands for the panics: a line shorter than two characters, a bad count, an unknown
      direction. */
  function ParseCommand(line: string): (r: Option<Command>)
    ensures r.Some? <==> |line| >= 2 && line[0] in "UDLR" && ParseInt(line[2..]).Some?
    ensures r.Some? ==> r.value.n == ParseInt(line[2..]).value && Letter(r.value) == line[0]
  {
    if |line| < 2 then None
    else
      match ParseInt(line[2..])
      case None => None
      case Some(n) =>
        match line[0]
        case 'U' => Some(Up(n))
        case 'D' => Some(Down(n))
        case 'L' => Some(Left(n))
        case 'R' => Some(Right(n))
        case _ => None
  }

  function Letter(c: Command): char
  {
    match c
    case Up(_) => 'U'
    case Down(_) => 'D'
    case Left(_) => 'L'
    case Right(_) => 'R'
  }

  /** The input line for a command, as the puzzle writes it. */
  function Render(c: Command): (line: string)
    ensures |line| >= 2 && line[0] == Letter(c) && line[2..] == IntToString(c.n)
  {
    [Letter(c), ' '] + IntToString(c.n)
  }

  lemma ParseCommandRoundTrip(c: Command)
    ensures ParseCommand(Render(c)) == Some(c)
  {
    ParseIntRoundTrip(c.n);
  }

  /** `input.lines().map(parse_command)`: every line parsed, or `None` at the first bad one. */
  function ParseCommands(lines: seq<string>): (r: Option<seq<Command>>)
    ensures r.Some? <==> forall i :: 0 <= i < |lines| ==> ParseCommand(lines[i]).Some?
    ensures r.Some? ==> |r.value| == |lines|
    ensures r.Some? ==> forall i :: 0 <= i < |lines| ==> ParseCommand(lines[i]) == Some(r.value[i])
  {
    if lines == [] then Some([])
    else
      match ParseCommand(lines[0])
      case None => None
      case Some(c) =>
        match ParseCommands(lines[1..])
        case None => None
        case Some(cs) => Some([c] + cs)
  }

  // ---------------------------------------------------------------------------------------
  // Following

  function Abs(v: int): int { if v < 0 then -v else v }

  function Sign(v: int): int { if v < 0 then -1 else if v > 0 then 1 else 0 }

  /** `isize::clamp(-1, 1)`. */
  function Clamp(v: int): (r: int)
    ensures -1 <= r <= 1 && (r == v || r == Sign(v))
  {
    if v < -1 then -1 else if v > 1 then 1 else v
  }

  /** The larger of the coordinate distances (Chebyshev distance). */
  function Gap(a: Pos, b: Pos): int
  {
    if Abs(a.x - b.x) < Abs(a.y - b.y) then Abs(a.y - b.y) else Abs(a.x - b.x)
  }

  predicate Touching(a: Pos, b: Pos) { Gap(a, b) <= 1 }

  /** The puzzle's rule: a knot not touching its predecessor takes one step, diagonal when it
      must, towards it. */
  function Pull(prev: Pos, curr: Pos): Pos
  {
    if Touching(prev, curr) then curr
    else Pos(curr.x + Sign(prev.x - curr.x), curr.y + Sign(prev.y - curr.y))
  }

  /** What `follow` does, in closed form: the puzzle's rule, except that a predecessor three or
      more cells away in the same row or column draws the knot two cells. */
  function FollowOf(prev: Pos, curr: Pos): Pos
  {
    if prev.x == curr.x && Abs(prev.y - curr.y) >= 3 then
      Pos(curr.x, if prev.y > curr.y then curr.y + 2 else curr.y - 2)
    else if prev.y == curr.y && Abs(prev.x - curr.x) >= 3 then
      Pos(if prev.x > curr.x then curr.x + 2 else curr.x - 2, curr.y)
    else Pull(prev, curr)
  }

  /** `follow`: straighten a same-row or same-column gap by one, then close any remaining gap
      wider than one with a clamped step. */
  method Follow(prev: Pos, curr: Pos) returns (next: Pos)
    ensures next == FollowOf(prev, curr)
  {
    next := curr;
    if prev == next {
      return;
    }
    if prev.x == next.x {
      if prev.y > next.y + 1 {
        next := next.(y := next.y + 1);
      } else if prev.y < next.y - 1 {
        next := next.(y := next.y - 1);
      }
    } else if prev.y == next.y {
      if prev.x > next.x + 1 {
        next := next.(x := next.x + 1);
      } else if prev.x < next.x - 1 {
        next := next.(x := next.x - 1);
      }
    }
    var dx := prev.x - next.x;
    var dy := prev.y - next.y;
    if dx > 1 || dy > 1 || dx < -1 || dy < -1 {
      next := Pos(next.x + Clamp(dx), next.y + Clamp(dy));
    }
  }

  /** Within two cells, `follow` is exactly the puzzle's rule, and afterwards the knot touches
      its predecessor having moved by at most one cell in each direction. */
  lemma FollowIsPullWhenClose(prev: Pos, curr: Pos)
    requires Gap(prev, curr) <= 2
    ensures FollowOf(prev, curr) == Pull(prev, curr)
    ensures Touching(prev, FollowOf(prev, curr)) && Touching(curr, FollowOf(prev, curr))
    ensures Touching(prev, curr) ==> FollowOf(prev, curr) == curr
  {
  }

  /** The knot never moves away from its predecessor, nor past it: each coordinate lands
      between the old one and the predecessor's. */
  lemma FollowBetween(prev: Pos, curr: Pos)
    ensures var n := FollowOf(prev, curr);
      && (curr.x <= n.x <= prev.x || prev.x <= n.x <= curr.x)
      && (curr.y <= n.y <= prev.y || prev.y <= n.y <= curr.y)
  {
  }

  /** The cases of the module's unit tests, one lemma per test. */
  lemma FollowsVertical()
    ensures FollowOf(Pos(0, 0), Pos(2, 0)) == Pos(1, 0)
    ensures FollowOf(Pos(3, 0), Pos(1, 0)) == Pos(2, 0)
  {
    assert Gap(Pos(0, 0), Pos(2, 0)) == 2;
    assert Gap(Pos(3, 0), Pos(1, 0)) == 2;
  }

  lemma FollowsHorizontal()
    ensures FollowOf(Pos(0, 0), Pos(0, 2)) == Pos(0, 1)
    ensures FollowOf(Pos(0, 3), Pos(0, 1)) == Pos(0, 2)
  {
    assert Gap(Pos(0, 0), Pos(0, 2)) == 2;
    assert Gap(Pos(0, 3), Pos(0, 1)) == 2;
  }

  lemma FollowsDiagonal()
    ensures FollowOf(Pos(0, 0), Pos(1, 2)) == Pos(0, 1)
    ensures FollowOf(Pos(1, 3), Pos(0, 1)) == Pos(1, 2)
    ensures FollowOf(Pos(3, 3), Pos(1, 2)) == Pos(2, 3)
    ensures FollowOf(Pos(4, 2), Pos(2, 3)) == Pos(3, 2)
    ensures FollowOf(Pos(1, 0), Pos(3, 2)) == Pos(2, 1)
  {
    FollowIsPullWhenClose(Pos(0, 0), Pos(1, 2));
    FollowIsPullWhenClose(Pos(1, 3), Pos(0, 1));
    FollowIsPullWhenClose(Pos(3, 3), Pos(1, 2));
    FollowIsPullWhenClose(Pos(4, 2), Pos(2, 3));
    FollowIsPullWhenClose(Pos(1, 0), Pos(3, 2));
  }

  lemma StaysWhenClose()
    ensures FollowOf(Pos(1, 2), Pos(1, 2)) == Pos(1, 2)
    ensures FollowOf(Pos(1, 3), Pos(1, 2)) == Pos(1, 2)
    ensures FollowOf(Pos(2, 3), Pos(1, 2)) == Pos(1, 2)
  {
    assert Gap(Pos(1, 3), Pos(1, 2)) == 1;
    assert Gap(Pos(2, 3), Pos(1, 2)) == 1;
  }

  /** `Gap` is symmetric and obeys the triangle inequality. */
  lemma GapTriangle(a: Pos, b: Pos, c: Pos)
    ensures Gap(a, b) == Gap(b, a)
    ensures Gap(a, c) <= Gap(a, b) + Gap(b, c)
  {
  }

  // ---------------------------------------------------------------------------------------
  // The chain

  /** Every knot after the head, in order, follows the already-moved knot before it. */
  function Chained(knots: seq<Pos>): (r: seq<Pos>)
    ensures |r| == |knots| && (|knots| > 0 ==> r[0] == knots[0])
  {
    if |knots| <= 1 then knots
    else
      var c := Chained(knots[..|knots| - 1]);
      c + [FollowOf(c[|c| - 1], knots[|knots| - 1])]
  }

  /** `follow_chain`: in place, from the second knot to the last. */
  method FollowChain(positions: array<Pos>)
    modifies positions
    ensures positions[..] == Chained(old(positions[..]))
  {
    ghost var knots := positions[..];
    if positions.Length == 0 {
      return;
    }
    var i := 1;
    while i < positions.Length
      invariant 1 <= i <= positions.Length
      invariant positions[..i] == Chained(knots[..i])
      invariant positions[i..] == knots[i..]
    {
      assert knots[..i + 1][..i] == knots[..i];
      assert positions[i] == knots[i];
      positions[i] := Follow(positions[i - 1], positions[i]);
      assert positions[..i + 1] == positions[..i] + [positions[i]];
      i := i + 1;
    }
    assert knots[..i] == knots;
  }

  /** Every knot touches the one before it. */
  predicate Taut(knots: seq<Pos>)
  {
    forall i :: 0 < i < |knots| ==> Touching(knots[i - 1], knots[i])
  }

  /** If the head of a taut rope moves by at most one cell in each direction, the chained rope
      is taut again, and every knot moved by at most one cell in each direction. */
  lemma {:induction false} ChainedKeepsTaut(knots: seq<Pos>, head: Pos)
    requires |knots| >= 1 && Taut(knots) && Touching(knots[0], head)
    ensures Taut(Chained(knots[0 := head]))
    ensures forall i :: 0 <= i < |knots| ==> Touching(knots[i], Chained(knots[0 := head])[i])
    decreases |knots|
  {
    var moved := knots[0 := head];
    var n := |knots|;
    if n > 1 {
      var front := knots[..n - 1];
      assert moved[..n - 1] == front[0 := head];
      TautPrefix(knots, n - 1);
      ChainedKeepsTaut(front, head);
      var c := Chained(moved[..n - 1]);
      assert Touching(knots[n - 2], c[n - 2]);
      assert Touching(knots[n - 2], knots[n - 1]);
      GapTriangle(c[n - 2], knots[n - 2], knots[n - 1]);
      FollowIsPullWhenClose(c[n - 2], knots[n - 1]);
      var last := FollowOf(c[n - 2], knots[n - 1]);
      GapTriangle(knots[n - 1], last, last);
      assert Chained(moved) == c + [last];
      TautSnoc(knots, c, last);
    }
  }

  /** A prefix of a taut rope is taut. */
  lemma TautPrefix(knots: seq<Pos>, n: nat)
    requires n <= |knots| && Taut(knots)
    ensures Taut(knots[..n])
  {
    forall i | 0 < i < n ensures Touching(knots[..n][i - 1], knots[..n][i]) {
      assert Touching(knots[i - 1], knots[i]);
    }
  }

  /** The chained prefix extended by a last knot that touches its predecessor and stays next
      to the old last knot keeps both properties of `ChainedKeepsTaut`. */
  lemma TautSnoc(knots: seq<Pos>, c: seq<Pos>, last: Pos)
    requires |knots| >= 2 && |c| == |knots| - 1 && Taut(c)
    requires forall i :: 0 <= i < |c| ==> Touching(knots[i], c[i])
    requires Touching(c[|c| - 1], last) && Touching(knots[|c|], last)
    ensures Taut(c + [last])
    ensures forall i :: 0 <= i < |knots| ==> Touching(knots[i], (c + [last])[i])
  {
    var r := c + [last];
    forall i | 0 < i < |r| ensures Touching(r[i - 1], r[i]) {
      if i < |c| { assert r[i - 1] == c[i - 1] && r[i] == c[i]; }
    }
    forall i | 0 <= i < |knots| ensures Touching(knots[i], r[i]) {
      if i < |c| { assert r[i] == c[i]; }
    }
  }

  /** Points between two corners of a box lie in it; the chain never leaves a box that holds
      all of its knots. */
  datatype Bounds = Bounds(minX: int, maxX: int, minY: int, maxY: int)

  predicate InBox(b: Bounds, p: Pos)
  {
    b.minX <= p.x <= b.maxX && b.minY <= p.y <= b.maxY
  }

  lemma {:induction false} ChainedStaysInBox(knots: seq<Pos>, b: Bounds)
    requires forall i :: 0 <= i < |knots| ==> InBox(b, knots[i])
    ensures forall i :: 0 <= i < |knots| ==> InBox(b, Chained(knots)[i])
    decreases |knots|
  {
    if |knots| > 1 {
      var n := |knots|;
      ChainedStaysInBox(knots[..n - 1], b);
      var c := Chained(knots[..n - 1]);
      FollowBetween(c[n - 2], knots[n - 1]);
    }
  }

  // ---------------------------------------------------------------------------------------
  // The simulation, as values

  /** `p` moved `k` cells in the command's direction. As in the source, `Left` increases x. */
  function Shift(p: Pos, c: Command, k: int): Pos
  {
    match c
    case Up(_) => Pos(p.x, p.y + k)
    case Down(_) => Pos(p.x, p.y - k)
    case Left(_) => Pos(p.x + k, p.y)
    case Right(_) => Pos(p.x - k, p.y)
  }

  /** How many steps `for _ in 0..n` takes: none for a negative count. */
  function Steps(c: Command): nat { if c.n < 0 then 0 else c.n }

  function Last(knots: seq<Pos>): Pos
    requires |knots| >= 1
  {
    knots[|knots| - 1]
  }

  /** One step of the knots: the head moves one cell, the chain follows. */
  function MoveRope(knots: seq<Pos>, c: Command): (r: seq<Pos>)
    ensures |r| == |knots|
  {
    if knots == [] then [] else Chained(knots[0 := Shift(knots[0], c, 1)])
  }

  /** The knots after the first `k` steps of a command. */
  function StepsOf(knots: seq<Pos>, c: Command, k: nat): (r: seq<Pos>)
    ensures |r| == |knots|
    decreases k
  {
    if k == 0 then knots else StepsOf(MoveRope(knots, c), c, k - 1)
  }

  /** Step `k + 1` moves the knots left by the first `k`. */
  lemma {:induction false} StepsOfSnoc(knots: seq<Pos>, c: Command, k: nat)
    ensures StepsOf(knots, c, k + 1) == MoveRope(StepsOf(knots, c, k), c)
    decreases k
  {
    if k > 0 {
      StepsOfSnoc(MoveRope(knots, c), c, k - 1);
    }
  }

  /** The cells the last knot occupies after each of the first `k` steps of a command. */
  function TrailOf(knots: seq<Pos>, c: Command, k: nat): set<Pos>
    requires |knots| >= 1
  {
    if k == 0 then {} else TrailOf(knots, c, k - 1) + {Last(StepsOf(knots, c, k))}
  }

  /** The knots after every command, each taken step by step. */
  function Run(knots: seq<Pos>, cs: seq<Command>): (r: seq<Pos>)
    ensures |r| == |knots|
  {
    if cs == [] then knots
    else
      var c := cs[|cs| - 1];
      StepsOf(Run(knots, cs[..|cs| - 1]), c, Steps(c))
  }

  /** The cells the last knot occupies after some step of some command. */
  function Trail(knots: seq<Pos>, cs: seq<Command>): set<Pos>
    requires |knots| >= 1
  {
    if cs == [] then {}
    else
      var c := cs[|cs| - 1];
      Trail(knots, cs[..|cs| - 1]) + TrailOf(Run(knots, cs[..|cs| - 1]), c, Steps(c))
  }

  /** The rope stays taut through any sequence of commands. */
  lemma {:induction false} RunKeepsTaut(knots: seq<Pos>, cs: seq<Command>)
    requires |knots| >= 1 && Taut(knots)
    ensures Taut(Run(knots, cs))
    decreases |cs|
  {
    if cs != [] {
      var c := cs[|cs| - 1];
      RunKeepsTaut(knots, cs[..|cs| - 1]);
      StepsKeepTaut(Run(knots, cs[..|cs| - 1]), c, Steps(c));
    }
  }

  lemma {:induction false} StepsKeepTaut(knots: seq<Pos>, c: Command, k: nat)
    requires |knots| >= 1 && Taut(knots)
    ensures Taut(StepsOf(knots, c, k))
    decreases k
  {
    if k > 0 {
      StepsKeepTaut(knots, c, k - 1);
      StepsOfSnoc(knots, c, k - 1);
      var ks := StepsOf(knots, c, k - 1);
      var head := Shift(ks[0], c, 1);
      assert Touching(ks[0], head);
      ChainedKeepsTaut(ks, head);
    }
  }

  /** The answer: how many distinct cells the last knot occupied after some step. */
  function TailCells(cs: seq<Command>, knotCount: nat): nat
    requires knotCount >= 1
  {
    |Trail(seq(knotCount, _ => Pos(0, 0)), cs)|
  }

  // ---------------------------------------------------------------------------------------
  // The box the head stays in

  /** Where the head is after the commands, when every count is taken as given (as
      `build_seen_map` does, negative counts included). */
  function HeadAfter(cs: seq<Command>): Pos
  {
    if cs == [] then Pos(0, 0)
    else
      var p, c := HeadAfter(cs[..|cs| - 1]), cs[|cs| - 1];
      Shift(p, c, c.n)
  }

  function Widen(b: Bounds, p: Pos): (r: Bounds)
    ensures InBox(r, p) && forall q :: InBox(b, q) ==> InBox(r, q)
  {
    Bounds(if p.x < b.minX then p.x else b.minX, if p.x > b.maxX then p.x else b.maxX,
           if p.y < b.minY then p.y else b.minY, if p.y > b.maxY then p.y else b.maxY)
  }

  /** The extremes `build_seen_map` tracks: the origin and the head after every command. */
  function Box(cs: seq<Command>): Bounds
  {
    if cs == [] then Bounds(0, 0, 0, 0) else Widen(Box(cs[..|cs| - 1]), HeadAfter(cs))
  }

  /** One more command moves the head by it and widens the box to the new position. */
  lemma BoxSnoc(cs: seq<Command>, i: nat)
    requires i < |cs|
    ensures HeadAfter(cs[..i + 1]) == Shift(HeadAfter(cs[..i]), cs[i], cs[i].n)
    ensures Box(cs[..i + 1]) == Widen(Box(cs[..i]), HeadAfter(cs[..i + 1]))
  {
    assert cs[..i + 1][..i] == cs[..i];
  }

  /** The box holds the head's position after every prefix of the commands. */
  lemma {:induction false} BoxHoldsHeads(cs: seq<Command>, i: nat)
    requires i <= |cs|
    ensures InBox(Box(cs), HeadAfter(cs[..i]))
    decreases |cs|
  {
    if i < |cs| {
      BoxHoldsHeads(cs[..|cs| - 1], i);
      assert cs[..|cs| - 1][..i] == cs[..i];
    } else {
      assert cs[..i] == cs;
      if cs == [] {
      }
    }
  }

  // ---------------------------------------------------------------------------------------
  // The seen map

  /** `SeenMap`: a grid of flags indexed by a knot position shifted by `startPos`, and the
      number of flags set. `Visited` is the set of positions marked so far. */
  class SeenMap {
    var grid: array2<bool>
    var startPos: Pos
    var seen: nat
    ghost var Visited: set<Pos>

    /** Whether `mark_seen` can index the grid at `p`. */
    predicate InMap(p: Pos)
      reads this`startPos, this`grid
    {
      0 <= p.x + startPos.x < grid.Length0 && 0 <= p.y + startPos.y < grid.Length1
    }

    ghost predicate Valid()
      reads this, grid
    {
      && (forall p :: p in Visited ==> 0 <= p.x + startPos.x < grid.Length0 && 0 <= p.y + startPos.y < grid.Length1)
      && (forall i, j :: 0 <= i < grid.Length0 && 0 <= j < grid.Length1 ==>
            (grid[i, j] <==> Pos(i - startPos.x, j - startPos.y) in Visited))
      && seen == |Visited|
    }

    constructor (b: Bounds)
      requires b.minX <= 0 <= b.maxX && b.minY <= 0 <= b.maxY
      ensures Valid() && fresh(grid) && Visited == {}
      ensures forall p :: InMap(p) <==> b.minX - 1 <= p.x <= b.maxX && b.minY - 1 <= p.y <= b.maxY
    {
      grid := new bool[b.maxX - b.minX + 2, b.maxY - b.minY + 2]((i, j) => false);
      startPos := Pos(-b.minX + 1, -b.minY + 1);
      seen := 0;
      Visited := {};
    }

    /** `mark_seen`: set the flag at `p`, counting it if it was clear. `false` is the
        out-of-range panic, and changes nothing. */
    method MarkSeen(p: Pos) returns (ok: bool)
      requires Valid()
      modifies this, grid
      ensures Valid() && grid == old(grid) && startPos == old(startPos)
      ensures ok <==> InMap(p)
      ensures ok ==> Covers(Visited, old(Visited), {p})
      ensures !ok ==> Visited == old(Visited)
    {
      var i, j := p.x + startPos.x, p.y + startPos.y;
      if !(0 <= i < grid.Length0 && 0 <= j < grid.Length1) {
        return false;
      }
      assert grid[i, j] <==> p in Visited;
      if !grid[i, j] {
        seen := seen + 1;
      }
      grid[i, j] := true;
      Visited := Visited + {p};
      ok := true;
    }

    /** `count_seen`: the number of distinct positions marked. */
    function CountSeen(): (n: nat)
      reads this, grid
      requires Valid()
      ensures n == |Visited|
    {
      seen
    }
  }

  /** `build_seen_map`: a map big enough for every position the head reaches at the end of a
      command, plus one spare row and column below the minimum. */
  method BuildSeenMap(commands: seq<Command>) returns (sm: SeenMap)
    ensures fresh(sm) && fresh(sm.grid) && sm.Valid() && sm.Visited == {}
    ensures Fits(Box(commands), sm)
  {
    var maxX, minX, maxY, minY := 0, 0, 0, 0;
    var cur := Pos(0, 0);
    var i := 0;
    while i < |commands|
      invariant 0 <= i <= |commands|
      invariant cur == HeadAfter(commands[..i])
      invariant Bounds(minX, maxX, minY, maxY) == Box(commands[..i])
    {
      var c := commands[i];
      ghost var before := cur;
      match c {
        case Up(n) => cur := cur.(y := cur.y + n);
        case Down(n) => cur := cur.(y := cur.y - n);
        case Left(n) => cur := cur.(x := cur.x + n);
        case Right(n) => cur := cur.(x := cur.x - n);
      }
      assert cur == Shift(before, c, c.n);
      BoxSnoc(commands, i);
      if cur.y > maxY { maxY := cur.y; }
      if cur.y < minY { minY := cur.y; }
      if cur.x > maxX { maxX := cur.x; }
      if cur.x < minX { minX := cur.x; }
      i := i + 1;
    }
    assert commands[..i] == commands;
    var box := Bounds(minX, maxX, minY, maxY);
    BoxHoldsHeads(commands, 0);
    assert commands[..0] == [];
    sm := new SeenMap(box);
    assert sm.InMap(Pos(box.minX, box.minY)) && sm.InMap(Pos(box.maxX, box.maxY));
  }

  // ---------------------------------------------------------------------------------------
  // The simulation, in place

  /** The seen map has both corners of the box, hence every cell of it. */
  predicate Fits(box: Bounds, sm: SeenMap)
    reads sm`startPos, sm`grid
  {
    sm.InMap(Pos(box.minX, box.minY)) && sm.InMap(Pos(box.maxX, box.maxY))
  }

  /** The conditions under which the simulation cannot index outside the seen map: every
      count is non-negative, the knots start at the origin, and the map holds the box. */
  predicate SafeRun(commands: seq<Command>, knots: seq<Pos>, sm: SeenMap)
    reads sm`startPos, sm`grid
  {
    && (forall i :: 0 <= i < |commands| ==> commands[i].n >= 0)
    && (forall i :: 0 <= i < |knots| ==> knots[i] == Pos(0, 0))
    && Fits(Box(commands), sm)
  }

  /** `v` holds exactly the positions of `v0` and of `t`. */
  ghost predicate Covers(v: set<Pos>, v0: set<Pos>, t: set<Pos>)
  {
    forall p {:trigger p in v} :: p in v <==> p in v0 || p in t
  }

  lemma CoversSame(v: set<Pos>, v0: set<Pos>, t: set<Pos>, t': set<Pos>)
    requires Covers(v, v0, t) && t == t'
    ensures Covers(v, v0, t')
  {
  }

  /** Covering `a` and then `b` on top covers their union. */
  lemma CoversUnion(v: set<Pos>, before: set<Pos>, v0: set<Pos>, a: set<Pos>, b: set<Pos>)
    requires Covers(before, v0, a) && Covers(v, before, b)
    ensures Covers(v, v0, a + b)
  {
  }

  /** Marking the last knot after step `i + 1` extends the trail by one step. */
  lemma TrailOfStep(v: set<Pos>, before: set<Pos>, v0: set<Pos>, knots: seq<Pos>, c: Command, i: nat)
    requires |knots| >= 1
    requires Covers(before, v0, TrailOf(knots, c, i))
    requires Covers(v, before, {Last(StepsOf(knots, c, i + 1))})
    ensures Covers(v, v0, TrailOf(knots, c, i + 1))
  {
  }

  /** The head's move and `follow_chain`, in place. */
  method MoveRopeInPlace(c: Command, positions: array<Pos>)
    requires positions.Length >= 1
    modifies positions
    ensures positions[..] == MoveRope(old(positions[..]), c)
  {
    var h := positions[0];
    match c {
      case Up(_) => positions[0] := h.(y := h.y + 1);
      case Down(_) => positions[0] := h.(y := h.y - 1);
      case Left(_) => positions[0] := h.(x := h.x + 1);
      case Right(_) => positions[0] := h.(x := h.x - 1);
    }
    assert positions[..] == old(positions[..])[0 := Shift(h, c, 1)];
    FollowChain(positions);
  }

  /** One step of `simulate`: move the head, pull the chain, mark the last knot. The array
      goes from step `i` of the command to step `i + 1`; `false` is the out-of-range panic of
      `mark_seen`. */
  method StepRope(c: Command, positions: array<Pos>, sm: SeenMap, ghost knots: seq<Pos>, ghost i: nat,
                  ghost visited0: set<Pos>)
    returns (ok: bool)
    requires sm.Valid() && positions.Length >= 1 && positions[..] == StepsOf(knots, c, i)
    requires Covers(sm.Visited, visited0, TrailOf(knots, c, i))
    modifies sm, sm.grid, positions
    ensures sm.Valid() && sm.grid == old(sm.grid) && sm.startPos == old(sm.startPos)
    ensures ok <==> sm.InMap(Last(StepsOf(knots, c, i + 1)))
    ensures ok ==> positions[..] == StepsOf(knots, c, i + 1)
    ensures ok ==> Covers(sm.Visited, visited0, TrailOf(knots, c, i + 1))
  {
    MoveRopeInPlace(c, positions);
    StepsOfSnoc(knots, c, i);
    ghost var next := StepsOf(knots, c, i + 1);
    assert positions[..] == next;
    var last := positions[positions.Length - 1];
    assert last == Last(next);
    ghost var before := sm.Visited;
    ok := sm.MarkSeen(last);
    if ok {
      TrailOfStep(sm.Visited, before, visited0, knots, c, i);
    }
  }

  /** The inner loop of `simulate`: one command's steps. On failure, `failed` steps went
      well and the next one took the last knot off the map. */
  method RunCommand(c: Command, positions: array<Pos>, sm: SeenMap, ghost knots: seq<Pos>)
    returns (ok: bool, ghost failed: nat)
    requires sm.Valid() && positions.Length >= 1 && positions[..] == knots
    modifies sm, sm.grid, positions
    ensures sm.Valid() && sm.grid == old(sm.grid) && sm.startPos == old(sm.startPos)
    ensures ok ==> positions[..] == StepsOf(knots, c, Steps(c))
    ensures ok ==> Covers(sm.Visited, old(sm.Visited), TrailOf(knots, c, Steps(c)))
    ensures !ok ==> failed < Steps(c) && !sm.InMap(Last(StepsOf(knots, c, failed + 1)))
  {
    ghost var visited0 := sm.Visited;
    ok, failed := true, 0;
    var i := 0;
    while i < c.n
      invariant 0 <= i <= Steps(c) && ok
      invariant sm.Valid() && sm.grid == old(sm.grid) && sm.startPos == old(sm.startPos)
      invariant positions[..] == StepsOf(knots, c, i)
      invariant Covers(sm.Visited, visited0, TrailOf(knots, c, i))
    {
      ok := StepRope(c, positions, sm, knots, i, visited0);
      if !ok {
        failed := i;
        break;
      }
      i := i + 1;
    }
    if ok {
      assert i == Steps(c);
      CoversSame(sm.Visited, visited0, TrailOf(knots, c, i), TrailOf(knots, c, Steps(c)));
    }
  }

  /** A head `k` unit steps along a command of `n >= k` steps lies between the command's end
      points, so in any box holding both. */
  lemma AlongSegment(b: Bounds, p: Pos, c: Command, k: nat)
    requires 0 <= k <= c.n
    requires InBox(b, p) && InBox(b, Shift(p, c, c.n))
    ensures InBox(b, Shift(p, c, k))
  {
  }

  /** Stepping through a command never takes a knot out of a box that holds all the knots and
      the command's end point; after `k` steps the head is `k` cells along. */
  lemma {:induction false} StepsInBox(knots: seq<Pos>, c: Command, k: nat, box: Bounds)
    requires |knots| >= 1 && k <= c.n
    requires forall m :: 0 <= m < |knots| ==> InBox(box, knots[m])
    requires InBox(box, Shift(knots[0], c, c.n))
    ensures StepsOf(knots, c, k)[0] == Shift(knots[0], c, k)
    ensures forall m :: 0 <= m < |knots| ==> InBox(box, StepsOf(knots, c, k)[m])
    decreases k
  {
    if k > 0 {
      StepsInBox(knots, c, k - 1, box);
      StepsOfSnoc(knots, c, k - 1);
      var before := StepsOf(knots, c, k - 1);
      AlongSegment(box, knots[0], c, k);
      ChainedStaysInBox(before[0 := Shift(before[0], c, 1)], box);
    }
  }

  /** Running one more command extends the run by that command's steps. */
  lemma RunSnoc(knots: seq<Pos>, cs: seq<Command>, i: nat)
    requires i < |cs|
    ensures Run(knots, cs[..i + 1]) == StepsOf(Run(knots, cs[..i]), cs[i], Steps(cs[i]))
  {
    assert cs[..i + 1][..i] == cs[..i];
  }

  /** The trail of a run one command longer adds that command's trail. */
  lemma TrailUnfold(knots: seq<Pos>, cs: seq<Command>, i: nat)
    requires |knots| >= 1 && i < |cs|
    ensures Trail(knots, cs[..i + 1]) == Trail(knots, cs[..i]) + TrailOf(Run(knots, cs[..i]), cs[i], Steps(cs[i]))
  {
    var full := cs[..i + 1];
    assert full[..|full| - 1] == cs[..i] && full[|full| - 1] == cs[i];
    TrailLast(knots, full);
  }

  lemma TrailLast(knots: seq<Pos>, cs: seq<Command>)
    requires |knots| >= 1 && |cs| >= 1
    ensures Trail(knots, cs) == Trail(knots, cs[..|cs| - 1])
      + TrailOf(Run(knots, cs[..|cs| - 1]), cs[|cs| - 1], Steps(cs[|cs| - 1]))
  {
  }

  /** Marks covering the trail so far and then the trail of one more command cover the trail of
      the longer run. */
  lemma TrailSnoc(v: set<Pos>, before: set<Pos>, v0: set<Pos>, knots: seq<Pos>, cs: seq<Command>, i: nat)
    requires |knots| >= 1 && i < |cs|
    requires Covers(before, v0, Trail(knots, cs[..i]))
    requires Covers(v, before, TrailOf(Run(knots, cs[..i]), cs[i], Steps(cs[i])))
    ensures Covers(v, v0, Trail(knots, cs[..i + 1]))
  {
    var pre, c := cs[..i], cs[i];
    TrailUnfold(knots, cs, i);
    CoversUnion(v, before, v0, Trail(knots, pre), TrailOf(Run(knots, pre), c, Steps(c)));
  }

  /** Every knot lies in the box. */
  predicate Inside(box: Bounds, knots: seq<Pos>)
  {
    forall m :: 0 <= m < |knots| ==> InBox(box, knots[m])
  }

  /** Within a command of a run with non-negative counts, every knot stays in the run's box,
      and after the whole command the head is where `build_seen_map` put it. */
  lemma CommandInBox(commands: seq<Command>, i: nat, knots: seq<Pos>, k: nat)
    requires i < |commands| && |knots| >= 1 && 0 <= k <= commands[i].n
    requires Inside(Box(commands), knots) && knots[0] == HeadAfter(commands[..i])
    ensures Inside(Box(commands), StepsOf(knots, commands[i], k))
    ensures k == commands[i].n ==> StepsOf(knots, commands[i], k)[0] == HeadAfter(commands[..i + 1])
  {
    var c, box := commands[i], Box(commands);
    BoxHoldsHeads(commands, i + 1);
    assert commands[..i + 1][..i] == commands[..i];
    StepsInBox(knots, c, k, box);
  }

  /** One iteration of `simulate`'s outer loop: run command `i` on the knots left by the
      commands before it. When the run is safe, the knots stay in the box and the head ends
      where `build_seen_map` expects it, so no mark falls outside the map. */
  method SimulateCommand(commands: seq<Command>, i: nat, sm: SeenMap, positions: array<Pos>,
                         ghost knots0: seq<Pos>, ghost visited0: set<Pos>, ghost safe: bool)
    returns (ok: bool)
    requires i < |commands| && sm.Valid() && positions.Length >= 1 && |knots0| >= 1
    requires positions[..] == Run(knots0, commands[..i])
    requires Covers(sm.Visited, visited0, Trail(knots0, commands[..i]))
    requires safe ==> Fits(Box(commands), sm) && commands[i].n >= 0
    requires safe ==> Inside(Box(commands), positions[..]) && positions[0] == HeadAfter(commands[..i])
    modifies sm, sm.grid, positions
    ensures sm.Valid() && sm.grid == old(sm.grid) && sm.startPos == old(sm.startPos)
    ensures ok ==> positions[..] == Run(knots0, commands[..i + 1])
    ensures ok ==> Covers(sm.Visited, visited0, Trail(knots0, commands[..i + 1]))
    ensures safe ==> ok && Inside(Box(commands), positions[..]) && positions[0] == HeadAfter(commands[..i + 1])
  {
    var c := commands[i];
    ghost var before := positions[..];
    ghost var marked := sm.Visited;
    ghost var box := Box(commands);
    ghost var failed;
    ok, failed := RunCommand(c, positions, sm, before);
    if !ok {
      if safe {
        CommandInBox(commands, i, before, failed + 1);
      }
      return;
    }
    RunSnoc(knots0, commands, i);
    TrailSnoc(sm.Visited, marked, visited0, knots0, commands, i);
    if safe {
      CommandInBox(commands, i, before, c.n);
    }
  }

  /** `simulate`: run every command step by step on the knots in place, marking the last knot
      after each step. `false` is the out-of-range panic of `mark_seen`, which cannot happen
      from the origin with non-negative counts and a map built for the commands. */
  method Simulate(commands: seq<Command>, sm: SeenMap, positions: array<Pos>) returns (ok: bool)
    requires sm.Valid() && positions.Length >= 1
    modifies sm, sm.grid, positions
    ensures sm.Valid() && sm.grid == old(sm.grid)
    ensures ok ==> positions[..] == Run(old(positions[..]), commands)
    ensures ok ==> Covers(sm.Visited, old(sm.Visited), Trail(old(positions[..]), commands))
    ensures old(SafeRun(commands, positions[..], sm)) ==> ok
  {
    ghost var knots0 := positions[..];
    ghost var visited0 := sm.Visited;
    ghost var safe := SafeRun(commands, positions[..], sm);
    if safe {
      BoxHoldsHeads(commands, 0);
    }
    ok := true;
    var i := 0;
    while i < |commands|
      invariant 0 <= i <= |commands|
      invariant sm.Valid() && sm.grid == old(sm.grid) && sm.startPos == old(sm.startPos)
      invariant positions[..] == Run(knots0, commands[..i])
      invariant Covers(sm.Visited, visited0, Trail(knots0, commands[..i]))
      invariant safe ==> Fits(Box(commands), sm)
      invariant safe ==> Inside(Box(commands), positions[..]) && positions[0] == HeadAfter(commands[..i])
    {
      ok := SimulateCommand(commands, i, sm, positions, knots0, visited0, safe);
      if !ok {
        return;
      }
      i := i + 1;
    }
    assert commands[..i] == commands;
  }

  /** `part_1` (two knots) and `part_2` (ten knots): parse, size the map, simulate, count.
      `None` stands for a parse panic or an out-of-range mark. */
  method CountTailCells(lines: seq<string>, knotCount: nat) returns (r: Option<nat>)
    requires knotCount >= 1
    ensures ParseCommands(lines).None? ==> r.None?
    ensures r.Some? ==> ParseCommands(lines).Some? && r.value == TailCells(ParseCommands(lines).value, knotCount)
    ensures ParseCommands(lines).Some? && (forall c :: c in ParseCommands(lines).value ==> c.n >= 0) ==> r.Some?
  {
    var parsed := ParseCommands(lines);
    if parsed.None? {
      return None;
    }
    var commands := parsed.value;
    var positions := new Pos[knotCount](_ => Pos(0, 0));
    ghost var positions0 := positions[..];
    assert positions0 == seq(knotCount, _ => Pos(0, 0));
    var sm := BuildSeenMap(commands);
    var ok := Simulate(commands, sm, positions);
    if !ok {
      return None;
    }
    assert sm.Visited == Trail(positions0, commands);
    r := Some(sm.CountSeen());
  }
}
