/** Hill climbing (src/day12.rs): a height map, two traversal strategies, the neighbour
    generator and the heap-driven uniform-cost search with its predecessor walk. */
module Day12 {
  import opened Basics

  /** A cell as (column, row), the source's `(usize, usize)`. */
  datatype Pos = Pos(x: nat, y: nat)

  /** The parsed map; immutable once built. */
  datatype HeightMap = HeightMap(heights: seq<seq<int>>, height: nat, width: nat, startPos: Pos, endPos: Pos)

  /** A map the search can run on: a non-empty rectangle whose marked cells lie inside it. */
  predicate Valid(hm: HeightMap)
  {
    && hm.height == |hm.heights| && hm.height >= 1 && hm.width >= 1
    && (forall y :: 0 <= y < |hm.heights| ==> |hm.heights[y]| == hm.width)
    && InBounds(hm, hm.startPos) && InBounds(hm, hm.endPos)
  }

  predicate InBounds(hm: HeightMap, p: Pos)
  {
    p.x < hm.width && p.y < hm.height
  }

  function HeightAt(hm: HeightMap, p: Pos): int
    requires Valid(hm) && InBounds(hm, p)
  {
    hm.heights[p.y][p.x]
  }

  predicate Adjacent(a: Pos, b: Pos)
  {
    (a.y == b.y && (a.x + 1 == b.x || b.x + 1 == a.x)) || (a.x == b.x && (a.y + 1 == b.y || b.y + 1 == a.y))
  }

  // ---------------------------------------------------------------------------------------
  // Strategies

  /** `Part1Strategy` climbs from the start to the end; `Part2Strategy` walks back down from the end. */
  datatype Strategy = Ascent | Descent

  function StartPos(s: Strategy, hm: HeightMap): Pos
  {
    match s
    case Ascent => hm.startPos
    case Descent => hm.endPos
  }

  /** `can_step` as the neighbour generator calls it: `from` is the current cell, `to` the
      candidate. `Part2Strategy::can_step` names its parameters `(end, start)`, so the current
      cell is bound to `end`: its rule is the ascent rule with the two cells swapped. */
  predicate CanStep(s: Strategy, hm: HeightMap, from: Pos, to: Pos)
    requires Valid(hm) && InBounds(hm, from) && InBounds(hm, to)
  {
    match s
    case Ascent => HeightAt(hm, from) + 1 >= HeightAt(hm, to)
    case Descent => HeightAt(hm, to) + 1 >= HeightAt(hm, from)
  }

  /** The descent rule is the ascent rule with its arguments swapped. */
  lemma DescentIsSwappedAscent(hm: HeightMap, a: Pos, b: Pos)
    requires Valid(hm) && InBounds(hm, a) && InBounds(hm, b)
    ensures CanStep(Descent, hm, a, b) <==> CanStep(Ascent, hm, b, a)
    ensures CanStep(Ascent, hm, a, b) <==> HeightAt(hm, b) <= HeightAt(hm, a) + 1
    ensures CanStep(Descent, hm, a, b) <==> HeightAt(hm, a) <= HeightAt(hm, b) + 1
  {
  }

  /** `end_condition`: the ascent stops at the end cell, the descent at any cell of height 0. */
  predicate EndCondition(s: Strategy, hm: HeightMap, p: Pos)
    requires Valid(hm) && InBounds(hm, p)
  {
    match s
    case Ascent => p == hm.endPos
    case Descent => HeightAt(hm, p) == 0
  }

  // ---------------------------------------------------------------------------------------
  // Neighbours

  /** One legal move: an in-bounds orthogonal neighbour the strategy allows. */
  predicate Step(s: Strategy, hm: HeightMap, from: Pos, to: Pos)
    requires Valid(hm)
  {
    InBounds(hm, from) && InBounds(hm, to) && Adjacent(from, to) && CanStep(s, hm, from, to)
  }

  /** The cells `neighbours` yields, in its order: left, up, right, down. */
  function NeighbourList(s: Strategy, hm: HeightMap, p: Pos): (ns: seq<Pos>)
    requires Valid(hm) && InBounds(hm, p)
    ensures |ns| <= 4
    ensures forall n :: n in ns ==> Step(s, hm, p, n)
    ensures forall n :: Step(s, hm, p, n) ==> n in ns
  {
    var left := if p.x > 0 && CanStep(s, hm, p, Pos(p.x - 1, p.y)) then [Pos(p.x - 1, p.y)] else [];
    var up := if p.y > 0 && CanStep(s, hm, p, Pos(p.x, p.y - 1)) then [Pos(p.x, p.y - 1)] else [];
    var right := if p.x < hm.width - 1 && CanStep(s, hm, p, Pos(p.x + 1, p.y)) then [Pos(p.x + 1, p.y)] else [];
    var down := if p.y < hm.height - 1 && CanStep(s, hm, p, Pos(p.x, p.y + 1)) then [Pos(p.x, p.y + 1)] else [];
    left + up + right + down
  }

  /** `HeightMap::neighbours`: fills the caller's four-slot buffer and returns how many slots it used. */
  method Neighbours(s: Strategy, hm: HeightMap, p: Pos, space: array<Pos>) returns (count: nat)
    requires Valid(hm) && InBounds(hm, p) && space.Length == 4
    modifies space
    ensures count <= 4 && space[..count] == NeighbourList(s, hm, p)
  {
    count := 0;
    ghost var left, up, right, down: seq<Pos> := [], [], [], [];
    if p.x > 0 && CanStep(s, hm, p, Pos(p.x - 1, p.y)) {
      count := Push(space, count, Pos(p.x - 1, p.y));
      left := [Pos(p.x - 1, p.y)];
    }
    assert space[..count] == left;
    if p.y > 0 && CanStep(s, hm, p, Pos(p.x, p.y - 1)) {
      count := Push(space, count, Pos(p.x, p.y - 1));
      up := [Pos(p.x, p.y - 1)];
    }
    assert space[..count] == left + up;
    if p.x < hm.width - 1 && CanStep(s, hm, p, Pos(p.x + 1, p.y)) {
      count := Push(space, count, Pos(p.x + 1, p.y));
      right := [Pos(p.x + 1, p.y)];
    }
    assert space[..count] == left + up + right;
    if p.y < hm.height - 1 && CanStep(s, hm, p, Pos(p.x, p.y + 1)) {
      count := Push(space, count, Pos(p.x, p.y + 1));
      down := [Pos(p.x, p.y + 1)];
    }
    assert space[..count] == left + up + right + down;
  }

  /** Writes `q` into the first unused slot of the buffer. */
  method Push(space: array<Pos>, count: nat, q: Pos) returns (next: nat)
    requires count < space.Length
    modifies space
    ensures next == count + 1 && space[..next] == old(space[..count]) + [q]
  {
    space[count] := q;
    next := count + 1;
  }

  // ---------------------------------------------------------------------------------------
  // Walks

  /** A sequence of cells each of which is a legal move from the one before. */
  ghost predicate IsWalk(s: Strategy, hm: HeightMap, w: seq<Pos>)
    requires Valid(hm)
  {
    && |w| >= 1
    && (forall i :: 0 <= i < |w| ==> InBounds(hm, w[i]))
    && (forall i :: 0 <= i < |w| - 1 ==> Step(s, hm, w[i], w[i + 1]))
  }

  /** A walk from `start` whose last cell meets `goal`. */
  ghost predicate ReachesGoal(s: Strategy, hm: HeightMap, start: Pos, goal: Pos -> bool, w: seq<Pos>)
    requires Valid(hm)
  {
    IsWalk(s, hm, w) && w[0] == start && goal(w[|w| - 1])
  }

  // ---------------------------------------------------------------------------------------
  // Search state

  /** `usize::MAX`, the "not reached yet" distance. */
  const Unreached: nat := 0xFFFF_FFFF_FFFF_FFFF

  /** A `knowledge_map` cell: the predecessor, if any, and the best known distance. */
  datatype Info = Info(pred: Option<Pos>, dist: nat)

  /** A heap entry: the distance it was pushed with, and the cell. */
  datatype Entry = Entry(key: nat, cell: Pos)

  /** The order `BinaryHeap<Reverse<(usize, (usize, usize))>>` pops in: smallest
      (distance, x, y) first. */
  predicate EntryLe(a: Entry, b: Entry)
  {
    a.key < b.key || (a.key == b.key && (a.cell.x < b.cell.x || (a.cell.x == b.cell.x && a.cell.y <= b.cell.y)))
  }

  function At(km: seq<seq<Info>>, p: Pos): Info
  {
    if p.y < |km| && p.x < |km[p.y]| then km[p.y][p.x] else Info(None, Unreached)
  }

  function Dist(km: seq<seq<Info>>, p: Pos): nat
  {
    At(km, p).dist
  }

  function Update(km: seq<seq<Info>>, p: Pos, v: Info): (km': seq<seq<Info>>)
    requires p.y < |km| && p.x < |km[p.y]|
    ensures |km'| == |km| && forall y :: 0 <= y < |km| ==> |km'[y]| == |km[y]|
    ensures At(km', p) == v && forall q :: q != p ==> At(km', q) == At(km, q)
  {
    km[p.y := km[p.y][p.x := v]]
  }

  predicate Shaped(hm: HeightMap, km: seq<seq<Info>>)
  {
    |km| == hm.height && forall y :: 0 <= y < |km| ==> |km[y]| == hm.width
  }

  function RowTotal(row: seq<Info>): nat
  {
    if row == [] then 0 else RowTotal(row[..|row| - 1]) + row[|row| - 1].dist
  }

  /** The sum of all recorded distances: it falls whenever a distance improves. */
  function TotalDist(km: seq<seq<Info>>): nat
  {
    if km == [] then 0 else TotalDist(km[..|km| - 1]) + RowTotal(km[|km| - 1])
  }

  lemma {:induction false} RowTotalUpdate(row: seq<Info>, x: nat, v: Info)
    requires x < |row|
    ensures RowTotal(row[x := v]) + row[x].dist == RowTotal(row) + v.dist
    decreases |row|
  {
    var row' := row[x := v];
    if x < |row| - 1 {
      assert row'[..|row'| - 1] == row[..|row| - 1][x := v];
      RowTotalUpdate(row[..|row| - 1], x, v);
    } else {
      assert row'[..|row'| - 1] == row[..|row| - 1];
    }
  }

  lemma {:induction false} TotalDistUpdateRow(km: seq<seq<Info>>, y: nat, r: seq<Info>)
    requires y < |km|
    ensures TotalDist(km[y := r]) + RowTotal(km[y]) == TotalDist(km) + RowTotal(r)
    decreases |km|
  {
    var km' := km[y := r];
    if y < |km| - 1 {
      assert km'[..|km'| - 1] == km[..|km| - 1][y := r];
      TotalDistUpdateRow(km[..|km| - 1], y, r);
    } else {
      assert km'[..|km'| - 1] == km[..|km| - 1];
    }
  }

  /** Lowering one cell's distance lowers the total by the same amount. */
  lemma TotalDistUpdate(km: seq<seq<Info>>, p: Pos, v: Info)
    requires p.y < |km| && p.x < |km[p.y]|
    ensures TotalDist(Update(km, p, v)) + Dist(km, p) == TotalDist(km) + v.dist
  {
    RowTotalUpdate(km[p.y], p.x, v);
    TotalDistUpdateRow(km, p.y, km[p.y][p.x := v]);
  }

  /** `BinaryHeap::pop` on the min-heap: removes one copy of the least entry. */
  method PopMin(heap: seq<Entry>) returns (e: Entry, rest: seq<Entry>)
    requires |heap| > 0
    ensures e in heap && |rest| == |heap| - 1
    ensures forall x :: x in heap ==> EntryLe(e, x)
    ensures multiset(rest) + multiset{e} == multiset(heap)
    ensures forall x :: x in rest ==> x in heap
    ensures forall x :: x in heap && x != e ==> x in rest
  {
    var m := 0;
    var i := 1;
    while i < |heap|
      invariant 1 <= i <= |heap| && m < i
      invariant forall k :: 0 <= k < i ==> EntryLe(heap[m], heap[k])
    {
      if !EntryLe(heap[m], heap[i]) {
        m := i;
      }
      i := i + 1;
    }
    e := heap[m];
    rest := heap[..m] + heap[m + 1..];
    assert heap == heap[..m] + [heap[m]] + heap[m + 1..];
    forall x | x in heap && x != e ensures x in rest {
      assert x in multiset(heap);
    }
  }

  // ---------------------------------------------------------------------------------------
  // Search invariants

  /** Every legal neighbour of `c` already has a distance at most one more than `c`'s. */
  ghost predicate Settled(s: Strategy, hm: HeightMap, km: seq<seq<Info>>, c: Pos)
    requires Valid(hm) && InBounds(hm, c)
  {
    forall n :: Step(s, hm, c, n) ==> Dist(km, n) <= Dist(km, c) + 1
  }

  /** A predecessor link goes to an in-bounds cell with a strictly smaller distance, from which
      this cell is a legal move; a cell without one is the start or is unreached. */
  ghost predicate PredOk(s: Strategy, hm: HeightMap, start: Pos, km: seq<seq<Info>>, c: Pos)
    requires Valid(hm) && InBounds(hm, c)
  {
    && Dist(km, c) <= Unreached
    && match At(km, c).pred
    case None => c == start || Dist(km, c) == Unreached
    case Some(p) => Step(s, hm, p, c) && Dist(km, p) < Dist(km, c)
  }

  ghost predicate PredsOk(s: Strategy, hm: HeightMap, start: Pos, km: seq<seq<Info>>)
    requires Valid(hm)
  {
    && At(km, start) == Info(None, 0)
    && forall c {:trigger PredOk(s, hm, start, km, c)} :: InBounds(hm, c) ==> PredOk(s, hm, start, km, c)
  }

  /** Every entry's cell is in bounds and already has a finite distance no larger than the entry's. */
  ghost predicate HeapOk(hm: HeightMap, km: seq<seq<Info>>, heap: seq<Entry>)
  {
    forall e :: e in heap ==> InBounds(hm, e.cell) && Dist(km, e.cell) <= e.key < Unreached
  }

  /** Every reached cell still has an entry for its current distance, or was popped and settled. */
  ghost predicate CoveredAt(s: Strategy, hm: HeightMap, km: seq<seq<Info>>, heap: seq<Entry>, done: set<Pos>, c: Pos)
    requires Valid(hm)
  {
    InBounds(hm, c) && Dist(km, c) < Unreached ==>
      Entry(Dist(km, c), c) in heap || (c in done && Settled(s, hm, km, c))
  }

  ghost predicate Covered(s: Strategy, hm: HeightMap, km: seq<seq<Info>>, heap: seq<Entry>, done: set<Pos>)
    requires Valid(hm)
  {
    forall c {:trigger CoveredAt(s, hm, km, heap, done, c)} :: CoveredAt(s, hm, km, heap, done, c)
  }

  /** Popped cells failed the goal test. */
  ghost predicate DoneOk(hm: HeightMap, goal: Pos -> bool, done: set<Pos>)
  {
    forall c :: c in done ==> InBounds(hm, c) && !goal(c)
  }

  lemma PrependStep(s: Strategy, hm: HeightMap, p: Pos, w: seq<Pos>)
    requires Valid(hm) && IsWalk(s, hm, w) && Step(s, hm, p, w[0])
    ensures IsWalk(s, hm, [p] + w)
  {
    var w' := [p] + w;
    forall i | 0 <= i < |w'| - 1 ensures Step(s, hm, w'[i], w'[i + 1]) {
      if i > 0 { assert w'[i] == w[i - 1] && w'[i + 1] == w[i]; }
    }
  }

  /** Lowering other cells' distances keeps a cell settled. */
  lemma SettledAfterUpdate(s: Strategy, hm: HeightMap, km: seq<seq<Info>>, nb: Pos, v: Info, c: Pos)
    requires Valid(hm) && InBounds(hm, c) && Shaped(hm, km) && InBounds(hm, nb) && c != nb
    requires v.dist <= Dist(km, nb) && Settled(s, hm, km, c)
    ensures Settled(s, hm, Update(km, nb, v), c)
  {
    var km' := Update(km, nb, v);
    forall n | Step(s, hm, c, n) ensures Dist(km', n) <= Dist(km', c) + 1 {
      assert Dist(km, n) <= Dist(km, c) + 1;
    }
  }

  /** Improving `nb` through `pos` keeps every predecessor link valid. */
  lemma PredsAfterUpdate(s: Strategy, hm: HeightMap, start: Pos, km: seq<seq<Info>>, pos: Pos, nb: Pos)
    requires Valid(hm) && Shaped(hm, km) && PredsOk(s, hm, start, km)
    requires Step(s, hm, pos, nb)
    requires Dist(km, pos) + 1 < Dist(km, nb)
    ensures PredsOk(s, hm, start, Update(km, nb, Info(Some(pos), Dist(km, pos) + 1)))
  {
    var km' := Update(km, nb, Info(Some(pos), Dist(km, pos) + 1));
    assert nb != start;
    forall c | InBounds(hm, c) ensures PredOk(s, hm, start, km', c) {
      assert PredOk(s, hm, start, km, c);
      if c != nb {
        match At(km, c).pred
        case None =>
        case Some(p) =>
          assert Dist(km', p) <= Dist(km, p);
      }
    }
  }

  /** The search's key step: if the heap's least entry `m` is finite, every walk from the start
      to a goal has at least `m.key` steps. */
  lemma {:induction false} NoShorterWalk(s: Strategy, hm: HeightMap, start: Pos, goal: Pos -> bool,
                                        km: seq<seq<Info>>, heap: seq<Entry>, done: set<Pos>,
                                        m: Entry, w: seq<Pos>, i: nat)
    requires Valid(hm) && Shaped(hm, km) && Covered(s, hm, km, heap, done) && DoneOk(hm, goal, done)
    requires forall x :: x in heap ==> EntryLe(m, x)
    requires m.key < Unreached
    requires ReachesGoal(s, hm, start, goal, w)
    requires i < |w| && Dist(km, w[i]) <= i
    ensures m.key <= |w| - 1
    decreases |w| - i
  {
    if i < Unreached {
      var c := w[i];
      if Entry(Dist(km, c), c) !in heap {
        assert CoveredAt(s, hm, km, heap, done, c);
        assert c in done && Settled(s, hm, km, c);
        assert i < |w| - 1;
        assert Step(s, hm, w[i], w[i + 1]);
        NoShorterWalk(s, hm, start, goal, km, heap, done, m, w, i + 1);
      }
    }
  }

  /** Once the heap is empty, every walk of at most `usize::MAX` cells from the start stays among
      the popped cells, none of which is a goal. */
  lemma {:induction false} WalkStaysDone(s: Strategy, hm: HeightMap, km: seq<seq<Info>>, done: set<Pos>,
                                         w: seq<Pos>, i: nat)
    requires Valid(hm) && Shaped(hm, km) && Covered(s, hm, km, [], done)
    requires IsWalk(s, hm, w) && |w| <= Unreached
    requires i < |w| && Dist(km, w[i]) <= i
    ensures w[|w| - 1] in done
    decreases |w| - i
  {
    var c := w[i];
    assert CoveredAt(s, hm, km, [], done, c);
    assert c in done && Settled(s, hm, km, c);
    if i < |w| - 1 {
      assert Step(s, hm, w[i], w[i + 1]);
      WalkStaysDone(s, hm, km, done, w, i + 1);
    }
  }

  // ---------------------------------------------------------------------------------------
  // The search

  /** `Covered`, except possibly for the cell currently being expanded. */
  ghost predicate CoveredExcept(s: Strategy, hm: HeightMap, km: seq<seq<Info>>, heap: seq<Entry>, done: set<Pos>, pos: Pos)
    requires Valid(hm)
  {
    forall c {:trigger CoveredAt(s, hm, km, heap, done, c)} :: c != pos ==> CoveredAt(s, hm, km, heap, done, c)
  }

  /** The hop count of `steps_between`: follow predecessor links from `pos` back to a cell
      without one, which is the start; the links traversed form a walk no longer than `pos`'s
      distance. */
  method CountHops(s: Strategy, hm: HeightMap, start: Pos, km: seq<seq<Info>>, pos: Pos)
    returns (counts: nat, ghost walk: seq<Pos>)
    requires Valid(hm) && Shaped(hm, km) && PredsOk(s, hm, start, km)
    requires InBounds(hm, pos) && Dist(km, pos) < Unreached
    ensures IsWalk(s, hm, walk) && walk[0] == start && walk[|walk| - 1] == pos
    ensures |walk| == counts + 1 && counts <= Dist(km, pos)
  {
    counts := 0;
    var cur := pos;
    walk := [pos];
    while At(km, cur).pred.Some?
      invariant InBounds(hm, cur)
      invariant |walk| == counts + 1 && walk[0] == cur && walk[|walk| - 1] == pos
      invariant IsWalk(s, hm, walk)
      invariant counts + Dist(km, cur) <= Dist(km, pos)
      decreases Dist(km, cur)
    {
      var p := At(km, cur).pred.value;
      assert PredOk(s, hm, start, km, cur);
      PrependStep(s, hm, p, walk);
      counts := counts + 1;
      walk := [p] + walk;
      cur := p;
    }
    assert PredOk(s, hm, start, km, cur);
  }

  /** Popping the least entry `e` leaves everything but `e.cell` covered by the rest of the
      heap, and `e` is either the cell's current entry or a stale one for a settled cell. */
  lemma AfterPop(s: Strategy, hm: HeightMap, km: seq<seq<Info>>, heap: seq<Entry>, done: set<Pos>,
                 e: Entry, rest: seq<Entry>)
    requires Valid(hm) && Shaped(hm, km) && HeapOk(hm, km, heap) && Covered(s, hm, km, heap, done)
    requires e in heap && forall x :: x in heap ==> EntryLe(e, x)
    requires forall x :: x in rest ==> x in heap
    requires forall x :: x in heap && x != e ==> x in rest
    ensures HeapOk(hm, km, rest) && CoveredExcept(s, hm, km, rest, done, e.cell)
    ensures InBounds(hm, e.cell)
    ensures Dist(km, e.cell) == e.key || (e.cell in done && Settled(s, hm, km, e.cell))
  {
    var pos := e.cell;
    assert CoveredAt(s, hm, km, heap, done, pos);
    assert Entry(Dist(km, pos), pos) in heap ==> EntryLe(e, Entry(Dist(km, pos), pos));
    forall c | c != pos ensures CoveredAt(s, hm, km, rest, done, c) {
      assert CoveredAt(s, hm, km, heap, done, c);
    }
  }

  /** What holds after the first `j` neighbours of `pos` have been relaxed. */
  ghost predicate RelaxedUpTo(s: Strategy, hm: HeightMap, start: Pos, km0: seq<seq<Info>>, heap0: seq<Entry>,
                              done: set<Pos>, pos: Pos, key: nat, ns: seq<Pos>, j: nat,
                              km: seq<seq<Info>>, heap: seq<Entry>)
    requires Valid(hm) && InBounds(hm, pos)
  {
    && j <= |ns| && ns == NeighbourList(s, hm, pos)
    && Shaped(hm, km) && PredsOk(s, hm, start, km) && HeapOk(hm, km, heap)
    && heap0 <= heap
    && Dist(km, pos) == Dist(km0, pos)
    && (Dist(km, pos) == key || Settled(s, hm, km, pos))
    && (forall k :: 0 <= k < j ==> Dist(km, ns[k]) <= Dist(km, pos) + 1)
    && CoveredExcept(s, hm, km, heap, done, pos)
    && (forall x :: x in heap ==> key <= x.key)
    && (TotalDist(km) < TotalDist(km0) || (km == km0 && heap == heap0))
  }

  /** Skipping neighbour `j` of `pos` when it does not improve keeps `RelaxedUpTo`. */
  lemma RelaxSkip(s: Strategy, hm: HeightMap, start: Pos, km0: seq<seq<Info>>, heap0: seq<Entry>,
                  done: set<Pos>, pos: Pos, key: nat, ns: seq<Pos>, j: nat,
                  km: seq<seq<Info>>, heap: seq<Entry>)
    requires Valid(hm) && InBounds(hm, pos)
    requires RelaxedUpTo(s, hm, start, km0, heap0, done, pos, key, ns, j, km, heap) && j < |ns|
    requires Dist(km, ns[j]) <= Dist(km, pos) + 1
    ensures RelaxedUpTo(s, hm, start, km0, heap0, done, pos, key, ns, j + 1, km, heap)
  {
  }

  lemma HeapAfterImprove(hm: HeightMap, km: seq<seq<Info>>, heap: seq<Entry>, nb: Pos, info: Info)
    requires Shaped(hm, km) && HeapOk(hm, km, heap) && InBounds(hm, nb)
    requires info.dist < Dist(km, nb) <= Unreached
    ensures HeapOk(hm, Update(km, nb, info), heap + [Entry(info.dist, nb)])
  {
    var km' := Update(km, nb, info);
    forall x | x in heap + [Entry(info.dist, nb)]
      ensures InBounds(hm, x.cell) && Dist(km', x.cell) <= x.key < Unreached
    {
      if x in heap { assert Dist(km', x.cell) <= Dist(km, x.cell); }
    }
  }

  lemma CoveredAfterImprove(s: Strategy, hm: HeightMap, km: seq<seq<Info>>, heap: seq<Entry>,
                            done: set<Pos>, pos: Pos, nb: Pos, info: Info)
    requires Valid(hm) && Shaped(hm, km) && CoveredExcept(s, hm, km, heap, done, pos) && InBounds(hm, nb)
    requires info.dist < Dist(km, nb)
    ensures CoveredExcept(s, hm, Update(km, nb, info), heap + [Entry(info.dist, nb)], done, pos)
  {
    var km' := Update(km, nb, info);
    var heap' := heap + [Entry(info.dist, nb)];
    forall c | c != pos ensures CoveredAt(s, hm, km', heap', done, c) {
      assert CoveredAt(s, hm, km, heap, done, c);
      if c != nb && InBounds(hm, c) {
        assert Dist(km', c) == Dist(km, c);
        if Dist(km, c) < Unreached && Entry(Dist(km, c), c) !in heap {
          SettledAfterUpdate(s, hm, km, nb, info, c);
        }
      }
    }
  }

  lemma ProgressAfterImprove(hm: HeightMap, km: seq<seq<Info>>, pos: Pos, ns: seq<Pos>, j: nat, info: Info)
    requires Shaped(hm, km) && InBounds(hm, pos) && j < |ns| && InBounds(hm, ns[j]) && pos != ns[j]
    requires forall k :: 0 <= k < j ==> Dist(km, ns[k]) <= Dist(km, pos) + 1
    requires info.dist == Dist(km, pos) + 1 && info.dist < Dist(km, ns[j])
    ensures forall k :: 0 <= k < j + 1 ==>
      Dist(Update(km, ns[j], info), ns[k]) <= Dist(Update(km, ns[j], info), pos) + 1
  {
    var km' := Update(km, ns[j], info);
    forall k | 0 <= k < j + 1 ensures Dist(km', ns[k]) <= Dist(km', pos) + 1 {
      assert Dist(km', ns[k]) <= Dist(km, ns[k]);
    }
  }

  /** Improving neighbour `j` of `pos` through `pos`, and pushing its entry, keeps `RelaxedUpTo`. */
  lemma RelaxImprove(s: Strategy, hm: HeightMap, start: Pos, km0: seq<seq<Info>>, heap0: seq<Entry>,
                     done: set<Pos>, pos: Pos, key: nat, ns: seq<Pos>, j: nat,
                     km: seq<seq<Info>>, heap: seq<Entry>)
    requires Valid(hm) && InBounds(hm, pos)
    requires RelaxedUpTo(s, hm, start, km0, heap0, done, pos, key, ns, j, km, heap) && j < |ns|
    requires Dist(km, pos) + 1 < Dist(km, ns[j])
    ensures InBounds(hm, ns[j])
    ensures RelaxedUpTo(s, hm, start, km0, heap0, done, pos, key, ns, j + 1,
                        Update(km, ns[j], Info(Some(pos), Dist(km, pos) + 1)),
                        heap + [Entry(Dist(km, pos) + 1, ns[j])])
  {
    var nb, potential := ns[j], Dist(km, pos) + 1;
    assert Step(s, hm, pos, nb) by { assert nb in NeighbourList(s, hm, pos); }
    var info := Info(Some(pos), potential);
    TotalDistUpdate(km, nb, info);
    PredsAfterUpdate(s, hm, start, km, pos, nb);
    assert Dist(km, pos) == key;
    assert PredOk(s, hm, start, km, nb);
    HeapAfterImprove(hm, km, heap, nb, info);
    CoveredAfterImprove(s, hm, km, heap, done, pos, nb, info);
    ProgressAfterImprove(hm, km, pos, ns, j, info);
  }

  lemma RelaxBegin(s: Strategy, hm: HeightMap, start: Pos, km0: seq<seq<Info>>, heap0: seq<Entry>,
                   done: set<Pos>, pos: Pos, key: nat, ns: seq<Pos>)
    requires Valid(hm) && Shaped(hm, km0) && PredsOk(s, hm, start, km0) && HeapOk(hm, km0, heap0)
    requires InBounds(hm, pos) && ns == NeighbourList(s, hm, pos)
    requires CoveredExcept(s, hm, km0, heap0, done, pos)
    requires Dist(km0, pos) == key || Settled(s, hm, km0, pos)
    requires forall x :: x in heap0 ==> key <= x.key
    ensures RelaxedUpTo(s, hm, start, km0, heap0, done, pos, key, ns, 0, km0, heap0)
  {
  }

  lemma RelaxEnd(s: Strategy, hm: HeightMap, start: Pos, km0: seq<seq<Info>>, heap0: seq<Entry>,
                 done: set<Pos>, pos: Pos, key: nat, ns: seq<Pos>, km: seq<seq<Info>>, heap: seq<Entry>)
    requires Valid(hm) && InBounds(hm, pos)
    requires RelaxedUpTo(s, hm, start, km0, heap0, done, pos, key, ns, |ns|, km, heap)
    ensures Shaped(hm, km) && PredsOk(s, hm, start, km) && HeapOk(hm, km, heap)
    ensures Settled(s, hm, km, pos) && Covered(s, hm, km, heap, done + {pos})
    ensures forall x :: x in heap ==> key <= x.key
    ensures TotalDist(km) < TotalDist(km0) || (km == km0 && heap == heap0)
  {
    assert Settled(s, hm, km, pos) by {
      forall n | Step(s, hm, pos, n) ensures Dist(km, n) <= Dist(km, pos) + 1 {
        assert n in ns;
        var k :| 0 <= k < |ns| && ns[k] == n;
      }
    }
    forall c ensures CoveredAt(s, hm, km, heap, done + {pos}, c) {
      assert c != pos ==> CoveredAt(s, hm, km, heap, done, c);
    }
  }

  /** The neighbour loop of `steps_between`: every legal neighbour whose distance improves
      through `pos` gets `pos` as predecessor and a fresh heap entry. Afterwards `pos` is
      settled, the rest stays covered, and no new entry is below `key`. */
  method Expand(s: Strategy, hm: HeightMap, start: Pos, km0: seq<seq<Info>>, heap0: seq<Entry>,
                ghost done: set<Pos>, pos: Pos, key: nat, space: array<Pos>)
    returns (km: seq<seq<Info>>, heap: seq<Entry>)
    requires Valid(hm) && Shaped(hm, km0) && PredsOk(s, hm, start, km0) && HeapOk(hm, km0, heap0)
    requires InBounds(hm, pos) && space.Length == 4
    requires CoveredExcept(s, hm, km0, heap0, done, pos)
    requires Dist(km0, pos) == key || Settled(s, hm, km0, pos)
    requires key < Unreached && forall x :: x in heap0 ==> key <= x.key
    modifies space
    ensures Shaped(hm, km) && PredsOk(s, hm, start, km) && HeapOk(hm, km, heap)
    ensures Settled(s, hm, km, pos) && Covered(s, hm, km, heap, done + {pos})
    ensures forall x :: x in heap ==> key <= x.key
    ensures TotalDist(km) < TotalDist(km0) || (km == km0 && heap == heap0)
  {
    var count := Neighbours(s, hm, pos, space);
    ghost var ns := space[..count];
    RelaxBegin(s, hm, start, km0, heap0, done, pos, key, ns);
    km, heap := km0, heap0;
    var j := 0;
    while j < count
      invariant 0 <= j <= count && space[..count] == ns
      invariant RelaxedUpTo(s, hm, start, km0, heap0, done, pos, key, ns, j, km, heap)
    {
      var nb := space[j];
      var potential := At(km, pos).dist + 1;
      assert nb == ns[j] && potential == Dist(km, pos) + 1;
      if potential < At(km, nb).dist {
        RelaxImprove(s, hm, start, km0, heap0, done, pos, key, ns, j, km, heap);
        km := Update(km, nb, Info(Some(pos), potential));
        heap := heap + [Entry(potential, nb)];
      } else {
        RelaxSkip(s, hm, start, km0, heap0, done, pos, key, ns, j, km, heap);
      }
      j := j + 1;
    }
    RelaxEnd(s, hm, start, km0, heap0, done, pos, key, ns, km, heap);
  }

  /** At the pop of `e`, no walk to a goal is shorter than `e.key` steps. */
  lemma PoppedKeyIsLowerBound(s: Strategy, hm: HeightMap, start: Pos, goal: Pos -> bool,
                              km: seq<seq<Info>>, heap: seq<Entry>, done: set<Pos>, e: Entry)
    requires Valid(hm) && Shaped(hm, km) && PredsOk(s, hm, start, km)
    requires Covered(s, hm, km, heap, done) && DoneOk(hm, goal, done)
    requires forall x :: x in heap ==> EntryLe(e, x)
    requires e.key < Unreached
    ensures forall w :: ReachesGoal(s, hm, start, goal, w) ==> e.key + 1 <= |w|
  {
    forall w | ReachesGoal(s, hm, start, goal, w) ensures e.key + 1 <= |w| {
      NoShorterWalk(s, hm, start, goal, km, heap, done, e, w, 0);
    }
  }

  /** With the heap empty, no walk of at most `usize::MAX` cells reaches a goal. */
  lemma ExhaustedSearch(s: Strategy, hm: HeightMap, start: Pos, goal: Pos -> bool,
                        km: seq<seq<Info>>, done: set<Pos>)
    requires Valid(hm) && Shaped(hm, km) && PredsOk(s, hm, start, km)
    requires Covered(s, hm, km, [], done) && DoneOk(hm, goal, done)
    ensures forall w :: ReachesGoal(s, hm, start, goal, w) ==> |w| > Unreached
  {
    forall w | ReachesGoal(s, hm, start, goal, w) && |w| <= Unreached ensures false {
      WalkStaysDone(s, hm, km, done, w, 0);
    }
  }

  /** A walk whose cells are all different. */
  ghost predicate Simple(w: seq<Pos>)
  {
    forall i, j :: 0 <= i < j < |w| ==> w[i] != w[j]
  }

  /** The row-major number of a cell. */
  function Code(hm: HeightMap, p: Pos): nat
  {
    p.y * hm.width + p.x
  }

  /** Different cells of the map have different numbers, all below `height * width`. */
  lemma CodeInjective(hm: HeightMap, a: Pos, b: Pos)
    requires Valid(hm) && InBounds(hm, a) && InBounds(hm, b)
    ensures Code(hm, a) < hm.height * hm.width
    ensures Code(hm, a) == Code(hm, b) ==> a == b
  {
    RowBelow(a.y, a.x, hm.width, hm.height);
    if a.y < b.y {
      RowBelow(a.y, a.x, hm.width, b.y);
    } else if b.y < a.y {
      RowBelow(b.y, b.x, hm.width, a.y);
    }
  }

  /** A number in row `y` of a `w`-wide numbering lies below every later row. */
  lemma RowBelow(y: nat, x: nat, w: nat, later: nat)
    requires x < w && y < later
    ensures y * w + x < later * w
  {
    assert (y + 1) * w == y * w + w;
    MulMono(y + 1, later, w);
  }

  lemma MulMono(a: nat, b: nat, c: nat)
    requires a <= b
    ensures a * c <= b * c
  {
  }

  /** Distinct numbers below `n` are at most `n` many. */
  lemma {:induction false} DistinctBelow(codes: seq<nat>, n: nat)
    requires forall i :: 0 <= i < |codes| ==> codes[i] < n
    requires forall i, j :: 0 <= i < j < |codes| ==> codes[i] != codes[j]
    ensures |codes| <= n
  {
    if codes != [] {
      assert codes[0] < n;
      if k :| 0 <= k < |codes| && codes[k] == n - 1 {
        var rest := codes[..k] + codes[k + 1..];
        forall i | 0 <= i < |rest| ensures rest[i] < n - 1 {
          if i < k { assert rest[i] == codes[i]; } else { assert rest[i] == codes[i + 1]; }
        }
        forall i, j | 0 <= i < j < |rest| ensures rest[i] != rest[j] {
          if j < k {
            assert rest[i] == codes[i] && rest[j] == codes[j];
          } else if i < k {
            assert rest[i] == codes[i] && rest[j] == codes[j + 1];
          } else {
            assert rest[i] == codes[i + 1] && rest[j] == codes[j + 1];
          }
        }
        DistinctBelow(rest, n - 1);
      } else {
        DistinctBelow(codes, n - 1);
      }
    }
  }

  /** A walk that visits no cell twice has at most `height * width` cells. */
  lemma SimpleWalkBound(s: Strategy, hm: HeightMap, w: seq<Pos>)
    requires Valid(hm) && IsWalk(s, hm, w) && Simple(w)
    ensures |w| <= hm.height * hm.width
  {
    var codes := seq(|w|, i requires 0 <= i < |w| => Code(hm, w[i]));
    forall i | 0 <= i < |codes| ensures codes[i] < hm.height * hm.width {
      CodeInjective(hm, w[i], w[i]);
    }
    forall i, j | 0 <= i < j < |codes| ensures codes[i] != codes[j] {
      CodeInjective(hm, w[i], w[j]);
    }
    DistinctBelow(codes, hm.height * hm.width);
  }

  /** Cutting out the loop between two visits of the same cell leaves a walk with the same
      ends. */
  lemma CutLoop(s: Strategy, hm: HeightMap, w: seq<Pos>, i: nat, j: nat)
    requires Valid(hm) && IsWalk(s, hm, w) && i < j < |w| && w[i] == w[j]
    ensures var v := w[..i] + w[j..];
      && IsWalk(s, hm, v) && |v| < |w| && v[0] == w[0] && v[|v| - 1] == w[|w| - 1]
  {
    var v := w[..i] + w[j..];
    forall k | 0 <= k < |v| - 1 ensures Step(s, hm, v[k], v[k + 1]) {
      if k + 1 < i {
        assert v[k] == w[k] && v[k + 1] == w[k + 1];
      } else if k + 1 == i {
        assert v[k] == w[k] && v[k + 1] == w[j] == w[k + 1];
      } else {
        assert v[k] == w[k - i + j] && v[k + 1] == w[k + 1 - i + j];
      }
    }
    forall k | 0 <= k < |v| ensures InBounds(hm, v[k]) {
      if k < i { assert v[k] == w[k]; } else { assert v[k] == w[k - i + j]; }
    }
  }

  /** Any walk to a goal can be shortened to one that visits no cell twice, so to one of at
      most `height * width` cells. */
  lemma {:induction false} ShortestWalkFits(s: Strategy, hm: HeightMap, start: Pos, goal: Pos -> bool, w: seq<Pos>)
    requires Valid(hm) && ReachesGoal(s, hm, start, goal, w)
    ensures exists v :: ReachesGoal(s, hm, start, goal, v) && Simple(v) && |v| <= |w|
    ensures exists v :: ReachesGoal(s, hm, start, goal, v) && |v| <= hm.height * hm.width
    decreases |w|
  {
    if Simple(w) {
      SimpleWalkBound(s, hm, w);
    } else {
      var i, j :| 0 <= i < j < |w| && w[i] == w[j];
      CutLoop(s, hm, w, i, j);
      ShortestWalkFits(s, hm, start, goal, w[..i] + w[j..]);
    }
  }

  /** On a map of at most `usize::MAX` cells, an exhausted search means that no walk at all
      reaches a goal. */
  lemma NoWalkAtAll(s: Strategy, hm: HeightMap, start: Pos, goal: Pos -> bool)
    requires Valid(hm) && hm.height * hm.width <= Unreached
    requires forall w :: ReachesGoal(s, hm, start, goal, w) ==> |w| > Unreached
    ensures forall w :: !ReachesGoal(s, hm, start, goal, w)
  {
    forall w | ReachesGoal(s, hm, start, goal, w) ensures false {
      ShortestWalkFits(s, hm, start, goal, w);
    }
  }

  /** The keys in the order they were popped never decrease. */
  predicate Ascending(pops: seq<nat>)
  {
    forall i, j :: 0 <= i < j < |pops| ==> pops[i] <= pops[j]
  }

  predicate AtMost(pops: seq<nat>, floor: nat)
  {
    forall i :: 0 <= i < |pops| ==> pops[i] <= floor
  }

  lemma AscendingSnoc(pops: seq<nat>, floor: nat, k: nat)
    requires Ascending(pops) && AtMost(pops, floor) && floor <= k
    ensures Ascending(pops + [k]) && AtMost(pops + [k], k)
  {
  }

  /** `HeightMap::steps_between`: uniform-cost search from `start` until a popped cell meets
      `goal`, then the number of predecessor links back to the start. `None` is the
      "Path not found!" panic, which on a map of at most `usize::MAX` cells means that no walk
      reaches a goal. The result is the length of a shortest walk to a goal; `pops`
      lists the distances in pop order. */
  method StepsBetween(s: Strategy, hm: HeightMap, start: Pos, goal: Pos -> bool)
    returns (r: Option<nat>, ghost pops: seq<nat>)
    requires Valid(hm) && InBounds(hm, start)
    ensures r.Some? ==> exists w :: ReachesGoal(s, hm, start, goal, w) && |w| == r.value + 1
    ensures r.Some? ==> forall w :: ReachesGoal(s, hm, start, goal, w) ==> r.value + 1 <= |w|
    ensures r.None? ==> forall w :: ReachesGoal(s, hm, start, goal, w) ==> |w| > Unreached
    ensures r.None? && hm.height * hm.width <= Unreached ==>
      forall w :: !ReachesGoal(s, hm, start, goal, w)
    ensures Ascending(pops)
  {
    var heap: seq<Entry> := [Entry(0, start)];
    var km := seq(hm.height, _ => seq(hm.width, _ => Info(None, Unreached)));
    km := Update(km, start, Info(None, 0));
    var space := new Pos[4](_ => Pos(0, 0));
    ghost var done: set<Pos> := {};
    ghost var floor: nat := 0;
    pops := [];
    while |heap| > 0
      invariant Shaped(hm, km)
      invariant PredsOk(s, hm, start, km)
      invariant HeapOk(hm, km, heap)
      invariant Covered(s, hm, km, heap, done)
      invariant DoneOk(hm, goal, done)
      invariant Ascending(pops) && AtMost(pops, floor)
      invariant forall x :: x in heap ==> floor <= x.key
      decreases TotalDist(km), |heap|
    {
      ghost var heapBefore := heap;
      var e;
      e, heap := PopMin(heap);
      AfterPop(s, hm, km, heapBefore, done, e, heap);
      AscendingSnoc(pops, floor, e.key);
      pops := pops + [e.key];
      floor := e.key;
      var pos := e.cell;
      if goal(pos) {
        ghost var walk;
        var counts;
        counts, walk := CountHops(s, hm, start, km, pos);
        assert ReachesGoal(s, hm, start, goal, walk);
        PoppedKeyIsLowerBound(s, hm, start, goal, km, heapBefore, done, e);
        r := Some(counts);
        return;
      }
      km, heap := Expand(s, hm, start, km, heap, done, pos, e.key, space);
      done := done + {pos};
    }
    ExhaustedSearch(s, hm, start, goal, km, done);
    if hm.height * hm.width <= Unreached {
      NoWalkAtAll(s, hm, start, goal);
    }
    r := None;
  }

  // ---------------------------------------------------------------------------------------
  // Puzzle answers

  /** A walk that solves the puzzle for the strategy: from its start cell to a cell meeting its
      end condition. */
  ghost predicate Solves(s: Strategy, hm: HeightMap, w: seq<Pos>)
    requires Valid(hm)
  {
    IsWalk(s, hm, w) && w[0] == StartPos(s, hm) && EndCondition(s, hm, w[|w| - 1])
  }

  /** `n` steps is the fewest with which any walk solves the puzzle. */
  ghost predicate ShortestIs(s: Strategy, hm: HeightMap, n: nat)
    requires Valid(hm)
  {
    (exists w :: Solves(s, hm, w) && |w| == n + 1) && forall w :: Solves(s, hm, w) ==> n + 1 <= |w|
  }

  /** `steps_between` from the strategy's start with its end condition as the goal. `None` is
      the "Path not found!" panic; it happens only when no walk of at most `usize::MAX` cells
      solves the puzzle, so, on a map of at most `usize::MAX` cells, only when no walk does. */
  method Solve(s: Strategy, hm: HeightMap) returns (r: Option<nat>)
    requires Valid(hm)
    ensures r.Some? ==> ShortestIs(s, hm, r.value)
    ensures r.None? ==> forall w :: Solves(s, hm, w) ==> |w| > Unreached
    ensures r.None? && hm.height * hm.width <= Unreached ==> forall w :: !Solves(s, hm, w)
  {
    var goal: Pos -> bool;
    match s {
      case Ascent =>
        goal := (p: Pos) => p == hm.endPos;
      case Descent =>
        goal := (p: Pos) => p.y < |hm.heights| && p.x < |hm.heights[p.y]| && hm.heights[p.y][p.x] == 0;
    }
    assert forall w :: ReachesGoal(s, hm, StartPos(s, hm), goal, w) <==> Solves(s, hm, w);
    ghost var pops;
    r, pops := StepsBetween(s, hm, StartPos(s, hm), goal);
  }

  // ---------------------------------------------------------------------------------------
  // Parsing

  /** The height a map character stands for: `S` is 0, `E` is 25, anything else its code
      minus `'a'`. */
  function CellHeight(c: char): (h: int)
    ensures c == 'S' ==> h == 0
    ensures c == 'E' ==> h == 25
    ensures 'a' <= c <= 'z' ==> 0 <= h < 26 && h == c as int - 'a' as int
  {
    if c == 'S' then 0 else if c == 'E' then 25 else c as int - 97
  }

  /** The last index of `ch` in `line`. */
  function LastIndexOf(line: string, ch: char): (r: Option<nat>)
    ensures r.Some? ==> r.value < |line| && line[r.value] == ch && forall i :: r.value < i < |line| ==> line[i] != ch
    ensures r.None? ==> forall i :: 0 <= i < |line| ==> line[i] != ch
  {
    if line == [] then None
    else if line[|line| - 1] == ch then Some(|line| - 1)
    else LastIndexOf(line[..|line| - 1], ch)
  }

  /** Whether `ch` sits at `p` in the grid of lines. */
  predicate Occurs(lines: seq<string>, ch: char, p: Pos)
  {
    p.y < |lines| && p.x < |lines[p.y]| && lines[p.y][p.x] == ch
  }

  /** Row-major order on cells. */
  predicate Before(a: Pos, b: Pos)
  {
    a.y < b.y || (a.y == b.y && a.x < b.x)
  }

  /** The last occurrence of `ch` in row-major order, which is where the parser's repeated
      assignment leaves its variable. */
  function FindLast(lines: seq<string>, ch: char): (r: Option<Pos>)
    ensures r.Some? ==> Occurs(lines, ch, r.value) && forall q :: Occurs(lines, ch, q) ==> !Before(r.value, q)
    ensures r.None? ==> forall q :: !Occurs(lines, ch, q)
  {
    if lines == [] then None
    else
      match LastIndexOf(lines[|lines| - 1], ch)
      case Some(x) => Some(Pos(x, |lines| - 1))
      case None =>
        var r := FindLast(lines[..|lines| - 1], ch);
        assert forall q :: Occurs(lines, ch, q) && q.y < |lines| - 1 ==> Occurs(lines[..|lines| - 1], ch, q);
        r
  }

  function MarkerOr(found: Option<Pos>): Pos
  {
    match found
    case Some(p) => p
    case None => Pos(0, 0)
  }

  function RowHeights(line: string): (row: seq<int>)
    ensures |row| == |line| && forall x :: 0 <= x < |line| ==> row[x] == CellHeight(line[x])
  {
    seq(|line|, x requires 0 <= x < |line| => CellHeight(line[x]))
  }

  /** Whether every line has the first line's (non-zero) length. */
  predicate Rectangular(lines: seq<string>)
  {
    |lines| >= 1 && |lines[0]| >= 1 && forall y :: 0 <= y < |lines| ==> |lines[y]| == |lines[0]|
  }

  /** The map `parse_height_map` builds from the input lines, or `None` where the result is
      not a usable rectangle. */
  function GridOf(lines: seq<string>): (r: Option<HeightMap>)
    ensures r.Some? <==> Rectangular(lines)
    ensures r.Some? ==> Valid(r.value)
    ensures r.Some? ==> forall p :: InBounds(r.value, p) ==>
      p.y < |lines| && p.x < |lines[p.y]| && HeightAt(r.value, p) == CellHeight(lines[p.y][p.x])
    ensures r.Some? ==> (Occurs(lines, 'S', r.value.startPos) || forall q :: !Occurs(lines, 'S', q))
    ensures r.Some? ==> (Occurs(lines, 'E', r.value.endPos) || forall q :: !Occurs(lines, 'E', q))
  {
    if !Rectangular(lines) then None
    else
      var heights := seq(|lines|, y requires 0 <= y < |lines| => RowHeights(lines[y]));
      Some(HeightMap(heights, |lines|, |lines[0]|, MarkerOr(FindLast(lines, 'S')), MarkerOr(FindLast(lines, 'E'))))
  }

  /** Reading one more character of the current line moves the last occurrence to it exactly
      when it is the character sought. */
  lemma FindLastExtend(prefix: seq<string>, line: string, x: nat, ch: char)
    requires x < |line|
    ensures FindLast(prefix + [line[..x + 1]], ch)
         == if line[x] == ch then Some(Pos(x, |prefix|)) else FindLast(prefix + [line[..x]], ch)
  {
    var rows1, rows0 := prefix + [line[..x + 1]], prefix + [line[..x]];
    assert rows1[..|rows1| - 1] == prefix == rows0[..|rows0| - 1];
    assert line[..x + 1][..x] == line[..x];
  }

  lemma FindLastEmptyRow(prefix: seq<string>, ch: char)
    ensures FindLast(prefix + [[]], ch) == FindLast(prefix, ch)
  {
    assert (prefix + [[]])[..|prefix|] == prefix;
  }

  /** The inner loop of `parse_height_map`: one line's heights, updating the remembered `S` and
      `E` positions as they are met. */
  method ParseLine(prefix: seq<string>, line: string, start0: Pos, end0: Pos)
    returns (row: seq<int>, startPos: Pos, endPos: Pos)
    requires start0 == MarkerOr(FindLast(prefix, 'S')) && end0 == MarkerOr(FindLast(prefix, 'E'))
    ensures row == RowHeights(line)
    ensures startPos == MarkerOr(FindLast(prefix + [line], 'S'))
    ensures endPos == MarkerOr(FindLast(prefix + [line], 'E'))
  {
    startPos, endPos := start0, end0;
    row := [];
    FindLastEmptyRow(prefix, 'S');
    FindLastEmptyRow(prefix, 'E');
    var x := 0;
    while x < |line|
      invariant 0 <= x <= |line|
      invariant row == RowHeights(line[..x])
      invariant startPos == MarkerOr(FindLast(prefix + [line[..x]], 'S'))
      invariant endPos == MarkerOr(FindLast(prefix + [line[..x]], 'E'))
    {
      FindLastExtend(prefix, line, x, 'S');
      FindLastExtend(prefix, line, x, 'E');
      match line[x] {
        case 'S' => startPos := Pos(x, |prefix|);
        case 'E' => endPos := Pos(x, |prefix|);
        case _ =>
      }
      row := row + [CellHeight(line[x])];
      x := x + 1;
    }
    assert line[..x] == line;
  }

  /** `parse_height_map`: one pass over the lines, converting each byte to its height and
      remembering the last `S` and the last `E`. `None` where the source would fail or build an
      unusable map: no lines, an empty first line, or lines of different lengths. */
  method ParseHeightMap(lines: seq<string>) returns (r: Option<HeightMap>)
    ensures r == GridOf(lines)
  {
    var heights, startPos, endPos := ReadRows(lines);
    if |lines| == 0 || |lines[0]| == 0 {
      return None;
    }
    var width := |lines[0]|;
    var same := SameWidth(lines, width);
    if !same {
      return None;
    }
    r := Some(HeightMap(heights, |lines|, width, startPos, endPos));
  }

  /** The outer loop of `parse_height_map`: every line's heights, and the last `S` and `E`. */
  method ReadRows(lines: seq<string>) returns (heights: seq<seq<int>>, startPos: Pos, endPos: Pos)
    ensures heights == seq(|lines|, i requires 0 <= i < |lines| => RowHeights(lines[i]))
    ensures startPos == MarkerOr(FindLast(lines, 'S'))
    ensures endPos == MarkerOr(FindLast(lines, 'E'))
  {
    startPos, endPos := Pos(0, 0), Pos(0, 0);
    heights := [];
    var y := 0;
    while y < |lines|
      invariant 0 <= y <= |lines|
      invariant heights == seq(y, i requires 0 <= i < y => RowHeights(lines[i]))
      invariant startPos == MarkerOr(FindLast(lines[..y], 'S'))
      invariant endPos == MarkerOr(FindLast(lines[..y], 'E'))
    {
      var row;
      row, startPos, endPos := ParseLine(lines[..y], lines[y], startPos, endPos);
      assert lines[..y] + [lines[y]] == lines[..y + 1];
      heights := heights + [row];
      y := y + 1;
    }
    assert lines[..y] == lines;
  }

  /** Whether every line is `width` bytes long. */
  method SameWidth(lines: seq<string>, width: nat) returns (same: bool)
    ensures same <==> forall i :: 0 <= i < |lines| ==> |lines[i]| == width
  {
    var k := 0;
    while k < |lines|
      invariant 0 <= k <= |lines|
      invariant forall i :: 0 <= i < k ==> |lines[i]| == width
    {
      if |lines[k]| != width {
        return false;
      }
      k := k + 1;
    }
    return true;
  }

  /** `part_1` and `part_2`: parse, then search with the part's strategy. */
  method SolveInput(s: Strategy, lines: seq<string>) returns (r: Option<nat>)
    ensures !Rectangular(lines) ==> r.None?
    ensures r.Some? ==> GridOf(lines).Some? && ShortestIs(s, GridOf(lines).value, r.value)
    ensures r.None? && Rectangular(lines) ==>
      forall w :: Solves(s, GridOf(lines).value, w) ==> |w| > Unreached
  {
    var hm := ParseHeightMap(lines);
    if hm.None? {
      return None;
    }
    r := Solve(s, hm.value);
  }
}
