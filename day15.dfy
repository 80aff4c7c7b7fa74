/** Day 15 (`src/day15.rs`): sensors that each report their closest beacon, the positions of
    one row where no beacon can be, and the one position of a square that no sensor sees. */
module Day15 {
  import opened Basics
  import opened Text

  type Point = (int, int)

  function Abs(v: int): nat { if v < 0 then -v else v }

  function Max(a: int, b: int): int { if a > b then a else b }

  function Min(a: int, b: int): int { if a < b then a else b }

  /** `manhatten`: the taxicab distance, never negative and zero exactly between equal points. */
  function Manhattan(p: Point, q: Point): (d: int)
    ensures d >= 0 && (d == 0 <==> p == q)
  {
    Abs(p.0 - q.0) + Abs(p.1 - q.1)
  }

  /** The distance does not depend on the order of the points and obeys the triangle
      inequality. */
  lemma ManhattanMetric(p: Point, q: Point, r: Point)
    ensures Manhattan(p, q) == Manhattan(q, p)
    ensures Manhattan(p, r) <= Manhattan(p, q) + Manhattan(q, r)
  {
  }

  // ----- Reading the reports -----

  /** Where the search for a digit stops: the first digit at or after `from`. With no digit
      left, `get` keeps answering `None` and the source's `loop` never ends; that is `None`. */
  function NextDigit(line: string, from: nat): (r: Option<nat>)
    ensures r.Some? ==> from <= r.value < |line| && IsDigit(line[r.value])
    ensures r.Some? ==> forall k :: from <= k < r.value ==> !IsDigit(line[k])
    ensures r.None? ==> forall k :: from <= k < |line| ==> !IsDigit(line[k])
    decreases |line| - from
  {
    if from >= |line| then None
    else if IsDigit(line[from]) then Some(from)
    else NextDigit(line, from + 1)
  }

  /** One field: the value of the digit run the search stops at, and where that run ends. */
  function Field(line: string, from: nat): (r: Option<(nat, nat)>)
    ensures r.Some? ==> from < r.value.1 <= |line|
  {
    match NextDigit(line, from)
    case None => None
    case Some(start) =>
      var end := RunEnd(line, start);
      Some((DigitsValue(line[start..end]), end))
  }

  /** `n` fields read one after the other from `from`. */
  function Fields(line: string, from: nat, n: nat): (r: Option<seq<nat>>)
    ensures r.Some? ==> |r.value| == n
    decreases n
  {
    if n == 0 then Some([])
    else
      match Field(line, from)
      case None => None
      case Some((value, end)) =>
        match Fields(line, end, n - 1)
        case None => None
        case Some(rest) => Some([value] + rest)
  }

  /** `parse` on one line: four fields, the first search starting at byte 12, just after
      `Sensor at x=`. */
  function ParseReport(line: string): Option<(Point, Point)>
  {
    match Fields(line, 12, 4)
    case None => None
    case Some(v) => Some(((v[0], v[1]), (v[2], v[3])))
  }

  function Prepend(done: seq<nat>, rest: Option<seq<nat>>): Option<seq<nat>>
  {
    match rest
    case None => None
    case Some(v) => Some(done + v)
  }

  lemma PrependStep(done: seq<nat>, v: nat, rest: Option<seq<nat>>)
    ensures Prepend(done, Prepend([v], rest)) == Prepend(done + [v], rest)
  {
    if rest.Some? {
      assert done + ([v] + rest.value) == (done + [v]) + rest.value;
    }
  }

  /** One pass of the loop over `parts`: search for a digit from `startIndex`, then scan to
      the end of the run and parse it. `None` where the search never ends. */
  method ReadField(line: string, from: nat) returns (r: Option<(nat, nat)>)
    ensures r == Field(line, from)
  {
    var startIndex := from;
    while !(startIndex < |line| && IsDigit(line[startIndex]))
      invariant from <= startIndex && NextDigit(line, startIndex) == NextDigit(line, from)
      decreases |line| - startIndex
    {
      if startIndex >= |line| {
        // no digit is left: the source searches forever
        return None;
      }
      startIndex := startIndex + 1;
    }
    var endIndex := startIndex;
    while endIndex < |line| && IsDigit(line[endIndex])
      invariant startIndex <= endIndex <= |line| && RunEnd(line, startIndex) == RunEnd(line, endIndex)
      decreases |line| - endIndex
    {
      endIndex := endIndex + 1;
    }
    r := Some((DigitsValue(line[startIndex..endIndex]), endIndex));
  }

  /** The source's `parse` closure on one line, writing the `parts` array field by field. */
  method ParseLine(line: string) returns (r: Option<(Point, Point)>)
    ensures r == ParseReport(line)
  {
    var parts := new nat[4](_ => 0);
    var startIndex: nat := 12;
    assert parts[..0] == [];
    match Fields(line, 12, 4) {
      case None =>
      case Some(v) => assert [] + v == v;
    }
    for part := 0 to 4
      invariant Prepend(parts[..part], Fields(line, startIndex, 4 - part)) == Fields(line, 12, 4)
    {
      var field := ReadField(line, startIndex);
      ghost var done := parts[..part];
      ReadStep(line, startIndex, 4 - part, done, field);
      if field.None? {
        return None;
      }
      var (value, endIndex) := field.value;
      parts[part] := value;
      assert parts[..part + 1] == done + [value];
      startIndex := endIndex;
    }
    assert parts[..4] == [parts[0], parts[1], parts[2], parts[3]];
    r := Some(((parts[0], parts[1]), (parts[2], parts[3])));
  }

  /** A report line as the puzzle writes it, with a `-` before negative coordinates. */
  function Report(sensor: Point, beacon: Point): string
  {
    "Sensor at x=" + (IntToString(sensor.0) + (", y=" + (IntToString(sensor.1)
      + (": closest beacon is at x=" + (IntToString(beacon.0) + (", y=" + IntToString(beacon.1)))))))
  }

  predicate NoDigits(t: string) { forall k :: 0 <= k < |t| ==> !IsDigit(t[k]) }

  lemma {:induction false} NextDigitAt(line: string, from: nat, at: nat)
    requires from <= at < |line| && IsDigit(line[at])
    requires forall k :: from <= k < at ==> !IsDigit(line[k])
    ensures NextDigit(line, from) == Some(at)
    decreases at - from
  {
    if from < at {
      NextDigitAt(line, from + 1, at);
    }
  }

  lemma {:induction false} RunEndToEnd(line: string, pos: nat)
    requires pos <= |line| && forall k :: pos <= k < |line| ==> IsDigit(line[k])
    ensures RunEnd(line, pos) == |line|
    decreases |line| - pos
  {
    if pos < |line| {
      RunEndToEnd(line, pos + 1);
    }
  }

  /** A run of digits after text without digits is the next field. */
  lemma FieldAt(line: string, from: nat, at: nat, end: nat)
    requires from <= at < end <= |line|
    requires forall k :: from <= k < at ==> !IsDigit(line[k])
    requires forall k :: at <= k < end ==> IsDigit(line[k])
    requires end == |line| || !IsDigit(line[end])
    ensures Field(line, from) == Some((DigitsValue(line[at..end]), end))
  {
    NextDigitAt(line, from, at);
    if end == |line| {
      RunEndToEnd(line, at);
    } else {
      assert AllDigits(line[at..end]);
      RunEndOfDigits(line, at, end);
    }
  }

  lemma PiecesAt(line: string, q: string, digits: string, rest: string)
    requires line == q + (digits + rest)
    ensures line[|q|..|q| + |digits|] == digits
    ensures forall k :: 0 <= k < |q| ==> line[k] == q[k]
    ensures |q| + |digits| < |line| ==> line[|q| + |digits|] == rest[0]
  {
  }

  /** Where the digits of a number written after text without digits lie in the line. */
  lemma NumberPlace(line: string, p: string, t: string, i: int, rest: string, at: nat, end: nat)
    requires NoDigits(t) && (rest == [] || !IsDigit(rest[0]))
    requires line == p + (t + (IntToString(i) + rest))
    requires end == |p| + |t| + |IntToString(i)| && at == end - |NatToString(Abs(i))|
    ensures |p| <= at < end <= |line| && line[at..end] == NatToString(Abs(i))
    ensures forall k :: |p| <= k < at ==> !IsDigit(line[k])
    ensures end == |line| || !IsDigit(line[end])
  {
    var digits := NatToString(Abs(i));
    var q := if i < 0 then (p + t) + "-" else p + t;
    Assoc(p, t, IntToString(i) + rest);
    if i < 0 {
      Assoc(p + t, "-", digits + rest);
    }
    PiecesAt(line, q, digits, rest);
    forall k | |p| <= k < at
      ensures !IsDigit(line[k])
    {
      if k < |p| + |t| {
        assert q[k] == t[k - |p|];
      }
    }
  }

  lemma FieldAfter(line: string, p: string, t: string, i: int, rest: string, from: nat, end: nat)
    requires NoDigits(t) && (rest == [] || !IsDigit(rest[0]))
    requires line == p + (t + (IntToString(i) + rest))
    requires from == |p| && end == |p| + |t| + |IntToString(i)|
    ensures Field(line, from) == Some((Abs(i), end))
  {
    var digits := NatToString(Abs(i));
    DigitsOfNatToString(Abs(i));
    var at := end - |digits|;
    NumberPlace(line, p, t, i, rest, at, end);
    forall k | at <= k < end
      ensures IsDigit(line[k])
    {
      assert line[k] == digits[k - at];
    }
    FieldAt(line, from, at, end);
  }

  /** One field read: the fields still to come shrink by one and the value joins those read. */
  lemma ReadStep(line: string, from: nat, n: nat, done: seq<nat>, field: Option<(nat, nat)>)
    requires n >= 1 && field == Field(line, from)
    ensures field.None? ==> Prepend(done, Fields(line, from, n)) == None
    ensures field.Some? ==>
      (Prepend(done, Fields(line, from, n)) == Prepend(done + [field.value.0], Fields(line, field.value.1, n - 1)))
  {
    if field.Some? {
      FieldsStep(line, from, n, field.value.0, field.value.1);
      PrependStep(done, field.value.0, Fields(line, field.value.1, n - 1));
    }
  }

  lemma FieldsStep(line: string, from: nat, n: nat, v: nat, end: nat)
    requires n >= 1 && Field(line, from) == Some((v, end))
    ensures Fields(line, from, n) == Prepend([v], Fields(line, end, n - 1))
  {
  }

  lemma SeparatorsHaveNoDigits()
    ensures NoDigits(", y=") && NoDigits(": closest beacon is at x=") && NoDigits([])
  {
    var t := ": closest beacon is at x=";
    assert forall k :: 0 <= k < |t| ==> t[k] in ": closestbaniyx=";
  }

  lemma Assoc(a: string, b: string, c: string)
    ensures a + (b + c) == (a + b) + c
  {
  }

  lemma Unit(a: string)
    ensures [] + a == a && a + [] == a
  {
  }

  lemma FieldsOfPieces(t0: string, t1: string, t2: string, a: int, b: int, c: int, e: int)
    requires |t0| == 12 && NoDigits(t1) && NoDigits(t2) && |t1| > 0 && |t2| > 0
    ensures Fields(t0 + (IntToString(a) + (t1 + (IntToString(b) + (t2 + (IntToString(c) + (t1 + IntToString(e))))))), 12, 4)
      == Some([Abs(a), Abs(b), Abs(c), Abs(e)])
  {
    var s0, s1, s2, s3 := IntToString(a), IntToString(b), IntToString(c), IntToString(e);
    var r3 := t1 + s3;
    var r2 := t2 + (s2 + r3);
    var r1 := t1 + (s1 + r2);
    var line := t0 + (s0 + r1);
    var p1 := t0 + s0;
    var p2 := p1 + t1 + s1;
    var p3 := p2 + t2 + s2;
    var e1, e2, e3 := |p1|, |p2|, |p3|;
    Unit(s0 + r1);
    Unit(s3);
    FieldAfter(line, t0, [], a, r1, 12, e1);
    Assoc(t0, s0, r1);
    FieldAfter(line, p1, t1, b, r2, e1, e2);
    Assoc(p1, t1, s1 + r2);
    Assoc(p1 + t1, s1, r2);
    FieldAfter(line, p2, t2, c, r3, e2, e3);
    Assoc(p2, t2, s2 + r3);
    Assoc(p2 + t2, s2, r3);
    FieldAfter(line, p3, t1, e, [], e3, |line|);
    FourFields(line, Abs(a), Abs(b), Abs(c), Abs(e), e1, e2, e3, |line|);
  }

  lemma FourFields(line: string, v0: nat, v1: nat, v2: nat, v3: nat, e0: nat, e1: nat, e2: nat, e3: nat)
    requires Field(line, 12) == Some((v0, e0)) && Field(line, e0) == Some((v1, e1))
    requires Field(line, e1) == Some((v2, e2)) && Field(line, e2) == Some((v3, e3))
    ensures Fields(line, 12, 4) == Some([v0, v1, v2, v3])
  {
    FieldsStep(line, 12, 4, v0, e0);
    FieldsStep(line, e0, 3, v1, e1);
    FieldsStep(line, e1, 2, v2, e2);
    FieldsStep(line, e2, 1, v3, e3);
    assert [v3] + [] == [v3] && [v2] + [v3] == [v2, v3];
    assert [v1] + [v2, v3] == [v1, v2, v3] && [v0] + [v1, v2, v3] == [v0, v1, v2, v3];
  }

  /** The parse of a report gives back its four coordinates with their signs dropped: the
      `-` is skipped like the text around it. Reports with no negative coordinate round-trip. */
  lemma ParseReportOfReport(sensor: Point, beacon: Point)
    ensures ParseReport(Report(sensor, beacon)) == Some(((Abs(sensor.0), Abs(sensor.1)), (Abs(beacon.0), Abs(beacon.1))))
  {
    SeparatorsHaveNoDigits();
    FieldsOfPieces("Sensor at x=", ", y=", ": closest beacon is at x=", sensor.0, sensor.1, beacon.0, beacon.1);
  }

  // ----- Sensors and what they see -----

  /** A sensor with the distance to the beacon it reported. */
  datatype Sensor = Sensor(pos: Point, reach: int)

  /** The pairing `(sensor, manhatten(sensor, beacon))` made from one report. */
  function SensorOf(report: (Point, Point)): (s: Sensor)
    ensures s.pos == report.0 && s.reach >= 0 && Covers(s, report.1)
  {
    Sensor(report.0, Manhattan(report.0, report.1))
  }

  /** The sensor sees `p`: it is no farther away than the sensor's own beacon. */
  predicate Covers(s: Sensor, p: Point)
  {
    Manhattan(p, s.pos) <= s.reach
  }

  /** Some sensor sees `p`. */
  predicate Seen(sensors: seq<Sensor>, p: Point)
  {
    exists k :: 0 <= k < |sensors| && Covers(sensors[k], p)
  }

  /** Part 1's positions: a beacon cannot be there, since a sensor sees it and it is not one
      of the known beacons. */
  predicate Impossible(sensors: seq<Sensor>, beacons: seq<Point>, p: Point)
  {
    p !in beacons && Seen(sensors, p)
  }

  /** Part 2's positions: the distress beacon may be there. */
  predicate Free(sensors: seq<Sensor>, beacons: seq<Point>, p: Point)
  {
    p !in beacons && !Seen(sensors, p)
  }

  /** The sensor the `for` loop over `sensors` stops at: the first from `from` that sees `p`. */
  function FirstCover(sensors: seq<Sensor>, p: Point, from: nat): (r: Option<nat>)
    requires from <= |sensors|
    ensures r.Some? ==> from <= r.value < |sensors| && Covers(sensors[r.value], p)
    ensures r.Some? ==> forall k :: from <= k < r.value ==> !Covers(sensors[k], p)
    ensures r.None? ==> forall k :: from <= k < |sensors| ==> !Covers(sensors[k], p)
    decreases |sensors| - from
  {
    if from == |sensors| then None
    else if Covers(sensors[from], p) then Some(from)
    else FirstCover(sensors, p, from + 1)
  }

  /** The first and last positions of row `y` the sensor sees, as the `inspect` closure of
      `part_1` computes them. */
  function Left(s: Sensor, y: int): int { s.pos.0 - s.reach + Abs(y - s.pos.1) }

  function Right(s: Sensor, y: int): int { s.pos.0 + s.reach - Abs(y - s.pos.1) }

  /** A sensor sees exactly the positions of row `y` from `Left` to `Right`. */
  lemma CoversRow(s: Sensor, x: int, y: int)
    ensures Covers(s, (x, y)) <==> Left(s, y) <= x <= Right(s, y)
  {
  }

  /** `skippable`: how far the scan jumps from a position `s` sees. */
  function Skip(s: Sensor, idx: int, y: int): (k: int)
    ensures k >= 1
  {
    Max(s.pos.0 - idx + (s.reach - Abs(s.pos.1 - y)), 1)
  }

  /** A jump from a position the sensor sees moves at least one step, passes only positions
      the sensor sees, and stops no later than just after the sensor's last position. */
  lemma SkipSeen(s: Sensor, idx: int, y: int)
    requires Covers(s, (idx, y))
    ensures Skip(s, idx, y) >= 1 && idx + Skip(s, idx, y) <= Right(s, y) + 1
    ensures forall x :: idx <= x < idx + Skip(s, idx, y) ==> Covers(s, (x, y))
  {
    CoversRow(s, idx, y);
    forall x | idx <= x < idx + Skip(s, idx, y)
      ensures Covers(s, (x, y))
    {
      CoversRow(s, x, y);
    }
  }

  /** What one pass of the scan loop does at `idx`: where `idx` goes next and how much
      `found_count` grows. */
  datatype Move = Move(next: int, found: nat)

  /** One pass of the `'outer` loop of `part_1` (and of `'x_loop` of `part_2`): a beacon moves
      on by one, a position a sensor sees jumps by `skippable` and counts that many, any other
      position moves on by one. */
  function Step(sensors: seq<Sensor>, beacons: seq<Point>, y: int, idx: int): (m: Move)
  {
    if (idx, y) in beacons then Move(idx + 1, 0)
    else
      match FirstCover(sensors, (idx, y), 0)
      case None => Move(idx + 1, 0)
      case Some(k) =>
        var skip := Skip(sensors[k], idx, y);
        Move(idx + skip, skip)
  }

  /** Every sensor's last position on row `y` is at most `largest`. */
  predicate WithinRow(sensors: seq<Sensor>, y: int, largest: int)
  {
    forall k :: 0 <= k < |sensors| ==> Right(sensors[k], y) <= largest
  }

  /** A pass always moves forward. Known beacons and free positions move on by one without
      counting; from a seen position every position jumped over is seen, the count grows by
      the length of the jump, and the jump stays within the sensors' reach. */
  lemma StepMeaning(sensors: seq<Sensor>, beacons: seq<Point>, y: int, idx: int, largest: int)
    ensures Step(sensors, beacons, y, idx).next > idx
    ensures (idx, y) in beacons ==> Step(sensors, beacons, y, idx) == Move(idx + 1, 0)
    ensures Free(sensors, beacons, (idx, y)) ==> Step(sensors, beacons, y, idx) == Move(idx + 1, 0)
    ensures Impossible(sensors, beacons, (idx, y)) ==>
      var m := Step(sensors, beacons, y, idx);
      m.found == m.next - idx > 0 && forall x :: idx <= x < m.next ==> Seen(sensors, (x, y))
    ensures Impossible(sensors, beacons, (idx, y)) && WithinRow(sensors, y, largest) ==>
      Step(sensors, beacons, y, idx).next <= largest + 1
  {
    if (idx, y) !in beacons {
      match FirstCover(sensors, (idx, y), 0)
      case None =>
      case Some(k) =>
        SkipSeen(sensors[k], idx, y);
        forall x | idx <= x < idx + Skip(sensors[k], idx, y)
          ensures Seen(sensors, (x, y))
        {
          assert Covers(sensors[k], (x, y));
        }
    }
  }

  /** The `'outer` loop of `part_1` from `idx` on: the total it adds to `found_count`. */
  function ScanCount(sensors: seq<Sensor>, beacons: seq<Point>, y: int, idx: int, largest: int): nat
    decreases largest + 1 - idx
  {
    if idx > largest then 0
    else
      var m := Step(sensors, beacons, y, idx);
      m.found + ScanCount(sensors, beacons, y, m.next, largest)
  }

  /** Positions of row `y` from `lo` up to `hi` that hold no known beacon. */
  function NonBeacons(beacons: seq<Point>, y: int, lo: int, hi: int): (n: nat)
    ensures lo <= hi ==> n <= hi - lo
    ensures lo <= hi && (forall x :: lo <= x < hi ==> (x, y) !in beacons) ==> n == hi - lo
    decreases hi - lo
  {
    if lo >= hi then 0
    else (if (lo, y) in beacons then 0 else 1) + NonBeacons(beacons, y, lo + 1, hi)
  }

  /** Part 1's positions of row `y` from `lo` up to `hi`, counted one by one. */
  function ImpossibleCount(sensors: seq<Sensor>, beacons: seq<Point>, y: int, lo: int, hi: int): nat
    decreases hi - lo
  {
    if lo >= hi then 0
    else (if Impossible(sensors, beacons, (lo, y)) then 1 else 0) + ImpossibleCount(sensors, beacons, y, lo + 1, hi)
  }

  lemma {:induction false} ImpossibleSplit(sensors: seq<Sensor>, beacons: seq<Point>, y: int, lo: int, mid: int, hi: int)
    requires lo <= mid <= hi
    ensures ImpossibleCount(sensors, beacons, y, lo, hi)
      == ImpossibleCount(sensors, beacons, y, lo, mid) + ImpossibleCount(sensors, beacons, y, mid, hi)
    decreases mid - lo
  {
    if lo < mid {
      ImpossibleSplit(sensors, beacons, y, lo + 1, mid, hi);
    }
  }

  /** Where every position is seen, the positions a beacon cannot be are the non-beacons. */
  lemma {:induction false} ImpossibleOfSeen(sensors: seq<Sensor>, beacons: seq<Point>, y: int, lo: int, hi: int)
    requires forall x :: lo <= x < hi ==> Seen(sensors, (x, y))
    ensures ImpossibleCount(sensors, beacons, y, lo, hi) == NonBeacons(beacons, y, lo, hi)
    decreases hi - lo
  {
    if lo < hi {
      ImpossibleOfSeen(sensors, beacons, y, lo + 1, hi);
    }
  }

  /** The scan as it was evidently meant: a jump counts only the positions it passes that hold
      no known beacon. */
  function ScanFixed(sensors: seq<Sensor>, beacons: seq<Point>, y: int, idx: int, largest: int): nat
    decreases largest + 1 - idx
  {
    if idx > largest then 0
    else
      var m := Step(sensors, beacons, y, idx);
      (if m.found == 0 then 0 else NonBeacons(beacons, y, idx, m.next)) + ScanFixed(sensors, beacons, y, m.next, largest)
  }

  /** The corrected scan counts exactly the positions from `idx` to `largest` where a beacon
      cannot be, once `largest` is past every sensor's reach. */
  lemma {:induction false} ScanFixedCounts(sensors: seq<Sensor>, beacons: seq<Point>, y: int, idx: int, largest: int)
    requires WithinRow(sensors, y, largest)
    ensures ScanFixed(sensors, beacons, y, idx, largest) == ImpossibleCount(sensors, beacons, y, idx, largest + 1)
    decreases largest + 1 - idx
  {
    if idx <= largest {
      var m := Step(sensors, beacons, y, idx);
      StepMeaning(sensors, beacons, y, idx, largest);
      ScanFixedCounts(sensors, beacons, y, m.next, largest);
      if Impossible(sensors, beacons, (idx, y)) {
        ImpossibleSplit(sensors, beacons, y, idx, m.next, largest + 1);
        ImpossibleOfSeen(sensors, beacons, y, idx, m.next);
      }
    }
  }

  /** The scan as written never counts less than the corrected one, and counts the same when
      no known beacon is on the row (`ScanExactWhenClosest` gives the same for closest beacons). */
  lemma {:induction false} ScanCountVersusFixed(sensors: seq<Sensor>, beacons: seq<Point>, y: int, idx: int, largest: int)
    ensures ScanCount(sensors, beacons, y, idx, largest) >= ScanFixed(sensors, beacons, y, idx, largest)
    ensures (forall b :: b in beacons ==> b.1 != y) ==>
      ScanCount(sensors, beacons, y, idx, largest) == ScanFixed(sensors, beacons, y, idx, largest)
    decreases largest + 1 - idx
  {
    if idx <= largest {
      var m := Step(sensors, beacons, y, idx);
      StepMeaning(sensors, beacons, y, idx, largest);
      ScanCountVersusFixed(sensors, beacons, y, m.next, largest);
    }
  }

  /** Every sensor's beacon is a closest one: no known beacon is nearer any sensor than that
      sensor's reach, as each report's "closest beacon is at" says. */
  predicate ClosestBeacons(sensors: seq<Sensor>, beacons: seq<Point>)
  {
    forall k, b :: 0 <= k < |sensors| && b in beacons ==> Manhattan(b, sensors[k].pos) >= sensors[k].reach
  }

  /** A jump passes, after its first position, only positions strictly inside the jumping
      sensor's reach. */
  lemma SkipInside(s: Sensor, idx: int, y: int, x: int)
    requires Covers(s, (idx, y)) && idx < x < idx + Skip(s, idx, y)
    ensures Manhattan((x, y), s.pos) < s.reach
  {
    CoversRow(s, idx, y);
  }

  /** On reports whose beacons are closest ones, a jump never passes a known beacon, so the
      scan as written counts exactly what the corrected one does. */
  lemma {:induction false} ScanExactWhenClosest(sensors: seq<Sensor>, beacons: seq<Point>, y: int, idx: int, largest: int)
    requires ClosestBeacons(sensors, beacons)
    ensures ScanCount(sensors, beacons, y, idx, largest) == ScanFixed(sensors, beacons, y, idx, largest)
    decreases largest + 1 - idx
  {
    if idx <= largest {
      var m := Step(sensors, beacons, y, idx);
      StepMeaning(sensors, beacons, y, idx, largest);
      ScanExactWhenClosest(sensors, beacons, y, m.next, largest);
      if m.found != 0 {
        var k := FirstCover(sensors, (idx, y), 0).value;
        forall x | idx <= x < m.next ensures (x, y) !in beacons {
          if x > idx {
            SkipInside(sensors[k], idx, y, x);
          }
        }
      }
    }
  }

  // ----- The bounds of the row scan -----

  const I64Max: int := 0x7FFF_FFFF_FFFF_FFFF
  const I64Min: int := -0x8000_0000_0000_0000

  /** `smallest`: the least `Left` over the sensors, starting from `i64::MAX`. */
  function Leftmost(sensors: seq<Sensor>, y: int): (m: int)
    ensures m <= I64Max && forall k :: 0 <= k < |sensors| ==> m <= Left(sensors[k], y)
    ensures m == I64Max || exists k :: 0 <= k < |sensors| && m == Left(sensors[k], y)
  {
    if |sensors| == 0 then I64Max
    else Min(Leftmost(sensors[..|sensors| - 1], y), Left(sensors[|sensors| - 1], y))
  }

  /** `largest`: the greatest `Right` over the sensors, starting from `i64::MIN`. */
  function Rightmost(sensors: seq<Sensor>, y: int): (m: int)
    ensures m >= I64Min && WithinRow(sensors, y, m)
    ensures m == I64Min || exists k :: 0 <= k < |sensors| && m == Right(sensors[k], y)
  {
    if |sensors| == 0 then I64Min
    else Max(Rightmost(sensors[..|sensors| - 1], y), Right(sensors[|sensors| - 1], y))
  }

  /** Every position of row `y` that a sensor sees lies between `smallest` and `largest`. */
  lemma SeenWithinBounds(sensors: seq<Sensor>, x: int, y: int)
    requires Seen(sensors, (x, y))
    ensures Leftmost(sensors, y) <= x <= Rightmost(sensors, y)
  {
    var k :| 0 <= k < |sensors| && Covers(sensors[k], (x, y));
    CoversRow(sensors[k], x, y);
  }

  // ----- The order of the sensors -----

  /** Sensors in order of descending reach, the order `sort_unstable_by_key(-distance)` leaves. */
  predicate Descending(sensors: seq<Sensor>)
  {
    forall i, j :: 0 <= i < j < |sensors| ==> sensors[i].reach >= sensors[j].reach
  }

  function Insert(s: Sensor, sorted: seq<Sensor>): (r: seq<Sensor>)
    requires Descending(sorted)
    ensures |r| == |sorted| + 1 && Descending(r) && multiset(r) == multiset(sorted) + multiset{s}
    ensures r[0] == s || (|sorted| > 0 && r[0] == sorted[0])
  {
    if |sorted| == 0 || s.reach >= sorted[0].reach then [s] + sorted
    else
      assert sorted == [sorted[0]] + sorted[1..];
      [sorted[0]] + Insert(s, sorted[1..])
  }

  /** The sensors sorted by descending reach: a permutation of the input in that order. Which
      of several equally far sensors comes first is one of the orders the unstable sort may
      leave. */
  function SortByReach(sensors: seq<Sensor>): (r: seq<Sensor>)
    ensures Descending(r) && multiset(r) == multiset(sensors)
  {
    if |sensors| == 0 then []
    else
      assert sensors == [sensors[0]] + sensors[1..];
      Insert(sensors[0], SortByReach(sensors[1..]))
  }

  /** Reordering the sensors changes nothing about which positions they see. */
  lemma SeenReordered(a: seq<Sensor>, b: seq<Sensor>, p: Point)
    requires multiset(a) == multiset(b)
    ensures Seen(a, p) <==> Seen(b, p)
  {
    if Seen(a, p) {
      var k :| 0 <= k < |a| && Covers(a[k], p);
      assert a[k] in multiset(b);
      var j :| 0 <= j < |b| && b[j] == a[k];
    }
    if Seen(b, p) {
      var k :| 0 <= k < |b| && Covers(b[k], p);
      assert b[k] in multiset(a);
      var j :| 0 <= j < |a| && a[j] == b[k];
    }
  }

  lemma {:induction false} ImpossibleCountReordered(a: seq<Sensor>, b: seq<Sensor>, beacons: seq<Point>, y: int, lo: int, hi: int)
    requires multiset(a) == multiset(b)
    ensures ImpossibleCount(a, beacons, y, lo, hi) == ImpossibleCount(b, beacons, y, lo, hi)
    decreases hi - lo
  {
    if lo < hi {
      SeenReordered(a, b, (lo, y));
      ImpossibleCountReordered(a, b, beacons, y, lo + 1, hi);
    }
  }

  lemma WithinRowReordered(a: seq<Sensor>, b: seq<Sensor>, y: int, largest: int)
    requires multiset(a) == multiset(b) && WithinRow(a, y, largest)
    ensures WithinRow(b, y, largest)
  {
    forall k | 0 <= k < |b|
      ensures Right(b[k], y) <= largest
    {
      assert b[k] in multiset(a);
      var j :| 0 <= j < |a| && a[j] == b[k];
    }
  }

  /** The scan as written of row `y`: over the sorted sensors, from `smallest` to `largest`. */
  function RowScan(sensors: seq<Sensor>, beacons: seq<Point>, y: int): nat
  {
    ScanCount(SortByReach(sensors), beacons, y, Leftmost(sensors, y), Rightmost(sensors, y))
  }

  /** Part 1 as it was evidently meant: the corrected scan over the sorted sensors, between
      `smallest` and `largest`. */
  function RowCount(sensors: seq<Sensor>, beacons: seq<Point>, y: int): nat
  {
    ScanFixed(SortByReach(sensors), beacons, y, Leftmost(sensors, y), Rightmost(sensors, y))
  }

  /** The corrected scan over reordered sensors counts what the sensors in their first order
      see. */
  lemma ScanFixedReordered(a: seq<Sensor>, b: seq<Sensor>, beacons: seq<Point>, y: int, lo: int, hi: int)
    requires multiset(a) == multiset(b) && WithinRow(a, y, hi)
    ensures ScanFixed(b, beacons, y, lo, hi) == ImpossibleCount(a, beacons, y, lo, hi + 1)
  {
    WithinRowReordered(a, b, y, hi);
    ScanFixedCounts(b, beacons, y, lo, hi);
    ImpossibleCountReordered(b, a, beacons, y, lo, hi + 1);
  }

  /** The corrected count is the number of positions between the bounds where a beacon
      cannot be, counted one by one. */
  lemma RowCountMeaning(sensors: seq<Sensor>, beacons: seq<Point>, y: int)
    ensures RowCount(sensors, beacons, y)
      == ImpossibleCount(sensors, beacons, y, Leftmost(sensors, y), Rightmost(sensors, y) + 1)
  {
    ScanFixedReordered(sensors, SortByReach(sensors), beacons, y, Leftmost(sensors, y), Rightmost(sensors, y));
  }

  /** Reordering the sensors keeps their beacons closest ones. */
  lemma ClosestReordered(a: seq<Sensor>, b: seq<Sensor>, beacons: seq<Point>)
    requires multiset(a) == multiset(b) && ClosestBeacons(a, beacons)
    ensures ClosestBeacons(b, beacons)
  {
    forall k, p | 0 <= k < |b| && p in beacons
      ensures Manhattan(p, b[k].pos) >= b[k].reach
    {
      assert b[k] in multiset(a);
      var j :| 0 <= j < |a| && a[j] == b[k];
    }
  }

  /** On sensors whose beacons are closest ones, the scan as written over the sorted sensors
      counts the positions of row `y` between the bounds where a beacon cannot be. */
  lemma RowExactOnClosest(sensors: seq<Sensor>, beacons: seq<Point>, y: int)
    requires ClosestBeacons(sensors, beacons)
    ensures RowScan(sensors, beacons, y) == RowCount(sensors, beacons, y)
    ensures RowScan(sensors, beacons, y)
      == ImpossibleCount(sensors, beacons, y, Leftmost(sensors, y), Rightmost(sensors, y) + 1)
  {
    ClosestReordered(sensors, SortByReach(sensors), beacons);
    ScanExactWhenClosest(SortByReach(sensors), beacons, y, Leftmost(sensors, y), Rightmost(sensors, y));
    RowCountMeaning(sensors, beacons, y);
  }

  /** Each report's beacon is a closest one to its sensor: no report's beacon is nearer. */
  predicate ClosestReports(reports: seq<(Point, Point)>)
  {
    forall i, j :: 0 <= i < |reports| && 0 <= j < |reports| ==>
      Manhattan(reports[j].1, reports[i].0) >= Manhattan(reports[i].0, reports[i].1)
  }

  lemma ClosestOfReports(reports: seq<(Point, Point)>)
    requires ClosestReports(reports)
    ensures ClosestBeacons(SensorsOf(reports), BeaconsOf(reports))
  {
    var sensors, beacons := SensorsOf(reports), BeaconsOf(reports);
    forall k, b | 0 <= k < |sensors| && b in beacons
      ensures Manhattan(b, sensors[k].pos) >= sensors[k].reach
    {
      var j :| 0 <= j < |beacons| && beacons[j] == b;
      assert b == reports[j].1 && sensors[k] == SensorOf(reports[k]);
    }
  }

  /** On reports whose beacons are closest ones, part 1 as written answers what the corrected
      scan does: by `RowCountMeaning`, the positions of row `Y_LEVEL` where a beacon cannot be. */
  lemma Part1ExactOnClosest(input: string, reports: seq<(Point, Point)>)
    requires ReadAll(Lines(input)) == Some(reports) && ClosestReports(reports)
    ensures Part1Answer(input) == Some(RowCount(SensorsOf(reports), BeaconsOf(reports), Row))
  {
    Part1AnswerOfReports(input, reports);
    ClosestOfReports(reports);
    RowExactOnClosest(SensorsOf(reports), BeaconsOf(reports), Row);
  }

  /** Once the reports are read, part 1 is the scan of row `Y_LEVEL` over their sensors. */
  lemma Part1AnswerOfReports(input: string, reports: seq<(Point, Point)>)
    requires ReadAll(Lines(input)) == Some(reports)
    ensures Part1Answer(input) == Some(RowScan(SensorsOf(reports), BeaconsOf(reports), Row))
  {
  }

  /** Outside the bounds there is no position where a beacon cannot be, so the count between
      them is the count of the whole row. */
  lemma NoneOutsideBounds(sensors: seq<Sensor>, beacons: seq<Point>, x: int, y: int)
    requires x < Leftmost(sensors, y) || x > Rightmost(sensors, y)
    ensures !Impossible(sensors, beacons, (x, y))
  {
    if Seen(sensors, (x, y)) {
      SeenWithinBounds(sensors, x, y);
    }
  }

  /** The reports of the finding below: on row 2000000, a sensor at x=15 with its beacon at
      x=5 and a sensor at x=10 with its beacon at x=9. */
  const SkipSensors: seq<Sensor> := [Sensor((15, 2000000), 10), Sensor((10, 2000000), 1)]
  const SkipBeacons: seq<Point> := [(5, 2000000), (9, 2000000)]

  lemma SkipExampleBounds()
    ensures Leftmost(SkipSensors, 2000000) == 5 && Rightmost(SkipSensors, 2000000) == 25
    ensures SortByReach(SkipSensors) == SkipSensors
  {
    var s0, s1 := SkipSensors[0], SkipSensors[1];
    assert SkipSensors[..1] == [s0] && [s0][..0] == [];
    assert [s1][1..] == [] && SkipSensors[1..] == [s1];
  }

  lemma SkipExampleScan()
    ensures ScanCount(SkipSensors, SkipBeacons, 2000000, 5, 25) == 20
  {
    var y := 2000000;
    assert Step(SkipSensors, SkipBeacons, y, 5) == Move(6, 0);
    assert FirstCover(SkipSensors, (6, y), 0) == Some(0);
    assert Step(SkipSensors, SkipBeacons, y, 6) == Move(25, 19);
    assert FirstCover(SkipSensors, (25, y), 0) == Some(0);
    assert Step(SkipSensors, SkipBeacons, y, 25) == Move(26, 1);
  }

  lemma SkipExampleFixed()
    ensures ScanFixed(SkipSensors, SkipBeacons, 2000000, 5, 25) == 19
  {
    var y := 2000000;
    assert Step(SkipSensors, SkipBeacons, y, 5) == Move(6, 0);
    assert FirstCover(SkipSensors, (6, y), 0) == Some(0);
    assert Step(SkipSensors, SkipBeacons, y, 6) == Move(25, 19);
    assert FirstCover(SkipSensors, (25, y), 0) == Some(0);
    assert Step(SkipSensors, SkipBeacons, y, 25) == Move(26, 1);
    SkipExampleNonBeacons();
  }

  lemma SkipExampleNonBeacons()
    ensures NonBeacons(SkipBeacons, 2000000, 6, 25) == 18
  {
    forall x | 6 <= x < 25 && x != 9
      ensures (x, 2000000) !in SkipBeacons
    {
      assert SkipBeacons[0] != (x, 2000000) && SkipBeacons[1] != (x, 2000000);
    }
    NonBeaconsSplit(SkipBeacons, 2000000, 6, 9, 25);
    NonBeaconsSplit(SkipBeacons, 2000000, 9, 10, 25);
  }

  /** Finding: with the reports above the bounds are 5 and 25. The scan steps over the beacon
      at 5, then jumps from 6 straight to 25 and counts the beacon at 9 among the 19 positions
      it passes: 20 in all, where a beacon cannot be at only 19 positions of the row. This
      needs a known beacon strictly inside another sensor's reach (the beacon at 9 is 6 from
      the sensor at 15, whose own beacon is 10 away), which reports of closest beacons rule
      out (`ScanExactWhenClosest`). */
  lemma ScanCountsSkippedBeacon()
    ensures !ClosestBeacons(SkipSensors, SkipBeacons)
    ensures ScanCount(SortByReach(SkipSensors), SkipBeacons, 2000000,
      Leftmost(SkipSensors, 2000000), Rightmost(SkipSensors, 2000000)) == 20
    ensures RowCount(SkipSensors, SkipBeacons, 2000000) == 19
    ensures ImpossibleCount(SkipSensors, SkipBeacons, 2000000, 5, 26) == 19
  {
    SkipExampleBounds();
    SkipExampleScan();
    SkipExampleFixed();
    ScanFixedCounts(SkipSensors, SkipBeacons, 2000000, 5, 25);
    assert SkipBeacons[1] in SkipBeacons && Manhattan(SkipBeacons[1], SkipSensors[0].pos) == 6;
  }

  lemma {:induction false} NonBeaconsSplit(beacons: seq<Point>, y: int, lo: int, mid: int, hi: int)
    requires lo <= mid <= hi
    ensures NonBeacons(beacons, y, lo, hi) == NonBeacons(beacons, y, lo, mid) + NonBeacons(beacons, y, mid, hi)
    decreases mid - lo
  {
    if lo < mid {
      NonBeaconsSplit(beacons, y, lo + 1, mid, hi);
    }
  }

  // ----- Reading the input -----

  /** `parse` mapped over the lines: each line's report, `None` where the line never finishes. */
  function ParseAll(lines: seq<string>): (r: seq<Option<(Point, Point)>>)
    ensures |r| == |lines| && forall i :: 0 <= i < |lines| ==> r[i] == ParseReport(lines[i])
  {
    seq(|lines|, i requires 0 <= i < |lines| => ParseReport(lines[i]))
  }

  /** All the values in order, or `None` where one is missing. */
  function Collect<T>(opts: seq<Option<T>>): (r: Option<seq<T>>)
    ensures r.Some? ==> |r.value| == |opts|
  {
    if |opts| == 0 then Some([])
    else
      match Collect(opts[..|opts| - 1])
      case None => None
      case Some(values) =>
        match opts[|opts| - 1]
        case None => None
        case Some(v) => Some(values + [v])
  }

  /** The values are collected exactly when none is missing, and then in their order. */
  lemma {:induction false} CollectMeaning<T>(opts: seq<Option<T>>)
    ensures Collect(opts).Some? <==> forall i :: 0 <= i < |opts| ==> opts[i].Some?
    ensures Collect(opts).Some? ==> forall i :: 0 <= i < |opts| ==> Collect(opts).value[i] == opts[i].value
  {
    if |opts| > 0 {
      var front := opts[..|opts| - 1];
      CollectMeaning(front);
      if Collect(front).None? {
        var i :| 0 <= i < |front| && front[i].None?;
        assert opts[i] == front[i];
      } else if opts[|opts| - 1].Some? {
        forall i | 0 <= i < |front|
          ensures opts[i].Some?
        {
          assert opts[i] == front[i];
        }
      }
    }
  }

  /** A value missing early is missing from the whole. */
  lemma {:induction false} CollectPrefixNone<T>(opts: seq<Option<T>>, n: nat)
    requires n <= |opts| && Collect(opts[..n]).None?
    ensures Collect(opts).None?
    decreases |opts| - n
  {
    if n == |opts| {
      assert opts[..n] == opts;
    } else {
      assert opts[..n + 1][..n] == opts[..n];
      CollectPrefixNone(opts, n + 1);
    }
  }

  /** The reports of the whole input; `None` where some line never finishes. */
  function ReadAll(lines: seq<string>): Option<seq<(Point, Point)>>
  {
    Collect(ParseAll(lines))
  }

  /** The input is read exactly when every line is, and then each report is its line's. */
  lemma ReadAllMeaning(lines: seq<string>)
    ensures ReadAll(lines).Some? <==> forall i :: 0 <= i < |lines| ==> ParseReport(lines[i]).Some?
    ensures ReadAll(lines).Some? ==>
      |ReadAll(lines).value| == |lines| && forall i :: 0 <= i < |lines| ==> ReadAll(lines).value[i] == ParseReport(lines[i]).value
  {
    CollectMeaning(ParseAll(lines));
  }

  /** The sensors of the `unzip`, each paired with its reach. */
  function SensorsOf(reports: seq<(Point, Point)>): (s: seq<Sensor>)
    ensures |s| == |reports| && forall i :: 0 <= i < |reports| ==> s[i] == SensorOf(reports[i])
  {
    if |reports| == 0 then []
    else SensorsOf(reports[..|reports| - 1]) + [SensorOf(reports[|reports| - 1])]
  }

  /** The beacons of the `unzip`. */
  function BeaconsOf(reports: seq<(Point, Point)>): (b: seq<Point>)
    ensures |b| == |reports| && forall i :: 0 <= i < |reports| ==> b[i] == reports[i].1
  {
    if |reports| == 0 then []
    else BeaconsOf(reports[..|reports| - 1]) + [reports[|reports| - 1].1]
  }

  lemma UnzipSnoc(reports: seq<(Point, Point)>, report: (Point, Point))
    ensures SensorsOf(reports + [report]) == SensorsOf(reports) + [SensorOf(report)]
    ensures BeaconsOf(reports + [report]) == BeaconsOf(reports) + [report.1]
  {
    assert (reports + [report])[..|reports|] == reports;
  }

  /** `Y_LEVEL`, the row of part 1. */
  const Row: int := 2000000

  /** Part 1 as written: the scan of row `Y_LEVEL` over the sorted sensors, from `smallest` to
      `largest`. */
  function Part1Answer(input: string): Option<nat>
  {
    match ReadAll(Lines(input))
    case None => None
    case Some(reports) =>
      Some(RowScan(SensorsOf(reports), BeaconsOf(reports), Row))
  }

  // ----- Part 2: the one position no sensor sees -----

  /** The `'x_loop` of `part_2` on row `y` from `idx`: the first position up to `limit` that
      is neither a beacon nor seen, jumping over seen positions as part 1 does. */
  function FindInRow(sensors: seq<Sensor>, beacons: seq<Point>, y: int, idx: int, limit: int): Option<int>
    decreases limit + 1 - idx
  {
    if idx > limit then None
    else if (idx, y) in beacons then FindInRow(sensors, beacons, y, idx + 1, limit)
    else
      match FirstCover(sensors, (idx, y), 0)
      case None => Some(idx)
      case Some(k) => FindInRow(sensors, beacons, y, idx + Skip(sensors[k], idx, y), limit)
  }

  /** A jump from a position a sensor sees passes no free position. */
  lemma SkipNotFree(sensors: seq<Sensor>, beacons: seq<Point>, k: nat, idx: int, y: int)
    requires k < |sensors| && Covers(sensors[k], (idx, y))
    ensures forall x :: idx <= x < idx + Skip(sensors[k], idx, y) ==> !Free(sensors, beacons, (x, y))
  {
    SkipSeen(sensors[k], idx, y);
    forall x | idx <= x < idx + Skip(sensors[k], idx, y)
      ensures Seen(sensors, (x, y))
    {
      assert Covers(sensors[k], (x, y));
    }
  }

  /** What the row search finds is the first free position from `idx` up to `limit`. */
  lemma {:induction false} FindInRowFound(sensors: seq<Sensor>, beacons: seq<Point>, y: int, idx: int, limit: int, found: int)
    requires FindInRow(sensors, beacons, y, idx, limit) == Some(found)
    ensures idx <= found <= limit && Free(sensors, beacons, (found, y))
    ensures forall x :: idx <= x < found ==> !Free(sensors, beacons, (x, y))
    decreases limit + 1 - idx
  {
    if (idx, y) in beacons {
      FindInRowFound(sensors, beacons, y, idx + 1, limit, found);
      forall x | idx <= x < found
        ensures !Free(sensors, beacons, (x, y))
      {
        if x == idx {
          assert (x, y) in beacons;
        }
      }
    } else {
      match FirstCover(sensors, (idx, y), 0)
      case None =>
      case Some(k) =>
        var next := idx + Skip(sensors[k], idx, y);
        SkipNotFree(sensors, beacons, k, idx, y);
        FindInRowFound(sensors, beacons, y, next, limit, found);
        forall x | idx <= x < found
          ensures !Free(sensors, beacons, (x, y))
        {
          if x < next {
            assert idx <= x < idx + Skip(sensors[k], idx, y);
          }
        }
    }
  }

  /** The row search finds nothing only where no position from `idx` up to `limit` is free. */
  lemma {:induction false} FindInRowNone(sensors: seq<Sensor>, beacons: seq<Point>, y: int, idx: int, limit: int)
    requires FindInRow(sensors, beacons, y, idx, limit).None?
    ensures forall x :: idx <= x <= limit ==> !Free(sensors, beacons, (x, y))
    decreases limit + 1 - idx
  {
    if idx <= limit {
      if (idx, y) in beacons {
        FindInRowNone(sensors, beacons, y, idx + 1, limit);
      } else {
        match FirstCover(sensors, (idx, y), 0)
        case None =>
        case Some(k) =>
          SkipNotFree(sensors, beacons, k, idx, y);
          FindInRowNone(sensors, beacons, y, idx + Skip(sensors[k], idx, y), limit);
      }
    }
  }

  /** The `'y_loop` of `part_2` from row `y`: the first free position, rows in order and each
      row from 0, within the square up to `limit`. */
  function FindGap(sensors: seq<Sensor>, beacons: seq<Point>, y: int, limit: int): Option<Point>
    decreases limit + 1 - y
  {
    if y > limit then None
    else
      match FindInRow(sensors, beacons, y, 0, limit)
      case Some(x) => Some((x, y))
      case None => FindGap(sensors, beacons, y + 1, limit)
  }

  /** Position `p` comes before position `q` when the rows are read in order, each from the
      left. */
  predicate Before(p: Point, q: Point)
  {
    p.1 < q.1 || (p.1 == q.1 && p.0 < q.0)
  }

  /** What the search finds is the first free position of the square from row `y` on. */
  lemma {:induction false} FindGapFound(sensors: seq<Sensor>, beacons: seq<Point>, y: int, limit: int, p: Point)
    requires FindGap(sensors, beacons, y, limit) == Some(p)
    ensures 0 <= p.0 <= limit && y <= p.1 <= limit && Free(sensors, beacons, p)
    ensures forall x, v :: 0 <= x <= limit && y <= v <= limit && Before((x, v), p) ==> !Free(sensors, beacons, (x, v))
    decreases limit + 1 - y
  {
    match FindInRow(sensors, beacons, y, 0, limit)
    case Some(x) =>
      FindInRowFound(sensors, beacons, y, 0, limit, x);
    case None =>
      FindInRowNone(sensors, beacons, y, 0, limit);
      FindGapFound(sensors, beacons, y + 1, limit, p);
  }

  /** The search finds nothing only where no position of the square from row `y` on is free. */
  lemma {:induction false} FindGapNone(sensors: seq<Sensor>, beacons: seq<Point>, y: int, limit: int)
    requires FindGap(sensors, beacons, y, limit).None?
    ensures forall x, v :: 0 <= x <= limit && y <= v <= limit ==> !Free(sensors, beacons, (x, v))
    decreases limit + 1 - y
  {
    if y <= limit {
      FindInRowNone(sensors, beacons, y, 0, limit);
      FindGapNone(sensors, beacons, y + 1, limit);
      forall x, v | 0 <= x <= limit && y <= v <= limit
        ensures !Free(sensors, beacons, (x, v))
      {
        if v == y {
          assert !Free(sensors, beacons, (x, y));
        }
      }
    }
  }

  /** The searched square: `0..=4_000_000` in both directions. */
  const Limit: nat := 4000000

  /** Part 2: `x * 4_000_000 + y` of the free position found; `None` where none is (the
      source's `unwrap` panics). */
  function Part2Answer(input: string): Option<int>
  {
    match ReadAll(Lines(input))
    case None => None
    case Some(reports) =>
      match FindGap(SortByReach(SensorsOf(reports)), BeaconsOf(reports), 0, Limit)
      case None => None
      case Some(p) => Some(Frequency(p))
  }

  /** The tuning frequency of a position: `x * 4_000_000 + y`. */
  function Frequency(p: Point): int
  {
    p.0 * 4000000 + p.1
  }

  /** Which positions are free does not depend on the order of the sensors, so neither does
      the position the search reports. */
  lemma FreeReordered(a: seq<Sensor>, b: seq<Sensor>, beacons: seq<Point>)
    requires multiset(a) == multiset(b)
    ensures forall p :: Free(a, beacons, p) <==> Free(b, beacons, p)
  {
    forall p
      ensures Free(a, beacons, p) <==> Free(b, beacons, p)
    {
      SeenReordered(a, b, p);
    }
  }

  // ----- The loops of the source -----

  /** `parse(input).map(...)` followed by `unzip`: a sensor and a beacon from every line. */
  method ReadReports(lines: seq<string>) returns (r: Option<(seq<Sensor>, seq<Point>)>)
    ensures r.None? <==> ReadAll(lines).None?
    ensures r.Some? ==> r.value == (SensorsOf(ReadAll(lines).value), BeaconsOf(ReadAll(lines).value))
  {
    ghost var opts := ParseAll(lines);
    ghost var reports: seq<(Point, Point)> := [];
    var sensors: seq<Sensor> := [];
    var beacons: seq<Point> := [];
    assert opts[..0] == [];
    for i := 0 to |lines|
      invariant Collect(opts[..i]) == Some(reports)
      invariant sensors == SensorsOf(reports) && beacons == BeaconsOf(reports)
    {
      var report := ParseLine(lines[i]);
      assert opts[..i + 1][..i] == opts[..i] && opts[..i + 1][i] == report;
      if report.None? {
        CollectPrefixNone(opts, i + 1);
        return None;
      }
      UnzipSnoc(reports, report.value);
      reports := reports + [report.value];
      sensors := sensors + [SensorOf(report.value)];
      beacons := beacons + [report.value.1];
    }
    assert opts[..|lines|] == opts;
    r := Some((sensors, beacons));
  }

  /** The `inspect` closure of `part_1` over every sensor: `smallest` and `largest`. */
  method Bounds(sensors: seq<Sensor>, y: int) returns (smallest: int, largest: int)
    ensures smallest == Leftmost(sensors, y) && largest == Rightmost(sensors, y)
  {
    smallest, largest := I64Max, I64Min;
    for i := 0 to |sensors|
      invariant smallest == Leftmost(sensors[..i], y) && largest == Rightmost(sensors[..i], y)
    {
      assert sensors[..i + 1][..i] == sensors[..i];
      var s := sensors[i];
      smallest := Min(smallest, s.pos.0 - s.reach + Abs(y - s.pos.1));
      largest := Max(largest, s.pos.0 + s.reach - Abs(y - s.pos.1));
    }
    assert sensors[..|sensors|] == sensors;
  }

  /** The `for beacon in &beacons` loop: whether `p` is a known beacon. */
  method IsBeacon(beacons: seq<Point>, p: Point) returns (hit: bool)
    ensures hit <==> p in beacons
  {
    for b := 0 to |beacons|
      invariant forall j :: 0 <= j < b ==> beacons[j] != p
    {
      if beacons[b] == p {
        return true;
      }
    }
    return false;
  }

  /** The `for (sensor, distance_to_beacon) in &sensors` loop: the first sensor that sees `p`. */
  method FindCover(sensors: seq<Sensor>, p: Point) returns (r: Option<nat>)
    ensures r == FirstCover(sensors, p, 0)
  {
    for k := 0 to |sensors|
      invariant forall j :: 0 <= j < k ==> !Covers(sensors[j], p)
    {
      if Manhattan(p, sensors[k].pos) <= sensors[k].reach {
        return Some(k);
      }
    }
    return None;
  }

  /** The `'outer` loop of `part_1`, counting into `found_count`. */
  method ScanRow(sensors: seq<Sensor>, beacons: seq<Point>, y: int, smallest: int, largest: int) returns (found: nat)
    ensures found == ScanCount(sensors, beacons, y, smallest, largest)
  {
    found := 0;
    var idx := smallest;
    label outer: while idx <= largest
      invariant found + ScanCount(sensors, beacons, y, idx, largest) == ScanCount(sensors, beacons, y, smallest, largest)
      decreases largest + 1 - idx
    {
      var isBeacon := IsBeacon(beacons, (idx, y));
      if isBeacon {
        idx := idx + 1;
        continue outer;
      }
      var cover := FindCover(sensors, (idx, y));
      if cover.Some? {
        var s := sensors[cover.value];
        var skippable := Max(s.pos.0 - idx + (s.reach - Abs(s.pos.1 - y)), 1);
        idx := idx + skippable;
        found := found + skippable;
        continue outer;
      }
      idx := idx + 1;
    }
  }

  /** The `'x_loop` of `part_2` on row `y`: the first free position up to `limit`. */
  method ScanColumns(sensors: seq<Sensor>, beacons: seq<Point>, y: int, limit: nat) returns (r: Option<int>)
    ensures r == FindInRow(sensors, beacons, y, 0, limit)
  {
    var idx := 0;
    label columns: while idx <= limit
      invariant FindInRow(sensors, beacons, y, idx, limit) == FindInRow(sensors, beacons, y, 0, limit)
      decreases limit + 1 - idx
    {
      var isBeacon := IsBeacon(beacons, (idx, y));
      if isBeacon {
        idx := idx + 1;
        continue columns;
      }
      var cover := FindCover(sensors, (idx, y));
      if cover.Some? {
        var s := sensors[cover.value];
        var skippable := Max(s.pos.0 - idx + (s.reach - Abs(s.pos.1 - y)), 1);
        idx := idx + skippable;
        continue columns;
      }
      return Some(idx);
    }
    return None;
  }

  /** The `'y_loop` of `part_2` over the rows of the square up to `limit`, stopping at the
      first row with a free position. */
  method FindPosition(sensors: seq<Sensor>, beacons: seq<Point>, limit: nat) returns (r: Option<Point>)
    ensures r == FindGap(sensors, beacons, 0, limit)
  {
    for y := 0 to limit + 1
      invariant FindGap(sensors, beacons, y, limit) == FindGap(sensors, beacons, 0, limit)
    {
      var x := ScanColumns(sensors, beacons, y, limit);
      if x.Some? {
        return Some((x.value, y));
      }
    }
    return None;
  }

  /** `part_1`. */
  method Part1(input: string) returns (r: Option<nat>)
    ensures r == Part1Answer(input)
  {
    var read := ReadReports(Lines(input));
    if read.None? {
      return None;
    }
    var (sensors, beacons) := read.value;
    var smallest, largest := Bounds(sensors, Row);
    var sorted := SortByReach(sensors);
    var found := ScanRow(sorted, beacons, Row, smallest, largest);
    r := Some(found);
  }

  /** `part_2`. */
  method Part2(input: string) returns (r: Option<int>)
    ensures r == Part2Answer(input)
  {
    var read := ReadReports(Lines(input));
    if read.None? {
      return None;
    }
    var (sensors, beacons) := read.value;
    var sorted := SortByReach(sensors);
    var found := FindPosition(sorted, beacons, Limit);
    if found.None? {
      return None;
    }
    r := Some(Frequency(found.value));
  }
}
