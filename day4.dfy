/** Day 4, first version (`src/day4.rs`): the same puzzle as `Day04`, with the line read by
    one character cursor and an overlap test whose first case compares the wrong ends. */
module Day4Cursor {
  import opened Basics
  import opened Text
  import Day04

  /** One `take_while(char::is_ascii_digit)` read and its `parse`: the digits from `pos`,
      parsed, and the cursor after the run and the one character `take_while` swallows to
      see that the run ended. */
  datatype Read = Read(value: Option<nat>, next: nat)

  function ReadAt(line: string, pos: nat): (r: Read)
    requires pos <= |line|
    ensures pos <= r.next <= |line|
  {
    var e := RunEnd(line, pos);
    Read(ParseNat(line[pos..e]), if e < |line| then e + 1 else e)
  }

  /** The read as the source performs it, a character at a time. */
  method ReadNumber(line: string, pos: nat) returns (r: Read)
    requires pos <= |line|
    ensures r == ReadAt(line, pos)
  {
    var e := pos;
    while e < |line| && IsDigit(line[e])
      invariant pos <= e <= |line| && RunEnd(line, pos) == RunEnd(line, e)
    {
      e := e + 1;
    }
    var next := e;
    if e < |line| {
      next := e + 1;
    }
    r := Read(ParseNat(line[pos..e]), next);
  }

  /** `parse_tasks` as a function: four reads from one cursor. `None` is an `unwrap` panic on
      an empty run. */
  function CursorParse(line: string): Option<(Day04.Task, Day04.Task)>
  {
    var r1 := ReadAt(line, 0);
    var r2 := ReadAt(line, r1.next);
    var r3 := ReadAt(line, r2.next);
    var r4 := ReadAt(line, r3.next);
    match (r1.value, r2.value, r3.value, r4.value)
    case (Some(s1), Some(e1), Some(s2), Some(e2)) => Some((Day04.Task(s1, e1), Day04.Task(s2, e2)))
    case _ => None
  }

  /** `parse_tasks`: the shared cursor advanced by four reads. */
  method ParseTasks(line: string) returns (r: Option<(Day04.Task, Day04.Task)>)
    ensures r == CursorParse(line)
  {
    var r1 := ReadNumber(line, 0);
    var r2 := ReadNumber(line, r1.next);
    var r3 := ReadNumber(line, r2.next);
    var r4 := ReadNumber(line, r3.next);
    if r1.value.None? || r2.value.None? || r3.value.None? || r4.value.None? {
      return None;
    }
    r := Some((Day04.Task(r1.value.value, r2.value.value), Day04.Task(r3.value.value, r4.value.value)));
  }

  /** Reading a rendered number followed by a non-digit gives the number back and moves past
      the separator. */
  lemma ReadRendered(n: nat, sep: char, rest: string)
    requires !IsDigit(sep)
    ensures var line := NatToString(n) + [sep] + rest;
      ReadAt(line, 0) == Read(Some(n), |NatToString(n)| + 1)
  {
    var d := NatToString(n);
    var line := d + [sep] + rest;
    RunEndOfDigits(line, 0, |d|);
    assert line[0..|d|] == d;
    ParseNatRoundTrip(n);
  }

  /** Reading from a shifted cursor is reading the suffix. */
  lemma {:induction false} ReadShift(prefix: string, line: string, pos: nat)
    requires pos <= |line|
    ensures ReadAt(prefix + line, |prefix| + pos) == Read(ReadAt(line, pos).value, |prefix| + ReadAt(line, pos).next)
    decreases |line| - pos
  {
    var full := prefix + line;
    var e := RunEnd(line, pos);
    assert full[|prefix| + pos..|prefix| + e] == line[pos..e];
    RunEndShift(prefix, line, pos);
  }

  lemma {:induction false} RunEndShift(prefix: string, line: string, pos: nat)
    requires pos <= |line|
    ensures RunEnd(prefix + line, |prefix| + pos) == |prefix| + RunEnd(line, pos)
    decreases |line| - pos
  {
    var full := prefix + line;
    assert |prefix| + pos < |full| ==> full[|prefix| + pos] == line[pos];
    if pos < |line| && IsDigit(line[pos]) {
      RunEndShift(prefix, line, pos + 1);
    }
  }

  /** A rendered number and a separator read back at any cursor position. */
  lemma ReadAfter(p: string, n: nat, sep: char, rest: string, pos: nat)
    requires !IsDigit(sep) && pos == |p|
    ensures ReadAt(p + (NatToString(n) + [sep] + rest), pos) == Read(Some(n), pos + |NatToString(n)| + 1)
  {
    ReadRendered(n, sep, rest);
    ReadShift(p, NatToString(n) + [sep] + rest, 0);
  }

  /** A rendered number at the end of the line reads back. */
  lemma ReadLast(p: string, n: nat, pos: nat)
    requires pos == |p|
    ensures ReadAt(p + NatToString(n), pos).value == Some(n)
  {
    var d := NatToString(n);
    RunEndOfDigitsAtEnd(d);
    assert d[0..|d|] == d;
    ParseNatRoundTrip(n);
    ReadShift(p, d, 0);
  }

  /** Two ranges written with the separators `c1`, `c2`, `c3`: `2-4,6-8` for `-`, `,`, `-`. */
  function Render(t1: Day04.Task, t2: Day04.Task, c1: char, c2: char, c3: char): string
  {
    NatToString(t1.start) + [c1] + NatToString(t1.end) + [c2]
      + NatToString(t2.start) + [c3] + NatToString(t2.end)
  }

  lemma ReadsOfRenderFirst(t1: Day04.Task, t2: Day04.Task, c1: char, c2: char, c3: char, n1: nat, n2: nat)
    requires !IsDigit(c1) && !IsDigit(c2)
    requires n1 == |NatToString(t1.start)| + 1 && n2 == n1 + |NatToString(t1.end)| + 1
    ensures ReadAt(Render(t1, t2, c1, c2, c3), 0) == Read(Some(t1.start), n1)
    ensures ReadAt(Render(t1, t2, c1, c2, c3), n1) == Read(Some(t1.end), n2)
  {
    var a, b, c, d := NatToString(t1.start), NatToString(t1.end), NatToString(t2.start), NatToString(t2.end);
    var line := Render(t1, t2, c1, c2, c3);
    assert line == [] + (a + [c1] + (b + [c2] + c + [c3] + d));
    ReadAfter([], t1.start, c1, b + [c2] + c + [c3] + d, 0);
    var p1 := a + [c1];
    assert line == p1 + (b + [c2] + (c + [c3] + d));
    ReadAfter(p1, t1.end, c2, c + [c3] + d, n1);
  }

  lemma ReadsOfRenderThird(t1: Day04.Task, t2: Day04.Task, c1: char, c2: char, c3: char, n2: nat, n3: nat)
    requires !IsDigit(c3)
    requires n2 == |NatToString(t1.start)| + 1 + |NatToString(t1.end)| + 1
    requires n3 == n2 + |NatToString(t2.start)| + 1
    ensures ReadAt(Render(t1, t2, c1, c2, c3), n2) == Read(Some(t2.start), n3)
  {
    var a, b, c, d := NatToString(t1.start), NatToString(t1.end), NatToString(t2.start), NatToString(t2.end);
    var p2 := a + [c1] + b + [c2];
    assert Render(t1, t2, c1, c2, c3) == p2 + (c + [c3] + d);
    ReadAfter(p2, t2.start, c3, d, n2);
  }

  lemma ReadsOfRenderFourth(t1: Day04.Task, t2: Day04.Task, c1: char, c2: char, c3: char, n3: nat)
    requires n3 == |NatToString(t1.start)| + 1 + |NatToString(t1.end)| + 1 + |NatToString(t2.start)| + 1
    ensures n3 <= |Render(t1, t2, c1, c2, c3)|
    ensures ReadAt(Render(t1, t2, c1, c2, c3), n3).value == Some(t2.end)
  {
    var a, b, c, d := NatToString(t1.start), NatToString(t1.end), NatToString(t2.start), NatToString(t2.end);
    var p3 := a + [c1] + b + [c2] + c + [c3];
    assert Render(t1, t2, c1, c2, c3) == p3 + d;
    ReadLast(p3, t2.end, n3);
  }

  /** Four numbers joined by any three non-digit separators read back as the two ranges. */
  lemma ParseRendered(t1: Day04.Task, t2: Day04.Task, c1: char, c2: char, c3: char)
    requires !IsDigit(c1) && !IsDigit(c2) && !IsDigit(c3)
    ensures CursorParse(Render(t1, t2, c1, c2, c3)) == Some((t1, t2))
  {
    var n1 := |NatToString(t1.start)| + 1;
    var n2 := n1 + |NatToString(t1.end)| + 1;
    var n3 := n2 + |NatToString(t2.start)| + 1;
    ReadsOfRenderFirst(t1, t2, c1, c2, c3, n1, n2);
    ReadsOfRenderThird(t1, t2, c1, c2, c3, n2, n3);
    ReadsOfRenderFourth(t1, t2, c1, c2, c3, n3);
    ParseOfReads(Render(t1, t2, c1, c2, c3), n1, n2, n3, t1, t2);
  }

  /** The two versions read the same lines: with the puzzle's separators the rendering is
      the one `Day04` parses, and both parsers give the ranges back. */
  lemma BothParsersAgree(t1: Day04.Task, t2: Day04.Task)
    ensures Render(t1, t2, '-', ',', '-') == Day04.Render(t1, t2)
    ensures CursorParse(Day04.Render(t1, t2)) == Day04.ParseTasks(Day04.Render(t1, t2)) == Some((t1, t2))
  {
    var a, b, c, d := NatToString(t1.start), NatToString(t1.end), NatToString(t2.start), NatToString(t2.end);
    assert Join([a, b][1..], '-') == b;
    assert Join([c, d][1..], '-') == d;
    var x, y := Join([a, b], '-'), Join([c, d], '-');
    assert Join([x, y][1..], ',') == y;
    assert Day04.Render(t1, t2) == a + ['-'] + b + [','] + c + ['-'] + d;
    ParseRendered(t1, t2, '-', ',', '-');
    Day04.ParseRender(t1, t2);
  }

  lemma ParseOfReads(line: string, n1: nat, n2: nat, n3: nat, t1: Day04.Task, t2: Day04.Task)
    requires n1 <= |line| && n2 <= |line| && n3 <= |line|
    requires ReadAt(line, 0) == Read(Some(t1.start), n1)
    requires ReadAt(line, n1) == Read(Some(t1.end), n2)
    requires ReadAt(line, n2) == Read(Some(t2.start), n3)
    requires ReadAt(line, n3).value == Some(t2.end)
    ensures CursorParse(line) == Some((t1, t2))
  {
  }

  lemma RunEndOfDigitsAtEnd(d: string)
    requires AllDigits(d)
    ensures RunEnd(d, 0) == |d|
  {
    RunEndAll(d, 0);
  }

  lemma {:induction false} RunEndAll(d: string, pos: nat)
    requires pos <= |d| && AllDigits(d)
    ensures RunEnd(d, pos) == |d|
    decreases |d| - pos
  {
    if pos < |d| {
      RunEndAll(d, pos + 1);
    }
  }

  /** `has_overlap` as written: its first case tests `e1 < e2` where `s1 < s2 && e1 < s2`
      (task 1 wholly before task 2) was meant. */
  function HasOverlap(t1: Day04.Task, t2: Day04.Task): bool
  {
    !((t1.start < t2.start && t1.end < t2.end) || (t2.start < t1.start && t2.end < t1.start))
  }

  /** The ranges 1-5 and 2-6 share sections 2 to 5, yet `has_overlap` reports no overlap; the
      corrected test of `src/day04.rs` reports it. */
  lemma OverlapMissed()
    ensures !HasOverlap(Day04.Task(1, 5), Day04.Task(2, 6))
    ensures Day04.HasOverlap(Day04.Task(1, 5), Day04.Task(2, 6))
    ensures Day04.Meet(Day04.Task(1, 5), Day04.Task(2, 6))
  {
    assert Day04.Task(1, 5).Has(2) && Day04.Task(2, 6).Has(2);
  }

  /** What the first version gets right: on well-formed ranges it never reports an overlap
      that is not there, and it agrees with the corrected test except where task 1 starts
      and ends strictly before task 2 yet reaches it. */
  lemma HasOverlapVersusCorrected(t1: Day04.Task, t2: Day04.Task)
    requires t1.WellFormed() && t2.WellFormed()
    ensures HasOverlap(t1, t2) ==> Day04.HasOverlap(t1, t2)
    ensures Day04.HasOverlap(t1, t2) && !HasOverlap(t1, t2) <==>
              t1.start < t2.start <= t1.end < t2.end
  {
  }

  /** One part over the non-empty lines of `split('\n')`; `None` when a line panics. */
  function CountPairs(lines: seq<string>, overlap: bool): (r: Option<nat>)
    ensures r.Some? <==> forall i :: 0 <= i < |lines| && |lines[i]| > 0 ==> CursorParse(lines[i]).Some?
    ensures r.Some? ==> r.value <= |lines|
  {
    if lines == [] then Some(0)
    else
      var rest := CountPairs(lines[1..], overlap);
      assert forall i :: 1 <= i < |lines| ==> lines[i] == lines[1..][i - 1];
      if |lines[0]| == 0 then rest
      else
        match CursorParse(lines[0])
        case None => None
        case Some(pair) =>
          match rest
          case None => None
          case Some(n) =>
            var hit := if overlap then HasOverlap(pair.0, pair.1) else Day04.IsContained(pair.0, pair.1);
            Some(n + if hit then 1 else 0)
  }

  /** `part_1`. */
  function Part1(input: string): Option<nat>
  {
    CountPairs(Split(input, '\n'), false)
  }

  /** `part_2`. */
  function Part2(input: string): Option<nat>
  {
    CountPairs(Split(input, '\n'), true)
  }
}
