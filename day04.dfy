/** Day 4 (`src/day04.rs`): pairs of section ranges `a-b,c-d`; count the pairs where one range
    contains the other, and the pairs that overlap. */
module Day04 {
  import opened Basics
  import opened Text

  /** A range of sections, `start` to `end` inclusive (`u32` fields). */
  datatype Task = Task(start: nat, end: nat)
  {
    predicate WellFormed() { start <= end }

    /** Section `x` lies in the range. */
    predicate Has(x: int) { start <= x <= end }
  }

  /** `parse_tasks`: split on `,`, then each of the first two pieces on `-`, and parse the
      first two pieces of each as `u32`. Further pieces are never read. `None` stands for the
      `unwrap` panics: a missing piece or a piece that is not a number. */
  function ParseTasks(line: string): (r: Option<(Task, Task)>)
    ensures r.Some? ==> |Split(line, ',')| >= 2
  {
    var halves := Split(line, ',');
    if |halves| < 2 then None
    else
      var first, second := Split(halves[0], '-'), Split(halves[1], '-');
      if |first| < 2 || |second| < 2 then None
      else
        match (ParseNat(first[0]), ParseNat(first[1]), ParseNat(second[0]), ParseNat(second[1]))
        case (Some(s1), Some(e1), Some(s2), Some(e2)) => Some((Task(s1, e1), Task(s2, e2)))
        case _ => None
  }

  /** The input line for a pair of ranges. */
  function Render(t1: Task, t2: Task): string
  {
    Join([Join([NatToString(t1.start), NatToString(t1.end)], '-'),
          Join([NatToString(t2.start), NatToString(t2.end)], '-')], ',')
  }

  lemma DigitsHaveNo(n: nat, c: char)
    requires !IsDigit(c)
    ensures c !in NatToString(n)
  {
  }

  /** Parsing the rendering of two ranges gives them back. */
  lemma ParseRender(t1: Task, t2: Task)
    ensures ParseTasks(Render(t1, t2)) == Some((t1, t2))
  {
    var a, b := [NatToString(t1.start), NatToString(t1.end)], [NatToString(t2.start), NatToString(t2.end)];
    DigitsHaveNo(t1.start, '-');
    DigitsHaveNo(t1.end, '-');
    DigitsHaveNo(t2.start, '-');
    DigitsHaveNo(t2.end, '-');
    DigitsHaveNo(t1.start, ',');
    DigitsHaveNo(t1.end, ',');
    DigitsHaveNo(t2.start, ',');
    DigitsHaveNo(t2.end, ',');
    SplitJoin(a, '-');
    SplitJoin(b, '-');
    var ja, jb := Join(a, '-'), Join(b, '-');
    assert Join(a[1..], '-') == a[1];
    assert ja == a[0] + ['-'] + a[1];
    assert Join(b[1..], '-') == b[1];
    assert jb == b[0] + ['-'] + b[1];
    assert ',' !in ja && ',' !in jb;
    SplitJoin([ja, jb], ',');
    ParseNatRoundTrip(t1.start);
    ParseNatRoundTrip(t1.end);
    ParseNatRoundTrip(t2.start);
    ParseNatRoundTrip(t2.end);
  }

  /** `is_contained` (the same expression in `src/day4.rs`). */
  function IsContained(t1: Task, t2: Task): bool
  {
    (t1.start >= t2.start && t1.end <= t2.end) || (t2.start >= t1.start && t2.end <= t1.end)
  }

  /** Every section of `a` is a section of `b`. */
  ghost predicate Within(a: Task, b: Task)
  {
    forall x :: a.Has(x) ==> b.Has(x)
  }

  /** Some section lies in both ranges. */
  ghost predicate Meet(a: Task, b: Task)
  {
    exists x :: a.Has(x) && b.Has(x)
  }

  lemma WithinBounds(a: Task, b: Task)
    requires a.WellFormed()
    ensures Within(a, b) <==> b.start <= a.start && a.end <= b.end
  {
    if Within(a, b) {
      assert a.Has(a.start) && a.Has(a.end);
    }
  }

  /** For well-formed ranges `is_contained` holds exactly when one range's sections are all
      sections of the other; it is symmetric and reflexive. */
  lemma IsContainedMeaning(t1: Task, t2: Task)
    requires t1.WellFormed() && t2.WellFormed()
    ensures IsContained(t1, t2) <==> Within(t1, t2) || Within(t2, t1)
    ensures IsContained(t1, t2) == IsContained(t2, t1) && IsContained(t1, t1)
  {
    WithinBounds(t1, t2);
    WithinBounds(t2, t1);
  }

  /** `has_overlap`: neither range lies wholly before the other. */
  function HasOverlap(t1: Task, t2: Task): bool
  {
    !((t1.start < t2.start && t1.end < t2.start) || (t2.start < t1.start && t2.end < t1.start))
  }

  /** For well-formed ranges `has_overlap` holds exactly when the ranges share a section,
      which is `s1 <= e2 && s2 <= e1`; it is symmetric, and implied by `is_contained`. */
  lemma HasOverlapMeaning(t1: Task, t2: Task)
    requires t1.WellFormed() && t2.WellFormed()
    ensures HasOverlap(t1, t2) <==> Meet(t1, t2)
    ensures HasOverlap(t1, t2) <==> t1.start <= t2.end && t2.start <= t1.end
    ensures HasOverlap(t1, t2) == HasOverlap(t2, t1)
    ensures IsContained(t1, t2) ==> HasOverlap(t1, t2)
  {
    if HasOverlap(t1, t2) {
      var x := if t1.start < t2.start then t2.start else t1.start;
      assert t1.Has(x) && t2.Has(x);
    }
  }

  /** One part: the number of lines (`str::lines`) whose pair satisfies the part's predicate.
      `None` when a line panics in `parse_tasks`. */
  function CountPairs(lines: seq<string>, overlap: bool): (r: Option<nat>)
    ensures r.Some? <==> forall i :: 0 <= i < |lines| ==> ParseTasks(lines[i]).Some?
    ensures r.Some? ==> r.value <= |lines|
  {
    if lines == [] then Some(0)
    else
      var rest := CountPairs(lines[1..], overlap);
      assert forall i :: 1 <= i < |lines| ==> lines[i] == lines[1..][i - 1];
      match ParseTasks(lines[0])
      case None => None
      case Some(pair) =>
        match rest
        case None => None
        case Some(n) =>
          var hit := if overlap then HasOverlap(pair.0, pair.1) else IsContained(pair.0, pair.1);
          Some(n + if hit then 1 else 0)
  }

  /** `part_1`. */
  function Part1(input: string): Option<nat>
  {
    CountPairs(Lines(input), false)
  }

  /** `part_2`. */
  function Part2(input: string): Option<nat>
  {
    CountPairs(Lines(input), true)
  }

  /** Every pair counted by part 1 is counted by part 2 too. */
  lemma {:induction false} ContainedPairsOverlap(lines: seq<string>)
    requires CountPairs(lines, false).Some?
    requires forall i :: 0 <= i < |lines| ==> ParseTasks(lines[i]).value.0.WellFormed() && ParseTasks(lines[i]).value.1.WellFormed()
    ensures CountPairs(lines, false).value <= CountPairs(lines, true).value
  {
    if lines != [] {
      assert forall i :: 1 <= i < |lines| ==> lines[i] == lines[1..][i - 1];
      ContainedPairsOverlap(lines[1..]);
      var pair := ParseTasks(lines[0]).value;
      HasOverlapMeaning(pair.0, pair.1);
    }
  }
}
