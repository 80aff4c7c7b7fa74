/** Day 1: blank-line separated groups of calorie counts; the answers are the largest group
    total and the sum of the three largest. */
module Day01 {
  import opened Basics
  import opened Text

  /** The number of empty lines. */
  function EmptyLines(lines: seq<string>): nat
  {
    if lines == [] then 0
    else EmptyLines(lines[..|lines| - 1]) + (if lines[|lines| - 1] == "" then 1 else 0)
  }

  /** Every non-empty line parses as a `u32`. */
  predicate AllParse(lines: seq<string>)
  {
    forall i :: 0 <= i < |lines| && lines[i] != "" ==> ParseNat(lines[i]).Some?
  }

  /** The group totals after reading `lines`, one line at a time from a single group of 0:
      an empty line opens a new group, any other line adds its value to the last group.
      `None` when a non-empty line does not parse. */
  function Totals(lines: seq<string>): (r: Option<seq<nat>>)
    ensures r.Some? <==> AllParse(lines)
    ensures r.Some? ==> |r.value| == 1 + EmptyLines(lines)
  {
    if lines == [] then Some([0])
    else
      var line := lines[|lines| - 1];
      match Totals(lines[..|lines| - 1])
      case None => None
      case Some(w) =>
        if line == "" then Some(w + [0])
        else
          match ParseNat(line)
          case None => None
          case Some(v) => Some(w[|w| - 1 := w[|w| - 1] + v])
  }

  function Sum(s: seq<nat>): nat
  {
    if s == [] then 0 else Sum(s[..|s| - 1]) + s[|s| - 1]
  }

  /** The sum of the values of the non-empty lines. */
  function LineSum(lines: seq<string>): nat
    requires AllParse(lines)
  {
    if lines == [] then 0
    else
      var line := lines[|lines| - 1];
      LineSum(lines[..|lines| - 1]) + (if line == "" then 0 else ParseNat(line).value)
  }

  lemma SumUpdateLast(s: seq<nat>, v: nat)
    requires |s| >= 1
    ensures Sum(s[|s| - 1 := s[|s| - 1] + v]) == Sum(s) + v
  {
    var t := s[|s| - 1 := s[|s| - 1] + v];
    assert t[..|t| - 1] == s[..|s| - 1];
  }

  /** Grouping neither loses nor invents calories: the group totals add up to the sum of all
      the values. */
  lemma {:induction false} TotalsConserve(lines: seq<string>)
    requires AllParse(lines)
    ensures Sum(Totals(lines).value) == LineSum(lines)
  {
    if lines != [] {
      var init := lines[..|lines| - 1];
      assert AllParse(init) by {
        forall i | 0 <= i < |init| && init[i] != "" ensures ParseNat(init[i]).Some? {
          assert init[i] == lines[i];
        }
      }
      TotalsConserve(init);
      var w := Totals(init).value;
      if lines[|lines| - 1] == "" {
        assert (w + [0])[..|w|] == w;
      } else {
        SumUpdateLast(w, ParseNat(lines[|lines| - 1]).value);
      }
    }
  }

  /** Reading line `i` after the lines before it. */
  lemma TotalsSnoc(lines: seq<string>, i: nat)
    requires i < |lines|
    ensures Totals(lines[..i + 1]) == match Totals(lines[..i])
      case None => None
      case Some(w) =>
        if lines[i] == "" then Some(w + [0])
        else
          match ParseNat(lines[i])
          case None => None
          case Some(v) => Some(w[|w| - 1 := w[|w| - 1] + v])
  {
    assert lines[..i + 1][..i] == lines[..i];
  }

  /** A non-empty line that does not parse makes the whole input fail. */
  lemma BadLine(lines: seq<string>, i: nat)
    requires i < |lines| && lines[i] != "" && ParseNat(lines[i]).None?
    ensures Totals(lines).None?
  {
    assert !AllParse(lines);
  }

  /** `find_weight_totals`: split the input on `'\n'` and group the lines. `Err` is the
      propagated `u32` parse error. */
  method FindWeightTotals(input: string) returns (r: Result<seq<nat>>)
    ensures r.Ok? <==> Totals(Split(input, '\n')).Some?
    ensures r.Ok? ==> r.value == Totals(Split(input, '\n')).value
  {
    var lines := Split(input, '\n');
    var weights: seq<nat> := [0];
    var i := 0;
    while i < |lines|
      invariant 0 <= i <= |lines|
      invariant Totals(lines[..i]) == Some(weights)
    {
      var line := lines[i];
      TotalsSnoc(lines, i);
      if line == "" {
        weights := weights + [0];
        i := i + 1;
        continue;
      }
      var parsed := ParseNat(line);
      if parsed.None? {
        BadLine(lines, i);
        return Err("invalid digit found in string");
      }
      var last := |weights| - 1;
      weights := weights[last := weights[last] + parsed.value];
      i := i + 1;
    }
    assert lines[..i] == lines;
    r := Ok(weights);
  }

  /** `find_largest`: a fold keeping the larger value, starting from 0. */
  function FindLargest(items: seq<nat>): (m: nat)
    ensures forall i :: 0 <= i < |items| ==> items[i] <= m
    ensures m == 0 || m in items
  {
    if items == [] then 0
    else
      var prev, curr := FindLargest(items[..|items| - 1]), items[|items| - 1];
      assert forall i :: 0 <= i < |items| - 1 ==> items[i] == items[..|items| - 1][i];
      if curr > prev then curr else prev
  }

  /** The three leaders, largest first. */
  datatype Top3 = Top3(first: nat, second: nat, third: nat)
  {
    function Values(): multiset<nat> { multiset{first, second, third} }
  }

  /** One step of `find_largest_three`'s fold: the new value slots in where it beats a
      leader, pushing the lower leaders down. */
  function Insert(t: Top3, curr: nat): Top3
  {
    if curr > t.first then Top3(curr, t.first, t.second)
    else if curr > t.second then Top3(t.first, curr, t.second)
    else if curr > t.third then Top3(t.first, t.second, curr)
    else t
  }

  /** `find_largest_three`: the fold from `(0, 0, 0)`. */
  function FindLargestThree(items: seq<nat>): Top3
  {
    if items == [] then Top3(0, 0, 0)
    else Insert(FindLargestThree(items[..|items| - 1]), items[|items| - 1])
  }

  /** The value a fold step drops: the old third leader when the new value displaces it,
      otherwise the new value itself. */
  function Dropped(t: Top3, curr: nat): nat
  {
    if curr > t.third then t.third else curr
  }

  /** A fold step keeps the leaders in order, never lowers the third leader, drops a value
      no larger than the new third, and loses no value. */
  lemma InsertStep(t: Top3, curr: nat)
    requires t.first >= t.second >= t.third
    ensures var u := Insert(t, curr);
      && u.first >= u.second >= u.third >= t.third
      && Dropped(t, curr) <= u.third
      && t.Values() + multiset{curr} == u.Values() + multiset{Dropped(t, curr)}
  {
  }

  /** Every value the fold has dropped so far. */
  function DroppedAll(items: seq<nat>): multiset<nat>
  {
    if items == [] then multiset{}
    else
      var init := items[..|items| - 1];
      DroppedAll(init) + multiset{Dropped(FindLargestThree(init), items[|items| - 1])}
  }

  /** The leaders after the fold are in descending order and no value the fold dropped
      exceeds the third leader. */
  lemma {:induction false} LargestThree(items: seq<nat>)
    ensures var t := FindLargestThree(items);
      && t.first >= t.second >= t.third
      && forall v :: v in DroppedAll(items) ==> v <= t.third
  {
    if items != [] {
      var init, curr := items[..|items| - 1], items[|items| - 1];
      LargestThree(init);
      var t, d := FindLargestThree(init), DroppedAll(init);
      assert DroppedAll(items) == d + multiset{Dropped(t, curr)};
      InsertStep(t, curr);
    }
  }

  /** Together with the dropped values the leaders are exactly the items, plus the three
      initial zeros: with `LargestThree`, they are the three largest values, duplicates
      kept. */
  lemma {:induction false} LargestThreeKeepsAll(items: seq<nat>)
    ensures multiset(items) + multiset{0, 0, 0} == FindLargestThree(items).Values() + DroppedAll(items)
  {
    if items != [] {
      var init, curr := items[..|items| - 1], items[|items| - 1];
      assert items == init + [curr];
      LargestThree(init);
      LargestThreeKeepsAll(init);
      var t, d := FindLargestThree(init), DroppedAll(init);
      InsertStep(t, curr);
      assert multiset(items) == multiset(init) + multiset{curr};
      Rebalance(multiset(init), multiset{0, 0, 0}, t.Values(), d, multiset{curr},
        Insert(t, curr).Values(), multiset{Dropped(t, curr)});
    }
  }

  /** Multiset bookkeeping for one fold step, kept apart so the solver sees only the
      abstract sums. */
  lemma Rebalance(a: multiset<nat>, z: multiset<nat>, t: multiset<nat>, d: multiset<nat>,
    c: multiset<nat>, u: multiset<nat>, e: multiset<nat>)
    requires a + z == t + d
    requires t + c == u + e
    ensures a + c + z == u + (d + e)
  {
    calc {
      a + c + z;
      (a + z) + c;
      (t + d) + c;
      (t + c) + d;
      (u + e) + d;
      u + (d + e);
    }
  }

  /** The first leader is `find_largest`'s answer. */
  lemma {:induction false} FirstIsLargest(items: seq<nat>)
    ensures FindLargestThree(items).first == FindLargest(items)
  {
    if items != [] {
      FirstIsLargest(items[..|items| - 1]);
    }
  }

  /** `part_1`: the largest group total. */
  method Part1(input: string) returns (r: Result<nat>)
    ensures r.Ok? <==> Totals(Split(input, '\n')).Some?
    ensures r.Ok? ==> r.value == FindLargest(Totals(Split(input, '\n')).value)
  {
    var weights := FindWeightTotals(input);
    if weights.Err? {
      return Err(weights.message);
    }
    r := Ok(FindLargest(weights.value));
  }

  /** `part_2`: the sum of the three largest group totals. */
  method Part2(input: string) returns (r: Result<nat>)
    ensures r.Ok? <==> Totals(Split(input, '\n')).Some?
    ensures r.Ok? ==> var t := FindLargestThree(Totals(Split(input, '\n')).value);
      r.value == t.first + t.second + t.third
  {
    var weights := FindWeightTotals(input);
    if weights.Err? {
      return Err(weights.message);
    }
    var t := FindLargestThree(weights.value);
    r := Ok(t.first + t.second + t.third);
  }

  /** The example of the puzzle text, as group totals. */
  lemma Example()
    ensures FindLargest([6000, 4000, 11000, 24000, 10000]) == 24000
    ensures FindLargestThree([6000, 4000, 11000, 24000, 10000]) == Top3(24000, 11000, 10000)
  {
    var s := [6000, 4000, 11000, 24000, 10000];
    assert s[..4] == [6000, 4000, 11000, 24000];
    assert s[..4][..3] == [6000, 4000, 11000];
    assert s[..4][..3][..2] == [6000, 4000];
    assert s[..4][..3][..2][..1] == [6000];
    assert FindLargestThree([6000]) == Top3(6000, 0, 0);
    assert FindLargestThree([6000, 4000]) == Top3(6000, 4000, 0);
    assert FindLargestThree([6000, 4000, 11000]) == Top3(11000, 6000, 4000);
    assert FindLargestThree([6000, 4000, 11000, 24000]) == Top3(24000, 11000, 6000);
    FirstIsLargest(s);
  }
}
