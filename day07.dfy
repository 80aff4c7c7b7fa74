/** Day 7: a terminal session that walks a file system. Every `cd` into a directory opens a
    running total; every file line adds its size to all open totals; `cd ..` closes the
    innermost one. */
module Day07 {
  import opened Basics
  import opened Text

  /** The lines of the session that matter. */
  datatype Line = ChangeDir | ChangeUpDir | FoundFile(size: nat)

  /** `split_once(' ')`'s first half: the text before the first space, `None` when there is
      no space. */
  function BeforeSpace(s: string): (r: Option<string>)
    ensures r.None? <==> ' ' !in s
    ensures r.Some? ==> |r.value| < |s| && s[..|r.value|] == r.value && s[|r.value|] == ' ' && ' ' !in r.value
  {
    if s == [] then None
    else if s[0] == ' ' then Some([])
    else
      match BeforeSpace(s[1..])
      case None => None
      case Some(p) => Some([s[0]] + p)
  }

  /** `Line::parse`. `Ok(None)` is a line that is skipped (`$ ls`, `dir …`); an `Err` is a
      panic: a file line without a space, or whose size is not a number. */
  function ParseLine(input: string): Result<Option<Line>>
  {
    if StartsWith(input, "$ l") || StartsWith(input, "d") then Ok(None)
    else if input == "$ cd .." then Ok(Some(ChangeUpDir))
    else if StartsWith(input, "$ cd") then Ok(Some(ChangeDir))
    else
      match BeforeSpace(input)
      case None => Err("no space")
      case Some(nums) =>
        match ParseNat(nums)
        case None => Err("not a size")
        case Some(n) => Ok(Some(FoundFile(n)))
  }

  /** The command lines of a session as the puzzle prints them: `ls`, a directory listing,
      `cd` into a named directory and `cd ..`. */
  lemma ParseCommandLines(name: string)
    ensures ParseLine("$ ls") == Ok(None)
    ensures ParseLine("dir " + name) == Ok(None)
    ensures name != ".." ==> ParseLine("$ cd " + name) == Ok(Some(ChangeDir))
    ensures ParseLine("$ cd ..") == Ok(Some(ChangeUpDir))
  {
    assert StartsWith("$ ls", "$ l");
    assert ("dir " + name)[..1] == "d";
    var up := "$ cd ..";
    assert up[0] == '$' && up[2] == 'c';
    assert !StartsWith(up, "$ l") && !StartsWith(up, "d");
    var cd := "$ cd " + name;
    assert cd[0] == '$' && cd[2] == 'c';
    assert !StartsWith(cd, "$ l") && !StartsWith(cd, "d");
    assert cd[..4] == "$ cd";
    assert cd[5..] == name;
    assert up[5..] == "..";
  }

  /** A file line, its size then its name, reads as that size. */
  lemma ParseFileLine(n: nat, name: string)
    ensures ParseLine(NatToString(n) + " " + name) == Ok(Some(FoundFile(n)))
  {
    var digits := NatToString(n);
    var file := digits + " " + name;
    assert file[0] == digits[0];
    assert !StartsWith(file, "$ l") && !StartsWith(file, "d") && !StartsWith(file, "$ cd");
    assert file != "$ cd ..";
    SizeBeforeSpace(digits, name);
    ParseNatRoundTrip(n);
  }

  lemma {:induction false} SizeBeforeSpace(digits: string, name: string)
    requires ' ' !in digits
    ensures BeforeSpace(digits + " " + name) == Some(digits)
  {
    if digits != [] {
      assert (digits + " " + name)[1..] == digits[1..] + " " + name;
      SizeBeforeSpace(digits[1..], name);
      assert [digits[0]] + digits[1..] == digits;
    }
  }

  /** The state of `collect_directory_sizes`: the totals of the open directories, outermost
      first, and of the closed ones in the order they were closed. */
  datatype Walk = Walk(path: seq<nat>, found: seq<nat>)

  /** `n` added to every total on the path. */
  function AddAll(path: seq<nat>, n: nat): (r: seq<nat>)
    ensures |r| == |path| && forall k :: 0 <= k < |path| ==> r[k] == path[k] + n
  {
    seq(|path|, k requires 0 <= k < |path| => path[k] + n)
  }

  /** One parsed line. `None` is the panic of `cd ..` with no directory open. */
  function Step(w: Walk, l: Line): Option<Walk>
  {
    match l
    case ChangeDir => Some(Walk(w.path + [0], w.found))
    case ChangeUpDir =>
      if w.path == [] then None
      else Some(Walk(w.path[..|w.path| - 1], w.found + [w.path[|w.path| - 1]]))
    case FoundFile(n) => Some(Walk(AddAll(w.path, n), w.found))
  }

  /** One raw line: parsed, then applied unless it is skipped. */
  function StepLine(w: Walk, line: string): Option<Walk>
  {
    match ParseLine(line)
    case Err(_) => None
    case Ok(None) => Some(w)
    case Ok(Some(l)) => Step(w, l)
  }

  /** The walk after the lines, from nothing open and nothing found. */
  function Run(lines: seq<string>): Option<Walk>
  {
    if lines == [] then Some(Walk([], []))
    else
      match Run(lines[..|lines| - 1])
      case None => None
      case Some(w) => StepLine(w, lines[|lines| - 1])
  }

  /** `collect_directory_sizes` as a function: the open totals, root first, then the closed
      ones. */
  function Sizes(lines: seq<string>): Option<seq<nat>>
  {
    match Run(lines)
    case None => None
    case Some(w) => Some(w.path + w.found)
  }

  /** The inner loop of `collect_directory_sizes`: every open total grows by the size. */
  method AddToPath(path: seq<nat>, size: nat) returns (r: seq<nat>)
    ensures r == AddAll(path, size)
  {
    r := path;
    for k := 0 to |r|
      invariant |r| == |path|
      invariant forall j :: 0 <= j < k ==> r[j] == path[j] + size
      invariant forall j :: k <= j < |r| ==> r[j] == path[j]
    {
      r := r[k := r[k] + size];
    }
  }

  /** `collect_directory_sizes`. `None` is a panic. */
  method CollectDirectorySizes(input: string) returns (r: Option<seq<nat>>)
    ensures r == Sizes(Lines(input))
  {
    var lines := Lines(input);
    var currentPath: seq<nat> := [];
    var foundDirectories: seq<nat> := [];
    for i := 0 to |lines|
      invariant Run(lines[..i]) == Some(Walk(currentPath, foundDirectories))
    {
      assert lines[..i + 1][..i] == lines[..i];
      var line := ParseLine(lines[i]);
      match line {
        case Err(_) =>
          RunStops(lines, i + 1);
          return None;
        case Ok(None) =>
        case Ok(Some(ChangeDir)) =>
          currentPath := currentPath + [0];
        case Ok(Some(ChangeUpDir)) =>
          if currentPath == [] {
            RunStops(lines, i + 1);
            return None;
          }
          foundDirectories := foundDirectories + [currentPath[|currentPath| - 1]];
          currentPath := currentPath[..|currentPath| - 1];
        case Ok(Some(FoundFile(size))) =>
          currentPath := AddToPath(currentPath, size);
      }
    }
    assert lines[..|lines|] == lines;
    return Some(currentPath + foundDirectories);
  }

  lemma {:induction false} RunStops(lines: seq<string>, i: nat)
    requires 0 < i <= |lines| && Run(lines[..i]).None?
    ensures Run(lines).None?
    decreases |lines| - i
  {
    if i < |lines| {
      assert lines[..i + 1][..i] == lines[..i];
      RunStops(lines, i + 1);
    } else {
      assert lines[..i] == lines;
    }
  }

  // ----- What the totals mean -----

  /** The number of `cd` lines into a directory. */
  function Opened(lines: seq<string>): nat
  {
    if lines == [] then 0
    else Opened(lines[..|lines| - 1]) + (if ParseLine(lines[|lines| - 1]) == Ok(Some(ChangeDir)) then 1 else 0)
  }

  /** There is one total per directory entered, open or closed. */
  lemma {:induction false} SizesCount(lines: seq<string>)
    ensures Run(lines).Some? ==> |Run(lines).value.path| + |Run(lines).value.found| == Opened(lines)
    ensures Sizes(lines).Some? ==> |Sizes(lines).value| == Opened(lines)
  {
    if lines != [] {
      SizesCount(lines[..|lines| - 1]);
    }
  }

  /** The open totals never grow inward. */
  predicate Ordered(w: Walk)
  {
    forall i, j :: 0 <= i < j < |w.path| ==> w.path[j] <= w.path[i]
  }

  /** While the outermost directory has never been closed, nothing is found before it opens
      and nothing found exceeds it. */
  predicate RootBounds(w: Walk)
  {
    && (w.path == [] ==> w.found == [])
    && (w.path != [] ==> forall i :: 0 <= i < |w.found| ==> w.found[i] <= w.path[0])
  }

  /** Some `cd ..` closed the outermost open directory. */
  function RootClosed(lines: seq<string>): bool
  {
    if lines == [] then false
    else
      var init := lines[..|lines| - 1];
      || RootClosed(init)
      || (ParseLine(lines[|lines| - 1]) == Ok(Some(ChangeUpDir)) && Run(init).Some? && |Run(init).value.path| == 1)
  }

  lemma StepOrdered(w: Walk, l: Line)
    requires Ordered(w) && RootBounds(w) && Step(w, l).Some?
    ensures Ordered(Step(w, l).value)
    ensures !(l == ChangeUpDir && |w.path| == 1) ==> RootBounds(Step(w, l).value)
  {
    var r := Step(w, l).value;
    match l
    case ChangeDir =>
      assert forall j :: 0 <= j < |w.path| ==> r.path[j] == w.path[j];
    case ChangeUpDir =>
      var last := |w.path| - 1;
      assert forall j :: 0 <= j < last ==> r.path[j] == w.path[j];
      assert forall i :: 0 <= i < |w.found| ==> r.found[i] == w.found[i];
      assert r.found[|w.found|] == w.path[last];
    case FoundFile(n) =>
  }

  lemma {:induction false} RunOrdered(lines: seq<string>)
    requires Run(lines).Some?
    ensures Ordered(Run(lines).value)
    ensures !RootClosed(lines) ==> RootBounds(Run(lines).value)
  {
    if lines != [] {
      var init := lines[..|lines| - 1];
      RunOrdered(init);
      if !RootClosed(lines) {
        match ParseLine(lines[|lines| - 1])
        case Ok(Some(l)) => StepOrdered(Run(init).value, l);
        case _ =>
      } else {
        OrderedOnly(lines);
      }
    }
  }

  lemma OrderedOnly(lines: seq<string>)
    requires lines != [] && Run(lines).Some?
    requires Ordered(Run(lines[..|lines| - 1]).value)
    ensures Ordered(Run(lines).value)
  {
    var w := Run(lines[..|lines| - 1]).value;
    match ParseLine(lines[|lines| - 1])
    case Ok(Some(ChangeUpDir)) =>
      var r := Run(lines).value;
      assert forall j :: 0 <= j < |r.path| ==> r.path[j] == w.path[j];
    case Ok(Some(ChangeDir)) =>
      var r := Run(lines).value;
      assert forall j :: 0 <= j < |w.path| ==> r.path[j] == w.path[j];
    case _ =>
  }

  /** While the outermost directory has not been closed, its total comes first and no total
      exceeds it. */
  lemma RootIsLargest(lines: seq<string>)
    requires Run(lines).Some? && !RootClosed(lines)
    ensures var sizes := Sizes(lines).value;
      forall k :: 0 <= k < |sizes| ==> sizes[k] <= sizes[0]
  {
    RunOrdered(lines);
    var w := Run(lines).value;
    var sizes := w.path + w.found;
    forall k | 0 <= k < |sizes| ensures sizes[k] <= sizes[0] {
      if k >= |w.path| {
        assert sizes[k] == w.found[k - |w.path|];
      }
    }
  }

  /** The sizes of the file lines among `lines[a..b]`. */
  function FileSum(lines: seq<string>, a: nat, b: nat): nat
    requires a <= b <= |lines|
    decreases b - a
  {
    if a == b then 0 else FileSum(lines, a, b - 1) + FileSize(lines[b - 1])
  }

  /** The size a line lists: that of a file, 0 for any other line. */
  function FileSize(line: string): nat
  {
    match ParseLine(line)
    case Ok(Some(FoundFile(n))) => n
    case _ => 0
  }

  /** Where each total's directory was entered: the `cd` line of each open directory, and
      the `cd` and `cd ..` lines of each closed one, in the order of the totals. */
  datatype Spans = Spans(open: seq<nat>, closed: seq<(nat, nat)>)

  /** The spans after the lines, computed alongside `Run`. */
  function Track(lines: seq<string>): Spans
  {
    if lines == [] then Spans([], [])
    else TrackLine(Track(lines[..|lines| - 1]), lines[|lines| - 1], |lines| - 1)
  }

  /** Line `i` of the input: a `cd` opens a span, a `cd ..` closes the innermost one. */
  function TrackLine(sp: Spans, line: string, i: nat): Spans
  {
    match ParseLine(line)
    case Ok(Some(ChangeDir)) => Spans(sp.open + [i], sp.closed)
    case Ok(Some(ChangeUpDir)) =>
      if sp.open == [] then sp
      else Spans(sp.open[..|sp.open| - 1], sp.closed + [(sp.open[|sp.open| - 1], i)])
    case _ => sp
  }

  /** What each total is: an open directory's total is the sum of the files listed since its
      `cd`; a closed directory's is the sum of the files listed between its `cd` and the
      `cd ..` that closed it. */
  predicate Explains(lines: seq<string>, w: Walk, sp: Spans)
  {
    && |sp.open| == |w.path| && |sp.closed| == |w.found|
    && (forall k :: 0 <= k < |w.path| ==>
          && sp.open[k] < |lines| && ParseLine(lines[sp.open[k]]) == Ok(Some(ChangeDir))
          && w.path[k] == FileSum(lines, sp.open[k] + 1, |lines|))
    && (forall k :: 0 <= k < |w.found| ==>
          && sp.closed[k].0 < sp.closed[k].1 < |lines|
          && ParseLine(lines[sp.closed[k].0]) == Ok(Some(ChangeDir))
          && ParseLine(lines[sp.closed[k].1]) == Ok(Some(ChangeUpDir))
          && w.found[k] == FileSum(lines, sp.closed[k].0 + 1, sp.closed[k].1))
  }

  lemma {:induction false} SizesMeaning(lines: seq<string>)
    requires Run(lines).Some?
    ensures Explains(lines, Run(lines).value, Track(lines))
  {
    if lines != [] {
      var init := lines[..|lines| - 1];
      var i := |lines| - 1;
      SizesMeaning(init);
      var w := Run(init).value;
      var sp := Track(init);
      assert Run(lines) == StepLine(w, lines[i]);
      assert Track(lines) == TrackLine(sp, lines[i], i);
      ExplainsStep(lines, w, sp);
    }
  }

  /** One more line keeps the totals explained. */
  lemma ExplainsStep(lines: seq<string>, w: Walk, sp: Spans)
    requires lines != [] && Explains(lines[..|lines| - 1], w, sp)
    requires StepLine(w, lines[|lines| - 1]).Some?
    ensures Explains(lines, StepLine(w, lines[|lines| - 1]).value, TrackLine(sp, lines[|lines| - 1], |lines| - 1))
  {
    ExplainsPrefix(lines, w, sp);
    match ParseLine(lines[|lines| - 1])
    case Ok(Some(ChangeDir)) => ExplainsOpen(lines, w, sp);
    case Ok(Some(ChangeUpDir)) => ExplainsClose(lines, w, sp);
    case Ok(Some(FoundFile(n))) => ExplainsFile(lines, w, sp, n);
    case Ok(None) => ExplainsSkip(lines, w, sp);
  }

  lemma ExplainsSkip(lines: seq<string>, w: Walk, sp: Spans)
    requires ExplainsOpenSum(lines, w, sp, 0) && ExplainsClosed(lines, w, sp)
    ensures Explains(lines, w, sp)
  {
  }

  /** What the lines before the last one explain, the whole lines explain with the last
      line's size added to the open totals' sums. */
  lemma ExplainsPrefix(lines: seq<string>, w: Walk, sp: Spans)
    requires lines != [] && Explains(lines[..|lines| - 1], w, sp)
    ensures ExplainsOpenSum(lines, w, sp, FileSize(lines[|lines| - 1]))
    ensures ExplainsClosed(lines, w, sp)
  {
    var init := lines[..|lines| - 1];
    var i := |lines| - 1;
    forall k | 0 <= k < |w.path|
      ensures FileSum(lines, sp.open[k] + 1, |lines|) == w.path[k] + FileSize(lines[i])
    {
      FileSumPrefix(lines, init, sp.open[k] + 1, i);
    }
    forall k | 0 <= k < |w.found|
      ensures FileSum(lines, sp.closed[k].0 + 1, sp.closed[k].1) == w.found[k]
    {
      FileSumPrefix(lines, init, sp.closed[k].0 + 1, sp.closed[k].1);
    }
  }

  /** The open totals plus `extra` are the sums up to the end of `lines`. */
  predicate ExplainsOpenSum(lines: seq<string>, w: Walk, sp: Spans, extra: nat)
  {
    && |sp.open| == |w.path|
    && (forall k :: 0 <= k < |w.path| ==>
          && sp.open[k] < |lines| && ParseLine(lines[sp.open[k]]) == Ok(Some(ChangeDir))
          && w.path[k] + extra == FileSum(lines, sp.open[k] + 1, |lines|))
  }

  predicate ExplainsClosed(lines: seq<string>, w: Walk, sp: Spans)
  {
    && |sp.closed| == |w.found|
    && (forall k :: 0 <= k < |w.found| ==>
          && sp.closed[k].0 < sp.closed[k].1 < |lines|
          && ParseLine(lines[sp.closed[k].0]) == Ok(Some(ChangeDir))
          && ParseLine(lines[sp.closed[k].1]) == Ok(Some(ChangeUpDir))
          && w.found[k] == FileSum(lines, sp.closed[k].0 + 1, sp.closed[k].1))
  }

  lemma ExplainsFile(lines: seq<string>, w: Walk, sp: Spans, n: nat)
    requires lines != [] && n == FileSize(lines[|lines| - 1])
    requires ExplainsOpenSum(lines, w, sp, n) && ExplainsClosed(lines, w, sp)
    ensures Explains(lines, Walk(AddAll(w.path, n), w.found), sp)
  {
  }

  lemma ExplainsOpen(lines: seq<string>, w: Walk, sp: Spans)
    requires lines != [] && ParseLine(lines[|lines| - 1]) == Ok(Some(ChangeDir))
    requires ExplainsOpenSum(lines, w, sp, FileSize(lines[|lines| - 1])) && ExplainsClosed(lines, w, sp)
    ensures Explains(lines, Walk(w.path + [0], w.found), Spans(sp.open + [|lines| - 1], sp.closed))
  {
    assert FileSize(lines[|lines| - 1]) == 0;
  }

  lemma ExplainsClose(lines: seq<string>, w: Walk, sp: Spans)
    requires lines != [] && ParseLine(lines[|lines| - 1]) == Ok(Some(ChangeUpDir))
    requires ExplainsOpenSum(lines, w, sp, FileSize(lines[|lines| - 1])) && ExplainsClosed(lines, w, sp)
    ensures w.path != [] ==>
      var last := |w.path| - 1;
      Explains(lines, Walk(w.path[..last], w.found + [w.path[last]]),
        Spans(sp.open[..last], sp.closed + [(sp.open[last], |lines| - 1)]))
  {
    var i := |lines| - 1;
    assert FileSize(lines[i]) == 0;
    if w.path != [] {
      var last := |w.path| - 1;
      assert FileSum(lines, sp.open[last] + 1, |lines|) == FileSum(lines, sp.open[last] + 1, i);
    }
  }

  /** Sums over lines that two sequences share agree. */
  lemma {:induction false} FileSumPrefix(lines: seq<string>, init: seq<string>, a: nat, b: nat)
    requires a <= b <= |init| <= |lines| && init == lines[..|init|]
    ensures FileSum(lines, a, b) == FileSum(init, a, b)
    decreases b - a
  {
    if a < b {
      FileSumPrefix(lines, init, a, b - 1);
      assert lines[b - 1] == init[b - 1];
    }
  }

  // ----- The parts -----

  /** `part_1`: the sum of the totals of at most 100000. */
  function SumSmall(sizes: seq<nat>): (r: nat)
    ensures r <= 100000 * |sizes|
  {
    if sizes == [] then 0
    else SumSmall(sizes[..|sizes| - 1]) + (if sizes[|sizes| - 1] <= 100000 then sizes[|sizes| - 1] else 0)
  }

  const TotalSize: nat := 70000000
  const RequiredSize: nat := 30000000

  /** `part_2`'s fold: the smallest total above `toFree`, or `TotalSize` when there is none. */
  function SmallestAbove(sizes: seq<nat>, toFree: nat): (r: nat)
    ensures r == TotalSize || (r in sizes && r > toFree)
    ensures r <= TotalSize
    ensures forall k :: 0 <= k < |sizes| && sizes[k] > toFree ==> r <= sizes[k]
  {
    if sizes == [] then TotalSize
    else
      var acc := SmallestAbove(sizes[..|sizes| - 1], toFree);
      var size := sizes[|sizes| - 1];
      assert forall k :: 0 <= k < |sizes| - 1 ==> sizes[..|sizes| - 1][k] == sizes[k];
      if size > toFree && acc > size then size else acc
  }

  /** How much `part_2` must free: `None` on the two `usize` subtractions that underflow, a
      root larger than the disk or a disk that already has enough room. */
  function ToFree(root: nat): Option<nat>
  {
    if root > TotalSize || TotalSize - root > RequiredSize then None
    else Some(RequiredSize - (TotalSize - root))
  }

  method Part1(input: string) returns (r: Option<nat>)
    ensures r == (match Sizes(Lines(input)) case None => None case Some(s) => Some(SumSmall(s)))
  {
    var sizes := CollectDirectorySizes(input);
    if sizes.None? {
      return None;
    }
    return Some(SumSmall(sizes.value));
  }

  /** `part_2`: `None` also when there is no total at all (`directory_sizes[0]`). */
  method Part2(input: string) returns (r: Option<nat>)
    ensures var s := Sizes(Lines(input));
      r == if s.None? || s.value == [] || ToFree(s.value[0]).None? then None
           else Some(SmallestAbove(s.value, ToFree(s.value[0]).value))
  {
    var sizes := CollectDirectorySizes(input);
    if sizes.None? || sizes.value == [] {
      return None;
    }
    var toFree := ToFree(sizes.value[0]);
    if toFree.None? {
      return None;
    }
    var again := CollectDirectorySizes(input);
    return Some(SmallestAbove(again.value, toFree.value));
  }
}
