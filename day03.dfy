/** Day 3: rucksacks. Each line splits into two compartments (part 1), or lines come in
    groups of three (part 2); the answer sums the priority of the one item type the strings
    of each group share. */
module Day03 {
  import opened Basics
  import opened Text

  /** The letter with priority `p`: 1 to 26 are `a` to `z`, 27 to 52 are `A` to `Z`. */
  function Letter(p: nat): char
    requires 1 <= p <= 52
  {
    if p <= 26 then (p + 96) as char else (p + 38) as char
  }

  /** `priority`. `None` is the "character out of range" panic. */
  function Priority(c: char): (r: Option<nat>)
    ensures r.Some? <==> 'a' <= c <= 'z' || 'A' <= c <= 'Z'
    ensures r.Some? ==> 1 <= r.value <= 52 && Letter(r.value) == c
    ensures r.Some? ==> ('a' <= c <= 'z' <==> r.value <= 26)
  {
    if 'a' <= c <= 'z' then Some(c as int - 96)
    else if 'A' <= c <= 'Z' then Some(c as int - 38)
    else None
  }

  /** `split_at_center`: the two compartments. The first holds `len / 2` items, so an odd
      line puts its extra item in the second. */
  function SplitAtCenter(s: string): (r: seq<string>)
    ensures |r| == 2 && r[0] + r[1] == s
    ensures |r[0]| == |s| / 2 && |r[1]| - |r[0]| == |s| % 2
  {
    [s[..|s| / 2], s[|s| / 2..]]
  }

  /** Some item of `s` has priority `p`. */
  predicate Has(s: string, p: nat)
  {
    exists i :: 0 <= i < |s| && Priority(s[i]) == Some(p)
  }

  /** Every item of every string is a letter. */
  predicate AllLetters(strings: seq<string>)
  {
    forall k, i :: 0 <= k < |strings| && 0 <= i < |strings[k]| ==> Priority(strings[k][i]).Some?
  }

  /** Every string holds an item of priority `p`. */
  predicate Common(strings: seq<string>, p: nat)
  {
    forall k :: 0 <= k < |strings| ==> Has(strings[k], p)
  }

  /** Slot `p` of the counter array after the first `k` strings: it moves from `k - 1` to `k`
      only when it was `k - 1` and string `k - 1` holds `p`, however often. */
  function Counter(strings: seq<string>, k: nat, p: nat): (c: nat)
    requires k <= |strings|
    ensures c <= k
  {
    if k == 0 then 0
    else
      var c := Counter(strings, k - 1, p);
      if c == k - 1 && Has(strings[k - 1], p) then k else c
  }

  /** A slot reaches `k` exactly when every one of the first `k` strings holds the item. */
  lemma {:induction false} CounterMeaning(strings: seq<string>, k: nat, p: nat)
    requires k <= |strings|
    ensures Counter(strings, k, p) == k <==> Common(strings[..k], p)
  {
    if k > 0 {
      CounterMeaning(strings, k - 1, p);
      assert forall j :: 0 <= j < k - 1 ==> strings[..k][j] == strings[..k - 1][j];
      assert strings[..k][k - 1] == strings[k - 1];
    }
  }

  lemma HasSnoc(s: string, j: nat, p: nat)
    requires j < |s|
    ensures Has(s[..j + 1], p) <==> Has(s[..j], p) || Priority(s[j]) == Some(p)
  {
    if Has(s[..j + 1], p) {
      var i :| 0 <= i < j + 1 && Priority(s[..j + 1][i]) == Some(p);
      if i < j {
        assert s[..j][i] == s[i];
      }
    }
    if Has(s[..j], p) {
      var i :| 0 <= i < j && Priority(s[..j][i]) == Some(p);
      assert s[..j + 1][i] == s[i];
    }
    if Priority(s[j]) == Some(p) {
      assert s[..j + 1][j] == s[j];
    }
  }

  /** One string's pass over the counter array: the slot of each of its items moves from
      `idx` to `idx + 1`. `false` is a panic on a non-letter. */
  method CountString(bits: array<nat>, strings: seq<string>, idx: nat) returns (ok: bool)
    requires bits.Length == 53 && idx < |strings|
    requires forall p :: 0 <= p < 53 ==> bits[p] == Counter(strings, idx, p)
    modifies bits
    ensures ok <==> forall i :: 0 <= i < |strings[idx]| ==> Priority(strings[idx][i]).Some?
    ensures ok ==> forall p :: 0 <= p < 53 ==> bits[p] == Counter(strings, idx + 1, p)
  {
    var s := strings[idx];
    for j := 0 to |s|
      invariant forall i :: 0 <= i < j ==> Priority(s[i]).Some?
      invariant forall p :: 0 <= p < 53 ==>
        bits[p] == if Counter(strings, idx, p) == idx && Has(s[..j], p) then idx + 1 else Counter(strings, idx, p)
    {
      var c := Priority(s[j]);
      if c.None? {
        return false;
      }
      if bits[c.value] == idx {
        bits[c.value] := idx + 1;
      }
      forall p | 0 <= p < 53 {
        HasSnoc(s, j, p);
      }
    }
    assert s[..|s|] == s;
    return true;
  }

  /** What `find_common_element` returns, as a function: the first common slot from `p`. */
  function FirstCommon(strings: seq<string>, p: nat): Option<nat>
    requires p <= 53
    decreases 53 - p
  {
    if p == 53 then None
    else if Common(strings, p) then Some(p)
    else FirstCommon(strings, p + 1)
  }

  /** The first common slot is common and no slot before it is; `None` means no slot is. */
  lemma {:induction false} FirstCommonMeaning(strings: seq<string>, p: nat)
    requires p <= 53
    ensures var r := FirstCommon(strings, p);
      && (r.Some? ==>
        && p <= r.value < 53 && Common(strings, r.value)
        && (forall q :: p <= q < r.value ==> !Common(strings, q)))
      && (r.None? ==> forall q :: p <= q < 53 ==> !Common(strings, q))
    decreases 53 - p
  {
    if p < 53 && !Common(strings, p) {
      FirstCommonMeaning(strings, p + 1);
    }
  }

  function CommonElement(strings: seq<string>): Option<nat>
  {
    if AllLetters(strings) then FirstCommon(strings, 0) else None
  }

  /** The smallest common slot is the only answer with no common slot below it. */
  lemma FindCommonElementIs(strings: seq<string>, r: Option<nat>)
    requires r.Some? ==>
      && AllLetters(strings) && r.value < 53 && Common(strings, r.value)
      && (forall q :: 0 <= q < r.value ==> !Common(strings, q))
    requires r.None? ==> !AllLetters(strings) || (forall q :: 0 <= q < 53 ==> !Common(strings, q))
    ensures r == CommonElement(strings)
  {
    FirstCommonMeaning(strings, 0);
  }

  /** `find_common_element`: count, then take the first slot every string reached. `None` is
      a panic: a non-letter, or no item common to all the strings. */
  method FindCommonElement(strings: seq<string>) returns (r: Option<nat>)
    ensures r == CommonElement(strings)
  {
    var bits := new nat[53](_ => 0);
    for idx := 0 to |strings|
      invariant forall k, i :: 0 <= k < idx && 0 <= i < |strings[k]| ==> Priority(strings[k][i]).Some?
      invariant forall p :: 0 <= p < 53 ==> bits[p] == Counter(strings, idx, p)
    {
      var ok := CountString(bits, strings, idx);
      if !ok {
        var i :| 0 <= i < |strings[idx]| && Priority(strings[idx][i]).None?;
        assert !AllLetters(strings);
        return None;
      }
    }
    assert strings[..|strings|] == strings;
    for p := 0 to 53
      invariant forall q :: 0 <= q < p ==> !Common(strings, q)
      invariant forall q :: 0 <= q < 53 ==> bits[q] == Counter(strings, |strings|, q)
    {
      CounterMeaning(strings, |strings|, p);
      if bits[p] == |strings| {
        FindCommonElementIs(strings, Some(p));
        return Some(p);
      }
    }
    FindCommonElementIs(strings, None);
    return None;
  }

  /** The answer for a non-empty group is a true priority, never the unused slot 0. */
  lemma CommonIsPriority(strings: seq<string>, p: nat)
    requires |strings| > 0 && Common(strings, p)
    ensures 1 <= p <= 52
  {
    assert Has(strings[0], p);
  }

  /** The sum of the groups' common priorities; `None` when any group panics. */
  function TotalCommon(groups: seq<seq<string>>): Option<nat>
  {
    if groups == [] then Some(0)
    else
      AddSome(TotalCommon(groups[..|groups| - 1]), CommonElement(groups[|groups| - 1]))
  }

  /** The sum of two optional values, `None` when either is missing. */
  function AddSome(a: Option<nat>, b: Option<nat>): Option<nat>
  {
    if a.Some? && b.Some? then Some(a.value + b.value) else None
  }

  lemma TotalSnoc(groups: seq<seq<string>>, i: nat)
    requires i < |groups|
    ensures TotalCommon(groups[..i + 1]) == AddSome(TotalCommon(groups[..i]), CommonElement(groups[i]))
  {
    assert groups[..i + 1][..i] == groups[..i];
  }

  /** Both parts: `find_common_element` on each group in turn, summed. */
  method SumCommon(groups: seq<seq<string>>) returns (r: Option<nat>)
    ensures r == TotalCommon(groups)
  {
    var total := 0;
    for i := 0 to |groups|
      invariant TotalCommon(groups[..i]) == Some(total)
    {
      TotalSnoc(groups, i);
      var p := FindCommonElement(groups[i]);
      if p.None? {
        TotalNone(groups, i + 1);
        return None;
      }
      total := total + p.value;
    }
    assert groups[..|groups|] == groups;
    return Some(total);
  }

  lemma {:induction false} TotalNone(groups: seq<seq<string>>, i: nat)
    requires 0 < i <= |groups| && TotalCommon(groups[..i]).None?
    ensures TotalCommon(groups).None?
    decreases |groups| - i
  {
    if i < |groups| {
      assert groups[..i + 1][..i] == groups[..i];
      TotalNone(groups, i + 1);
    } else {
      assert groups[..i] == groups;
    }
  }

  /** itertools' `chunks(n)`: consecutive groups of `n` lines, the last one possibly shorter. */
  function Chunks(lines: seq<string>, n: nat): (c: seq<seq<string>>)
    requires n >= 1
    ensures forall k :: 0 <= k < |c| ==> 1 <= |c[k]| <= n
    ensures forall k :: 0 <= k < |c| - 1 ==> |c[k]| == n
    decreases |lines|
  {
    if lines == [] then []
    else if |lines| <= n then [lines]
    else [lines[..n]] + Chunks(lines[n..], n)
  }

  function Flatten(c: seq<seq<string>>): seq<string>
  {
    if c == [] then [] else c[0] + Flatten(c[1..])
  }

  /** The groups hold every line once, in order. */
  lemma {:induction false} ChunksPartition(lines: seq<string>, n: nat)
    requires n >= 1
    ensures Flatten(Chunks(lines, n)) == lines
    decreases |lines|
  {
    if |lines| > n {
      var rest := Chunks(lines[n..], n);
      ChunksPartition(lines[n..], n);
      assert ([lines[..n]] + rest)[1..] == rest;
      assert lines[..n] + lines[n..] == lines;
    } else if lines != [] {
      assert [lines][1..] == [];
      assert lines + [] == lines;
    }
  }

  /** Part 1's groups: the two compartments of each line. */
  function Rucksacks(lines: seq<string>): (g: seq<seq<string>>)
    ensures |g| == |lines| && forall i :: 0 <= i < |lines| ==> g[i] == SplitAtCenter(lines[i])
  {
    if lines == [] then [] else [SplitAtCenter(lines[0])] + Rucksacks(lines[1..])
  }

  /** `part_1`: each line's two compartments form a group. */
  method Part1(input: string) returns (r: Option<nat>)
    ensures r == TotalCommon(Rucksacks(Lines(input)))
  {
    r := SumCommon(Rucksacks(Lines(input)));
  }

  /** `part_2`: three consecutive lines form a group. */
  method Part2(input: string) returns (r: Option<nat>)
    ensures r == TotalCommon(Chunks(Lines(input), 3))
  {
    r := SumCommon(Chunks(Lines(input), 3));
  }
}
