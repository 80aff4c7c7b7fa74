/** Day 6: find the first window of 4 (part 1) or 14 (part 2) distinct letters in a
    stream, and report the index just after it. */
module Day06 {
  import opened Basics

  /** `priority`: the slot of a lowercase letter, `a` to 0 through `z` to 25. `None` is the
      "character out of range" panic. */
  function Priority(c: char): (r: Option<nat>)
    ensures r.Some? <==> 'a' <= c <= 'z'
    ensures r.Some? ==> r.value < 26 && (r.value + 'a' as int) as char == c
  {
    if 'a' <= c <= 'z' then Some(c as int - 'a' as int) else None
  }

  predicate Lower(s: string)
  {
    forall i :: 0 <= i < |s| ==> 'a' <= s[i] <= 'z'
  }

  predicate Distinct(s: string)
  {
    forall i, j :: 0 <= i < j < |s| ==> s[i] != s[j]
  }

  /** What `unique_chars` returns after checking the characters before `i`: it stops with
      `false` at the first repeat, panics (`None`) at the first non-letter, and answers `true`
      when it reaches the end. */
  function Scan(text: string, i: nat): Option<bool>
    requires i <= |text|
    decreases |text| - i
  {
    if i == |text| then Some(true)
    else if !('a' <= text[i] <= 'z') then None
    else if text[i] in text[..i] then Some(false)
    else Scan(text, i + 1)
  }

  function Unique(text: string): Option<bool>
  {
    Scan(text, 0)
  }

  /** `unique_chars`: one flag per letter, set as the letter is seen; a flag already set is a
      repeat. */
  method UniqueChars(text: string) returns (r: Option<bool>)
    ensures r == Unique(text)
  {
    var seen := new bool[26](_ => false);
    for i := 0 to |text|
      invariant Scan(text, 0) == Scan(text, i)
      invariant forall k :: 0 <= k < 26 ==> (seen[k] <==> (k + 'a' as int) as char in text[..i])
    {
      var p := Priority(text[i]);
      if p.None? {
        return None;
      }
      if seen[p.value] {
        return Some(false);
      }
      seen[p.value] := true;
      assert text[..i + 1] == text[..i] + [text[i]];
    }
    return Some(true);
  }

  lemma {:induction false} ScanMeaning(text: string, i: nat)
    requires i <= |text| && Distinct(text[..i])
    ensures Scan(text, i) == Some(false) ==> !Distinct(text)
    ensures Scan(text, i).None? ==> !Lower(text)
    ensures Scan(text, i) == Some(true) ==>
      Distinct(text) && forall k :: i <= k < |text| ==> 'a' <= text[k] <= 'z'
    ensures Lower(text) ==> Scan(text, i) == Some(Distinct(text))
    decreases |text| - i
  {
    if i == |text| {
      assert text[..i] == text;
    } else if !('a' <= text[i] <= 'z') {
    } else if text[i] in text[..i] {
      var j :| 0 <= j < i && text[..i][j] == text[i];
    } else {
      assert text[..i + 1] == text[..i] + [text[i]];
      ScanMeaning(text, i + 1);
    }
  }

  /** On letters `unique_chars` is exactly the test that no letter repeats; the empty string
      passes. It answers `false` only on a repeat, `true` only on distinct letters, and panics
      only on a non-letter. */
  lemma UniqueMeaning(text: string)
    ensures Unique(text) == Some(false) ==> !Distinct(text)
    ensures Unique(text) == Some(true) ==> Lower(text) && Distinct(text)
    ensures Unique(text).None? ==> !Lower(text)
    ensures Lower(text) ==> Unique(text) == Some(Distinct(text))
    ensures Unique("") == Some(true)
  {
    ScanMeaning(text, 0);
  }

  /** The part scans from window `index` on: the first all-distinct window of `n` letters
      gives the index after it. `None` is a panic: the window running past the end of the
      input, a non-letter, or no window found. */
  function Marker(input: string, n: nat, index: nat): Option<nat>
    decreases |input| - index
  {
    if index >= |input| || index + n > |input| then None
    else
      match Unique(input[index..index + n])
      case None => None
      case Some(true) => Some(index + n)
      case Some(false) => Marker(input, n, index + 1)
  }

  /** `part_1` (`n` = 4) and `part_2` (`n` = 14). */
  method FindMarker(input: string, n: nat) returns (r: Option<nat>)
    ensures r == Marker(input, n, 0)
  {
    for index := 0 to |input|
      invariant Marker(input, n, 0) == Marker(input, n, index)
    {
      if index + n > |input| {
        return None;
      }
      var u := UniqueChars(input[index..index + n]);
      if u.None? {
        return None;
      }
      if u.value {
        return Some(index + n);
      }
    }
    return None;
  }

  /** The window of `n` letters at `j` has no repeat. */
  predicate DistinctAt(input: string, n: nat, j: nat)
    requires j + n <= |input|
  {
    Distinct(input[j..j + n])
  }

  /** The characters from `lo` up to `hi` are all letters. */
  predicate LettersIn(input: string, lo: nat, hi: nat)
  {
    forall k :: lo <= k < hi && k < |input| ==> 'a' <= input[k] <= 'z'
  }

  /** No window of `n` from `index` on that ends by `p` is distinct. */
  predicate NoneDistinctUpTo(input: string, n: nat, index: nat, p: nat)
  {
    forall j :: index <= j && j + n <= p && j + n <= |input| ==> !DistinctAt(input, n, j)
  }

  /** An answer `m` of the scan from window `index` is the end of the first distinct window,
      which holds letters only; the earlier windows repeat a letter (whatever follows the
      repeat). */
  lemma {:induction false} MarkerFound(input: string, n: nat, index: nat)
    requires Marker(input, n, index).Some?
    ensures var m := Marker(input, n, index).value;
      && index + n <= m <= |input| && m - n < |input| && DistinctAt(input, n, m - n)
      && LettersIn(input, m - n, m)
      && forall j :: index <= j < m - n ==> !DistinctAt(input, n, j)
    decreases |input| - index
  {
    var w := input[index..index + n];
    UniqueMeaning(w);
    if Unique(w) == Some(true) {
      forall k | index <= k < index + n ensures 'a' <= input[k] <= 'z' {
        assert input[k] == w[k - index];
      }
    } else {
      MarkerFound(input, n, index + 1);
    }
  }

  /** A panic of the scan from window `index` means that no distinct window is preceded by
      letters alone. */
  lemma {:induction false} MarkerMissing(input: string, n: nat, index: nat)
    requires Marker(input, n, index).None?
    ensures forall j ::
      index <= j < |input| && j + n <= |input| && LettersIn(input, index, j + n) ==>
      !DistinctAt(input, n, j)
    decreases |input| - index
  {
    if index < |input| && index + n <= |input| {
      var w := input[index..index + n];
      UniqueMeaning(w);
      if Unique(w).None? {
        var k :| 0 <= k < |w| && !('a' <= w[k] <= 'z');
        assert input[index + k] == w[k];
      } else {
        MarkerMissing(input, n, index + 1);
      }
    }
  }

  /** A non-letter at `p` that no distinct window before it precedes is the panic: every window
      that covers it either repeats a letter first or reaches it. */
  lemma {:induction false} NonLetterStops(input: string, n: nat, index: nat, p: nat)
    requires index <= p < |input| && !('a' <= input[p] <= 'z')
    requires NoneDistinctUpTo(input, n, index, p)
    ensures Marker(input, n, index).None?
    decreases |input| - index
  {
    assert n > 0 by {
      if n == 0 {
        assert DistinctAt(input, n, index);
      }
    }
    if index + n <= |input| {
      var w := input[index..index + n];
      UniqueMeaning(w);
      if p < index + n {
        assert w[p - index] == input[p];
      } else {
        assert !DistinctAt(input, n, index);
      }
      if p == index {
        assert w[0] == input[p];
      } else if Unique(w) == Some(false) {
        NonLetterStops(input, n, index + 1, p);
      }
    }
  }

  /** The answer is the index after the first window of `n` distinct letters, for any input,
      the trailing newline of a file included: the windows before it repeat a letter, and the
      part panics when no distinct window is preceded by letters alone, or when a non-letter
      comes before any distinct window. On a stream of letters it panics exactly when no
      window is distinct. */
  lemma FindsFirstWindow(input: string, n: nat)
    ensures Marker(input, n, 0).Some? ==>
      var m := Marker(input, n, 0).value;
      && n <= m <= |input| && DistinctAt(input, n, m - n) && Lower(input[m - n..m])
      && forall j :: 0 <= j < m - n ==> !DistinctAt(input, n, j)
    ensures Marker(input, n, 0).None? ==>
      forall j ::
        0 <= j < |input| && j + n <= |input| && Lower(input[..j + n]) ==>
        !DistinctAt(input, n, j)
    ensures forall p ::
      0 <= p < |input| && !('a' <= input[p] <= 'z') && NoneDistinctUpTo(input, n, 0, p) ==>
      Marker(input, n, 0).None?
    ensures Lower(input) ==> (Marker(input, n, 0).None? <==>
      forall j :: 0 <= j < |input| && j + n <= |input| ==> !DistinctAt(input, n, j))
  {
    forall p | 0 <= p < |input| && !('a' <= input[p] <= 'z') && NoneDistinctUpTo(input, n, 0, p)
      ensures Marker(input, n, 0).None?
    {
      NonLetterStops(input, n, 0, p);
    }
    if Marker(input, n, 0).Some? {
      MarkerFound(input, n, 0);
      var m := Marker(input, n, 0).value;
      var w := input[m - n..m];
      forall k | 0 <= k < |w| ensures 'a' <= w[k] <= 'z' {
        assert w[k] == input[m - n + k];
      }
    } else {
      MarkerMissing(input, n, 0);
      forall j | 0 <= j < |input| && j + n <= |input| && Lower(input[..j + n])
        ensures !DistinctAt(input, n, j)
      {
        forall k | 0 <= k < j + n ensures 'a' <= input[k] <= 'z' {
          assert input[..j + n][k] == input[k];
        }
      }
    }
  }

  /** A file's trailing newline does not stop the scan once the marker is found. */
  lemma NewlineAfterMarker()
    ensures Marker("abcd\n", 4, 0) == Some(4)
    ensures Marker("abc\n", 4, 0) == None
  {
    var w := "abcd\n"[0..4];
    assert w == "abcd";
    ScanMeaning(w, 0);
    assert Distinct(w);
    assert Unique(w) == Some(true);
  }

  method Part1(input: string) returns (r: Option<nat>)
    ensures r == Marker(input, 4, 0)
  {
    r := FindMarker(input, 4);
  }

  method Part2(input: string) returns (r: Option<nat>)
    ensures r == Marker(input, 14, 0)
  {
    r := FindMarker(input, 14);
  }
}
