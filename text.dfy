/** Character and string helpers with the semantics of Rust's `str` methods the solvers use:
    decimal parsing (`str::parse` for unsigned and signed integers), `split` on one character
    and `starts_with`. Strings are ASCII, so one `char` stands for one byte. */
module Text {
  import opened Basics

  predicate IsDigit(c: char) { '0' <= c <= '9' }

  function DigitValue(c: char): (d: nat)
    requires IsDigit(c)
    ensures d < 10
  {
    (c as int) - ('0' as int)
  }

  function DigitChar(d: nat): (c: char)
    requires d < 10
    ensures IsDigit(c) && DigitValue(c) == d
  {
    (('0' as int) + d) as char
  }

  predicate AllDigits(s: string) { forall i :: 0 <= i < |s| ==> IsDigit(s[i]) }

  /** Where the run of digits starting at `pos` ends. */
  function RunEnd(line: string, pos: nat): (e: nat)
    requires pos <= |line|
    ensures pos <= e <= |line| && AllDigits(line[pos..e])
    ensures e < |line| ==> !IsDigit(line[e])
    decreases |line| - pos
  {
    if pos < |line| && IsDigit(line[pos]) then
      var e := RunEnd(line, pos + 1);
      assert line[pos..e] == [line[pos]] + line[pos + 1..e];
      e
    else pos
  }

  /** The run ends at the first non-digit. */
  lemma {:induction false} RunEndOfDigits(line: string, pos: nat, e: nat)
    requires pos <= e < |line| && AllDigits(line[pos..e]) && !IsDigit(line[e])
    ensures RunEnd(line, pos) == e
    decreases e - pos
  {
    if pos < e {
      assert IsDigit(line[pos..e][0]);
      assert line[pos + 1..e] == line[pos..e][1..];
      RunEndOfDigits(line, pos + 1, e);
    }
  }

  /** The value of a run of decimal digits, most significant first. */
  function DigitsValue(s: string): nat
    requires AllDigits(s)
    decreases |s|
  {
    if s == [] then 0 else 10 * DigitsValue(s[..|s| - 1]) + DigitValue(s[|s| - 1])
  }

  /** A non-empty run of digits and nothing else. */
  function ParseDigits(s: string): (r: Option<nat>)
    ensures r.Some? <==> |s| > 0 && AllDigits(s)
    ensures r.Some? ==> r.value == DigitsValue(s)
  {
    if |s| > 0 && AllDigits(s) then Some(DigitsValue(s)) else None
  }

  /** `str::parse` for an unsigned integer type: an optional `+`, then at least one digit.
      A `-` sign is rejected. Integer width and overflow are not modelled. */
  function ParseNat(s: string): (r: Option<nat>)
    ensures r.Some? <==> (|s| > 0 && AllDigits(s)) || (|s| > 1 && s[0] == '+' && AllDigits(s[1..]))
  {
    if |s| > 0 && s[0] == '+' then ParseDigits(s[1..]) else ParseDigits(s)
  }

  /** `str::parse` for a signed integer type: an optional `+` or `-`, then at least one digit. */
  function ParseInt(s: string): (r: Option<int>)
    ensures r.Some? && |s| > 0 && s[0] == '-' ==> r.value <= 0
    ensures r.Some? && (|s| == 0 || s[0] != '-') ==> r.value >= 0
    ensures |s| > 0 && s[0] != '-' ==> (r.Some? <==> ParseNat(s).Some?)
  {
    if |s| > 0 && s[0] == '-' then
      match ParseDigits(s[1..])
      case Some(n) => Some(0 - n as int)
      case None => None
    else
      match ParseNat(s)
      case Some(n) => Some(n as int)
      case None => None
  }

  /** The shortest decimal rendering of `n`. */
  function NatToString(n: nat): (s: string)
    ensures |s| > 0 && AllDigits(s)
    ensures s[0] == '0' ==> n == 0
  {
    if n < 10 then [DigitChar(n)] else NatToString(n / 10) + [DigitChar(n % 10)]
  }


  lemma {:induction false} DigitsOfNatToString(n: nat)
    ensures DigitsValue(NatToString(n)) == n
  {
    if n >= 10 {
      var s := NatToString(n);
      assert s[..|s| - 1] == NatToString(n / 10);
      DigitsOfNatToString(n / 10);
    }
  }

  /** Rendering a natural number and parsing it back gives the number. */
  lemma ParseNatRoundTrip(n: nat)
    ensures ParseNat(NatToString(n)) == Some(n)
  {
    DigitsOfNatToString(n);
  }

  function IntToString(i: int): (s: string)
    ensures |s| > 0
  {
    if i < 0 then "-" + NatToString(-i) else NatToString(i)
  }

  /** Rendering an integer (with a `-` when negative) and parsing it back gives the integer. */
  lemma ParseIntRoundTrip(i: int)
    ensures ParseInt(IntToString(i)) == Some(i)
  {
    var s := IntToString(i);
    if i < 0 {
      var digits := s[1..];
      assert s[0] == '-' && digits == NatToString(-i);
      DigitsOfNatToString(-i);
      assert ParseDigits(digits) == Some(-i);
    } else {
      DigitsOfNatToString(i);
      assert ParseDigits(s) == Some(i);
    }
  }

  predicate StartsWith(s: string, prefix: string)
  {
    |prefix| <= |s| && s[..|prefix|] == prefix
  }

  /** Joins the parts with `sep` between consecutive parts. */
  function Join(parts: seq<string>, sep: char): string
    requires |parts| >= 1
  {
    if |parts| == 1 then parts[0] else parts[0] + [sep] + Join(parts[1..], sep)
  }

  /** `str::split` on one character: the maximal separator-free pieces, one more than the
      number of separators, so empty pieces are kept. */
  function Split(s: string, sep: char): (parts: seq<string>)
    ensures |parts| >= 1
    ensures forall k :: 0 <= k < |parts| ==> sep !in parts[k]
    ensures Join(parts, sep) == s
    decreases |s|
  {
    if |s| == 0 then [""]
    else
      var rest := Split(s[1..], sep);
      if s[0] == sep then
        [""] + rest
      else
        assert s == [s[0]] + s[1..];
        assert rest == [rest[0]] + rest[1..];
        [[s[0]] + rest[0]] + rest[1..]
  }

  /** Dropping the first character of a non-empty first part drops the first character of
      the join. */
  lemma JoinDropFirst(parts: seq<string>, sep: char)
    requires |parts| >= 1 && |parts[0]| > 0
    ensures Join(parts, sep)[0] == parts[0][0]
    ensures Join([parts[0][1..]] + parts[1..], sep) == Join(parts, sep)[1..]
  {
    var p0, tail := parts[0], [parts[0][1..]] + parts[1..];
    if |parts| > 1 {
      assert tail[1..] == parts[1..];
      assert Join(parts, sep) == p0 + ([sep] + Join(parts[1..], sep));
      assert Join(tail, sep) == p0[1..] + ([sep] + Join(parts[1..], sep));
    }
  }

  /** Splitting the join of separator-free parts gives the parts back. */
  lemma {:induction false} SplitJoin(parts: seq<string>, sep: char)
    requires |parts| >= 1
    requires forall k :: 0 <= k < |parts| ==> sep !in parts[k]
    ensures Split(Join(parts, sep), sep) == parts
    decreases |parts|, |parts[0]|
  {
    var s := Join(parts, sep);
    if |parts[0]| > 0 {
      var p0 := parts[0];
      var tail := [p0[1..]] + parts[1..];
      JoinDropFirst(parts, sep);
      SplitJoin(tail, sep);
      assert Split(s, sep) == [[p0[0]] + p0[1..]] + parts[1..];
      assert [p0[0]] + p0[1..] == p0;
      assert parts == [p0] + parts[1..];
    } else if |parts| > 1 {
      assert s == [sep] + Join(parts[1..], sep);
      assert s[1..] == Join(parts[1..], sep);
      SplitJoin(parts[1..], sep);
      assert parts == [""] + parts[1..];
    }
  }

  /** `str::lines` on text without carriage returns: the pieces between newlines, where a
      final newline ends the last line instead of starting an empty one. */
  function Lines(s: string): (lines: seq<string>)
    ensures forall k :: 0 <= k < |lines| ==> '\n' !in lines[k]
    ensures s != [] && s[|s| - 1] != '\n' ==> lines == Split(s, '\n')
  {
    if s == [] then []
    else
      var parts := Split(s, '\n');
      if s[|s| - 1] == '\n' then
        SplitLastEmpty(s, '\n');
        parts[..|parts| - 1]
      else parts
  }

  /** Text that ends with the separator splits into pieces the last of which is empty. */
  lemma {:induction false} SplitLastEmpty(s: string, sep: char)
    requires s != [] && s[|s| - 1] == sep
    ensures |Split(s, sep)| >= 2 && Split(s, sep)[|Split(s, sep)| - 1] == ""
    decreases |s|
  {
    if |s| > 1 {
      SplitLastEmpty(s[1..], sep);
    }
  }

  /** The join ends with the last character of the last part. */
  lemma {:induction false} JoinEnds(parts: seq<string>, sep: char)
    requires |parts| >= 1 && |parts[|parts| - 1]| > 0
    ensures |Join(parts, sep)| > 0
    ensures Join(parts, sep)[|Join(parts, sep)| - 1] == parts[|parts| - 1][|parts[|parts| - 1]| - 1]
    decreases |parts|
  {
    if |parts| > 1 {
      JoinEnds(parts[1..], sep);
    }
  }

  /** Lines joined by newlines, the last one non-empty, read back as the same lines. */
  lemma LinesJoin(lines: seq<string>)
    requires |lines| >= 1 && |lines[|lines| - 1]| > 0
    requires forall k :: 0 <= k < |lines| ==> '\n' !in lines[k]
    ensures Lines(Join(lines, '\n')) == lines
  {
    JoinEnds(lines, '\n');
    SplitJoin(lines, '\n');
  }

  /** `str::split` with a text pattern: the pieces between non-overlapping occurrences of
      `sep`, found from the left. */
  function SplitOn(s: string, sep: string): (parts: seq<string>)
    requires |sep| > 0
    ensures |parts| >= 1
    decreases |s|
  {
    if |s| < |sep| then [s]
    else if s[..|sep|] == sep then [""] + SplitOn(s[|sep|..], sep)
    else
      var rest := SplitOn(s[1..], sep);
      [[s[0]] + rest[0]] + rest[1..]
  }

  function JoinOn(parts: seq<string>, sep: string): string
    requires |parts| >= 1
  {
    if |parts| == 1 then parts[0] else parts[0] + sep + JoinOn(parts[1..], sep)
  }

  /** A leading piece free of the separator's first character stays glued to the first
      piece of what follows. */
  lemma {:induction false} SplitOnPrefix(d: string, t: string, sep: string)
    requires |sep| > 0
    requires forall i :: 0 <= i < |d| ==> d[i] != sep[0]
    ensures SplitOn(d + t, sep) == [d + SplitOn(t, sep)[0]] + SplitOn(t, sep)[1..]
    decreases |d|
  {
    var s := d + t;
    if d == [] {
      var rest := SplitOn(t, sep);
      assert s == t && d + rest[0] == rest[0];
      assert [rest[0]] + rest[1..] == rest;
    } else if |s| < |sep| {
      assert SplitOn(t, sep) == [t];
    } else {
      assert s[..|sep|][0] == d[0];
      assert s[1..] == d[1..] + t;
      SplitOnPrefix(d[1..], t, sep);
      assert [s[0]] + (d[1..] + SplitOn(t, sep)[0]) == d + SplitOn(t, sep)[0];
    }
  }

  /** Splitting the join of pieces free of the separator's first character gives them back. */
  lemma {:induction false} SplitOnJoin(parts: seq<string>, sep: string)
    requires |parts| >= 1 && |sep| > 0
    requires forall k, i :: 0 <= k < |parts| && 0 <= i < |parts[k]| ==> parts[k][i] != sep[0]
    ensures SplitOn(JoinOn(parts, sep), sep) == parts
    decreases |parts|
  {
    if |parts| == 1 {
      SplitOnPrefix(parts[0], "", sep);
      assert parts[0] + "" == parts[0];
    } else {
      var rest := JoinOn(parts[1..], sep);
      assert JoinOn(parts, sep) == parts[0] + (sep + rest);
      SplitOnPrefix(parts[0], sep + rest, sep);
      assert (sep + rest)[..|sep|] == sep && (sep + rest)[|sep|..] == rest;
      SplitOnJoin(parts[1..], sep);
      assert parts[0] + "" == parts[0];
    }
  }
}
