/** Day 5 (`src/day5.rs`): stacks of crates drawn as a diagram, then commands
    `move N from F to T`. Part 1's crane moves one crate at a time, part 2's moves the top
    `N` crates as a block; the answer is the top crate of each stack. A stack is a sequence
    whose last element is the top. */
module Day05 {
  import opened Basics
  import opened Text

  type Stacks = seq<seq<char>>

  /** A parsed command: `count` crates from stack `from` to stack `to`, both 1-based. */
  datatype Command = Command(count: nat, from: nat, to: nat)

  /** A 1-based stack number that indexes `s`. */
  predicate ValidStack(s: Stacks, k: nat)
  {
    1 <= k <= |s|
  }

  function Reverse<T>(s: seq<T>): (r: seq<T>)
    ensures |r| == |s|
  {
    if s == [] then [] else Reverse(s[1..]) + [s[0]]
  }

  /** `Reverse` puts the element at `i` at position `|s| - 1 - i`. */
  lemma {:induction false} ReverseMeaning<T>(s: seq<T>)
    ensures forall i :: 0 <= i < |s| ==> Reverse(s)[i] == s[|s| - 1 - i]
  {
    if s != [] {
      ReverseMeaning(s[1..]);
    }
  }

  /** The number of crates on all stacks. */
  function Total(s: Stacks): nat
  {
    if s == [] then 0 else Total(s[..|s| - 1]) + |s[|s| - 1]|
  }

  lemma {:induction false} TotalUpdate(s: Stacks, i: nat, x: seq<char>)
    requires i < |s|
    ensures Total(s[i := x]) + |s[i]| == Total(s) + |x|
  {
    var n := |s| - 1;
    assert s[i := x][..n] == if i < n then s[..n][i := x] else s[..n];
    if i < n {
      TotalUpdate(s[..n], i, x);
    }
  }

  // ----- Part 1: one crate at a time -----

  /** One pass of `apply_actions_slowly`'s inner loop: stack `f` is indexed (a panic when
      it does not exist); an empty stack is skipped, otherwise its top crate is popped and
      pushed on stack `t`, which is indexed only then. */
  function MoveOne(s: Stacks, f: nat, t: nat): Option<Stacks>
  {
    if !ValidStack(s, f) then None
    else if s[f - 1] == [] then Some(s)
    else if !ValidStack(s, t) then None
    else
      var src := s[f - 1];
      var s1 := s[f - 1 := src[..|src| - 1]];
      Some(s1[t - 1 := s1[t - 1] + [src[|src| - 1]]])
  }

  /** `k` single moves. */
  function MoveSlowly(s: Stacks, f: nat, t: nat, k: nat): Option<Stacks>
  {
    if k == 0 then Some(s)
    else
      match MoveSlowly(s, f, t, k - 1)
      case None => None
      case Some(s1) => MoveOne(s1, f, t)
  }

  /** `apply_actions_slowly` as a function: every command in order; `None` on a panic. */
  function ApplySlowlySpec(s: Stacks, commands: seq<Command>): Option<Stacks>
  {
    if commands == [] then Some(s)
    else
      var c := commands[|commands| - 1];
      match ApplySlowlySpec(s, commands[..|commands| - 1])
      case None => None
      case Some(s1) => MoveSlowly(s1, c.from, c.to, c.count)
  }

  /** One command of `apply_actions_slowly`. */
  method MoveCratesSlowly(items: array<seq<char>>, c: Command) returns (ok: bool)
    modifies items
    ensures ok <==> MoveSlowly(old(items[..]), c.from, c.to, c.count).Some?
    ensures ok ==> items[..] == MoveSlowly(old(items[..]), c.from, c.to, c.count).value
  {
    ghost var s0 := items[..];
    for k := 0 to c.count
      invariant MoveSlowly(s0, c.from, c.to, k) == Some(items[..])
    {
      if !(1 <= c.from <= items.Length) {
        MoveSlowlyStops(s0, c.from, c.to, k + 1, c.count);
        return false;
      }
      if items[c.from - 1] != [] {
        var src := items[c.from - 1];
        items[c.from - 1] := src[..|src| - 1];
        if !(1 <= c.to <= items.Length) {
          MoveSlowlyStops(s0, c.from, c.to, k + 1, c.count);
          return false;
        }
        items[c.to - 1] := items[c.to - 1] + [src[|src| - 1]];
      }
    }
    return true;
  }

  /** A panic at move `k` is a panic of the whole command. */
  lemma {:induction false} MoveSlowlyStops(s: Stacks, f: nat, t: nat, k: nat, n: nat)
    requires k <= n && MoveSlowly(s, f, t, k).None?
    ensures MoveSlowly(s, f, t, n).None?
    decreases n - k
  {
    if k < n {
      MoveSlowlyStops(s, f, t, k + 1, n);
    }
  }

  /** `apply_actions_slowly`; `false` is a panic (a stack number that does not exist). */
  method ApplyActionsSlowly(items: array<seq<char>>, commands: seq<Command>) returns (ok: bool)
    modifies items
    ensures ok <==> ApplySlowlySpec(old(items[..]), commands).Some?
    ensures ok ==> items[..] == ApplySlowlySpec(old(items[..]), commands).value
  {
    ghost var s0 := items[..];
    for i := 0 to |commands|
      invariant ApplySlowlySpec(s0, commands[..i]) == Some(items[..])
    {
      assert commands[..i + 1][..i] == commands[..i];
      ok := MoveCratesSlowly(items, commands[i]);
      if !ok {
        SlowlyStops(s0, commands, i + 1);
        return false;
      }
    }
    assert commands[..|commands|] == commands;
    return true;
  }

  lemma {:induction false} SlowlyStops(s: Stacks, commands: seq<Command>, i: nat)
    requires i <= |commands| && ApplySlowlySpec(s, commands[..i]).None?
    ensures ApplySlowlySpec(s, commands).None?
    decreases |commands| - i
  {
    if i < |commands| {
      assert commands[..i + 1][..i] == commands[..i];
      SlowlyStops(s, commands, i + 1);
    } else {
      assert commands[..i] == commands;
    }
  }

  // ----- Part 2: a block at a time -----

  /** One command of `apply_actions_quickly`: stack `f` is indexed, its top `k` crates are
      split off (a panic when it holds fewer) and appended, in their order, to stack `t`. */
  function MoveQuickly(s: Stacks, c: Command): Option<Stacks>
  {
    if !ValidStack(s, c.from) || c.count > |s[c.from - 1]| then None
    else
      var src := s[c.from - 1];
      var n := |src| - c.count;
      var s1 := s[c.from - 1 := src[..n]];
      if !ValidStack(s1, c.to) then None
      else Some(s1[c.to - 1 := s1[c.to - 1] + src[n..]])
  }

  function ApplyQuicklySpec(s: Stacks, commands: seq<Command>): Option<Stacks>
  {
    if commands == [] then Some(s)
    else
      match ApplyQuicklySpec(s, commands[..|commands| - 1])
      case None => None
      case Some(s1) => MoveQuickly(s1, commands[|commands| - 1])
  }

  /** `apply_actions_quickly`; `false` is a panic. */
  method ApplyActionsQuickly(items: array<seq<char>>, commands: seq<Command>) returns (ok: bool)
    modifies items
    ensures ok <==> ApplyQuicklySpec(old(items[..]), commands).Some?
    ensures ok ==> items[..] == ApplyQuicklySpec(old(items[..]), commands).value
  {
    ghost var s0 := items[..];
    for i := 0 to |commands|
      invariant ApplyQuicklySpec(s0, commands[..i]) == Some(items[..])
    {
      assert commands[..i + 1][..i] == commands[..i];
      var c := commands[i];
      if !(1 <= c.from <= items.Length) || c.count > |items[c.from - 1]| {
        QuicklyStops(s0, commands, i + 1);
        return false;
      }
      var inputLen := |items[c.from - 1]|;
      var block := items[c.from - 1][inputLen - c.count..];
      items[c.from - 1] := items[c.from - 1][..inputLen - c.count];
      if !(1 <= c.to <= items.Length) {
        QuicklyStops(s0, commands, i + 1);
        return false;
      }
      items[c.to - 1] := items[c.to - 1] + block;
    }
    assert commands[..|commands|] == commands;
    return true;
  }

  lemma {:induction false} QuicklyStops(s: Stacks, commands: seq<Command>, i: nat)
    requires i <= |commands| && ApplyQuicklySpec(s, commands[..i]).None?
    ensures ApplyQuicklySpec(s, commands).None?
    decreases |commands| - i
  {
    if i < |commands| {
      assert commands[..i + 1][..i] == commands[..i];
      QuicklyStops(s, commands, i + 1);
    } else {
      assert commands[..i] == commands;
    }
  }

  // ----- What the two cranes do -----

  /** Stacks `f` and `t` after the top `m` crates of `f` went to `t` one by one: they arrive
      in reverse order. */
  function Moved(s: Stacks, f: nat, t: nat, m: nat): Stacks
    requires ValidStack(s, f) && ValidStack(s, t) && m <= |s[f - 1]|
  {
    var src := s[f - 1];
    s[f - 1 := src[..|src| - m]][t - 1 := s[t - 1] + Reverse(src[|src| - m..])]
  }

  /** Between two different stacks, `k` single moves take the top `min(k, len)` crates off
      stack `f` and put them on stack `t` in reverse order; moves from an empty stack do
      nothing. */
  lemma {:induction false} MoveSlowlyMeaning(s: Stacks, f: nat, t: nat, k: nat)
    requires ValidStack(s, f) && ValidStack(s, t) && f != t
    ensures MoveSlowly(s, f, t, k) == Some(Moved(s, f, t, if k < |s[f - 1]| then k else |s[f - 1]|))
  {
    var n := |s[f - 1]|;
    if k == 0 {
      MovedNone(s, f, t);
    } else {
      MoveSlowlyMeaning(s, f, t, k - 1);
      var m := if k - 1 < n then k - 1 else n;
      SlowlyStep(s, f, t, k, m);
    }
  }

  lemma SlowlyStep(s: Stacks, f: nat, t: nat, k: nat, m: nat)
    requires ValidStack(s, f) && ValidStack(s, t) && f != t && k >= 1
    requires m == if k - 1 < |s[f - 1]| then k - 1 else |s[f - 1]|
    requires MoveSlowly(s, f, t, k - 1) == Some(Moved(s, f, t, m))
    ensures MoveSlowly(s, f, t, k) == Some(Moved(s, f, t, if k < |s[f - 1]| then k else |s[f - 1]|))
  {
    var n := |s[f - 1]|;
    if m < n {
      MoveOneStep(s, f, t, m);
      assert m + 1 == if k < n then k else n;
    } else {
      MovedAll(s, f, t);
      assert m == if k < n then k else n;
    }
  }

  lemma MovedNone(s: Stacks, f: nat, t: nat)
    requires ValidStack(s, f) && ValidStack(s, t) && f != t
    ensures Moved(s, f, t, 0) == s
  {
    var src := s[f - 1];
    assert src[..|src|] == src;
    assert src[|src|..] == [];
    assert s[t - 1] + Reverse<char>([]) == s[t - 1];
    assert s[f - 1 := src][t - 1 := s[t - 1]] == s;
  }

  lemma MovedAll(s: Stacks, f: nat, t: nat)
    requires ValidStack(s, f) && ValidStack(s, t) && f != t
    ensures MoveOne(Moved(s, f, t, |s[f - 1]|), f, t) == Some(Moved(s, f, t, |s[f - 1]|))
  {
    assert Moved(s, f, t, |s[f - 1]|)[f - 1] == [];
  }

  /** One more single move when the top `m` crates have already moved. */
  lemma MoveOneStep(s: Stacks, f: nat, t: nat, m: nat)
    requires ValidStack(s, f) && ValidStack(s, t) && f != t
    requires m < |s[f - 1]|
    ensures MoveOne(Moved(s, f, t, m), f, t) == Some(Moved(s, f, t, m + 1))
  {
    var src := s[f - 1];
    var a := |src| - m;
    var s1 := Moved(s, f, t, m);
    var b := src[a - 1..];
    assert b[1..] == src[a..];
    assert Reverse(b) == Reverse(src[a..]) + [src[a - 1]];
    assert src[..a][..a - 1] == src[..a - 1];
    assert s1[f - 1] == src[..a];
    var s2 := s1[f - 1 := src[..a - 1]];
    assert MoveOne(s1, f, t) == Some(s2[t - 1 := s2[t - 1] + [src[a - 1]]]);
    assert s2[t - 1] + [src[a - 1]] == s[t - 1] + Reverse(b);
    assert s2[t - 1 := s[t - 1] + Reverse(b)] == s[f - 1 := src[..a - 1]][t - 1 := s[t - 1] + Reverse(b)];
  }

  /** Part 2's crane moves the same crates as part 1's when the stack holds enough: the two
      results differ only in the order of the moved block on stack `t`. */
  lemma QuicklyVersusSlowly(s: Stacks, c: Command)
    requires ValidStack(s, c.from) && ValidStack(s, c.to) && c.from != c.to
    requires c.count <= |s[c.from - 1]|
    ensures MoveQuickly(s, c).Some?
    ensures var src := s[c.from - 1];
      var block := src[|src| - c.count..];
      && MoveQuickly(s, c).value[c.to - 1] == s[c.to - 1] + block
      && MoveSlowly(s, c.from, c.to, c.count) ==
           Some(MoveQuickly(s, c).value[c.to - 1 := s[c.to - 1] + Reverse(block)])
  {
    MoveSlowlyMeaning(s, c.from, c.to, c.count);
    QuicklyMoved(s, c);
  }

  /** Part 2's result, with the block on stack `t` reversed, is part 1's. */
  lemma QuicklyMoved(s: Stacks, c: Command)
    requires ValidStack(s, c.from) && ValidStack(s, c.to) && c.from != c.to
    requires c.count <= |s[c.from - 1]|
    ensures MoveQuickly(s, c).Some?
    ensures var src := s[c.from - 1];
      var block := src[|src| - c.count..];
      && MoveQuickly(s, c).value[c.to - 1] == s[c.to - 1] + block
      && Moved(s, c.from, c.to, c.count) == MoveQuickly(s, c).value[c.to - 1 := s[c.to - 1] + Reverse(block)]
  {
    var src := s[c.from - 1];
    var n := |src| - c.count;
    var s1 := s[c.from - 1 := src[..n]];
    assert s1[c.to - 1] == s[c.to - 1];
    assert MoveQuickly(s, c) == Some(s1[c.to - 1 := s[c.to - 1] + src[n..]]);
    assert s1[c.to - 1 := s[c.to - 1] + src[n..]][c.to - 1 := s[c.to - 1] + Reverse(src[n..])]
        == s1[c.to - 1 := s[c.to - 1] + Reverse(src[n..])];
  }

  /** A single move changes only stacks `f` and `t` and keeps every crate. */
  lemma MoveOneConserves(s: Stacks, f: nat, t: nat)
    requires MoveOne(s, f, t).Some?
    ensures var r := MoveOne(s, f, t).value;
      && |r| == |s| && Total(r) == Total(s)
      && forall i :: 0 <= i < |s| && i != f - 1 && i != t - 1 ==> r[i] == s[i]
  {
    if s[f - 1] != [] {
      var src := s[f - 1];
      var s1 := s[f - 1 := src[..|src| - 1]];
      TotalUpdate(s, f - 1, src[..|src| - 1]);
      TotalUpdate(s1, t - 1, s1[t - 1] + [src[|src| - 1]]);
    }
  }

  lemma {:induction false} MoveSlowlyConserves(s: Stacks, f: nat, t: nat, k: nat)
    requires MoveSlowly(s, f, t, k).Some?
    ensures var r := MoveSlowly(s, f, t, k).value;
      && |r| == |s| && Total(r) == Total(s)
      && forall i :: 0 <= i < |s| && i != f - 1 && i != t - 1 ==> r[i] == s[i]
  {
    if k > 0 {
      MoveSlowlyConserves(s, f, t, k - 1);
      MoveOneConserves(MoveSlowly(s, f, t, k - 1).value, f, t);
    }
  }

  lemma MoveQuicklyConserves(s: Stacks, c: Command)
    requires MoveQuickly(s, c).Some?
    ensures var r := MoveQuickly(s, c).value;
      && |r| == |s| && Total(r) == Total(s)
      && forall i :: 0 <= i < |s| && i != c.from - 1 && i != c.to - 1 ==> r[i] == s[i]
  {
    var src := s[c.from - 1];
    var n := |src| - c.count;
    var s1 := s[c.from - 1 := src[..n]];
    TotalUpdate(s, c.from - 1, src[..n]);
    TotalUpdate(s1, c.to - 1, s1[c.to - 1] + src[n..]);
  }

  /** Both cranes keep the number of stacks and of crates through any list of commands. */
  lemma {:induction false} ApplyConserves(s: Stacks, commands: seq<Command>)
    ensures ApplySlowlySpec(s, commands).Some? ==>
      |ApplySlowlySpec(s, commands).value| == |s| && Total(ApplySlowlySpec(s, commands).value) == Total(s)
    ensures ApplyQuicklySpec(s, commands).Some? ==>
      |ApplyQuicklySpec(s, commands).value| == |s| && Total(ApplyQuicklySpec(s, commands).value) == Total(s)
  {
    if commands != [] {
      var init, c := commands[..|commands| - 1], commands[|commands| - 1];
      ApplyConserves(s, init);
      if ApplySlowlySpec(s, commands).Some? {
        MoveSlowlyConserves(ApplySlowlySpec(s, init).value, c.from, c.to, c.count);
      }
      if ApplyQuicklySpec(s, commands).Some? {
        MoveQuicklyConserves(ApplyQuicklySpec(s, init).value, c);
      }
    }
  }

  /** The answer: the top crate of each stack in stack order; `None` is the `unwrap` panic on
      an empty stack. */
  function Tops(s: Stacks): (r: Option<string>)
    ensures r.Some? <==> forall i :: 0 <= i < |s| ==> s[i] != []
    ensures r.Some? ==> |r.value| == |s| && forall i :: 0 <= i < |s| ==> r.value[i] == s[i][|s[i]| - 1]
  {
    if s == [] then Some([])
    else
      var init := s[..|s| - 1];
      var last := s[|s| - 1];
      assert forall i :: 0 <= i < |init| ==> init[i] == s[i];
      if last == [] then None
      else
        match Tops(init)
        case None => None
        case Some(t) => Some(t + [last[|last| - 1]])
  }

  // ----- Reading the drawing -----

  /** `resize_with(n, Vec::new)`: the first `n` stacks, padded with empty ones. */
  function Resize(v: Stacks, n: nat): (r: Stacks)
    ensures |r| == n && forall i :: 0 <= i < n ==> r[i] == (if i < |v| then v[i] else [])
  {
    seq(n, i requires 0 <= i < n => if i < |v| then v[i] else [])
  }

  /** The character at column `idx` of a drawing line. A capital letter goes on stack
      `(idx + 3) / 4 - 1`: a panic at column 0 (the subtraction underflows) and past the last
      stack. */
  function PushChar(v: Stacks, idx: nat, ch: char): Option<Stacks>
  {
    if !('A' <= ch <= 'Z') then Some(v)
    else if idx == 0 || (idx + 3) / 4 - 1 >= |v| then None
    else
      var k := (idx + 3) / 4 - 1;
      Some(v[k := v[k] + [ch]])
  }

  /** Columns `4 * k + 1` to `4 * k + 4` belong to stack `k`: a letter there is pushed on it
      and on no other stack. Other characters are skipped. */
  lemma PushCharMeaning(v: Stacks, idx: nat, ch: char)
    ensures !('A' <= ch <= 'Z') ==> PushChar(v, idx, ch) == Some(v)
    ensures 'A' <= ch <= 'Z' ==> (PushChar(v, idx, ch).Some? <==> 1 <= idx <= 4 * |v|)
    ensures PushChar(v, idx, ch).Some? ==> |PushChar(v, idx, ch).value| == |v|
    ensures PushChar(v, idx, ch).Some? ==> forall k :: 0 <= k < |v| ==>
      PushChar(v, idx, ch).value[k] == if 'A' <= ch <= 'Z' && 4 * k + 1 <= idx <= 4 * k + 4 then v[k] + [ch] else v[k]
  {
  }

  /** The characters of `s` in order, the first at column `off`. */
  function Pushes(v: Stacks, s: string, off: nat): Option<Stacks>
    decreases |s|
  {
    if s == [] then Some(v)
    else
      match PushChar(v, off, s[0])
      case None => None
      case Some(v1) => Pushes(v1, s[1..], off + 1)
  }

  /** One line of the drawing: the stacks are resized to the line's width, then its letters
      are pushed. */
  function AddLine(v: Stacks, line: string): Option<Stacks>
  {
    Pushes(Resize(v, (|line| + 1) / 4), line, 0)
  }

  /** The drawing's lines from the top; every stack ends up bottom crate last. */
  function Layers(v: Stacks, lines: seq<string>): Option<Stacks>
    decreases |lines|
  {
    if lines == [] then Some(v)
    else
      match AddLine(v, lines[0])
      case None => None
      case Some(v1) => Layers(v1, lines[1..])
  }

  function ReverseAll(v: Stacks): (r: Stacks)
    ensures |r| == |v| && forall i :: 0 <= i < |v| ==> r[i] == Reverse(v[i])
  {
    seq(|v|, i requires 0 <= i < |v| => Reverse(v[i]))
  }

  /** `parse_structure` on the drawing's lines: the stacks, each turned bottom crate first. */
  function Structure(lines: seq<string>): Option<Stacks>
  {
    match Layers([], lines)
    case None => None
    case Some(v) => Some(ReverseAll(v))
  }

  /** How many lines `take_while` passes: those before the first one starting with ` 1`. */
  function Diagram(lines: seq<string>): (n: nat)
    ensures n <= |lines|
    ensures forall j :: 0 <= j < n ==> !StartsWith(lines[j], " 1")
    ensures n < |lines| ==> StartsWith(lines[n], " 1")
  {
    if lines == [] || StartsWith(lines[0], " 1") then 0 else 1 + Diagram(lines[1..])
  }

  /** Where the commands start: `take_while` also consumes the line that stopped it. */
  function AfterDiagram(lines: seq<string>): nat
  {
    if Diagram(lines) < |lines| then Diagram(lines) + 1 else |lines|
  }

  /** The inner loop of `parse_structure`: resize, then one character at a time. */
  method AddLineTo(v: Stacks, line: string) returns (r: Option<Stacks>)
    ensures r == AddLine(v, line)
  {
    var w := v;
    var n := (|line| + 1) / 4;
    if n != |w| {
      w := Resize(w, n);
    }
    assert w == Resize(v, n);
    for idx := 0 to |line|
      invariant Pushes(Resize(v, n), line, 0) == Pushes(w, line[idx..], idx)
    {
      assert line[idx..][1..] == line[idx + 1..];
      var ch := line[idx];
      if 'A' <= ch <= 'Z' {
        if idx == 0 || (idx + 3) / 4 - 1 >= |w| {
          return None;
        }
        var k := (idx + 3) / 4 - 1;
        w := w[k := w[k] + [ch]];
      }
    }
    return Some(w);
  }

  /** `parse_structure`: the drawing up to the ` 1` line, and the index of the first line
      after the ones it consumed. */
  method ParseStructure(lines: seq<string>) returns (r: Option<Stacks>, next: nat)
    ensures r == Structure(lines[..Diagram(lines)])
    ensures r.Some? ==> next == AfterDiagram(lines)
  {
    var d := Diagram(lines);
    var v: Stacks := [];
    var i := 0;
    while i < |lines| && !StartsWith(lines[i], " 1")
      invariant i <= d
      invariant Layers([], lines[..d]) == Layers(v, lines[i..d])
      decreases |lines| - i
    {
      assert lines[i..d][1..] == lines[i + 1..d];
      var w := AddLineTo(v, lines[i]);
      if w.None? {
        return None, 0;
      }
      v := w.value;
      i := i + 1;
    }
    assert i == d && lines[i..d] == [];
    ghost var v0 := v;
    for k := 0 to |v|
      invariant |v| == |v0|
      invariant forall j :: 0 <= j < k ==> v[j] == Reverse(v0[j])
      invariant forall j :: k <= j < |v| ==> v[j] == v0[j]
    {
      v := v[k := Reverse(v[k])];
    }
    assert v == ReverseAll(v0);
    r := Some(v);
    next := if i < |lines| then i + 1 else i;
  }

  // ----- Drawing stacks, and reading the drawing back -----

  /** One stack's cell in a drawing line: `[X]`, or blanks. */
  function Cell(o: Option<char>): string
  {
    if o.Some? then ['[', o.value, ']'] else "   "
  }

  /** A drawing line: the cells separated by single spaces. */
  function Row(cells: seq<Option<char>>): (r: string)
    requires |cells| >= 1
    ensures |r| == 4 * |cells| - 1 && |r| >= 3 && r[1] == Cell(cells[0])[1]
  {
    if |cells| == 1 then Cell(cells[0]) else Cell(cells[0]) + " " + Row(cells[1..])
  }

  /** A line of `n` cells is `4 * n - 1` wide, so `parse_structure` sizes it for `n` stacks. */
  lemma RowWidth(cells: seq<Option<char>>)
    requires |cells| >= 1
    ensures (|Row(cells)| + 1) / 4 == |cells|
  {
  }

  /** The crates at height `h` (0 is the bottom) of each stack. */
  function Level(s: Stacks, h: nat): (r: seq<Option<char>>)
    ensures |r| == |s| && forall k :: 0 <= k < |s| ==> r[k] == if h < |s[k]| then Some(s[k][h]) else None
  {
    seq(|s|, k requires 0 <= k < |s| => if h < |s[k]| then Some(s[k][h]) else None)
  }

  /** The drawing of the bottom `h` levels, top line first. */
  function Drawing(s: Stacks, h: nat): (r: seq<string>)
    requires |s| >= 1
    ensures |r| == h
  {
    if h == 0 then [] else [Row(Level(s, h - 1))] + Drawing(s, h - 1)
  }

  /** What reading the lines above level `h` leaves: each stack's crates from height `h` up,
      top crate first. */
  function Above(s: Stacks, h: nat): (r: Stacks)
    ensures |r| == |s| && forall k :: 0 <= k < |s| ==> r[k] == if h < |s[k]| then Reverse(s[k][h..]) else []
  {
    seq(|s|, k requires 0 <= k < |s| => if h < |s[k]| then Reverse(s[k][h..]) else [])
  }

  /** `v` with the crate of cell `i` pushed on stack `k + i`. */
  function AddCells(v: Stacks, cells: seq<Option<char>>, k: nat): (r: Stacks)
    requires k + |cells| <= |v|
    ensures |r| == |v|
    ensures forall j :: 0 <= j < |v| ==>
      r[j] == if k <= j < k + |cells| && cells[j - k].Some? then v[j] + [cells[j - k].value] else v[j]
    decreases |cells|
  {
    if cells == [] then v
    else
      var v1 := if cells[0].Some? then v[k := v[k] + [cells[0].value]] else v;
      AddCells(v1, cells[1..], k + 1)
  }

  /** Only capital letters are crates. */
  predicate Crates(s: Stacks)
  {
    forall k, i :: 0 <= k < |s| && 0 <= i < |s[k]| ==> 'A' <= s[k][i] <= 'Z'
  }

  predicate CrateCells(cells: seq<Option<char>>)
  {
    forall i :: 0 <= i < |cells| && cells[i].Some? ==> 'A' <= cells[i].value <= 'Z'
  }

  lemma {:induction false} PushesAppend(v: Stacks, a: string, b: string, off: nat, next: nat)
    requires next == off + |a|
    ensures Pushes(v, a + b, off) ==
      match Pushes(v, a, off)
      case None => None
      case Some(w) => Pushes(w, b, next)
    decreases |a|
  {
    if a != [] {
      assert (a + b)[0] == a[0] && (a + b)[1..] == a[1..] + b;
      match PushChar(v, off, a[0])
      case None =>
      case Some(v1) => PushesAppend(v1, a[1..], b, off + 1, next);
    } else {
      assert a + b == b;
    }
  }

  /** The cell of stack `k` starts at column `4 * k`; its crate lands on stack `k`. */
  lemma CellPushes(v: Stacks, o: Option<char>, k: nat)
    requires k < |v| && (o.Some? ==> 'A' <= o.value <= 'Z')
    ensures Pushes(v, Cell(o) + " ", 4 * k) == Some(if o.Some? then v[k := v[k] + [o.value]] else v)
    ensures Pushes(v, Cell(o), 4 * k) == Some(if o.Some? then v[k := v[k] + [o.value]] else v)
  {
    var c := Cell(o);
    var w := if o.Some? then v[k := v[k] + [o.value]] else v;
    CellChars(v, o, k, w);
    PushesSteps(v, w, c, 4 * k);
    PushesSteps(v, w, c + " ", 4 * k);
  }

  /** Only the letter of a cell, at its second column, lands on a stack: stack `k`. */
  lemma CellChars(v: Stacks, o: Option<char>, k: nat, w: Stacks)
    requires k < |v| && (o.Some? ==> 'A' <= o.value <= 'Z')
    requires w == if o.Some? then v[k := v[k] + [o.value]] else v
    ensures PushChar(v, 4 * k, Cell(o)[0]) == Some(v)
    ensures PushChar(v, 4 * k + 1, Cell(o)[1]) == Some(w)
    ensures PushChar(w, 4 * k + 2, Cell(o)[2]) == Some(w)
  {
    assert (4 * k + 1 + 3) / 4 - 1 == k;
  }

  lemma PushesSteps(v: Stacks, w: Stacks, c: string, off: nat)
    requires |c| >= 3 && (|c| == 3 || (|c| == 4 && c[3] == ' '))
    requires PushChar(v, off, c[0]) == Some(v) && PushChar(v, off + 1, c[1]) == Some(w)
    requires PushChar(w, off + 2, c[2]) == Some(w)
    ensures Pushes(v, c, off) == Some(w)
  {
    var c1 := c[1..];
    var c2 := c1[1..];
    var c3 := c2[1..];
    assert c1[0] == c[1] && c2[0] == c[2];
    if |c| == 4 {
      assert c3[0] == ' ' && c3[1..] == [];
      assert Pushes(w, c3, off + 3) == Some(w);
    } else {
      assert c3 == [];
    }
    assert Pushes(w, c2, off + 2) == Some(w);
    assert Pushes(v, c1, off + 1) == Some(w);
  }

  /** Reading a drawn line pushes each cell's crate on its own stack. */
  lemma {:induction false} RowPushes(v: Stacks, cells: seq<Option<char>>, k: nat, off: nat)
    requires |cells| >= 1 && k + |cells| <= |v| && CrateCells(cells) && off == 4 * k
    ensures Pushes(v, Row(cells), off) == Some(AddCells(v, cells, k))
    decreases |cells|
  {
    var v1 := if cells[0].Some? then v[k := v[k] + [cells[0].value]] else v;
    if |cells| > 1 {
      RowPushes(v1, cells[1..], k + 1, off + 4);
      RowStep(v, cells, k, off);
    } else {
      CellPushes(v, cells[0], k);
      assert AddCells(v1, cells[1..], k + 1) == v1;
    }
  }

  /** The first cell and its separator, then the rest of the line. */
  lemma RowStep(v: Stacks, cells: seq<Option<char>>, k: nat, off: nat)
    requires |cells| > 1 && k + |cells| <= |v| && CrateCells(cells) && off == 4 * k
    requires var v1 := if cells[0].Some? then v[k := v[k] + [cells[0].value]] else v;
      Pushes(v1, Row(cells[1..]), off + 4) == Some(AddCells(v1, cells[1..], k + 1))
    ensures Pushes(v, Row(cells), off) == Some(AddCells(v, cells, k))
  {
    var v1 := if cells[0].Some? then v[k := v[k] + [cells[0].value]] else v;
    var c := Cell(cells[0]) + " ";
    var rest := Row(cells[1..]);
    assert Row(cells) == c + rest;
    assert Pushes(v, c, off) == Some(v1) by {
      CellPushes(v, cells[0], k);
    }
    PushesAppend(v, c, rest, off, off + 4);
    assert AddCells(v, cells, k) == AddCells(v1, cells[1..], k + 1);
  }

  /** Pushing level `h - 1` on what the levels from `h` up leave. */
  lemma AddLevel(s: Stacks, h: nat)
    requires h >= 1
    ensures AddCells(Above(s, h), Level(s, h - 1), 0) == Above(s, h - 1)
  {
    var w := AddCells(Above(s, h), Level(s, h - 1), 0);
    forall j | 0 <= j < |s|
      ensures w[j] == Above(s, h - 1)[j]
    {
      if h - 1 < |s[j]| {
        var t := s[j][h - 1..];
        assert t[1..] == s[j][h..];
        assert Reverse(t) == Reverse(t[1..]) + [t[0]];
      }
    }
  }

  /** A drawn line is read onto the stacks resized to its width. */
  lemma ReadRow(v: Stacks, cells: seq<Option<char>>)
    requires |cells| >= 1 && CrateCells(cells)
    ensures AddLine(v, Row(cells)) == Some(AddCells(Resize(v, |cells|), cells, 0))
  {
    var u := Resize(v, |cells|);
    assert (|Row(cells)| + 1) / 4 == |cells| by {
      RowWidth(cells);
    }
    assert Pushes(u, Row(cells), 0) == Some(AddCells(u, cells, 0)) by {
      RowPushes(u, cells, 0, 0);
    }
    AddLineWidth(v, Row(cells), |cells|);
  }

  lemma AddLineWidth(v: Stacks, line: string, n: nat)
    requires n == (|line| + 1) / 4
    ensures AddLine(v, line) == Pushes(Resize(v, n), line, 0)
  {
  }

  /** The line drawn for level `h - 1` is read onto what the levels above it left. */
  lemma ReadLevel(s: Stacks, h: nat, v: Stacks)
    requires |s| >= 1 && h >= 1 && Crates(s)
    requires Resize(v, |s|) == Above(s, h)
    ensures AddLine(v, Row(Level(s, h - 1))) == Some(Above(s, h - 1))
  {
    var cells := Level(s, h - 1);
    assert CrateCells(cells);
    ReadRow(v, cells);
    AddLevel(s, h);
  }

  /** Reading the drawing of the levels below `h`, starting from stacks that resize to what
      the levels from `h` up leave, leaves every stack top crate first. */
  lemma {:induction false} DrawingLayers(s: Stacks, h: nat, v: Stacks)
    requires |s| >= 1 && h >= 1 && Crates(s)
    requires Resize(v, |s|) == Above(s, h)
    ensures Layers(v, Drawing(s, h)) == Some(Above(s, 0))
    decreases h
  {
    var w := Above(s, h - 1);
    ReadLevel(s, h, v);
    LayersCons(v, Row(Level(s, h - 1)), Drawing(s, h - 1), w);
    if h > 1 {
      ResizeSame(w);
      DrawingLayers(s, h - 1, w);
    }
  }

  /** Reading a first line that succeeds continues from what it left. */
  lemma LayersCons(v: Stacks, line: string, rest: seq<string>, w: Stacks)
    requires AddLine(v, line) == Some(w)
    ensures Layers(v, [line] + rest) == Layers(w, rest)
  {
    assert ([line] + rest)[1..] == rest;
  }

  lemma ResizeSame(v: Stacks)
    ensures Resize(v, |v|) == v
  {
  }

  lemma {:induction false} ReverseReverse<T>(x: seq<T>)
    ensures Reverse(Reverse(x)) == x
  {
    if x != [] {
      ReverseReverse(x[1..]);
      ReverseSnoc(Reverse(x[1..]), x[0]);
      assert x == [x[0]] + x[1..];
    }
  }

  lemma {:induction false} ReverseSnoc<T>(x: seq<T>, a: T)
    ensures Reverse(x + [a]) == [a] + Reverse(x)
  {
    if x != [] {
      assert (x + [a])[1..] == x[1..] + [a];
      ReverseSnoc(x[1..], a);
    } else {
      assert [] + [a] == [a];
    }
  }

  lemma BottomUp(s: Stacks)
    ensures ReverseAll(Above(s, 0)) == s
  {
    forall k | 0 <= k < |s| ensures ReverseAll(Above(s, 0))[k] == s[k] {
      assert s[k][0..] == s[k];
      ReverseReverse(s[k]);
    }
  }

  /** Drawing stacks of capital letters, at least as many levels as the tallest stack, and
      reading the drawing back gives the stacks. */
  lemma StructureRoundTrip(s: Stacks, h: nat)
    requires |s| >= 1 && h >= 1 && Crates(s)
    requires forall k :: 0 <= k < |s| ==> |s[k]| <= h
    ensures Structure(Drawing(s, h)) == Some(s)
  {
    assert Resize([], |s|) == Above(s, h);
    DrawingLayers(s, h, []);
    BottomUp(s);
  }

  /** No drawn line starts like the stack numbers, so `take_while` passes the whole drawing
      and stops at the numbers line. */
  lemma DiagramOfDrawing(s: Stacks, h: nat, numbers: string, rest: seq<string>)
    requires |s| >= 1 && Crates(s) && StartsWith(numbers, " 1")
    ensures Diagram(Drawing(s, h) + [numbers] + rest) == h
    ensures AfterDiagram(Drawing(s, h) + [numbers] + rest) == h + 1
  {
    var lines := Drawing(s, h) + [numbers] + rest;
    forall j | 0 <= j < h ensures !StartsWith(lines[j], " 1") {
      assert lines[j] == Drawing(s, h)[j];
      DrawingLine(s, h, j);
      assert |lines[j]| >= 2 ==> lines[j][..2][1] == lines[j][1];
    }
    assert lines[h] == numbers;
  }

  lemma {:induction false} DrawingLine(s: Stacks, h: nat, j: nat)
    requires |s| >= 1 && Crates(s) && j < h
    ensures |Drawing(s, h)[j]| >= 2 && Drawing(s, h)[j][1] != '1'
    decreases h
  {
    if j > 0 {
      DrawingLine(s, h - 1, j - 1);
      assert Drawing(s, h)[j] == Drawing(s, h - 1)[j - 1];
    }
  }

  // ----- Commands -----

  /** `parse_commands` on one line. Byte 6 is a space when the count has one digit; otherwise
      (also when there is no byte 6) the count has two, and the stack numbers sit one column
      further right. `None` is a panic: a line too short to slice, or a slice that is not a
      number. */
  function ParseCommand(line: string): Option<Command>
  {
    var twoDigit := |line| <= 6 || line[6] != ' ';
    var w := if twoDigit then 1 else 0;
    if |line| < 18 + w then None
    else
      match (ParseNat(line[5..6 + w]), ParseNat(line[12 + w..13 + w]), ParseNat(line[17 + w..18 + w]))
      case (Some(count), Some(from), Some(to)) => Some(Command(count, from, to))
      case _ => None
  }

  function RenderCommand(c: Command): string
  {
    "move " + NatToString(c.count) + " from " + NatToString(c.from) + " to " + NatToString(c.to)
  }

  /** Commands with a count below 100 and stacks 0 to 9 read back as written. */
  lemma CommandRoundTrip(c: Command)
    requires c.count < 100 && c.from < 10 && c.to < 10
    ensures ParseCommand(RenderCommand(c)) == Some(c)
  {
    var n, f, t := NatToString(c.count), NatToString(c.from), NatToString(c.to);
    var line := RenderCommand(c);
    var w := |n| - 1;
    if c.count >= 10 {
      assert n == NatToString(c.count / 10) + [DigitChar(c.count % 10)];
    }
    assert |n| == 1 || |n| == 2;
    assert |f| == 1 && |t| == 1;
    assert |line| == 18 + w;
    assert line[5] == n[0];
    assert line[6] == if w == 1 then n[1] else ' ';
    assert line[5..6 + w] == n;
    assert line[12 + w] == f[0];
    assert line[17 + w] == t[0];
    assert line[12 + w..13 + w] == f;
    assert line[17 + w..18 + w] == t;
    ParseNatRoundTrip(c.count);
    ParseNatRoundTrip(c.from);
    ParseNatRoundTrip(c.to);
  }

  /** `parse_commands`: every line, in order; one bad line is a panic. */
  function ParseCommands(lines: seq<string>): (r: Option<seq<Command>>)
    ensures r.Some? <==> forall i :: 0 <= i < |lines| ==> ParseCommand(lines[i]).Some?
    ensures r.Some? ==> |r.value| == |lines|
    ensures r.Some? ==> forall i :: 0 <= i < |lines| ==> Some(r.value[i]) == ParseCommand(lines[i])
  {
    if lines == [] then Some([])
    else
      match (ParseCommand(lines[0]), ParseCommands(lines[1..]))
      case (Some(c), Some(cs)) => Some([c] + cs)
      case _ => None
  }

  // ----- The two parts -----

  /** `lines().filter(|l| !l.is_empty())`. */
  function NonEmpty(lines: seq<string>): (r: seq<string>)
    ensures forall i :: 0 <= i < |r| ==> r[i] != ""
    ensures |r| <= |lines|
  {
    if lines == [] then []
    else if lines[0] == "" then NonEmpty(lines[1..])
    else [lines[0]] + NonEmpty(lines[1..])
  }

  /** The stacks and the commands of a puzzle input. */
  function Setup(input: string): Option<(Stacks, seq<Command>)>
  {
    var lines := NonEmpty(Lines(input));
    match (Structure(lines[..Diagram(lines)]), ParseCommands(lines[AfterDiagram(lines)..]))
    case (Some(s), Some(cs)) => Some((s, cs))
    case _ => None
  }

  /** The answer of part 1 (`quickly` false) or part 2. */
  function Answer(input: string, quickly: bool): Option<string>
  {
    match Setup(input)
    case None => None
    case Some((s, cs)) =>
      match (if quickly then ApplyQuicklySpec(s, cs) else ApplySlowlySpec(s, cs))
      case None => None
      case Some(r) => Tops(r)
  }

  method Solve(input: string, quickly: bool) returns (r: Option<string>)
    ensures r == Answer(input, quickly)
  {
    var lines := NonEmpty(Lines(input));
    var s, next := ParseStructure(lines);
    if s.None? {
      return None;
    }
    var cs := ParseCommands(lines[next..]);
    if cs.None? {
      return None;
    }
    var stacks := s.value;
    var items := new seq<char>[|stacks|](i requires 0 <= i < |stacks| => stacks[i]);
    assert items[..] == stacks;
    var ok;
    if quickly {
      ok := ApplyActionsQuickly(items, cs.value);
    } else {
      ok := ApplyActionsSlowly(items, cs.value);
    }
    if !ok {
      return None;
    }
    r := Tops(items[..]);
  }

  method Part1(input: string) returns (r: Option<string>)
    ensures r == Answer(input, false)
  {
    r := Solve(input, false);
  }

  method Part2(input: string) returns (r: Option<string>)
    ensures r == Answer(input, true)
  {
    r := Solve(input, true);
  }
}
