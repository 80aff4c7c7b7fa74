/** Day 10: a CPU with one register and two instructions, `noop` (one cycle) and `addx v`
    (two cycles, then the register changes). A callback observes every cycle: part 1 sums
    signal strengths at six cycles, part 2 draws a 40 by 6 screen. */
module Day10 {
  import opened Basics
  import opened Text

  datatype Instruction = Noop | Addx(change: int)

  /** What the callback sees: the cycle number and the register during that cycle. */
  datatype Observation = Observation(cycle: nat, register: int)

  /** The computer's fields: `register`, `cycle` and `instr_ct`. */
  datatype State = State(register: int, cycle: nat, instrCt: nat)

  /** `Computer::new`. */
  const Start := State(1, 0, 0)

  /** The state after one instruction. */
  function Step(s: State, ins: Instruction): State
  {
    match ins
    case Noop => State(s.register, s.cycle + 1, s.instrCt + 1)
    case Addx(c) => State(s.register + c, s.cycle + 2, s.instrCt + 1)
  }

  /** The callbacks of one instruction: one per cycle, each seeing the register as it was
      before the instruction. */
  function Emitted(s: State, ins: Instruction): seq<Observation>
  {
    match ins
    case Noop => [Observation(s.cycle + 1, s.register)]
    case Addx(_) => [Observation(s.cycle + 1, s.register), Observation(s.cycle + 2, s.register)]
  }

  /** The state after running `instrs` from `Start`. */
  function Final(instrs: seq<Instruction>): State
  {
    if instrs == [] then Start
    else Step(Final(instrs[..|instrs| - 1]), instrs[|instrs| - 1])
  }

  /** Every callback of running `instrs` from `Start`, in order. */
  function Trace(instrs: seq<Instruction>): seq<Observation>
  {
    if instrs == [] then []
    else
      var init := instrs[..|instrs| - 1];
      Trace(init) + Emitted(Final(init), instrs[|instrs| - 1])
  }

  /** The sum of the `addx` changes. */
  function Changes(instrs: seq<Instruction>): int
  {
    if instrs == [] then 0
    else
      var last := instrs[|instrs| - 1];
      Changes(instrs[..|instrs| - 1]) + (if last.Addx? then last.change else 0)
  }

  /** Over any program the callbacks see cycles 1, 2, 3, ... with no gap, the cycle counter
      ends at the number of callbacks, every instruction counts once, and the register ends
      at 1 plus the `addx` changes. */
  lemma {:induction false} TraceCycles(instrs: seq<Instruction>)
    ensures var t, f := Trace(instrs), Final(instrs);
      && |t| == f.cycle
      && (forall k :: 0 <= k < |t| ==> t[k].cycle == k + 1)
      && f.instrCt == |instrs|
      && f.register == 1 + Changes(instrs)
  {
    if instrs != [] {
      var init := instrs[..|instrs| - 1];
      TraceCycles(init);
    }
  }

  /** Each callback sees the register as the instructions before its own left it: an `addx`
      takes effect only after both of its cycles. */
  lemma ObservedRegister(instrs: seq<Instruction>, i: nat)
    requires i < |instrs|
    ensures var e := Emitted(Final(instrs[..i]), instrs[i]);
      forall k :: 0 <= k < |e| ==> e[k].register == 1 + Changes(instrs[..i])
  {
    TraceCycles(instrs[..i]);
  }

  /** The puzzle's small program `noop`, `addx 3`, `addx -5`: cycles 1 to 5 see 1, 1, 1, 4, 4
      and the register ends at -1. */
  lemma SmallProgram()
    ensures Trace([Noop, Addx(3), Addx(-5)]) ==
      [Observation(1, 1), Observation(2, 1), Observation(3, 1), Observation(4, 4), Observation(5, 4)]
    ensures Final([Noop, Addx(3), Addx(-5)]) == State(-1, 5, 3)
  {
    var p := [Noop, Addx(3), Addx(-5)];
    assert p[..2] == [Noop, Addx(3)] && p[..2][..1] == [Noop] && [Noop][..0] == [];
  }

  class Computer {
    var register: int
    var cycle: nat
    var instrCt: nat

    function Snapshot(): State
      reads this
    {
      State(register, cycle, instrCt)
    }

    /** `Computer::new`: register 1, cycle 0, no instruction run. */
    constructor ()
      ensures Snapshot() == Start
    {
      register := 1;
      cycle := 0;
      instrCt := 0;
    }

    /** `apply_instruction`: the callbacks it makes are returned, in order. */
    method ApplyInstruction(ins: Instruction) returns (seen: seq<Observation>)
      modifies this
      ensures Snapshot() == Step(old(Snapshot()), ins)
      ensures seen == Emitted(old(Snapshot()), ins)
    {
      instrCt := instrCt + 1;
      match ins {
        case Noop =>
          cycle := cycle + 1;
          seen := [Observation(cycle, register)];
        case Addx(change) =>
          cycle := cycle + 1;
          seen := [Observation(cycle, register)];
          cycle := cycle + 1;
          seen := seen + [Observation(cycle, register)];
          register := register + change;
      }
    }
  }

  /** One line of `instructions`. `None` is a panic: an empty line (`s[0..1]`), or an
      `addx` line shorter than 5 bytes or whose operand does not parse. */
  function ParseInstruction(s: string): Option<Instruction>
  {
    if |s| == 0 then None
    else if s[0] == 'n' then Some(Noop)
    else if |s| < 5 then None
    else
      match ParseInt(s[5..])
      case Some(v) => Some(Addx(v))
      case None => None
  }

  function Render(ins: Instruction): string
  {
    match ins
    case Noop => "noop"
    case Addx(v) => "addx " + IntToString(v)
  }

  /** Parsing an instruction's line gives the instruction back. */
  lemma ParseRender(ins: Instruction)
    ensures ParseInstruction(Render(ins)) == Some(ins)
  {
    if ins.Addx? {
      var s := Render(ins);
      assert s[5..] == IntToString(ins.change);
      ParseIntRoundTrip(ins.change);
    }
  }

  /** `instructions`: every line parsed; `None` when any line panics. */
  function ParseAll(lines: seq<string>): (r: Option<seq<Instruction>>)
    ensures r.Some? <==> forall i :: 0 <= i < |lines| ==> ParseInstruction(lines[i]).Some?
    ensures r.Some? ==>
      && |r.value| == |lines|
      && forall i :: 0 <= i < |lines| ==> r.value[i] == ParseInstruction(lines[i]).value
  {
    if lines == [] then Some([])
    else
      var rest := ParseAll(lines[1..]);
      assert forall i :: 1 <= i < |lines| ==> lines[i] == lines[1..][i - 1];
      match (ParseInstruction(lines[0]), rest)
      case (Some(ins), Some(tail)) => Some([ins] + tail)
      case _ => None
  }

  /** Part 1's callback: `cycle * register` at cycles 20, 60, 100, 140, 180 and 220. */
  function Strength(o: Observation): int
  {
    if o.cycle in {20, 60, 100, 140, 180, 220} then o.cycle * o.register else 0
  }

  function Signal(trace: seq<Observation>): int
  {
    if trace == [] then 0 else Signal(trace[..|trace| - 1]) + Strength(trace[|trace| - 1])
  }

  /** The part 1 callback applied to each observation of `seen` in turn. */
  method Accumulate(ghost before: seq<Observation>, strength: int, seen: seq<Observation>) returns (r: int)
    requires strength == Signal(before)
    ensures r == Signal(before + seen)
  {
    r := strength;
    assert before + seen[..0] == before;
    for j := 0 to |seen|
      invariant r == Signal(before + seen[..j])
    {
      assert (before + seen[..j + 1])[..|before| + j] == before + seen[..j];
      r := r + Strength(seen[j]);
    }
    assert seen[..|seen|] == seen;
  }

  /** Runs `instrs` on a fresh computer, adding up the part 1 strengths of its callbacks. */
  method SignalStrength(instrs: seq<Instruction>) returns (strength: int)
    ensures strength == Signal(Trace(instrs))
  {
    var computer := new Computer();
    strength := 0;
    for i := 0 to |instrs|
      invariant computer.Snapshot() == Final(instrs[..i])
      invariant strength == Signal(Trace(instrs[..i]))
    {
      assert instrs[..i + 1][..i] == instrs[..i];
      var seen := computer.ApplyInstruction(instrs[i]);
      strength := Accumulate(Trace(instrs[..i]), strength, seen);
    }
    assert instrs[..|instrs|] == instrs;
  }

  /** `part_1`. */
  method Part1(input: string) returns (r: Option<int>)
    ensures r.Some? <==> ParseAll(Lines(input)).Some?
    ensures r.Some? ==> r.value == Signal(Trace(ParseAll(Lines(input)).value))
  {
    var parsed := ParseAll(Lines(input));
    if parsed.None? {
      return None;
    }
    var s := SignalStrength(parsed.value);
    r := Some(s);
  }

  /** The screen before drawing: 6 rows of 40 dots, each followed by a newline at index
      `i * 41 + 40`. */
  function Blank(): (b: seq<char>)
    ensures |b| == 246
  {
    seq(246, j => if j % 41 == 40 then '\n' else '.')
  }

  /** The sprite, three pixels wide around `register`, covers column `col`. */
  predicate Covers(register: int, col: int)
  {
    register == col || register + 1 == col || register - 1 == col
  }

  /** Part 2's callback on one observation. The pixel drawn during cycle `c` is column
      `(c - 1) % 40` of row `(c - 1) / 40`, at index `row * 41 + col`; it is lit when the sprite
      covers the column. Division and remainder truncate, so cycle 0 would give column -1.
      `None` is the out-of-bounds panic of a lit pixel past the last row. */
  function Paint(pixels: seq<char>, o: Observation): Option<seq<char>>
    requires |pixels| == 246
  {
    var z := o.cycle as int - 1;
    var col := if z < 0 then -1 else z % 40;
    var row := if z < 0 then 0 else z / 40;
    if !Covers(o.register, col) then Some(pixels)
    else if 0 <= row * 41 + col < 246 then Some(pixels[row * 41 + col := '#'])
    else None
  }

  /** The screen after the callbacks of `trace`; `None` once one panics. */
  function Draw(trace: seq<Observation>): (r: Option<seq<char>>)
    ensures r.Some? ==> |r.value| == 246
  {
    if trace == [] then Some(Blank())
    else
      match Draw(trace[..|trace| - 1])
      case None => None
      case Some(p) => Paint(p, trace[|trace| - 1])
  }

  /** What the screen shows at index `j` after the callbacks `trace` of cycles 1, 2, ...: the
      newline at the end of each row, else `#` when the cycle drawing that pixel was observed
      and the sprite covered it, else `.`. */
  function Pixel(trace: seq<Observation>, j: nat): char
    requires j < 246
  {
    var row, col := j / 41, j % 41;
    if col == 40 then '\n'
    else if row * 40 + col < |trace| && Covers(trace[row * 40 + col].register, col) then '#'
    else '.'
  }

  /** Drawing fails exactly when a lit pixel falls past the sixth row; otherwise every pixel
      of the screen is `Pixel`. */
  lemma {:induction false} DrawMeaning(trace: seq<Observation>)
    requires forall k :: 0 <= k < |trace| ==> trace[k].cycle == k + 1
    ensures Draw(trace).None? <==> exists k :: 240 <= k < |trace| && Covers(trace[k].register, k % 40)
    ensures Draw(trace).Some? ==> forall j :: 0 <= j < 246 ==> Draw(trace).value[j] == Pixel(trace, j)
  {
    if trace != [] {
      var n := |trace| - 1;
      var init, o := trace[..n], trace[n];
      assert forall k :: 0 <= k < |init| ==> init[k] == trace[k];
      DrawMeaning(init);
      IndexInRange(n);
      if exists k :: 240 <= k < |trace| && Covers(trace[k].register, k % 40) {
        var k :| 240 <= k < |trace| && Covers(trace[k].register, k % 40);
        if k < n {
          assert init[k] == trace[k];
        }
      }
      if Draw(init).Some? {
        var p := Draw(init).value;
        assert Draw(trace) == Paint(p, o);
        forall j | 0 <= j < 246
          ensures Draw(trace).Some? ==> Draw(trace).value[j] == Pixel(trace, j)
        {
          if j % 41 < 40 {
            PixelIndex(j, n);
            var k := (j / 41) * 40 + j % 41;
            if k < n {
              assert trace[k] == init[k];
            }
          }
        }
      }
    } else {
      forall j | 0 <= j < 246 ensures Blank()[j] == Pixel(trace, j) {
      }
    }
  }

  /** The pixel of zero-based cycle `n` lies on the screen exactly for the first 240 cycles. */
  lemma IndexInRange(n: nat)
    ensures 0 <= (n / 40) * 41 + n % 40 < 246 <==> n < 240
  {
  }

  /** Index `j` with column below 40 is the pixel of zero-based cycle `n` exactly when
      `n` is row `j / 41` times 40 plus column `j % 41`. */
  lemma PixelIndex(j: nat, n: nat)
    requires j % 41 < 40
    ensures (j / 41) * 40 + j % 41 == n <==> j == (n / 40) * 41 + n % 40
  {
  }

  /** One callback of part 2 on the pixel array. */
  method PaintPixel(pixels: array<char>, o: Observation) returns (ok: bool)
    requires pixels.Length == 246
    modifies pixels
    ensures ok <==> Paint(old(pixels[..]), o).Some?
    ensures ok ==> pixels[..] == Paint(old(pixels[..]), o).value
  {
    var z := o.cycle as int - 1;
    var col := if z < 0 then -1 else z % 40;
    var row := if z < 0 then 0 else z / 40;
    if o.register == col || o.register + 1 == col || o.register - 1 == col {
      var idx := row * 41 + col;
      if idx < 0 || idx >= 246 {
        return false;
      }
      pixels[idx] := '#';
    }
    return true;
  }

  /** The part 2 callback applied to each observation of `seen` in turn; `false` is a panic. */
  method PaintAll(pixels: array<char>, ghost before: seq<Observation>, seen: seq<Observation>) returns (ok: bool)
    requires pixels.Length == 246 && Draw(before) == Some(pixels[..])
    modifies pixels
    ensures ok <==> Draw(before + seen).Some?
    ensures ok ==> Draw(before + seen) == Some(pixels[..])
  {
    assert before + seen[..0] == before;
    for j := 0 to |seen|
      invariant Draw(before + seen[..j]) == Some(pixels[..])
    {
      assert (before + seen[..j + 1])[..|before| + j] == before + seen[..j];
      ok := PaintPixel(pixels, seen[j]);
      if !ok {
        DrawPrefix(before + seen, |before| + j + 1);
        assert (before + seen)[..|before| + j + 1] == before + seen[..j + 1];
        return false;
      }
    }
    assert seen[..|seen|] == seen;
    return true;
  }

  /** A panic stays a panic: once a prefix of the callbacks fails, the whole run does. */
  lemma {:induction false} DrawPrefix(t: seq<Observation>, m: nat)
    requires m <= |t| && Draw(t[..m]).None?
    ensures Draw(t).None?
    decreases |t| - m
  {
    if m < |t| {
      assert t[..m + 1][..m] == t[..m];
      DrawPrefix(t, m + 1);
    } else {
      assert t[..m] == t;
    }
  }

  /** The callbacks of a prefix of the program are a prefix of its callbacks. */
  lemma {:induction false} TracePrefix(instrs: seq<Instruction>, m: nat)
    requires m <= |instrs|
    ensures |Trace(instrs[..m])| <= |Trace(instrs)|
    ensures Trace(instrs)[..|Trace(instrs[..m])|] == Trace(instrs[..m])
    decreases |instrs| - m
  {
    if m < |instrs| {
      TracePrefix(instrs, m + 1);
      var a, b := Trace(instrs[..m]), Trace(instrs[..m + 1]);
      assert instrs[..m + 1][..m] == instrs[..m];
      assert b[..|a|] == a;
    } else {
      assert instrs[..m] == instrs;
    }
  }

  /** Runs `instrs` on a fresh computer, drawing each cycle's pixel. */
  method DrawScreen(instrs: seq<Instruction>) returns (r: Option<seq<char>>)
    ensures r == Draw(Trace(instrs))
  {
    var pixels := new char[246](_ => '.');
    for i := 0 to 6
      invariant forall j :: 0 <= j < 246 ==> pixels[j] == if j % 41 == 40 && j / 41 < i then '\n' else '.'
    {
      pixels[i * 41 + 40] := '\n';
    }
    assert pixels[..] == Blank();
    assert instrs[..0] == [];
    var computer := new Computer();
    for i := 0 to |instrs|
      invariant computer.Snapshot() == Final(instrs[..i])
      invariant Draw(Trace(instrs[..i])) == Some(pixels[..])
    {
      assert instrs[..i + 1][..i] == instrs[..i];
      var seen := computer.ApplyInstruction(instrs[i]);
      var ok := PaintAll(pixels, Trace(instrs[..i]), seen);
      if !ok {
        TracePrefix(instrs, i + 1);
        DrawPrefix(Trace(instrs), |Trace(instrs[..i + 1])|);
        return None;
      }
    }
    assert instrs[..|instrs|] == instrs;
    return Some(pixels[..]);
  }

  /** `part_2`: the screen as text. */
  method Part2(input: string) returns (r: Option<seq<char>>)
    ensures r.Some? ==> ParseAll(Lines(input)).Some?
    ensures r.Some? ==> r == Draw(Trace(ParseAll(Lines(input)).value))
    ensures ParseAll(Lines(input)).Some? ==> r == Draw(Trace(ParseAll(Lines(input)).value))
  {
    var parsed := ParseAll(Lines(input));
    if parsed.None? {
      return None;
    }
    r := DrawScreen(parsed.value);
  }
}
