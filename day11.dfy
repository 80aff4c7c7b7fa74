/** Day 11: monkeys pass items between their queues. On its turn a monkey inspects each item
    in order: the worry level goes through its operation and then the part's relief, and the
    item is thrown to the back of one of two other monkeys' queues by a divisibility test.
    The answer multiplies the two largest inspection counts. */
module Day11 {
  import opened Basics
  import opened Text

  // ----- Operations -----

  /** `Operation`: how a monkey changes the worry level of an item it inspects. */
  datatype Operation = Square | Multiply(n: nat) | Add(n: nat)

  /** `apply_operation`. Machine-width overflow is not modelled. */
  function Apply(operation: Operation, item: nat): (r: nat)
    ensures operation.Square? ==> r == item * item
    ensures operation.Multiply? ==> r == item * operation.n
    ensures operation.Add? ==> r == item + operation.n
  {
    match operation
    case Square => item * item
    case Multiply(n) => item * n
    case Add(n) => item + n
  }

  /** `parse_operation`, on the text after `new = old `: the operator, a space, then `old` or
      a number. Only the first letter of `old` is looked at. `None` is a panic: an empty
      string, a slice past the end, a number that does not parse or another operator. */
  function ParseOperation(input: string): Option<Operation>
  {
    if |input| < 1 then None
    else if input[0] == '+' then
      if |input| < 2 then None
      else
        match ParseNat(input[2..])
        case None => None
        case Some(n) => Some(Add(n))
    else if input[0] == '*' then
      if |input| < 3 then None
      else if input[2] == 'o' then Some(Square)
      else
        match ParseNat(input[2..])
        case None => None
        case Some(n) => Some(Multiply(n))
    else None
  }

  /** The operation as the puzzle writes it. */
  function RenderOperation(operation: Operation): string
  {
    match operation
    case Square => "* old"
    case Multiply(n) => "* " + NatToString(n)
    case Add(n) => "+ " + NatToString(n)
  }

  /** Parsing a written operation gives it back. */
  lemma OperationRoundTrip(operation: Operation)
    ensures ParseOperation(RenderOperation(operation)) == Some(operation)
  {
    match operation
    case Square =>
    case Multiply(n) =>
      var s := RenderOperation(operation);
      assert s[0] == '*' && s[2..] == NatToString(n);
      assert s[2] == NatToString(n)[0];
      ParseNatRoundTrip(n);
    case Add(n) =>
      var s := RenderOperation(operation);
      assert s[0] == '+' && s[2..] == NatToString(n);
      ParseNatRoundTrip(n);
  }

  /** Only `+` and `*` are operators: anything else, and the empty string, panics. */
  lemma OperationNeedsOperator(input: string)
    requires |input| == 0 || (input[0] != '+' && input[0] != '*')
    ensures ParseOperation(input).None?
  {
  }

  // ----- Monkeys -----

  /** `Monkey`: its queue, front first, how it treats an item, and how many it inspected. */
  datatype Monkey = Monkey(
    items: seq<nat>,
    operation: Operation,
    inspectCount: nat,
    testDivisor: nat,
    testTrueId: nat,
    testFalseId: nat)

  /** The fields a turn never changes. */
  datatype Rule = Rule(operation: Operation, testDivisor: nat, testTrueId: nat, testFalseId: nat)

  function RuleOf(m: Monkey): Rule
  {
    Rule(m.operation, m.testDivisor, m.testTrueId, m.testFalseId)
  }

  function Rules(ms: seq<Monkey>): (rs: seq<Rule>)
    ensures |rs| == |ms|
  {
    seq(|ms|, i requires 0 <= i < |ms| => RuleOf(ms[i]))
  }

  /** Every divisor is positive and every monkey throws to two other monkeys that exist.
      Where a rule breaks this and fires, `%` panics, an index is out of range, or a monkey
      throws to itself and its turn never ends. The model refuses such lists even when the
      broken rule never fires. */
  predicate ValidRules(rs: seq<Rule>)
  {
    forall i :: 0 <= i < |rs| ==>
      && rs[i].testDivisor > 0
      && rs[i].testTrueId < |rs| && rs[i].testTrueId != i
      && rs[i].testFalseId < |rs| && rs[i].testFalseId != i
  }

  predicate Valid(ms: seq<Monkey>)
  {
    ValidRules(Rules(ms))
  }

  /** The `on_worry` closure of each part: part 1 divides by 3, part 2 reduces modulo the
      product of the divisors. `Unreduced` leaves worry levels as they are: no part uses it;
      it is the reference part 2's reduction is measured against. */
  datatype Relief = DivideByThree | Modulo(divisors: nat) | Unreduced

  predicate ReliefOk(relief: Relief)
  {
    relief.Modulo? ==> relief.divisors > 0
  }

  function OnWorry(relief: Relief, worry: nat): nat
    requires ReliefOk(relief)
  {
    match relief
    case DivideByThree => worry / 3
    case Modulo(d) => worry % d
    case Unreduced => worry
  }

  /** The new worry level of an item once inspected. */
  function Inspect(rule: Rule, item: nat, relief: Relief): nat
    requires ReliefOk(relief)
  {
    OnWorry(relief, Apply(rule.operation, item))
  }

  /** Where the test sends an item: `test_true_id` exactly when the divisor divides it. */
  function Target(rule: Rule, worry: nat): nat
    requires rule.testDivisor > 0
  {
    if worry % rule.testDivisor == 0 then rule.testTrueId else rule.testFalseId
  }

  /** One pass of the `while let` loop: pop the front item, count it, throw it. */
  function Throw(ms: seq<Monkey>, idx: nat, relief: Relief): (r: seq<Monkey>)
    requires Valid(ms) && ReliefOk(relief) && idx < |ms| && ms[idx].items != []
    ensures Rules(r) == Rules(ms)
    ensures |r[idx].items| == |ms[idx].items| - 1
  {
    var m := ms[idx];
    var rule := Rules(ms)[idx];
    var worry := Inspect(rule, m.items[0], relief);
    var t := Target(rule, worry);
    var popped := ms[idx := m.(items := m.items[1..], inspectCount := m.inspectCount + 1)];
    var r := popped[t := popped[t].(items := popped[t].items + [worry])];
    assert forall i :: 0 <= i < |r| ==> RuleOf(r[i]) == RuleOf(ms[i]);
    r
  }

  /** A monkey's turn: it throws until its queue is empty. */
  function Turn(ms: seq<Monkey>, idx: nat, relief: Relief): (r: seq<Monkey>)
    requires Valid(ms) && ReliefOk(relief) && idx < |ms|
    ensures Rules(r) == Rules(ms)
    decreases |ms[idx].items|
  {
    if ms[idx].items == [] then ms else Turn(Throw(ms, idx, relief), idx, relief)
  }

  /** The turns of the first `k` monkeys, in order. */
  function TurnsUpTo(ms: seq<Monkey>, k: nat, relief: Relief): (r: seq<Monkey>)
    requires Valid(ms) && ReliefOk(relief) && k <= |ms|
    ensures Rules(r) == Rules(ms)
  {
    if k == 0 then ms else Turn(TurnsUpTo(ms, k - 1, relief), k - 1, relief)
  }

  function Round(ms: seq<Monkey>, relief: Relief): (r: seq<Monkey>)
    requires Valid(ms) && ReliefOk(relief)
    ensures Rules(r) == Rules(ms)
  {
    TurnsUpTo(ms, |ms|, relief)
  }

  function Rounds(ms: seq<Monkey>, n: nat, relief: Relief): (r: seq<Monkey>)
    requires Valid(ms) && ReliefOk(relief)
    ensures Rules(r) == Rules(ms)
  {
    if n == 0 then ms else Round(Rounds(ms, n - 1, relief), relief)
  }

  // ----- parse_monkeys -----

  /** Each piece parsed as a number; `None` models the panic of `parse().unwrap()`. */
  function ParseAll(parts: seq<string>): (r: Option<seq<nat>>)
    ensures r.Some? ==> |r.value| == |parts|
  {
    if parts == [] then Some([])
    else
      match (ParseNat(parts[0]), ParseAll(parts[1..]))
      case (Some(n), Some(rest)) => Some([n] + rest)
      case _ => None
  }

  function ItemStrings(items: seq<nat>): (parts: seq<string>)
    ensures |parts| == |items|
  {
    seq(|items|, i requires 0 <= i < |items| => NatToString(items[i]))
  }

  lemma {:induction false} ParseAllRoundTrip(items: seq<nat>)
    ensures ParseAll(ItemStrings(items)) == Some(items)
  {
    if items != [] {
      ParseNatRoundTrip(items[0]);
      ParseAllRoundTrip(items[1..]);
      assert ItemStrings(items)[1..] == ItemStrings(items[1..]);
      assert items == [items[0]] + items[1..];
    }
  }

  /** The text after a fixed column; `None` models the panic of slicing past the end. */
  function From(line: string, column: nat): (r: Option<string>)
    ensures r.Some? <==> column <= |line|
    ensures r.Some? ==> line == line[..column] + r.value
  {
    if column <= |line| then Some(line[column..]) else None
  }

  /** One monkey from its six lines: the header is skipped, the items start at column 18,
      the operation at 23, the divisor at 21 and the two targets at 29 and 30. */
  function ParseMonkey(block: seq<string>): (r: Option<Monkey>)
    requires |block| == 6
    ensures r.Some? ==> r.value.inspectCount == 0
  {
    match (From(block[1], 18), From(block[2], 23), From(block[3], 21), From(block[4], 29), From(block[5], 30))
    case (Some(items), Some(operation), Some(divisor), Some(onTrue), Some(onFalse)) =>
      (match (ParseAll(SplitOn(items, ", ")), ParseOperation(operation), ParseNat(divisor), ParseNat(onTrue), ParseNat(onFalse))
       case (Some(xs), Some(op), Some(d), Some(t), Some(f)) => Some(Monkey(xs, op, 0, d, t, f))
       case _ => None)
    case _ => None
  }

  /** The non-empty lines, in order. */
  function NonEmpty(lines: seq<string>): (r: seq<string>)
    ensures forall k :: 0 <= k < |r| ==> r[k] != ""
    ensures |r| <= |lines|
  {
    if lines == [] then []
    else if lines[0] == "" then NonEmpty(lines[1..])
    else [lines[0]] + NonEmpty(lines[1..])
  }

  lemma {:induction false} NonEmptyKeeps(lines: seq<string>)
    requires forall k :: 0 <= k < |lines| ==> lines[k] != ""
    ensures NonEmpty(lines) == lines
  {
    if lines != [] {
      NonEmptyKeeps(lines[1..]);
      assert lines == [lines[0]] + lines[1..];
    }
  }

  /** Groups of six lines while a whole group remains; lines left over are ignored. */
  function ParseBlocks(lines: seq<string>): (r: Option<seq<Monkey>>)
    ensures r.Some? ==> |r.value| == |lines| / 6
    ensures r.Some? ==> forall i :: 0 <= i < |r.value| ==> r.value[i].inspectCount == 0
    decreases |lines|
  {
    if |lines| < 6 then Some([])
    else
      match (ParseMonkey(lines[..6]), ParseBlocks(lines[6..]))
      case (Some(m), Some(rest)) => Some([m] + rest)
      case _ => None
  }

  /** `parse_monkeys`: empty lines are dropped and the rest read six at a time. */
  function ParseMonkeys(input: string): Option<seq<Monkey>>
  {
    ParseBlocks(NonEmpty(Lines(input)))
  }

  /** The six lines the puzzle writes for a monkey with identifier `id`. */
  function RenderMonkey(m: Monkey, id: nat): (block: seq<string>)
    requires m.items != []
    ensures |block| == 6
  {
    [ "Monkey " + NatToString(id) + ":",
      "  Starting items: " + JoinOn(ItemStrings(m.items), ", "),
      "  Operation: new = old " + RenderOperation(m.operation),
      "  Test: divisible by " + NatToString(m.testDivisor),
      "    If true: throw to monkey " + NatToString(m.testTrueId),
      "    If false: throw to monkey " + NatToString(m.testFalseId) ]
  }

  lemma RenderMonkeyRoundTrip(m: Monkey, id: nat)
    requires m.items != [] && m.inspectCount == 0
    ensures ParseMonkey(RenderMonkey(m, id)) == Some(m)
  {
    var block := RenderMonkey(m, id);
    var parts := ItemStrings(m.items);
    assert block[1][18..] == JoinOn(parts, ", ");
    assert block[2][23..] == RenderOperation(m.operation);
    assert block[3][21..] == NatToString(m.testDivisor);
    assert block[4][29..] == NatToString(m.testTrueId);
    assert block[5][30..] == NatToString(m.testFalseId);
    assert forall k, i :: 0 <= k < |parts| && 0 <= i < |parts[k]| ==> IsDigit(parts[k][i]);
    SplitOnJoin(parts, ", ");
    ParseAllRoundTrip(m.items);
    OperationRoundTrip(m.operation);
    ParseNatRoundTrip(m.testDivisor);
    ParseNatRoundTrip(m.testTrueId);
    ParseNatRoundTrip(m.testFalseId);
  }

  /** The monkeys written one after another, numbered from `id`. */
  function RenderBlocks(ms: seq<Monkey>, id: nat): (lines: seq<string>)
    requires forall i :: 0 <= i < |ms| ==> ms[i].items != []
    ensures |lines| == 6 * |ms|
  {
    if ms == [] then []
    else RenderMonkey(ms[0], id) + RenderBlocks(ms[1..], id + 1)
  }

  /** Every written line is non-empty and holds no newline. */
  lemma {:induction false} RenderedLines(ms: seq<Monkey>, id: nat)
    requires forall i :: 0 <= i < |ms| ==> ms[i].items != []
    ensures forall k :: 0 <= k < |RenderBlocks(ms, id)| ==>
      RenderBlocks(ms, id)[k] != "" && '\n' !in RenderBlocks(ms, id)[k]
  {
    if ms != [] {
      RenderedLines(ms[1..], id + 1);
      MonkeyLines(ms[0], id);
      assert RenderBlocks(ms, id) == RenderMonkey(ms[0], id) + RenderBlocks(ms[1..], id + 1);
    }
  }

  lemma MonkeyLines(m: Monkey, id: nat)
    requires m.items != []
    ensures forall k :: 0 <= k < 6 ==> RenderMonkey(m, id)[k] != "" && '\n' !in RenderMonkey(m, id)[k]
  {
    var block := RenderMonkey(m, id);
    var items := JoinOn(ItemStrings(m.items), ", ");
    JoinOnDigits(ItemStrings(m.items));
    DigitsNoNewline(NatToString(id));
    DigitsNoNewline(NatToString(m.testDivisor));
    DigitsNoNewline(NatToString(m.testTrueId));
    DigitsNoNewline(NatToString(m.testFalseId));
    assert '\n' !in RenderOperation(m.operation) by {
      match m.operation
      case Square =>
      case Multiply(n) => DigitsNoNewline(NatToString(n));
      case Add(n) => DigitsNoNewline(NatToString(n));
    }
    Unbroken("Monkey ", NatToString(id) + ":");
    Unbroken("  Starting items: ", items);
    Unbroken("  Operation: new = old ", RenderOperation(m.operation));
    Unbroken("  Test: divisible by ", NatToString(m.testDivisor));
    Unbroken("    If true: throw to monkey ", NatToString(m.testTrueId));
    Unbroken("    If false: throw to monkey ", NatToString(m.testFalseId));
  }

  /** A non-empty prefix without a newline followed by text without one. */
  lemma Unbroken(prefix: string, text: string)
    requires prefix != [] && '\n' !in prefix && '\n' !in text
    ensures prefix + text != [] && '\n' !in (prefix + text)
  {
  }

  lemma DigitsNoNewline(s: string)
    requires AllDigits(s)
    ensures '\n' !in s
  {
  }

  lemma {:induction false} JoinOnDigits(parts: seq<string>)
    requires |parts| >= 1
    requires forall k :: 0 <= k < |parts| ==> AllDigits(parts[k])
    ensures '\n' !in JoinOn(parts, ", ")
    decreases |parts|
  {
    DigitsNoNewline(parts[0]);
    if |parts| > 1 {
      JoinOnDigits(parts[1..]);
    }
  }

  lemma {:induction false} RenderBlocksRoundTrip(ms: seq<Monkey>, id: nat)
    requires forall i :: 0 <= i < |ms| ==> ms[i].items != [] && ms[i].inspectCount == 0
    ensures ParseBlocks(RenderBlocks(ms, id)) == Some(ms)
  {
    if ms != [] {
      var lines := RenderBlocks(ms, id);
      assert lines[..6] == RenderMonkey(ms[0], id);
      assert lines[6..] == RenderBlocks(ms[1..], id + 1);
      RenderMonkeyRoundTrip(ms[0], id);
      RenderBlocksRoundTrip(ms[1..], id + 1);
      assert ms == [ms[0]] + ms[1..];
    }
  }

  /** Reading back the puzzle text of fresh monkeys gives them back. */
  lemma ParseMonkeysRoundTrip(ms: seq<Monkey>)
    requires ms != []
    requires forall i :: 0 <= i < |ms| ==> ms[i].items != [] && ms[i].inspectCount == 0
    ensures ParseMonkeys(Join(RenderBlocks(ms, 0), '\n')) == Some(ms)
  {
    var lines := RenderBlocks(ms, 0);
    RenderedLines(ms, 0);
    LinesJoin(lines);
    NonEmptyKeeps(lines);
    RenderBlocksRoundTrip(ms, 0);
  }

  /** `process_monkeys`: `rounds` rounds in which every monkey, in order, empties its queue. */
  method ProcessMonkeys(rounds: nat, monkeys: array<Monkey>, relief: Relief)
    requires Valid(monkeys[..]) && ReliefOk(relief)
    modifies monkeys
    ensures monkeys[..] == Rounds(old(monkeys[..]), rounds, relief)
  {
    ghost var start := monkeys[..];
    for round := 0 to rounds
      invariant monkeys[..] == Rounds(start, round, relief)
    {
      RunRound(monkeys, relief);
    }
  }

  /** One round: every monkey, in order, takes its turn. */
  method RunRound(monkeys: array<Monkey>, relief: Relief)
    requires Valid(monkeys[..]) && ReliefOk(relief)
    modifies monkeys
    ensures monkeys[..] == Round(old(monkeys[..]), relief)
  {
    ghost var before := monkeys[..];
    for idx := 0 to monkeys.Length
      invariant monkeys[..] == TurnsUpTo(before, idx, relief)
    {
      ghost var done := monkeys[..];
      RunTurn(monkeys, idx, relief);
      assert TurnsUpTo(before, idx + 1, relief) == Turn(done, idx, relief);
    }
  }

  /** One turn: the monkey at `idx` throws items until its queue is empty. */
  method RunTurn(monkeys: array<Monkey>, idx: nat, relief: Relief)
    requires Valid(monkeys[..]) && ReliefOk(relief) && idx < monkeys.Length
    modifies monkeys
    ensures monkeys[..] == Turn(old(monkeys[..]), idx, relief)
  {
    ghost var turnStart := monkeys[..];
    while monkeys[idx].items != []
      invariant Rules(monkeys[..]) == Rules(turnStart)
      invariant Turn(monkeys[..], idx, relief) == Turn(turnStart, idx, relief)
      decreases |monkeys[idx].items|
    {
      ThrowFront(monkeys, idx, relief);
    }
  }

  method ThrowFront(monkeys: array<Monkey>, idx: nat, relief: Relief)
    requires Valid(monkeys[..]) && ReliefOk(relief) && idx < monkeys.Length && monkeys[idx].items != []
    modifies monkeys
    ensures monkeys[..] == Throw(old(monkeys[..]), idx, relief)
  {
    ghost var current := monkeys[..];
    ghost var rule := Rules(current)[idx];
    assert rule == RuleOf(monkeys[idx]);
    var item := monkeys[idx].items[0];
    monkeys[idx] := monkeys[idx].(items := monkeys[idx].items[1..]);
    monkeys[idx] := monkeys[idx].(inspectCount := monkeys[idx].inspectCount + 1);
    ghost var popped := current[idx := current[idx].(items := current[idx].items[1..], inspectCount := current[idx].inspectCount + 1)];
    assert monkeys[..] == popped;
    var newItem := OnWorry(relief, Apply(monkeys[idx].operation, item));
    assert newItem == Inspect(rule, item, relief);
    var target;
    if newItem % monkeys[idx].testDivisor == 0 {
      target := monkeys[idx].testTrueId;
    } else {
      target := monkeys[idx].testFalseId;
    }
    assert target == Target(rule, newItem);
    monkeys[target] := monkeys[target].(items := monkeys[target].items + [newItem]);
    assert monkeys[..] == popped[target := popped[target].(items := popped[target].items + [newItem])];
  }

  // ----- What a turn does -----

  /** The sum of the queue lengths. */
  function Total(ms: seq<Monkey>): nat
  {
    if ms == [] then 0 else Total(ms[..|ms| - 1]) + |ms[|ms| - 1].items|
  }

  lemma {:induction false} TotalUpdate(ms: seq<Monkey>, i: nat, m: Monkey)
    requires i < |ms|
    ensures Total(ms[i := m]) + |ms[i].items| == Total(ms) + |m.items|
  {
    var last := |ms| - 1;
    if i < last {
      assert ms[i := m][..last] == ms[..last][i := m];
      TotalUpdate(ms[..last], i, m);
    } else {
      assert ms[i := m][..last] == ms[..last];
    }
  }

  /** A throw moves one item between queues. */
  lemma {:induction false} ThrowConserves(ms: seq<Monkey>, idx: nat, relief: Relief)
    requires Valid(ms) && ReliefOk(relief) && idx < |ms| && ms[idx].items != []
    ensures Total(Throw(ms, idx, relief)) == Total(ms)
  {
    var m := ms[idx];
    var rule := Rules(ms)[idx];
    var worry := Inspect(rule, m.items[0], relief);
    var t := Target(rule, worry);
    var popped := ms[idx := m.(items := m.items[1..], inspectCount := m.inspectCount + 1)];
    TotalUpdate(ms, idx, popped[idx]);
    TotalUpdate(popped, t, popped[t].(items := popped[t].items + [worry]));
  }

  /** The items a monkey with `rule` throws to monkey `j`, as inspected, in order. */
  function Routed(rule: Rule, items: seq<nat>, j: nat, relief: Relief): seq<nat>
    requires rule.testDivisor > 0 && ReliefOk(relief)
  {
    if items == [] then []
    else
      var worry := Inspect(rule, items[0], relief);
      (if Target(rule, worry) == j then [worry] else []) + Routed(rule, items[1..], j, relief)
  }

  /** What one throw does: the front item leaves the thrower, whose count goes up by one,
      and lands at the back of `test_true_id`'s queue when the divisor divides its new worry
      level and of `test_false_id`'s otherwise; no other monkey changes. */
  lemma {:induction false} ThrowRoutes(ms: seq<Monkey>, idx: nat, relief: Relief, j: nat)
    requires Valid(ms) && ReliefOk(relief) && idx < |ms| && ms[idx].items != [] && j < |ms|
    ensures var rule := RuleOf(ms[idx]);
      var worry := Inspect(rule, ms[idx].items[0], relief);
      var r := Throw(ms, idx, relief);
      && r[idx].items == ms[idx].items[1..]
      && r[idx].inspectCount == ms[idx].inspectCount + 1
      && (j != idx ==> r[j].inspectCount == ms[j].inspectCount)
      && (j != idx ==> r[j].items == ms[j].items + (if Target(rule, worry) == j then [worry] else []))
  {
    assert Rules(ms)[idx] == RuleOf(ms[idx]);
  }

  /** What a turn leaves behind: the thrower's queue empty and its count grown by the
      number of items it held, and monkey `j` with its count unchanged and, at the back of
      its queue in the thrower's order, exactly the items the test routes to it. */
  predicate Delivered(ms: seq<Monkey>, r: seq<Monkey>, idx: nat, j: nat, rule: Rule, relief: Relief)
    requires |r| == |ms| && idx < |ms| && j < |ms| && rule.testDivisor > 0 && ReliefOk(relief)
  {
    && r[idx].items == []
    && r[idx].inspectCount == ms[idx].inspectCount + |ms[idx].items|
    && (j != idx ==> r[j].inspectCount == ms[j].inspectCount)
    && (j != idx ==> r[j].items == ms[j].items + Routed(rule, ms[idx].items, j, relief))
  }

  /** A whole turn delivers every item of the thrower's queue. */
  lemma {:induction false} TurnRoutes(ms: seq<Monkey>, idx: nat, relief: Relief, j: nat)
    requires Valid(ms) && ReliefOk(relief) && idx < |ms| && j < |ms|
    ensures RuleOf(ms[idx]).testDivisor > 0
    ensures Delivered(ms, Turn(ms, idx, relief), idx, j, RuleOf(ms[idx]), relief)
    decreases |ms[idx].items|
  {
    assert Rules(ms)[idx] == RuleOf(ms[idx]);
    if ms[idx].items != [] {
      var next := Throw(ms, idx, relief);
      ThrowRoutes(ms, idx, relief, j);
      TurnRoutes(next, idx, relief, j);
      assert Rules(next)[idx] == RuleOf(next[idx]);
      TurnStep(ms, next, Turn(next, idx, relief), idx, j, RuleOf(ms[idx]), relief);
    }
  }

  lemma {:induction false} TurnStep(ms: seq<Monkey>, next: seq<Monkey>, r: seq<Monkey>, idx: nat, j: nat, rule: Rule, relief: Relief)
    requires |next| == |ms| && |r| == |ms| && idx < |ms| && j < |ms| && ms[idx].items != []
    requires rule.testDivisor > 0 && ReliefOk(relief)
    requires var worry := Inspect(rule, ms[idx].items[0], relief);
      && next[idx].items == ms[idx].items[1..]
      && next[idx].inspectCount == ms[idx].inspectCount + 1
      && (j != idx ==> next[j].inspectCount == ms[j].inspectCount)
      && (j != idx ==> next[j].items == ms[j].items + (if Target(rule, worry) == j then [worry] else []))
    requires Delivered(next, r, idx, j, rule, relief)
    ensures Delivered(ms, r, idx, j, rule, relief)
  {
    var items := ms[idx].items;
    var worry := Inspect(rule, items[0], relief);
    assert Routed(rule, items, j, relief) ==
      (if Target(rule, worry) == j then [worry] else []) + Routed(rule, items[1..], j, relief);
  }

  /** A turn moves items between queues and loses none. */
  lemma {:induction false} TurnConserves(ms: seq<Monkey>, idx: nat, relief: Relief)
    requires Valid(ms) && ReliefOk(relief) && idx < |ms|
    ensures Total(Turn(ms, idx, relief)) == Total(ms)
    decreases |ms[idx].items|
  {
    if ms[idx].items != [] {
      ThrowConserves(ms, idx, relief);
      TurnConserves(Throw(ms, idx, relief), idx, relief);
    }
  }

  lemma {:induction false} TurnsConserve(ms: seq<Monkey>, k: nat, relief: Relief)
    requires Valid(ms) && ReliefOk(relief) && k <= |ms|
    ensures Total(TurnsUpTo(ms, k, relief)) == Total(ms)
  {
    if k > 0 {
      TurnsConserve(ms, k - 1, relief);
      TurnsConserveStep(ms, k, relief);
    }
  }

  lemma TurnsConserveStep(ms: seq<Monkey>, k: nat, relief: Relief)
    requires Valid(ms) && ReliefOk(relief) && 0 < k <= |ms|
    requires Total(TurnsUpTo(ms, k - 1, relief)) == Total(ms)
    ensures Total(TurnsUpTo(ms, k, relief)) == Total(ms)
  {
    var before := TurnsUpTo(ms, k - 1, relief);
    assert TurnsUpTo(ms, k, relief) == Turn(before, k - 1, relief);
    TurnConserves(before, k - 1, relief);
  }

  /** `process_monkeys` conserves the number of items, over any number of rounds. */
  lemma {:induction false} RoundsConserve(ms: seq<Monkey>, n: nat, relief: Relief)
    requires Valid(ms) && ReliefOk(relief)
    ensures Total(Rounds(ms, n, relief)) == Total(ms)
  {
    if n > 0 {
      RoundsConserve(ms, n - 1, relief);
      var before := Rounds(ms, n - 1, relief);
      TurnsConserve(before, |before|, relief);
    }
  }

  // ----- The top two counts -----

  /** One step of the fold in `part_1` and `part_2`. */
  function TopTwoStep(best: (nat, nat), count: nat): (nat, nat)
  {
    if count > best.0 then (count, best.0)
    else if count > best.1 then (best.0, count)
    else best
  }

  /** The fold from `(0, 0)` over the counts in order. */
  function TopTwo(counts: seq<nat>): (nat, nat)
  {
    if counts == [] then (0, 0) else TopTwoStep(TopTwo(counts[..|counts| - 1]), counts[|counts| - 1])
  }

  /** `(a, b)` are the largest and the second largest of `s`, a repeated value counted twice,
      and 0 where `s` is too short. */
  predicate IsTopTwo(s: seq<nat>, a: nat, b: nat)
  {
    && b <= a
    && (forall i :: 0 <= i < |s| ==> s[i] <= a)
    && (forall i, j :: 0 <= i < j < |s| ==> s[i] <= b || s[j] <= b)
    && (a == 0 || exists i :: 0 <= i < |s| && s[i] == a)
    && (b == 0 || exists i, j :: 0 <= i < |s| && 0 <= j < |s| && i != j && s[i] == a && s[j] == b)
  }

  /** The fold keeps the two largest counts. */
  lemma {:induction false} TopTwoMeaning(s: seq<nat>)
    ensures IsTopTwo(s, TopTwo(s).0, TopTwo(s).1)
  {
    if s != [] {
      var init := s[..|s| - 1];
      TopTwoMeaning(init);
      TopTwoSnoc(s, init, TopTwo(init).0, TopTwo(init).1);
    }
  }

  lemma {:induction false} TopTwoSnoc(s: seq<nat>, init: seq<nat>, a: nat, b: nat)
    requires s != [] && init == s[..|s| - 1] && IsTopTwo(init, a, b)
    ensures var r := TopTwoStep((a, b), s[|s| - 1]);
      IsTopTwo(s, r.0, r.1)
  {
    var last := |s| - 1;
    var count := s[last];
    assert forall i :: 0 <= i < last ==> s[i] == init[i];
    var r := TopTwoStep((a, b), count);
    if count > a {
      if a != 0 {
        var i :| 0 <= i < |init| && init[i] == a;
        assert s[i] == a && s[last] == count;
      }
    } else if count > b {
      var i :| 0 <= i < |init| && init[i] == a;
      assert s[i] == a && s[last] == count;
    }
    if r.1 != 0 {
      if count <= b {
        var i, j :| 0 <= i < |init| && 0 <= j < |init| && i != j && init[i] == a && init[j] == b;
        assert s[i] == a && s[j] == b;
      }
    }
  }

  // ----- Reducing the worry levels -----

  /** The fold in `part_2`: the product of all divisors. */
  function DivisorProduct(ms: seq<Monkey>): nat
  {
    if ms == [] then 1 else DivisorProduct(ms[..|ms| - 1]) * ms[|ms| - 1].testDivisor
  }

  /** Euclid's division is unique: the remainder of `q * d + r` with `r < d` is `r`. */
  lemma DivModUnique(x: nat, d: nat, q: nat, r: nat)
    requires d > 0 && x == q * d + r && r < d
    ensures x % d == r
  {
    var q0, r0 := x / d, x % d;
    assert q0 * d + r0 == q * d + r;
    if q0 > q {
      var k := q0 - q;
      assert k * d == q0 * d - q * d;
      MulAtLeast(k, d);
    } else if q0 < q {
      var k := q - q0;
      assert k * d == q * d - q0 * d;
      MulAtLeast(k, d);
    }
  }

  lemma MulAtLeast(k: nat, d: nat)
    requires k >= 1
    ensures k * d >= d
  {
    assert k * d == (k - 1) * d + d;
  }

  /** Adding a multiple of `d` keeps the remainder. */
  lemma ModAddMultiple(a: nat, k: nat, d: nat)
    requires d > 0
    ensures (a + k * d) % d == a % d
  {
    DivModUnique(a + k * d, d, a / d + k, a % d);
  }

  /** A multiple of each divisor: the product. */
  lemma {:induction false} ProductDivisible(ms: seq<Monkey>, i: nat)
    requires i < |ms| && ms[i].testDivisor > 0
    ensures DivisorProduct(ms) % ms[i].testDivisor == 0
  {
    var last := |ms| - 1;
    var d := ms[i].testDivisor;
    var init := DivisorProduct(ms[..last]);
    if i == last {
      ModAddMultiple(0, init, d);
    } else {
      assert ms[..last][i] == ms[i];
      ProductDivisible(ms[..last], i);
      var k := init / d;
      assert init == k * d;
      assert DivisorProduct(ms) == (k * ms[last].testDivisor) * d;
      ModAddMultiple(0, k * ms[last].testDivisor, d);
    }
  }

  /** Reducing modulo a multiple of `d` keeps the remainder by `d`. */
  lemma ReduceKeepsRemainder(x: nat, p: nat, d: nat)
    requires d > 0 && p > 0 && p % d == 0
    ensures (x % p) % d == x % d
  {
    var k := p / d;
    assert p == k * d;
    var q := x / p;
    assert x == x % p + (q * k) * d;
    ModAddMultiple(x % p, q * k, d);
  }

  /** Reducing worry levels modulo the product of the divisors leaves every monkey's test as
      it was. */
  lemma {:induction false} ReductionKeepsTests(ms: seq<Monkey>, x: nat)
    requires Valid(ms)
    ensures DivisorProduct(ms) > 0
    ensures forall i :: 0 <= i < |ms| ==>
      Target(Rules(ms)[i], x % DivisorProduct(ms)) == Target(Rules(ms)[i], x)
  {
    DivisorsOfValid(ms);
    ProductPositive(ms);
    forall i | 0 <= i < |ms|
      ensures Target(Rules(ms)[i], x % DivisorProduct(ms)) == Target(Rules(ms)[i], x)
    {
      ProductDivisible(ms, i);
      ReduceKeepsRemainder(x, DivisorProduct(ms), ms[i].testDivisor);
    }
  }

  predicate DivisorsPositive(ms: seq<Monkey>)
  {
    forall i :: 0 <= i < |ms| ==> ms[i].testDivisor > 0
  }

  lemma {:induction false} DivisorsOfValid(ms: seq<Monkey>)
    requires Valid(ms)
    ensures DivisorsPositive(ms)
  {
    forall i | 0 <= i < |ms|
      ensures ms[i].testDivisor > 0
    {
      assert Rules(ms)[i] == RuleOf(ms[i]);
    }
  }

  lemma {:induction false} ProductPositive(ms: seq<Monkey>)
    requires DivisorsPositive(ms)
    ensures DivisorProduct(ms) > 0
  {
    if ms != [] {
      var init := ms[..|ms| - 1];
      assert forall i :: 0 <= i < |init| ==> init[i] == ms[i];
      ProductPositive(init);
    }
  }

  /** Every operation commutes with reduction modulo `p`, so a reduced worry level stays
      congruent to the unreduced one. */
  lemma OperationCommutesWithReduction(operation: Operation, x: nat, p: nat)
    requires p > 0
    ensures Apply(operation, x % p) % p == Apply(operation, x) % p
  {
    var q, r := x / p, x % p;
    assert x == q * p + r;
    match operation
    case Square =>
      SquareSplit(x, q, r, p);
      ModAddMultiple(r * r, q * (x + r), p);
    case Multiply(n) =>
      ProductSplit(x, n, q, r, p);
      ModAddMultiple(r * n, q * n, p);
    case Add(n) =>
      assert x + n == (r + n) + q * p;
      ModAddMultiple(r + n, q, p);
  }

  lemma SquareSplit(x: nat, q: nat, r: nat, p: nat)
    requires x == q * p + r
    ensures x * x == r * r + (q * (x + r)) * p
  {
    assert x * x == x * (q * p) + x * r;
    assert x * (q * p) == (q * x) * p;
    assert x * r == (q * r) * p + r * r;
    assert (q * x) * p + (q * r) * p == (q * (x + r)) * p;
  }

  lemma ProductSplit(x: nat, n: nat, q: nat, r: nat, p: nat)
    requires x == q * p + r
    ensures x * n == r * n + (q * n) * p
  {
    assert x * n == (q * p) * n + r * n;
    assert (q * p) * n == (q * n) * p;
  }

  // ----- Part 2 counts as if worry levels were never reduced -----

  /** Every divisor divides `p`. */
  predicate DividesAll(rs: seq<Rule>, p: nat)
  {
    forall i :: 0 <= i < |rs| ==> rs[i].testDivisor > 0 && p % rs[i].testDivisor == 0
  }

  lemma {:induction false} ProductDividesAll(ms: seq<Monkey>)
    requires Valid(ms)
    ensures DivisorProduct(ms) > 0 && DividesAll(Rules(ms), DivisorProduct(ms))
  {
    DivisorsOfValid(ms);
    ProductPositive(ms);
    forall i | 0 <= i < |ms|
      ensures DivisorProduct(ms) % Rules(ms)[i].testDivisor == 0
    {
      ProductDivisible(ms, i);
    }
  }

  /** Two states with the same rules, the same counts and queues of the same lengths whose
      worry levels agree modulo `p`. */
  predicate Congruent(a: seq<Monkey>, b: seq<Monkey>, p: nat)
    requires p > 0
  {
    && |a| == |b| && Rules(a) == Rules(b)
    && (forall i :: 0 <= i < |a| ==> a[i].inspectCount == b[i].inspectCount && |a[i].items| == |b[i].items|)
    && (forall i, k :: 0 <= i < |a| && 0 <= k < |a[i].items| && k < |b[i].items| ==>
          a[i].items[k] % p == b[i].items[k] % p)
  }

  /** An inspection keeps worry levels congruent, and so sends both items to the same monkey. */
  lemma InspectCongruent(rule: Rule, x: nat, y: nat, p: nat)
    requires p > 0 && rule.testDivisor > 0 && p % rule.testDivisor == 0 && x % p == y % p
    ensures Inspect(rule, x, Modulo(p)) % p == Inspect(rule, y, Unreduced) % p
    ensures Target(rule, Inspect(rule, x, Modulo(p))) == Target(rule, Inspect(rule, y, Unreduced))
  {
    var u, v := Apply(rule.operation, x), Apply(rule.operation, y);
    OperationCommutesWithReduction(rule.operation, x, p);
    OperationCommutesWithReduction(rule.operation, y, p);
    assert u % p == v % p;
    ReduceKeepsRemainder(u, p, p);
    ReduceKeepsRemainder(u % p, p, rule.testDivisor);
    ReduceKeepsRemainder(u, p, rule.testDivisor);
    ReduceKeepsRemainder(v, p, rule.testDivisor);
  }

  lemma {:induction false} ThrowCongruent(a: seq<Monkey>, b: seq<Monkey>, idx: nat, p: nat)
    requires p > 0 && Valid(a) && DividesAll(Rules(a), p) && Congruent(a, b, p)
    requires idx < |a| && a[idx].items != []
    ensures Valid(b) && b[idx].items != []
    ensures Congruent(Throw(a, idx, Modulo(p)), Throw(b, idx, Unreduced), p)
  {
    var rule := Rules(a)[idx];
    assert rule == RuleOf(a[idx]) && rule == Rules(b)[idx];
    var wa := Inspect(rule, a[idx].items[0], Modulo(p));
    var wb := Inspect(rule, b[idx].items[0], Unreduced);
    InspectCongruent(rule, a[idx].items[0], b[idx].items[0], p);
    var t := Target(rule, wa);
    var pa := a[idx := a[idx].(items := a[idx].items[1..], inspectCount := a[idx].inspectCount + 1)];
    var pb := b[idx := b[idx].(items := b[idx].items[1..], inspectCount := b[idx].inspectCount + 1)];
    var ra := pa[t := pa[t].(items := pa[t].items + [wa])];
    var rb := pb[t := pb[t].(items := pb[t].items + [wb])];
    assert Throw(a, idx, Modulo(p)) == ra;
    assert Throw(b, idx, Unreduced) == rb;
    forall i, k | 0 <= i < |ra| && 0 <= k < |ra[i].items| && k < |rb[i].items|
      ensures ra[i].items[k] % p == rb[i].items[k] % p
    {
      if i == t && k == |ra[i].items| - 1 {
      } else if i == idx {
        assert ra[i].items[k] == a[i].items[k + 1] && rb[i].items[k] == b[i].items[k + 1];
      } else {
        assert ra[i].items[k] == a[i].items[k] && rb[i].items[k] == b[i].items[k];
      }
    }
  }

  lemma {:induction false} TurnCongruent(a: seq<Monkey>, b: seq<Monkey>, idx: nat, p: nat)
    requires p > 0 && Valid(a) && DividesAll(Rules(a), p) && Congruent(a, b, p) && idx < |a|
    ensures Valid(b)
    ensures Congruent(Turn(a, idx, Modulo(p)), Turn(b, idx, Unreduced), p)
    decreases |a[idx].items|
  {
    if a[idx].items != [] {
      ThrowCongruent(a, b, idx, p);
      TurnCongruent(Throw(a, idx, Modulo(p)), Throw(b, idx, Unreduced), idx, p);
    } else {
      assert |b[idx].items| == 0;
    }
  }

  lemma {:induction false} TurnsCongruent(a: seq<Monkey>, b: seq<Monkey>, k: nat, p: nat)
    requires p > 0 && Valid(a) && DividesAll(Rules(a), p) && Congruent(a, b, p) && k <= |a|
    ensures Valid(b)
    ensures Congruent(TurnsUpTo(a, k, Modulo(p)), TurnsUpTo(b, k, Unreduced), p)
  {
    assert Rules(a) == Rules(b);
    if k > 0 {
      TurnsCongruent(a, b, k - 1, p);
      TurnsCongruentStep(a, b, k, p);
    }
  }

  lemma TurnsCongruentStep(a: seq<Monkey>, b: seq<Monkey>, k: nat, p: nat)
    requires p > 0 && Valid(a) && DividesAll(Rules(a), p) && Rules(a) == Rules(b)
    requires 0 < k <= |a|
    requires Congruent(TurnsUpTo(a, k - 1, Modulo(p)), TurnsUpTo(b, k - 1, Unreduced), p)
    ensures Congruent(TurnsUpTo(a, k, Modulo(p)), TurnsUpTo(b, k, Unreduced), p)
  {
    var ta, tb := TurnsUpTo(a, k - 1, Modulo(p)), TurnsUpTo(b, k - 1, Unreduced);
    assert TurnsUpTo(a, k, Modulo(p)) == Turn(ta, k - 1, Modulo(p));
    assert TurnsUpTo(b, k, Unreduced) == Turn(tb, k - 1, Unreduced);
    TurnCongruent(ta, tb, k - 1, p);
  }

  lemma {:induction false} RoundsCongruent(a: seq<Monkey>, b: seq<Monkey>, n: nat, p: nat)
    requires p > 0 && Valid(a) && DividesAll(Rules(a), p) && Congruent(a, b, p)
    ensures Valid(b)
    ensures Congruent(Rounds(a, n, Modulo(p)), Rounds(b, n, Unreduced), p)
  {
    if n == 0 {
      assert Rules(a) == Rules(b);
    } else {
      RoundsCongruent(a, b, n - 1, p);
      var ra, rb := Rounds(a, n - 1, Modulo(p)), Rounds(b, n - 1, Unreduced);
      TurnsCongruent(ra, rb, |ra|, p);
    }
  }

  /** The inspection counts of each monkey. */
  function Counts(ms: seq<Monkey>): (c: seq<nat>)
    ensures |c| == |ms|
  {
    seq(|ms|, i requires 0 <= i < |ms| => ms[i].inspectCount)
  }

  /** Reducing modulo the product of the divisors changes no monkey's count: after any
      number of rounds the counts are those of worry levels never reduced. */
  lemma ReductionKeepsCounts(ms: seq<Monkey>, n: nat)
    requires Valid(ms)
    ensures DivisorProduct(ms) > 0
    ensures Counts(Rounds(ms, n, Modulo(DivisorProduct(ms)))) == Counts(Rounds(ms, n, Unreduced))
  {
    var p := DivisorProduct(ms);
    ProductDividesAll(ms);
    RoundsCongruent(ms, ms, n, p);
  }

  // ----- The two parts -----

  /** The product of the two largest inspection counts after `rounds` rounds. */
  function MonkeyBusiness(ms: seq<Monkey>, rounds: nat, relief: Relief): nat
    requires Valid(ms) && ReliefOk(relief)
  {
    var best := TopTwo(Counts(Rounds(ms, rounds, relief)));
    best.0 * best.1
  }

  /** Part 1: 20 rounds, worry divided by three after each inspection. `None` stands for
      input the source would panic or loop forever on. */
  function Part1Answer(input: string): Option<nat>
  {
    match ParseMonkeys(input)
    case None => None
    case Some(ms) => if Valid(ms) then Some(MonkeyBusiness(ms, 20, DivideByThree)) else None
  }

  /** Part 2: 10000 rounds, worry reduced modulo the product of the divisors. */
  function Part2Answer(input: string): Option<nat>
  {
    match ParseMonkeys(input)
    case None => None
    case Some(ms) =>
      if Valid(ms) then
        ProductDividesAll(ms);
        Some(MonkeyBusiness(ms, 10000, Modulo(DivisorProduct(ms))))
      else None
  }

  /** Part 2's answer is the one worry levels never reduced would give. */
  lemma Part2Unreduced(input: string)
    requires ParseMonkeys(input).Some? && Valid(ParseMonkeys(input).value)
    ensures Part2Answer(input) == Some(MonkeyBusiness(ParseMonkeys(input).value, 10000, Unreduced))
  {
    ReductionKeepsCounts(ParseMonkeys(input).value, 10000);
  }

  /** The answers are products of the largest and second largest counts. */
  lemma MonkeyBusinessMeaning(ms: seq<Monkey>, rounds: nat, relief: Relief)
    requires Valid(ms) && ReliefOk(relief)
    ensures exists a: nat, b: nat ::
      IsTopTwo(Counts(Rounds(ms, rounds, relief)), a, b) && MonkeyBusiness(ms, rounds, relief) == a * b
  {
    var counts := Counts(Rounds(ms, rounds, relief));
    TopTwoMeaning(counts);
    var best := TopTwo(counts);
    assert IsTopTwo(counts, best.0, best.1) && MonkeyBusiness(ms, rounds, relief) == best.0 * best.1;
  }

  /** Runs the monkeys held in a fresh array for `rounds` rounds and multiplies the two
      largest counts. */
  method Simulate(ms: seq<Monkey>, rounds: nat, relief: Relief) returns (business: nat)
    requires Valid(ms) && ReliefOk(relief)
    ensures business == MonkeyBusiness(ms, rounds, relief)
  {
    var monkeys := new Monkey[|ms|](i requires 0 <= i < |ms| => ms[i]);
    assert monkeys[..] == ms;
    ProcessMonkeys(rounds, monkeys, relief);
    var best := TopTwo(Counts(monkeys[..]));
    business := best.0 * best.1;
  }

  /** `part_1`. */
  method Part1(input: string) returns (r: Option<nat>)
    ensures r == Part1Answer(input)
  {
    var parsed := ParseMonkeys(input);
    if parsed.None? || !Valid(parsed.value) {
      return None;
    }
    var business := Simulate(parsed.value, 20, DivideByThree);
    r := Some(business);
  }

  /** `part_2`. */
  method Part2(input: string) returns (r: Option<nat>)
    ensures r == Part2Answer(input)
  {
    var parsed := ParseMonkeys(input);
    if parsed.None? || !Valid(parsed.value) {
      return None;
    }
    var ms := parsed.value;
    ProductDividesAll(ms);
    var divisors := DivisorProduct(ms);
    var business := Simulate(ms, 10000, Modulo(divisors));
    r := Some(business);
  }
}
