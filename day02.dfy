/** Day 2: rock, paper, scissors. Each line names the opponent's shape and either our shape
    (part 1) or the outcome we want (part 2); the answer is the total score. */
module Day02 {
  import opened Basics
  import opened Text

  datatype Rps = Rock | Paper | Scissors
  {
    /** `Rps::score`: the points for playing the shape. */
    function Score(): (r: nat)
      ensures 1 <= r <= 3
    {
      match this
      case Rock => 1
      case Paper => 2
      case Scissors => 3
    }
  }

  /** The rules of the game, stated on their own: each shape beats the one before it in the
      cycle Rock, Paper, Scissors. */
  predicate Beats(a: Rps, b: Rps)
  {
    (a == Rock && b == Scissors) || (a == Paper && b == Rock) || (a == Scissors && b == Paper)
  }

  /** What `opponents` returns: the shape that beats this one, this one, and the one it beats. */
  datatype Opponents = Opponents(beater: Rps, draw: Rps, beaten: Rps)

  /** `Rps::opponents`. */
  function OpponentsOf(s: Rps): (r: Opponents)
    ensures Beats(r.beater, s) && r.draw == s && Beats(s, r.beaten)
  {
    match s
    case Rock => Opponents(Paper, Rock, Scissors)
    case Paper => Opponents(Scissors, Paper, Rock)
    case Scissors => Opponents(Rock, Scissors, Paper)
  }

  /** For any two shapes exactly one of: the first beats the second, they are equal, the
      second beats the first. */
  lemma Trichotomy(a: Rps, b: Rps)
    ensures (Beats(a, b) && a != b && !Beats(b, a)) || (a == b && !Beats(a, b))
         || (Beats(b, a) && a != b && !Beats(a, b))
  {
  }

  /** `Rps::from_char`; `None` is the "Unknown letter" panic. */
  function FromChar(c: char): (r: Option<Rps>)
    ensures r.Some? <==> c in "ABCXYZ"
    ensures r == Some(Rock) <==> c in "AX"
    ensures r == Some(Paper) <==> c in "BY"
    ensures r == Some(Scissors) <==> c in "CZ"
  {
    match c
    case 'A' => Some(Rock)
    case 'X' => Some(Rock)
    case 'B' => Some(Paper)
    case 'Y' => Some(Paper)
    case 'C' => Some(Scissors)
    case 'Z' => Some(Scissors)
    case _ => None
  }

  /** A parsed line: the opponent's shape and ours. */
  datatype Round = Round(left: Rps, right: Rps)

  /** `parse_line_1`: the shapes at characters 0 and 2; character 1 is skipped unread. `None`
      is a panic: a line of fewer than three characters or an unknown letter. */
  function ParseLine1(line: string): (r: Option<Round>)
    ensures r.Some? <==> |line| >= 3 && FromChar(line[0]).Some? && FromChar(line[2]).Some?
    ensures r.Some? ==> r.value == Round(FromChar(line[0]).value, FromChar(line[2]).value)
  {
    if |line| < 3 then None
    else
      match (FromChar(line[0]), FromChar(line[2]))
      case (Some(l), Some(r)) => Some(Round(l, r))
      case _ => None
  }

  /** `parse_line_2`: character 2 names the outcome we want, `X` lose, `Y` draw, `Z` win, and
      our shape is chosen to get it. */
  function ParseLine2(line: string): (r: Option<Round>)
    ensures r.Some? <==> |line| >= 3 && FromChar(line[0]).Some? && line[2] in "XYZ"
    ensures r.Some? ==> r.value.left == FromChar(line[0]).value
  {
    if |line| < 3 then None
    else
      match FromChar(line[0])
      case None => None
      case Some(first) =>
        var o := OpponentsOf(first);
        match line[2]
        case 'X' => Some(Round(first, o.beaten))
        case 'Y' => Some(Round(first, o.draw))
        case 'Z' => Some(Round(first, o.beater))
        case _ => None
  }

  /** The points for the outcome, seen from the right-hand player. */
  function OutcomePoints(r: Round): nat
  {
    if Beats(r.left, r.right) then 0 else if r.left == r.right then 3 else 6
  }

  /** `score_match`: our shape's score plus 0 for a loss, 3 for a draw and 6 for a win. */
  function ScoreMatch(r: Round): (s: nat)
    ensures 1 <= s <= 9
    ensures s == r.right.Score() + OutcomePoints(r)
  {
    var o := OpponentsOf(r.left);
    r.right.Score() + if r.right == o.beaten then 0 else if r.right == o.draw then 3 else 6
  }

  /** Part 2's letters ask for a loss, a draw or a win, and the chosen shape delivers it. */
  lemma ParseLine2Outcome(line: string)
    requires ParseLine2(line).Some?
    ensures OutcomePoints(ParseLine2(line).value) == if line[2] == 'X' then 0 else if line[2] == 'Y' then 3 else 6
  {
    var r := ParseLine2(line).value;
    Trichotomy(r.left, r.right);
  }

  /** How a part reads the second letter: as our shape (part 1) or as the outcome (part 2). */
  datatype Reading = Shapes | Outcomes

  function ParseLine(reading: Reading, line: string): Option<Round>
  {
    match reading
    case Shapes => ParseLine1(line)
    case Outcomes => ParseLine2(line)
  }

  /** Both parts: the sum of the scores of the non-empty lines. `None` when a non-empty line
      panics. */
  function TotalScore(lines: seq<string>, reading: Reading): (r: Option<nat>)
    ensures r.Some? <==> forall i :: 0 <= i < |lines| && |lines[i]| > 0 ==> ParseLine(reading, lines[i]).Some?
    ensures r.Some? ==> r.value <= 9 * |lines|
  {
    if lines == [] then Some(0)
    else
      var rest := TotalScore(lines[1..], reading);
      assert forall i :: 1 <= i < |lines| ==> lines[i] == lines[1..][i - 1];
      if |lines[0]| == 0 then rest
      else
        match ParseLine(reading, lines[0])
        case None => None
        case Some(round) =>
          match rest
          case None => None
          case Some(t) => Some(ScoreMatch(round) + t)
  }

  /** `part_1`. */
  function Part1(input: string): Option<nat>
  {
    TotalScore(Split(input, '\n'), Shapes)
  }

  /** `part_2`. */
  function Part2(input: string): Option<nat>
  {
    TotalScore(Split(input, '\n'), Outcomes)
  }

  /** The puzzle's example lines "A Y", "B X", "C Z": part 1 scores 8, 1 and 6 (total 15). */
  lemma Example1()
    ensures ParseLine1("A Y") == Some(Round(Rock, Paper)) && ScoreMatch(Round(Rock, Paper)) == 8
    ensures ParseLine1("B X") == Some(Round(Paper, Rock)) && ScoreMatch(Round(Paper, Rock)) == 1
    ensures ParseLine1("C Z") == Some(Round(Scissors, Scissors)) && ScoreMatch(Round(Scissors, Scissors)) == 6
  {
  }

  /** Part 2 reads the same lines as 4, 1 and 7 (total 12). */
  lemma Example2()
    ensures ParseLine2("A Y") == Some(Round(Rock, Rock)) && ScoreMatch(Round(Rock, Rock)) == 4
    ensures ParseLine2("B X") == Some(Round(Paper, Rock)) && ScoreMatch(Round(Paper, Rock)) == 1
    ensures ParseLine2("C Z") == Some(Round(Scissors, Rock)) && ScoreMatch(Round(Scissors, Rock)) == 7
  {
  }
}
