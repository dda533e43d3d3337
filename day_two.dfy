/** Day two: a strategy guide for rock-paper-scissors. Each line holds the
    enemy's move and a second column; the plain reading takes the second
    column as your move, the extra reading takes it as the outcome you must
    reach. A game's score is the sum of its rounds' scores. */
module DayTwo {
  import opened Nom
  import opened Iter

  /** A move; its discriminant (Rock 1, Paper 2, Scissors 3) is what it scores. */
  datatype Play = Rock | Paper | Scissors {

    /** `self as u8`: the value the move scores. */
    function Score(): (r: nat)
      ensures 1 <= r <= 3
    {
      match this
      case Rock => 1
      case Paper => 2
      case Scissors => 3
    }

    /** The `!` operator: the move that wins over this one. */
    function Not(): (r: Play)
      ensures Beats(r, this)
    {
      match this
      case Rock => Paper
      case Paper => Scissors
      case Scissors => Rock
    }
  }

  /** The rules of the game, stated on their own: rock blunts scissors,
      scissors cut paper, paper wraps rock. */
  predicate Beats(a: Play, b: Play) {
    (a == Rock && b == Scissors) || (a == Scissors && b == Paper) || (a == Paper && b == Rock)
  }

  /** Different moves score differently. */
  lemma ScoreInjective(x: Play, y: Play)
    ensures x.Score() == y.Score() <==> x == y
  {
  }

  /** `!` is a three-cycle: one or two steps never come back, three always do. */
  lemma NotIsThreeCycle(x: Play)
    ensures x.Not() != x
    ensures x.Not().Not() != x
    ensures x.Not().Not().Not() == x
  {
  }

  /** `!b` is the one and only move that beats `b`. */
  lemma NotIsTheWinner(a: Play, b: Play)
    ensures Beats(a, b) <==> a == b.Not()
  {
  }

  /** Of two moves, exactly one of these holds: the first wins, they draw, or the second wins. */
  lemma Trichotomy(a: Play, b: Play)
    ensures Beats(a, b) || a == b || Beats(b, a)
    ensures !(Beats(a, b) && a == b) && !(Beats(a, b) && Beats(b, a)) && !(a == b && Beats(b, a))
  {
  }

  // ---------------------------------------------------------------------------
  // Reading moves.

  /** The move a character stands for, in either column; only the six
      letters A, B, C, X, Y and Z stand for one. */
  function PlayOf(c: char): (r: Option<Play>)
    ensures r.Some? <==> c in "ABCXYZ"
  {
    match c
    case 'A' => Some(Rock)
    case 'B' => Some(Paper)
    case 'C' => Some(Scissors)
    case 'X' => Some(Rock)
    case 'Y' => Some(Paper)
    case 'Z' => Some(Scissors)
    case _ => None
  }

  /** The characters `parse_play` knows. */
  predicate IsPlayToken(c: char) {
    PlayOf(c).Some?
  }

  /** `parse_play`: reads exactly one character; A and X are Rock, B and Y
      Paper, C and Z Scissors; an empty input is a recoverable error, and any
      other character stops the program. */
  function ParsePlay(s: string): (r: Result<Play>)
    ensures s == [] ==> r == Fail(Error)
    ensures s != [] && s[0] in "AX" ==> r == Done(s[1..], Rock)
    ensures s != [] && s[0] in "BY" ==> r == Done(s[1..], Paper)
    ensures s != [] && s[0] in "CZ" ==> r == Done(s[1..], Scissors)
    ensures s != [] && !IsPlayToken(s[0]) ==> r == Fail(Abort)
  {
    match AnyChar(s)
    case Fail(f) => Fail(f)
    case Done(rest, c) =>
      match PlayOf(c)
      case None => Fail(Abort)
      case Some(play) => Done(rest, play)
  }

  // ---------------------------------------------------------------------------
  // Rounds.

  datatype Round = Round(you: Play, enemy: Play) {

    /** `calculate_your_score`: your move's value, plus 6 when you win, 3 on
        a draw and nothing when you lose. */
    function YourScore(): (r: nat)
      ensures 1 <= r <= 9
      ensures Beats(you, enemy) ==> r == you.Score() + 6
      ensures you == enemy ==> r == you.Score() + 3
      ensures Beats(enemy, you) ==> r == you.Score()
    {
      var moveScore := you.Score();
      var outcome := if you == enemy.Not() then 6 else if you == enemy then 3 else 0;
      moveScore + outcome
    }

    /** `calculate_enemys_score`: the same rule from the enemy's side, that
        is, your score in the round with the two moves swapped. */
    function EnemysScore(): (r: nat)
      ensures 1 <= r <= 9
      ensures r == Round(enemy, you).YourScore()
    {
      var moveScore := enemy.Score();
      var outcome := if enemy == you.Not() then 6 else if enemy == you then 3 else 0;
      moveScore + outcome
    }
  }

  /** What a round adds to your move's value is 6, 3 or 0, and it is 6
      exactly when you played `!enemy` and 3 exactly when you played the
      enemy's move. */
  lemma YourBonus(rd: Round)
    ensures rd.YourScore() == rd.you.Score() + 6 <==> rd.you == rd.enemy.Not()
    ensures rd.YourScore() == rd.you.Score() + 3 <==> rd.you == rd.enemy
    ensures rd.YourScore() == rd.you.Score() <==> rd.enemy == rd.you.Not()
  {
  }

  /** The two sides' bonuses in one round always add up to 6. */
  lemma BonusesSumToSix(rd: Round)
    ensures rd.YourScore() + rd.EnemysScore() == rd.you.Score() + rd.enemy.Score() + 6
  {
  }

  /** `parse_round`: the enemy's move, one space, your move, then at most one
      newline. A round needs three characters of the right kinds; an input
      that stops right after the first move asks for more input (the space
      is read in streaming mode); a character that is not a move stops the
      program; anything else is a recoverable error. */
  function ParseRound(s: string): (r: Result<Round>)
    ensures r.Done? <==> |s| >= 3 && IsPlayToken(s[0]) && s[1] == ' ' && IsPlayToken(s[2])
    ensures r.Done? ==> r.rest == OptNewline(s[3..]) && |r.rest| < |s|
    ensures r.Done? ==> PlayOf(s[0]) == Some(r.value.enemy) && PlayOf(s[2]) == Some(r.value.you)
    ensures r == Fail(Incomplete) <==> |s| == 1 && IsPlayToken(s[0])
    ensures r == Fail(Abort) <==>
      (s != [] && !IsPlayToken(s[0])) || (|s| >= 3 && IsPlayToken(s[0]) && s[1] == ' ' && !IsPlayToken(s[2]))
  {
    match ParsePlay(s)
    case Fail(f) => Fail(f)
    case Done(afterEnemy, enemy) =>
      match Tag(" ", afterEnemy)
      case Fail(f) => Fail(f)
      case Done(afterSpace, _) =>
        match ParsePlay(afterSpace)
        case Fail(f) => Fail(f)
        case Done(afterYou, you) => Done(OptNewline(afterYou), Round(you, enemy))
  }

  /** The move that reaches `outcome` (X lose, Y draw, Z win) against
      `enemy`, from the source's tables; `None` for any other character. */
  function MoveFor(enemy: Play, outcome: char): (r: Option<Play>)
    ensures r.Some? <==> outcome in "XYZ"
    ensures outcome == 'X' ==> r.Some? && Beats(enemy, r.value)
    ensures outcome == 'Y' ==> r == Some(enemy)
    ensures outcome == 'Z' ==> r.Some? && Beats(r.value, enemy)
  {
    match outcome
    case 'X' =>
      Some(match enemy
        case Rock => Scissors
        case Paper => Rock
        case Scissors => Paper)
    case 'Y' => Some(enemy)
    case 'Z' =>
      Some(match enemy
        case Rock => Paper
        case Paper => Scissors
        case Scissors => Rock)
    case _ => None
  }

  /** The winning table is `!enemy`, and the losing table picks the one move
      whose `!` is the enemy's move. */
  lemma MoveForTables(enemy: Play, m: Play)
    ensures MoveFor(enemy, 'Z') == Some(enemy.Not())
    ensures MoveFor(enemy, 'X') == Some(m) <==> m.Not() == enemy
  {
  }

  /** The derived move reaches the requested outcome: your bonus is 0 for X,
      3 for Y and 6 for Z. */
  lemma MoveForReachesOutcome(enemy: Play, outcome: char)
    requires outcome in "XYZ"
    ensures var rd := Round(MoveFor(enemy, outcome).value, enemy);
      rd.YourScore() == rd.you.Score() + (if outcome == 'X' then 0 else if outcome == 'Y' then 3 else 6)
  {
  }

  /** `parse_round_extra`: the enemy's move, one space, any character as the
      outcome, at most one newline, and then your move from the tables. The
      failures are those of `parse_round`, except that the third character is
      read by `anychar` and only then checked: anything but X, Y or Z there
      stops the program. */
  function ParseRoundExtra(s: string): (r: Result<Round>)
    ensures r.Done? <==> |s| >= 3 && IsPlayToken(s[0]) && s[1] == ' ' && s[2] in "XYZ"
    ensures r.Done? ==> r.rest == OptNewline(s[3..]) && |r.rest| < |s|
    ensures r.Done? ==> PlayOf(s[0]) == Some(r.value.enemy) && MoveFor(r.value.enemy, s[2]) == Some(r.value.you)
    ensures r == Fail(Incomplete) <==> |s| == 1 && IsPlayToken(s[0])
    ensures r == Fail(Abort) <==>
      (s != [] && !IsPlayToken(s[0])) || (|s| >= 3 && IsPlayToken(s[0]) && s[1] == ' ' && s[2] !in "XYZ")
  {
    match ParsePlay(s)
    case Fail(f) => Fail(f)
    case Done(afterEnemy, enemy) =>
      match Tag(" ", afterEnemy)
      case Fail(f) => Fail(f)
      case Done(afterSpace, _) =>
        match AnyChar(afterSpace)
        case Fail(f) => Fail(f)
        case Done(afterOutcome, outcome) =>
          var rest := OptNewline(afterOutcome);
          match MoveFor(enemy, outcome)
          case None => Fail(Abort)
          case Some(you) => Done(rest, Round(you, enemy))
  }

  // ---------------------------------------------------------------------------
  // Games.

  /** The round parser of the plain reading (`extra` false) or of the extra one. */
  function RoundParser(extra: bool, s: string): (r: Result<Round>)
    ensures r.Done? ==> |r.rest| < |s|
  {
    if extra then ParseRoundExtra(s) else ParseRound(s)
  }

  /** The loop of `many1` after its first round: a recoverable error ends it
      and keeps the input; asking for more input and stopping the program
      are passed on. */
  function MoreRounds(extra: bool, s: string): (r: Result<seq<Round>>)
    ensures r.Done? ==> |r.rest| <= |s|
    ensures r.Fail? ==> r.failure != Error
    ensures RoundParser(extra, s) == Fail(Error) ==> r == Done(s, [])
    ensures RoundParser(extra, s).Fail? && RoundParser(extra, s).failure != Error ==>
      r == Fail(RoundParser(extra, s).failure)
    decreases |s|
  {
    match RoundParser(extra, s)
    case Fail(Error) => Done(s, [])
    case Fail(f) => Fail(f)
    case Done(rest, rd) =>
      match MoreRounds(extra, rest)
      case Fail(f) => Fail(f)
      case Done(more, rds) => Done(more, [rd] + rds)
  }

  /** A list of rounds. */
  datatype Game = Game(rounds: seq<Round>) {

    /** `calculate_your_score`: the sum of your scores over the rounds. */
    function YourScore(): (r: nat)
      ensures |rounds| <= r <= 9 * |rounds|
    {
      var scores := YourScores(rounds);
      SumBounds(scores, 1, 9);
      Sum(scores)
    }

    /** `calculate_enemys_score`: the sum of the enemy's scores over the
        rounds, which is your score in the game with every round's moves swapped. */
    function EnemysScore(): (r: nat)
      ensures r == Game(Swapped(rounds)).YourScore()
    {
      var scores := EnemysScores(rounds);
      assert scores == YourScores(Swapped(rounds));
      Sum(scores)
    }
  }

  /** Your score round by round. */
  function YourScores(rounds: seq<Round>): (scores: seq<nat>)
    ensures |scores| == |rounds|
    ensures forall i :: 0 <= i < |rounds| ==> scores[i] == rounds[i].YourScore()
  {
    seq(|rounds|, i requires 0 <= i < |rounds| => rounds[i].YourScore())
  }

  /** The enemy's score round by round. */
  function EnemysScores(rounds: seq<Round>): (scores: seq<nat>)
    ensures |scores| == |rounds|
    ensures forall i :: 0 <= i < |rounds| ==> scores[i] == rounds[i].EnemysScore()
  {
    seq(|rounds|, i requires 0 <= i < |rounds| => rounds[i].EnemysScore())
  }

  /** Every round with its two moves exchanged. */
  function Swapped(rounds: seq<Round>): (r: seq<Round>)
    ensures |r| == |rounds|
    ensures forall i :: 0 <= i < |rounds| ==> r[i] == Round(rounds[i].enemy, rounds[i].you)
  {
    seq(|rounds|, i requires 0 <= i < |rounds| => Round(rounds[i].enemy, rounds[i].you))
  }

  /** A game's score is additive over concatenation of its rounds. */
  lemma YourScoreAppend(a: seq<Round>, b: seq<Round>)
    ensures Game(a + b).YourScore() == Game(a).YourScore() + Game(b).YourScore()
  {
    assert YourScores(a + b) == YourScores(a) + YourScores(b);
    SumConcat(YourScores(a), YourScores(b));
  }

  /** A game of one round scores that round. */
  lemma YourScoreSingle(rd: Round)
    ensures Game([rd]).YourScore() == rd.YourScore()
  {
    var scores := YourScores([rd]);
    assert scores == [rd.YourScore()];
    assert scores[1..] == [];
    assert Sum(scores) == rd.YourScore() + Sum([]);
    assert Game([rd]).YourScore() == Sum(scores);
  }

  /** `parse_game`: `many1(parse_round)`. The first round is required: if it
      fails, for whatever reason, so does the game; after it, rounds are read
      until one fails recoverably. */
  function ParseGame(s: string): (r: Result<Game>)
    ensures ParseRound(s).Fail? ==> r == Fail(ParseRound(s).failure)
    ensures r.Done? ==> |r.value.rounds| >= 1 && |r.rest| < |s|
    ensures r.Done? ==> r.value.rounds[0] == ParseRound(s).value
  {
    match ParseRound(s)
    case Fail(f) => Fail(f)
    case Done(_, _) =>
      match MoreRounds(false, s)
      case Fail(f) => Fail(f)
      case Done(rest, rounds) => Done(rest, Game(rounds))
  }

  /** `parse_game_extra`: `many1(parse_round_extra)`, in the same way. */
  function ParseGameExtra(s: string): (r: Result<Game>)
    ensures ParseRoundExtra(s).Fail? ==> r == Fail(ParseRoundExtra(s).failure)
    ensures r.Done? ==> |r.value.rounds| >= 1 && |r.rest| < |s|
    ensures r.Done? ==> r.value.rounds[0] == ParseRoundExtra(s).value
  {
    match ParseRoundExtra(s)
    case Fail(f) => Fail(f)
    case Done(_, _) =>
      match MoreRounds(true, s)
      case Fail(f) => Fail(f)
      case Done(rest, rounds) => Done(rest, Game(rounds))
  }

  // ---------------------------------------------------------------------------
  // Printing a strategy guide, and reading it back.

  /** The enemy's column: A, B, C. */
  function EnemyToken(p: Play): char {
    match p
    case Rock => 'A'
    case Paper => 'B'
    case Scissors => 'C'
  }

  /** The second column of the plain reading: X, Y, Z. */
  function YourToken(p: Play): char {
    match p
    case Rock => 'X'
    case Paper => 'Y'
    case Scissors => 'Z'
  }

  /** The second column of the extra reading: X when you lose, Y on a draw, Z when you win. */
  function OutcomeToken(rd: Round): char {
    if Beats(rd.enemy, rd.you) then 'X' else if rd.you == rd.enemy then 'Y' else 'Z'
  }

  /** One line of the guide, without its newline. */
  function RoundText(extra: bool, rd: Round): string {
    [EnemyToken(rd.enemy), ' ', if extra then OutcomeToken(rd) else YourToken(rd.you)]
  }

  /** Rounds as lines separated by newlines. */
  function GameText(extra: bool, rounds: seq<Round>): string
    requires |rounds| >= 1
  {
    if |rounds| == 1 then RoundText(extra, rounds[0])
    else RoundText(extra, rounds[0]) + "\n" + GameText(extra, rounds[1..])
  }

  /** Rounds read so far, put in front of what the rest of the loop gives. */
  function Prepend(rds: seq<Round>, r: Result<seq<Round>>): Result<seq<Round>> {
    match r
    case Fail(f) => Fail(f)
    case Done(rest, more) => Done(rest, rds + more)
  }

  /** The outcome column names the outcome the tables turn back into your move. */
  lemma OutcomeTokenRoundTrip(rd: Round)
    ensures MoveFor(rd.enemy, OutcomeToken(rd)) == Some(rd.you)
  {
  }

  /** A printed round is read back, followed by at most one newline of `t`. */
  lemma RoundTextRoundTrip(extra: bool, rd: Round, t: string)
    ensures RoundParser(extra, RoundText(extra, rd) + t) == Done(OptNewline(t), rd)
  {
    var s := RoundText(extra, rd) + t;
    assert s[..3] == RoundText(extra, rd) && s[3..] == t;
    assert PlayOf(s[0]) == Some(rd.enemy);
    if extra {
      OutcomeTokenRoundTrip(rd);
      assert ParseRoundExtra(s) == Done(OptNewline(t), rd);
    } else {
      assert PlayOf(s[2]) == Some(rd.you);
      assert ParseRound(s) == Done(OptNewline(t), rd);
    }
  }

  /** One more round of the loop. */
  lemma MoreRoundsStep(extra: bool, s: string, rest: string, rd: Round)
    requires RoundParser(extra, s) == Done(rest, rd)
    ensures MoreRounds(extra, s) == Prepend([rd], MoreRounds(extra, rest))
  {
  }

  /** The loop on a printed round followed by a newline and more text. */
  lemma MoreRoundsFirst(extra: bool, rd: Round, tail: string)
    ensures MoreRounds(extra, RoundText(extra, rd) + ("\n" + tail)) == Prepend([rd], MoreRounds(extra, tail))
  {
    RoundTextRoundTrip(extra, rd, "\n" + tail);
    assert OptNewline("\n" + tail) == tail;
    MoreRoundsStep(extra, RoundText(extra, rd) + ("\n" + tail), tail, rd);
  }

  /** The first round in front of the other rounds in front of a result. */
  lemma PrependCons(rounds: seq<Round>, r: Result<seq<Round>>)
    requires |rounds| >= 1
    ensures Prepend([rounds[0]], Prepend(rounds[1..], r)) == Prepend(rounds, r)
  {
    assert [rounds[0]] + rounds[1..] == rounds;
    if r.Done? {
      assert [rounds[0]] + (rounds[1..] + r.value) == rounds + r.value;
    }
  }

  /** Printed rounds followed by `t`, split after the first line and its newline. */
  lemma GameTextCons(extra: bool, rounds: seq<Round>, t: string)
    requires |rounds| >= 2
    ensures GameText(extra, rounds) + t == RoundText(extra, rounds[0]) + ("\n" + (GameText(extra, rounds[1..]) + t))
  {
  }

  /** The loop on a single printed round. */
  lemma MoreRoundsOne(extra: bool, rounds: seq<Round>, t: string)
    requires |rounds| == 1
    ensures MoreRounds(extra, GameText(extra, rounds) + t) == Prepend(rounds, MoreRounds(extra, OptNewline(t)))
  {
    var s := RoundText(extra, rounds[0]) + t;
    assert GameText(extra, rounds) + t == s;
    RoundTextRoundTrip(extra, rounds[0], t);
    MoreRoundsStep(extra, s, OptNewline(t), rounds[0]);
    assert [rounds[0]] == rounds;
  }

  /** The loop on several printed rounds, given what it does after the first line. */
  lemma MoreRoundsMany(extra: bool, rounds: seq<Round>, t: string, after: Result<seq<Round>>)
    requires |rounds| >= 2
    requires MoreRounds(extra, GameText(extra, rounds[1..]) + t) == Prepend(rounds[1..], after)
    ensures MoreRounds(extra, GameText(extra, rounds) + t) == Prepend(rounds, after)
  {
    var tail := GameText(extra, rounds[1..]) + t;
    var s := RoundText(extra, rounds[0]) + ("\n" + tail);
    assert MoreRounds(extra, s) == Prepend(rounds, after) by {
      MoreRoundsFirst(extra, rounds[0], tail);
      PrependCons(rounds, after);
    }
    GameTextCons(extra, rounds, t);
  }

  /** The loop reads every printed round, and then does whatever it does on
      what is left after the last round and at most one newline of `t`. */
  lemma {:induction false} MoreRoundsOfText(extra: bool, rounds: seq<Round>, t: string)
    requires |rounds| >= 1
    ensures MoreRounds(extra, GameText(extra, rounds) + t) == Prepend(rounds, MoreRounds(extra, OptNewline(t)))
  {
    if |rounds| == 1 {
      MoreRoundsOne(extra, rounds, t);
    } else {
      MoreRoundsOfText(extra, rounds[1..], t);
      MoreRoundsMany(extra, rounds, t, MoreRounds(extra, OptNewline(t)));
    }
  }

  /** On an empty input the loop stops at once. */
  lemma MoreRoundsOfNothing(extra: bool)
    ensures MoreRounds(extra, "") == Done("", [])
  {
  }

  /** Printed rounds start with a round the round parser reads. */
  lemma GameTextStartsWithRound(extra: bool, rounds: seq<Round>, t: string)
    requires |rounds| >= 1
    ensures RoundParser(extra, GameText(extra, rounds) + t).Done?
  {
    var s := GameText(extra, rounds) + t;
    assert s == RoundText(extra, rounds[0]) + s[3..];
    RoundTextRoundTrip(extra, rounds[0], s[3..]);
  }

  /** The loop reads back printed rounds with or without a final newline. */
  lemma MoreRoundsRoundTrip(extra: bool, rounds: seq<Round>, trailer: string)
    requires |rounds| >= 1 && trailer in ["", "\n"]
    ensures MoreRounds(extra, GameText(extra, rounds) + trailer) == Done("", rounds)
  {
    MoreRoundsOfText(extra, rounds, trailer);
    assert OptNewline(trailer) == "";
    MoreRoundsOfNothing(extra);
    assert rounds + [] == rounds;
  }

  /** Round trip: `parse_game` reads back any non-empty list of rounds
      printed one per line, with or without a final newline. */
  lemma ParseGameRoundTrip(rounds: seq<Round>, trailer: string)
    requires |rounds| >= 1 && trailer in ["", "\n"]
    ensures ParseGame(GameText(false, rounds) + trailer) == Done("", Game(rounds))
  {
    MoreRoundsRoundTrip(false, rounds, trailer);
    GameTextStartsWithRound(false, rounds, trailer);
  }

  /** Round trip for `parse_game_extra`, with the second column printed as outcomes. */
  lemma ParseGameExtraRoundTrip(rounds: seq<Round>, trailer: string)
    requires |rounds| >= 1 && trailer in ["", "\n"]
    ensures ParseGameExtra(GameText(true, rounds) + trailer) == Done("", Game(rounds))
  {
    MoreRoundsRoundTrip(true, rounds, trailer);
    GameTextStartsWithRound(true, rounds, trailer);
  }

  /** A blank line after the last round is not skipped: `parse_round` reads
      the newline as a move and the program stops. */
  lemma ParseGameTrailingBlankLine(rounds: seq<Round>)
    requires |rounds| >= 1
    ensures ParseGame(GameText(false, rounds) + "\n\n") == Fail(Abort)
  {
    var s := GameText(false, rounds) + "\n\n";
    GameTextStartsWithRound(false, rounds, "\n\n");
    MoreRoundsOfBlankLines(rounds);
    ParseGameFailsWithLoop(s);
  }

  /** After printed rounds, the loop hands the second newline to `parse_play`. */
  lemma MoreRoundsOfBlankLines(rounds: seq<Round>)
    requires |rounds| >= 1
    ensures MoreRounds(false, GameText(false, rounds) + "\n\n") == Fail(Abort)
  {
    calc {
      MoreRounds(false, GameText(false, rounds) + "\n\n");
      { MoreRoundsOfText(false, rounds, "\n\n"); }
      Prepend(rounds, MoreRounds(false, OptNewline("\n\n")));
      { assert OptNewline("\n\n") == "\n"; }
      Prepend(rounds, MoreRounds(false, "\n"));
      { assert ParseRound("\n") == Fail(Abort); }
      Prepend(rounds, Fail(Abort));
    }
  }

  /** Once a first round is there, `parse_game` fails as its loop does. */
  lemma ParseGameFailsWithLoop(s: string)
    requires ParseRound(s).Done? && MoreRounds(false, s).Fail?
    ensures ParseGame(s) == Fail(MoreRounds(false, s).failure)
  {
  }

  // ---------------------------------------------------------------------------
  // The repository's examples.

  /** `test_parse_round`, first line: "A Y\n" is Paper against Rock, 8 to 1, with nothing left. */
  lemma ParseRoundExampleWin()
    ensures ParseRound("A Y\n") == Done("", Round(Paper, Rock))
    ensures Round(Paper, Rock).YourScore() == 8 && Round(Paper, Rock).EnemysScore() == 1
  {
    var rd := Round(Paper, Rock);
    assert RoundText(false, rd) == "A Y";
    RoundTextRoundTrip(false, rd, "\n");
    assert "A Y" + "\n" == "A Y\n";
  }

  /** `test_parse_round`, second line: "C X" is Rock against Scissors, 7 to 3. */
  lemma ParseRoundExampleOtherWin()
    ensures ParseRound("C X") == Done("", Round(Rock, Scissors))
    ensures Round(Rock, Scissors).YourScore() == 7 && Round(Rock, Scissors).EnemysScore() == 3
  {
    var rd := Round(Rock, Scissors);
    assert RoundText(false, rd) == "C X";
    RoundTextRoundTrip(false, rd, "");
    assert "C X" + "" == "C X";
  }

  /** The guide of `test_parse_game`. */
  const ExampleGuide: string := "A Y\nB X\nC Z"

  /** Its rounds in the plain reading. */
  const ExampleRounds: seq<Round> := [Round(Paper, Rock), Round(Rock, Paper), Round(Scissors, Scissors)]

  /** Its rounds in the extra reading: draw with Rock, lose to Paper, beat Scissors. */
  const ExampleRoundsExtra: seq<Round> := [Round(Rock, Rock), Round(Rock, Paper), Round(Rock, Scissors)]

  lemma ExampleGuideText()
    ensures GameText(false, ExampleRounds) + "" == ExampleGuide
    ensures GameText(true, ExampleRoundsExtra) + "" == ExampleGuide
  {
    assert ExampleRounds[1..][1..] == [ExampleRounds[2]];
    assert ExampleRoundsExtra[1..][1..] == [ExampleRoundsExtra[2]];
  }

  /** `test_parse_game`: the guide reads as three rounds with nothing left, and the enemy scores 15. */
  lemma ParseGameExample()
    ensures ParseGame(ExampleGuide) == Done("", Game(ExampleRounds))
    ensures Game(ExampleRounds).EnemysScore() == 15
  {
    ExampleGuideParses();
    ExampleEnemyTotal();
  }

  lemma ExampleGuideParses()
    ensures ParseGame(ExampleGuide) == Done("", Game(ExampleRounds))
  {
    ExampleGuideText();
    ParseGameRoundTrip(ExampleRounds, "");
  }

  lemma ExampleEnemyTotal()
    ensures Game(ExampleRounds).EnemysScore() == 15
  {
    assert Swapped(ExampleRounds) == [Round(Rock, Paper), Round(Paper, Rock), Round(Scissors, Scissors)];
    ThreeRoundScore(Round(Rock, Paper), Round(Paper, Rock), Round(Scissors, Scissors));
  }

  /** A game of three rounds scores the three rounds' scores. */
  lemma ThreeRoundScore(a: Round, b: Round, c: Round)
    ensures Game([a, b, c]).YourScore() == a.YourScore() + b.YourScore() + c.YourScore()
  {
    YourScoreAppend([a], [b, c]);
    YourScoreAppend([b], [c]);
    YourScoreSingle(a);
    YourScoreSingle(b);
    YourScoreSingle(c);
    assert [a] + [b, c] == [a, b, c] && [b] + [c] == [b, c];
  }

  // ---------------------------------------------------------------------------
  // Further examples of the model's behaviour (not tests of the repository).

  /** The same guide in the extra reading: you score 4 + 1 + 7 = 12. */
  lemma ParseGameExtraExample()
    ensures ParseGameExtra(ExampleGuide) == Done("", Game(ExampleRoundsExtra))
    ensures Game(ExampleRoundsExtra).YourScore() == 12
  {
    ExampleGuideParsesExtra();
    ThreeRoundScore(Round(Rock, Rock), Round(Rock, Paper), Round(Rock, Scissors));
  }

  lemma ExampleGuideParsesExtra()
    ensures ParseGameExtra(ExampleGuide) == Done("", Game(ExampleRoundsExtra))
  {
    ExampleGuideText();
    ParseGameExtraRoundTrip(ExampleRoundsExtra, "");
  }

  /** A guide cut short after an enemy's move asks for more input. */
  lemma ParseGameCutShort()
    ensures ParseGame("A Y\nB") == Fail(Incomplete)
  {
    var rd := Round(Paper, Rock);
    assert "A Y\nB" == RoundText(false, rd) + ("\n" + "B");
    MoreRoundsFirst(false, rd, "B");
    assert ParseRound("B") == Fail(Incomplete);
    RoundTextRoundTrip(false, rd, "\nB");
  }

  /** Without the space, the third character is never read: a bad third
      character then gives a recoverable error, not a panic. */
  lemma ParseRoundMissingSpace()
    ensures ParseRound("A-Q") == Fail(Error)
    ensures ParseRoundExtra("AxQ") == Fail(Error)
  {
  }
}
