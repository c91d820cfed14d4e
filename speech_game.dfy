/** The game logic of the voice number-guessing game (8/scripts/speech.js):
    the hint classifier, voice-command precedence, the scoreboard and the
    guess-handling state machine that narrows `[minRange, maxRange]`
    around the hidden target.  Speech output, sounds, timers and drawing
    are left out; the random target and the clock readings are parameters. */
module GuessingGame {
  import opened Wrappers
  import opened JsText
  import opened SpokenNumbers

  /* ---------------- difficulty ---------------- */

  datatype Difficulty = Easy | Medium | Hard

  /** The `difficulties` table: the upper end of the range. */
  function UpperBound(d: Difficulty): (n: nat)
    ensures n >= 50
  {
    match d
    case Easy => 50
    case Medium => 100
    case Hard => 1000
  }

  /* ---------------- smartHint ---------------- */

  datatype Hint = Correct | VeryCold | Cold | Warm | Hot

  /** How close a hint says the guess is: higher is hotter. */
  function Warmth(h: Hint): nat
  {
    match h
    case VeryCold => 0
    case Cold => 1
    case Warm => 2
    case Hot => 3
    case Correct => 4
  }

  /** `smartHint` as written: "Correct!" for a zero distance, otherwise by
      `ratio`, the distance as a fraction of the range's upper bound. */
  function HintOfRatio(diff: nat, ratio: real): Hint
  {
    if diff == 0 then Correct
    else if ratio > 0.4 then VeryCold
    else if ratio > 0.25 then Cold
    else if ratio > 0.1 then Warm
    else Hot
  }

  /** `smartHint` in whole numbers: more than 2/5 of the bound away is very
      cold, more than 1/4 cold, more than 1/10 warm, anything nearer hot. */
  function SmartHint(diff: nat, upperBound: nat): (h: Hint)
    requires upperBound > 0
    ensures h == Correct <==> diff == 0
  {
    if diff == 0 then Correct
    else if 5 * diff > 2 * upperBound then VeryCold
    else if 4 * diff > upperBound then Cold
    else if 10 * diff > upperBound then Warm
    else Hot
  }

  lemma RatioAbove(diff: nat, upperBound: nat, num: nat, den: nat)
    requires upperBound > 0 && den > 0
    ensures diff as real / upperBound as real > num as real / den as real
            <==> diff * den > num * upperBound
  {
    var r := diff as real / upperBound as real;
    var q := num as real / den as real;
    assert r * upperBound as real == diff as real;
    assert q * den as real == num as real;
    if r > q {
      assert r * (upperBound * den) as real > q * (upperBound * den) as real;
      assert (diff * den) as real == r * (upperBound * den) as real;
      assert (num * upperBound) as real == q * (upperBound * den) as real;
    }
    if diff * den > num * upperBound {
      assert r * (upperBound * den) as real == (diff * den) as real;
      assert q * (upperBound * den) as real == (num * upperBound) as real;
    }
  }

  /** The whole-number bands are exactly the source's comparisons of the
      ratio `diff / upperBound` with 0.4, 0.25 and 0.1. */
  lemma SmartHintIsRatio(diff: nat, upperBound: nat)
    requires upperBound > 0
    ensures SmartHint(diff, upperBound) == HintOfRatio(diff, diff as real / upperBound as real)
  {
    assert 0.4 == 2 as real / 5 as real;
    assert 0.25 == 1 as real / 4 as real;
    assert 0.1 == 1 as real / 10 as real;
    RatioAbove(diff, upperBound, 2, 5);
    RatioAbove(diff, upperBound, 1, 4);
    RatioAbove(diff, upperBound, 1, 10);
  }

  /** A larger distance never yields a hotter hint. */
  lemma HintMonotone(d1: nat, d2: nat, upperBound: nat)
    requires upperBound > 0 && d1 <= d2
    ensures Warmth(SmartHint(d2, upperBound)) <= Warmth(SmartHint(d1, upperBound))
  {
  }

  /* ---------------- handleCommand ---------------- */

  datatype Command = GiveUp | NewGame | Repeat | Help

  /** `handleCommand`'s tests, in order; `None` when it returns false. */
  function ReadCommand(t: string): Option<Command>
  {
    if Contains(t, "give up") || Contains(t, "surrender") then Some(GiveUp)
    else if Contains(t, "new game") || Contains(t, "restart") then Some(NewGame)
    else if Contains(t, "repeat") then Some(Repeat)
    else if Contains(t, "help") then Some(Help)
    else None
  }

  /** A phrase `p` occurs somewhere in `t`. */
  ghost predicate Says(t: string, p: string)
  {
    exists i: nat :: OccursAt(t, p, i)
  }

  /** The commands by where their phrases occur: giving up beats every
      other command, a new game beats repeat and help, and repeat beats
      help; a transcript with none of the phrases is not a command. */
  lemma CommandPrecedence(t: string)
    ensures ReadCommand(t) == Some(GiveUp) <==> Says(t, "give up") || Says(t, "surrender")
    ensures ReadCommand(t) == Some(NewGame) <==>
              (!Says(t, "give up") && !Says(t, "surrender")
               && (Says(t, "new game") || Says(t, "restart")))
    ensures ReadCommand(t) == Some(Repeat) <==>
              (!Says(t, "give up") && !Says(t, "surrender") && !Says(t, "new game")
               && !Says(t, "restart") && Says(t, "repeat"))
    ensures ReadCommand(t) == None <==>
              (!Says(t, "give up") && !Says(t, "surrender") && !Says(t, "new game")
               && !Says(t, "restart") && !Says(t, "repeat") && !Says(t, "help"))
  {
    ContainsAt(t, "give up");
    ContainsAt(t, "surrender");
    ContainsAt(t, "new game");
    ContainsAt(t, "restart");
    ContainsAt(t, "repeat");
    ContainsAt(t, "help");
  }

  /* ---------------- scoreboard ---------------- */

  datatype Achievement = Lucky | Skilled | FastFinisher | Dedicated | ClearSpeech

  /** The running results: `gameHistory` holds the attempts of each won
      game and `gameTimes` its duration in seconds. */
  datatype Scoreboard = Scoreboard(wins: nat, losses: nat, bestScore: Option<nat>,
                                   gameHistory: seq<nat>, gameTimes: seq<real>,
                                   achievements: set<Achievement>)

  /** `best` is the least count in `h`, and `None` exactly when `h` is empty. */
  predicate IsLeast(best: Option<nat>, h: seq<nat>)
  {
    (best.None? <==> |h| == 0)
    && (best.Some? ==> best.value in h && forall k :: 0 <= k < |h| ==> best.value <= h[k])
  }

  /** Keeping the smaller of the old best and a new count keeps the least. */
  lemma LeastAppend(best: Option<nat>, h: seq<nat>, a: nat)
    requires IsLeast(best, h)
    ensures IsLeast(if best.None? || a < best.value then Some(a) else best, h + [a])
  {
    var h' := h + [a];
    assert forall k :: 0 <= k < |h| ==> h'[k] == h[k];
    assert h'[|h|] == a;
  }

  /** Wins are the won games on record, each with its time, and the best
      score is the fewest attempts among them. */
  predicate Consistent(sb: Scoreboard)
  {
    sb.wins == |sb.gameHistory| && |sb.gameTimes| == |sb.gameHistory|
    && IsLeast(sb.bestScore, sb.gameHistory)
  }

  /** The achievements one call of `updateScoreboard` hands out, given the
      number of won games on record afterwards. */
  function Earned(win: bool, attempts: nat, timeSec: real, games: nat): set<Achievement>
  {
    (if win && attempts == 1 then {Lucky} else {})
    + (if win && attempts <= 5 then {Skilled} else {})
    + (if win && timeSec <= 10.0 then {FastFinisher} else {})
    + (if games >= 10 then {Dedicated} else {})
  }

  /** Each achievement is earned exactly under its own condition, and the
      confidence one is never earned here. */
  lemma EarnedExactly(win: bool, attempts: nat, timeSec: real, games: nat)
    ensures Lucky in Earned(win, attempts, timeSec, games) <==> win && attempts == 1
    ensures Skilled in Earned(win, attempts, timeSec, games) <==> win && attempts <= 5
    ensures FastFinisher in Earned(win, attempts, timeSec, games) <==> win && timeSec <= 10.0
    ensures Dedicated in Earned(win, attempts, timeSec, games) <==> games >= 10
    ensures ClearSpeech !in Earned(win, attempts, timeSec, games)
  {
  }

  /** `updateScoreboard(win, timeSec)` on the results: a win is counted,
      recorded with its attempts and time and may improve the best score;
      a loss is only counted.  Achievements are only ever added. */
  function Record(sb: Scoreboard, win: bool, attempts: nat, timeSec: real): (r: Scoreboard)
    ensures win ==> r.wins == sb.wins + 1 && r.losses == sb.losses
                    && r.gameHistory == sb.gameHistory + [attempts]
                    && r.gameTimes == sb.gameTimes + [timeSec]
    ensures !win ==> r.wins == sb.wins && r.losses == sb.losses + 1
                     && r.gameHistory == sb.gameHistory && r.gameTimes == sb.gameTimes
                     && r.bestScore == sb.bestScore
    ensures Consistent(sb) ==> Consistent(r)
    ensures r.achievements == sb.achievements + Earned(win, attempts, timeSec, |r.gameHistory|)
  {
    if win then
      var best := if sb.bestScore.None? || attempts < sb.bestScore.value then Some(attempts) else sb.bestScore;
      var history := sb.gameHistory + [attempts];
      assert IsLeast(sb.bestScore, sb.gameHistory) ==> IsLeast(best, history) by {
        if IsLeast(sb.bestScore, sb.gameHistory) {
          LeastAppend(sb.bestScore, sb.gameHistory, attempts);
        }
      }
      Scoreboard(sb.wins + 1, sb.losses, best, history, sb.gameTimes + [timeSec],
                 sb.achievements + Earned(true, attempts, timeSec, |history|))
    else
      Scoreboard(sb.wins, sb.losses + 1, sb.bestScore, sb.gameHistory, sb.gameTimes,
                 sb.achievements + Earned(false, attempts, timeSec, |sb.gameHistory|))
  }

  /** The results after a win: `updateScoreboard(true, elapsed)`, plus the
      clear-speech achievement for a recognition confidence of 0.9 or more. */
  function WinScore(sb: Scoreboard, attempts: nat, elapsed: real, confidence: real): (r: Scoreboard)
    ensures Consistent(sb) ==> Consistent(r)
    ensures r.wins == sb.wins + 1 && r.gameHistory == sb.gameHistory + [attempts]
    ensures ClearSpeech in r.achievements <==> ClearSpeech in sb.achievements || confidence >= 0.9
  {
    var won := Record(sb, true, attempts, elapsed);
    won.(achievements := won.achievements + (if confidence >= 0.9 then {ClearSpeech} else {}))
  }

  /** A consistent best score is no worse than any recorded game. */
  lemma BestScoreIsBest(sb: Scoreboard, k: nat)
    requires Consistent(sb) && k < |sb.gameHistory|
    ensures sb.bestScore.Some? && sb.bestScore.value <= sb.gameHistory[k]
  {
  }

  /* ---------------- judging a guess ---------------- */

  /** What `onresult` makes of a reading once commands are ruled out. */
  datatype Verdict = NotANumber | OutOfRange | Win | TooLow(hint: Hint) | TooHigh(hint: Hint)

  function Judge(guess: Option<int>, minRange: int, maxRange: int, target: int, upperBound: nat): (v: Verdict)
    requires upperBound > 0
    ensures v == NotANumber <==> guess.None?
    ensures v == OutOfRange <==> guess.Some? && (guess.value < minRange || guess.value > maxRange)
    ensures v == Win <==> guess == Some(target) && minRange <= target <= maxRange
    ensures v.TooLow? <==> guess.Some? && minRange <= guess.value < target && guess.value <= maxRange
    ensures v.TooHigh? <==> guess.Some? && target < guess.value <= maxRange && minRange <= guess.value
  {
    match guess
    case None => NotANumber
    case Some(g) =>
      if g < minRange || g > maxRange then OutOfRange
      else
        var diff := if g < target then target - g else g - target;
        var hint := SmartHint(diff, upperBound);
        if g == target then Win
        else if g < target then TooLow(hint)
        else TooHigh(hint)
  }

  /** The range after a wrong guess: raised past a low guess, lowered
      below a high one. */
  function Narrow(minRange: int, maxRange: int, target: int, guess: int): (r: (int, int))
    requires minRange <= guess <= maxRange && minRange <= target <= maxRange && guess != target
    ensures minRange <= r.0 <= target <= r.1 <= maxRange
    ensures r.1 - r.0 < maxRange - minRange
    ensures guess < r.0 || guess > r.1
  {
    if guess < target then
      (if minRange > guess + 1 then minRange else guess + 1, maxRange)
    else
      (minRange, if maxRange < guess - 1 then maxRange else guess - 1)
  }

  /** Wrong guesses inside the range narrow it until only the target is
      left: at most `maxRange - minRange` of them fit in one game. */
  lemma {:induction false} WrongGuessesBounded(minRange: int, maxRange: int, target: int, guesses: seq<int>)
    requires minRange <= target <= maxRange
    requires NarrowsAll(minRange, maxRange, target, guesses)
    ensures |guesses| <= maxRange - minRange
    decreases |guesses|
  {
    if |guesses| > 0 {
      var r := Narrow(minRange, maxRange, target, guesses[0]);
      WrongGuessesBounded(r.0, r.1, target, guesses[1..]);
    }
  }

  /** Each guess in turn is wrong and inside the range its predecessors left. */
  predicate NarrowsAll(minRange: int, maxRange: int, target: int, guesses: seq<int>)
    requires minRange <= target <= maxRange
    decreases |guesses|
  {
    |guesses| == 0
    || (minRange <= guesses[0] <= maxRange && guesses[0] != target
        && var r := Narrow(minRange, maxRange, target, guesses[0]);
           NarrowsAll(r.0, r.1, target, guesses[1..]))
  }

  /* ---------------- the game ---------------- */

  /** What the game said last (`lastHint`), without the text formatting. */
  datatype Announcement = Welcome | Won(target: int, attempts: nat)
                        | LowHint(hint: Hint, minRange: int, maxRange: int)
                        | HighHint(hint: Hint, minRange: int, maxRange: int)

  /** What one recognition result did. */
  datatype Reply = Commanded(command: Command) | Ignored | Judged(verdict: Verdict)

  class GuessGame {
    var upperBound: nat
    var minRange: int
    var maxRange: int
    var target: int
    var attempts: nat
    var playerAttempts: seq<nat>
    var currentPlayer: nat
    var gameActive: bool
    var multiplayer: bool
    var lastHint: Announcement
    var score: Scoreboard
    /** The `wordNumbers` table the game reads spoken numbers with. */
    const wordNumbers: map<string, nat>

    /** Two players, the target inside the remaining range, the range
        inside `1..upperBound`, and a consistent scoreboard. */
    predicate Valid()
      reads this
    {
      |playerAttempts| == 2 && currentPlayer < 2 && upperBound > 0
      && 1 <= minRange <= target <= maxRange <= upperBound
      && Consistent(score)
    }

    /** Page load: stored achievements, then `resetGame(false)`. */
    constructor (difficulty: Difficulty, freshTarget: int, stored: set<Achievement>, multiplayerOn: bool)
      requires 1 <= freshTarget <= UpperBound(difficulty)
      ensures Valid() && gameActive && attempts == 0
      ensures minRange == 1 && maxRange == upperBound == UpperBound(difficulty) && target == freshTarget
      ensures score == Scoreboard(0, 0, None, [], [], stored) && multiplayer == multiplayerOn
      ensures wordNumbers == WordNumbers
      ensures playerAttempts == [0, 0] && currentPlayer == 0 && lastHint == Welcome
    {
      upperBound := UpperBound(difficulty);
      maxRange := UpperBound(difficulty);
      minRange := 1;
      attempts := 0;
      playerAttempts := [0, 0];
      gameActive := true;
      target := freshTarget;
      lastHint := Welcome;
      currentPlayer := 0;
      multiplayer := multiplayerOn;
      score := Scoreboard(0, 0, None, [], [], stored);
      wordNumbers := WordNumbers;
    }

    /** `resetGame`: a fresh range for the chosen difficulty, a fresh
        target, no attempts, player 1; the scoreboard is kept. */
    method ResetGame(difficulty: Difficulty, freshTarget: int)
      requires Valid() && 1 <= freshTarget <= UpperBound(difficulty)
      modifies this
      ensures Valid() && gameActive && attempts == 0 && playerAttempts == [0, 0] && currentPlayer == 0
      ensures upperBound == UpperBound(difficulty) && minRange == 1 && maxRange == upperBound
      ensures target == freshTarget && lastHint == Welcome
      ensures score == old(score) && multiplayer == old(multiplayer)
    {
      upperBound := UpperBound(difficulty);
      maxRange := upperBound;
      minRange := 1;
      attempts := 0;
      playerAttempts := [0, 0];
      gameActive := true;
      target := freshTarget;
      lastHint := Welcome;
      currentPlayer := 0;
    }

    /** `switchPlayer`: alternate only in multiplayer mode. */
    method SwitchPlayer()
      requires Valid()
      modifies this`currentPlayer
      ensures Valid()
      ensures currentPlayer == if multiplayer then 1 - old(currentPlayer) else old(currentPlayer)
    {
      if multiplayer {
        currentPlayer := if currentPlayer == 0 then 1 else 0;
      }
    }

    /** The multiplayer toggle: back to player 1 with fresh per-player counts. */
    method ToggleMultiplayer(on: bool)
      requires Valid()
      modifies this
      ensures Valid() && multiplayer == on && currentPlayer == 0 && playerAttempts == [0, 0]
      ensures unchanged(this`upperBound, this`minRange, this`maxRange, this`target, this`attempts)
      ensures unchanged(this`gameActive, this`lastHint, this`score)
    {
      multiplayer := on;
      currentPlayer := 0;
      playerAttempts := [0, 0];
    }

    /** `updateScoreboard`. */
    method UpdateScoreboard(win: bool, timeSec: real)
      requires Valid()
      modifies this`score
      ensures Valid() && score == Record(old(score), win, attempts, timeSec)
    {
      score := Record(score, win, attempts, timeSec);
    }

    /** `handleGiveUp`: the game stops and counts as a loss; the new game
        its timer starts later is `ResetGame`. */
    method HandleGiveUp()
      requires Valid()
      modifies this`gameActive, this`score
      ensures Valid() && !gameActive && score == Record(old(score), false, attempts, 0.0)
    {
      gameActive := false;
      UpdateScoreboard(false, 0.0);
    }

    /** The guess part of `recognition.onresult`, while the game is on.
        A reading that is not a number or lies outside the range changes
        nothing; an accepted one counts an attempt for the current player
        and either wins or narrows the range and passes the turn.
        `elapsed` is the clock reading in seconds since the game started. */
    method TakeGuess(guess: Option<int>, confidence: real, elapsed: real) returns (verdict: Verdict)
      requires Valid() && gameActive
      modifies this`minRange, this`maxRange, this`attempts, this`playerAttempts, this`currentPlayer
      modifies this`gameActive, this`lastHint, this`score
      ensures Valid()
      ensures verdict == Judge(guess, old(minRange), old(maxRange), old(target), old(upperBound))
      ensures verdict == NotANumber || verdict == OutOfRange ==> unchanged(this)
      ensures verdict == Win || verdict.TooLow? || verdict.TooHigh? ==>
                attempts == old(attempts) + 1
                && playerAttempts[old(currentPlayer)] == old(playerAttempts[currentPlayer]) + 1
                && playerAttempts[1 - old(currentPlayer)] == old(playerAttempts[1 - currentPlayer])
      ensures target == old(target) && upperBound == old(upperBound) && multiplayer == old(multiplayer)
      ensures verdict == Win ==>
                !gameActive && minRange == old(minRange) && maxRange == old(maxRange)
                && currentPlayer == old(currentPlayer)
                && lastHint == Won(target, attempts)
                && score == WinScore(old(score), attempts, elapsed, confidence)
      ensures verdict.TooLow? || verdict.TooHigh? ==>
                (minRange, maxRange) == Narrow(old(minRange), old(maxRange), old(target), guess.value)
                && target == old(target) && gameActive && score == old(score)
                && currentPlayer == (if multiplayer then 1 - old(currentPlayer) else old(currentPlayer))
      ensures verdict.TooLow? ==> lastHint == LowHint(verdict.hint, minRange, maxRange)
      ensures verdict.TooHigh? ==> lastHint == HighHint(verdict.hint, minRange, maxRange)
    {
      verdict := Judge(guess, minRange, maxRange, target, upperBound);
      if guess.None? || guess.value < minRange || guess.value > maxRange {
        return;
      }
      var g := guess.value;
      attempts := attempts + 1;
      playerAttempts := playerAttempts[currentPlayer := playerAttempts[currentPlayer] + 1];
      if g == target {
        RecordWin(confidence, elapsed);
        return;
      }
      NarrowTo(g, verdict);
      SwitchPlayer();
    }

    /** A correct guess: the game stops, the win is announced and
        recorded, and a confident reading earns "Clear Speech". */
    method RecordWin(confidence: real, elapsed: real)
      requires Valid()
      modifies this`gameActive, this`lastHint, this`score
      ensures Valid() && !gameActive && lastHint == Won(target, attempts)
      ensures score == WinScore(old(score), attempts, elapsed, confidence)
    {
      gameActive := false;
      lastHint := Won(target, attempts);
      UpdateScoreboard(true, elapsed);
      if confidence >= 0.9 {
        score := score.(achievements := score.achievements + {ClearSpeech});
      }
    }

    /** A wrong guess inside the range: the range shrinks to the side of
        the target and the hint names the new range. */
    method NarrowTo(g: int, verdict: Verdict)
      requires Valid() && minRange <= g <= maxRange && g != target
      requires verdict.TooLow? || verdict.TooHigh?
      modifies this`minRange, this`maxRange, this`lastHint
      ensures Valid()
      ensures (minRange, maxRange) == Narrow(old(minRange), old(maxRange), target, g)
      ensures verdict.TooLow? ==> lastHint == LowHint(verdict.hint, minRange, maxRange)
      ensures verdict.TooHigh? ==> lastHint == HighHint(verdict.hint, minRange, maxRange)
    {
      var r := Narrow(minRange, maxRange, target, g);
      minRange, maxRange := r.0, r.1;
      lastHint := if verdict.TooLow? then LowHint(verdict.hint, minRange, maxRange)
                  else HighHint(verdict.hint, minRange, maxRange);
    }

    /** The command a transcript carries, once lower-cased and trimmed. */
    static function CommandOf(transcript: string): Option<Command>
    {
      ReadCommand(Trim(ToLower(transcript)))
    }

    /** `recognition.onresult`: the lower-cased, trimmed transcript is
        first tried as a voice command (even after the game is over);
        otherwise, while the game is on, it is read as a guess.  Repeat
        and help only speak.  `freshTarget` is the number a "new game"
        draws for the chosen `difficulty`. */
    method OnResult(transcript: string, confidence: real, elapsed: real,
                    difficulty: Difficulty, freshTarget: int) returns (reply: Reply)
      requires Valid() && 1 <= freshTarget <= UpperBound(difficulty)
      modifies this
      ensures Valid()
      ensures reply.Commanded? <==> CommandOf(transcript).Some?
      ensures reply.Commanded? ==> Some(reply.command) == CommandOf(transcript)
      ensures reply == Ignored <==> CommandOf(transcript).None? && !old(gameActive)
      ensures reply.Judged? <==> CommandOf(transcript).None? && old(gameActive)
      ensures reply == Commanded(GiveUp) ==>
                !gameActive && score == Record(old(score), false, old(attempts), 0.0)
                && minRange == old(minRange) && maxRange == old(maxRange) && attempts == old(attempts)
                && target == old(target) && currentPlayer == old(currentPlayer)
                && playerAttempts == old(playerAttempts) && lastHint == old(lastHint)
                && upperBound == old(upperBound) && multiplayer == old(multiplayer)
      ensures reply == Commanded(NewGame) ==>
                gameActive && attempts == 0 && minRange == 1 && maxRange == UpperBound(difficulty)
                && target == freshTarget && score == old(score)
                && playerAttempts == [0, 0] && currentPlayer == 0 && lastHint == Welcome
                && upperBound == UpperBound(difficulty) && multiplayer == old(multiplayer)
      ensures reply.Judged? ==> upperBound == old(upperBound) && multiplayer == old(multiplayer)
      ensures reply == Commanded(Repeat) || reply == Commanded(Help) || reply == Ignored ==>
                unchanged(this)
      ensures reply.Judged? ==>
                reply.verdict == Judge(ReadGuess(wordNumbers, Trim(ToLower(transcript))), old(minRange), old(maxRange),
                                       old(target), old(upperBound))
      ensures reply == Judged(NotANumber) || reply == Judged(OutOfRange) ==> unchanged(this)
      ensures reply.Judged? && reply.verdict != NotANumber && reply.verdict != OutOfRange ==>
                attempts == old(attempts) + 1
                && playerAttempts[old(currentPlayer)] == old(playerAttempts[currentPlayer]) + 1
                && playerAttempts[1 - old(currentPlayer)] == old(playerAttempts[1 - currentPlayer])
      ensures reply == Judged(Win) ==>
                !gameActive && lastHint == Won(target, attempts)
                && score == WinScore(old(score), attempts, elapsed, confidence)
                && target == old(target) && currentPlayer == old(currentPlayer)
                && minRange == old(minRange) && maxRange == old(maxRange)
      ensures reply.Judged? && (reply.verdict.TooLow? || reply.verdict.TooHigh?) ==>
                gameActive && attempts == old(attempts) + 1 && target == old(target)
                && minRange <= target <= maxRange
                && maxRange - minRange < old(maxRange) - old(minRange)
                && (minRange, maxRange) == Narrow(old(minRange), old(maxRange), old(target),
                                                  ReadGuess(wordNumbers, Trim(ToLower(transcript))).value)
                && score == old(score)
                && currentPlayer == (if multiplayer then 1 - old(currentPlayer) else old(currentPlayer))
      ensures reply.Judged? && reply.verdict.TooLow? ==> lastHint == LowHint(reply.verdict.hint, minRange, maxRange)
      ensures reply.Judged? && reply.verdict.TooHigh? ==> lastHint == HighHint(reply.verdict.hint, minRange, maxRange)
    {
      var raw := Trim(ToLower(transcript));
      var command := CommandOf(transcript);
      if command.Some? {
        reply := Commanded(command.value);
        match command.value {
          case GiveUp => HandleGiveUp();
          case NewGame => ResetGame(difficulty, freshTarget);
          case Repeat =>
          case Help =>
        }
        return;
      }
      if !gameActive {
        return Ignored;
      }
      var verdict := TakeGuess(ReadGuess(wordNumbers, raw), confidence, elapsed);
      reply := Judged(verdict);
    }
  }
}
