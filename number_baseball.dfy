/**
 * The game engine: the secret answers, scoring of a guess in strikes and balls,
 * and the reset that draws new answers.
 */
module Baseball {
  import opened Results
  import opened UserInputs

  const MIN_NUMBER := 0
  const MAX_NUMBER := 10
  const ANSWER_STRIKE_COUNT := 3
  const ANSWERS_COUNT := 3

  /** Why a list of answers is rejected. */
  datatype AnswerError = WrongCount | OutOfRange

  /** What a submission reports: the correct-answer message, or the ball and strike counts. */
  datatype Outcome = Correct | Counts(ball: nat, strike: nat)

  predicate InRange(x: int) {
    MIN_NUMBER <= x < MAX_NUMBER
  }

  /**
   * Checks the count, then the range of every entry. Repeated values are not
   * rejected.
   */
  function ValidateAnswers(answers: seq<int>): (r: Check<AnswerError>)
    ensures r == Pass <==> |answers| == 3 && forall i :: 0 <= i < |answers| ==> InRange(answers[i])
    ensures r == Fail(WrongCount) <==> |answers| != 3
    ensures r == Fail(OutOfRange) <==> |answers| == 3 && exists i :: 0 <= i < |answers| && !InRange(answers[i])
  {
    if |answers| != ANSWERS_COUNT then Fail(WrongCount)
    else if !(forall i | 0 <= i < |answers| :: InRange(answers[i])) then Fail(OutOfRange)
    else Pass
  }

  /** Validation accepts answers with a repeated value. */
  lemma ValidateAcceptsRepeats()
    ensures ValidateAnswers([7, 7, 7]) == Pass
  {
  }

  /** What a draw of three values from range(0, 10) without replacement guarantees. */
  predicate IsSample(s: seq<int>) {
    |s| == ANSWERS_COUNT && PairwiseDistinct(s) && forall i :: 0 <= i < |s| ==> InRange(s[i])
  }

  /** Every sampled triple passes validation, and the sampled triples are exactly the valid distinct ones. */
  lemma SampleIsValid(s: seq<int>)
    ensures IsSample(s) <==> ValidateAnswers(s) == Pass && PairwiseDistinct(s)
  {
  }

  /** Number of positions below n where the guess and the answers hold the same value. */
  function StrikesBelow(g: seq<int>, a: seq<int>, n: nat): (r: nat)
    requires n <= |g| && n <= |a|
    ensures r <= n
  {
    if n == 0 then 0
    else StrikesBelow(g, a, n - 1) + (if g[n - 1] == a[n - 1] then 1 else 0)
  }

  /** Position i is a ball: no strike there, but the guessed value occurs among the answers. */
  predicate IsBall(g: seq<int>, a: seq<int>, i: nat)
    requires i < |g| && i < |a|
    ensures IsBall(g, a, i) ==> exists j :: 0 <= j < |a| && j != i && a[j] == g[i]
  {
    g[i] != a[i] && g[i] in a
  }

  /** Number of ball positions below n. */
  function BallsBelow(g: seq<int>, a: seq<int>, n: nat): (r: nat)
    requires n <= |g| && n <= |a|
    ensures r <= n
  {
    if n == 0 then 0
    else BallsBelow(g, a, n - 1) + (if IsBall(g, a, n - 1) then 1 else 0)
  }

  /**
   * With answers free of repeats, a ball is a guessed value found in the
   * answers at some other position.
   */
  lemma BallIsElsewhere(g: seq<int>, a: seq<int>, i: nat)
    requires i < |g| && i < |a| && PairwiseDistinct(a)
    ensures IsBall(g, a, i) <==> exists j :: 0 <= j < |a| && j != i && a[j] == g[i]
  {
  }

  /** With a repeated answer value, a guessed value found elsewhere can still be a strike. */
  lemma RepeatedAnswerStrikeNotBall()
    ensures [1, 2, 3][0] == [1, 1, 2][0] && StrikesBelow([1, 2, 3], [1, 1, 2], 1) == 1
    ensures !IsBall([1, 2, 3], [1, 1, 2], 0) && [1, 1, 2][1] == [1, 2, 3][0]
  {
  }

  /** A position counts as a strike or a ball, never both, so the counts add up to at most n. */
  lemma {:induction false} CountsBounded(g: seq<int>, a: seq<int>, n: nat)
    requires n <= |g| && n <= |a|
    ensures StrikesBelow(g, a, n) + BallsBelow(g, a, n) <= n
  {
    if n > 0 {
      CountsBounded(g, a, n - 1);
    }
  }

  /** All n positions are strikes exactly when the first n entries of guess and answers agree. */
  lemma {:induction false} AllStrikes(g: seq<int>, a: seq<int>, n: nat)
    requires n <= |g| && n <= |a|
    ensures StrikesBelow(g, a, n) == n <==> g[..n] == a[..n]
  {
    if n > 0 {
      AllStrikes(g, a, n - 1);
      assert g[..n] == g[..n - 1] + [g[n - 1]];
      assert a[..n] == a[..n - 1] + [a[n - 1]];
      if g[..n] == a[..n] {
        assert g[..n - 1] == g[..n][..n - 1];
        assert a[..n - 1] == a[..n][..n - 1];
      }
    }
  }

  /** The values of p that also occur in a. */
  function Shared(p: seq<int>, a: seq<int>): set<int> {
    set x | x in p && x in a
  }

  /**
   * For a guess without repeated digits, strikes plus balls over the first n
   * positions count the distinct values those positions share with the answers.
   */
  lemma {:induction false} CountsAreSharedDigits(g: seq<int>, a: seq<int>, n: nat)
    requires n <= |g| && n <= |a|
    requires PairwiseDistinct(g)
    ensures StrikesBelow(g, a, n) + BallsBelow(g, a, n) == |Shared(g[..n], a)|
  {
    if n == 0 {
      assert Shared(g[..0], a) == {};
    } else {
      CountsAreSharedDigits(g, a, n - 1);
      var last := g[n - 1];
      assert g[..n] == g[..n - 1] + [last];
      if last in a {
        assert Shared(g[..n], a) == Shared(g[..n - 1], a) + {last};
      } else {
        assert Shared(g[..n], a) == Shared(g[..n - 1], a);
      }
    }
  }

  /** The correct-answer check: every one of the answers' positions is a strike. */
  predicate IsCorrect(strike: int) {
    strike == ANSWER_STRIKE_COUNT
  }

  /** The strike count of a guess passes the correct-answer check exactly when the guess equals the answers. */
  lemma CorrectIffEqual(g: seq<int>, a: seq<int>)
    requires |g| >= 3 && |a| == 3
    ensures IsCorrect(StrikesBelow(g, a, 3)) <==> g[..3] == a
  {
    AllStrikes(g, a, 3);
    assert a[..3] == a;
  }

  /** The outcome of scoring guess g against answers a. */
  function Verdict(g: seq<int>, a: seq<int>): (r: Outcome)
    requires |g| >= 3 && |a| == 3
    ensures r == Correct <==> g[..3] == a
    ensures r.Counts? ==> r.strike < 3 && r.strike + r.ball <= 3
    ensures r.Counts? ==> r.strike == StrikesBelow(g, a, 3) && r.ball == BallsBelow(g, a, 3)
  {
    var strike, ball := StrikesBelow(g, a, 3), BallsBelow(g, a, 3);
    CorrectIffEqual(g, a);
    CountsBounded(g, a, 3);
    if IsCorrect(strike) then Correct else Counts(ball, strike)
  }

  /** Sample scores for fixed answers. */
  lemma VerdictExamples()
    ensures Verdict([1, 2, 3], [1, 2, 3]) == Correct
    ensures Verdict([3, 2, 1], [1, 2, 3]) == Counts(2, 1)
    ensures Verdict([4, 5, 6], [1, 2, 3]) == Counts(0, 0)
    ensures Verdict([2, 0, 1], [0, 1, 2]) == Counts(3, 0)
  {
  }

  /** Digits of the answers joined into one string, as the reveal button shows them. */
  function AnswerText(a: seq<int>): (r: string)
    requires forall i :: 0 <= i < |a| ==> InRange(a[i])
    ensures |r| == |a| && AllDigits(r)
    ensures forall i :: 0 <= i < |a| ==> DigitValue(r[i]) == a[i]
  {
    if a == [] then "" else assert InRange(a[0]); [DigitChar(a[0])] + AnswerText(a[1..])
  }

  /** Typing in the revealed answers is accepted as a guess and solves the game. */
  lemma {:induction false} RevealedAnswerSolves(a: seq<int>)
    requires IsSample(a)
    ensures Create(AnswerText(a)) == Ok(UserInput(a))
    ensures Verdict(a, a) == Correct
  {
    var t := AnswerText(a);
    assert PairwiseDistinct(t) by {
      forall i, j | 0 <= i < j < |t| ensures t[i] != t[j] {
        assert DigitValue(t[i]) == a[i] && DigitValue(t[j]) == a[j];
      }
    }
    var r := Create(t);
    assert r.Ok?;
    assert r.value.digits == a;
  }

  /** An accepted guess, written back out, is the text that was typed. */
  lemma AcceptedTextRoundTrip(s: string)
    requires Create(s).Ok?
    ensures forall i :: 0 <= i < |Create(s).value.digits| ==> InRange(Create(s).value.digits[i])
    ensures AnswerText(Create(s).value.digits) == s
  {
  }

  /** One game: the secret answers the player's guesses are scored against. */
  class NumberBaseball {
    var answers: seq<int>

    /** The answers pass the game's own validation. */
    predicate Valid()
      reads this
    {
      ValidateAnswers(answers) == Pass
    }

    /** Stores answers that have already passed validation. */
    constructor (answers: seq<int>)
      requires ValidateAnswers(answers) == Pass
      ensures this.answers == answers && Valid()
    {
      this.answers := answers;
    }

    /** Validates the answers and, only if they pass, builds a game holding them. */
    static method New(answers: seq<int>) returns (r: Result<NumberBaseball, AnswerError>)
      ensures r.Ok? <==> ValidateAnswers(answers) == Pass
      ensures r.Err? ==> ValidateAnswers(answers) == Fail(r.error)
      ensures r.Ok? ==> fresh(r.value) && r.value.answers == answers && r.value.Valid()
    {
      match ValidateAnswers(answers)
      case Fail(e) =>
        r := Err(e);
      case Pass =>
        var game := new NumberBaseball(answers);
        r := Ok(game);
    }

    /** A new game whose answers are the given draw of three distinct values. */
    static method Create(sample: seq<int>) returns (game: NumberBaseball)
      requires IsSample(sample)
      ensures fresh(game) && game.answers == sample && game.Valid()
      ensures PairwiseDistinct(game.answers)
    {
      SampleIsValid(sample);
      var r := New(sample);
      game := r.value;
    }

    /** Walks the three positions, counting strikes and balls. */
    method CalculateResult(guess: UserInput) returns (strike: nat, ball: nat)
      requires Valid() && |guess.digits| >= 3
      ensures strike == StrikesBelow(guess.digits, answers, 3)
      ensures ball == BallsBelow(guess.digits, answers, 3)
      ensures strike + ball <= 3
    {
      strike, ball := 0, 0;
      for i := 0 to 3
        invariant strike == StrikesBelow(guess.digits, answers, i)
        invariant ball == BallsBelow(guess.digits, answers, i)
      {
        var current := guess.digits[i];
        if current == answers[i] {
          strike := strike + 1;
        } else if current in answers {
          ball := ball + 1;
        }
      }
      CountsBounded(guess.digits, answers, 3);
    }

    /** Scores the guess: the correct-answer outcome when every position is a strike, else the counts. */
    method Submit(guess: UserInput) returns (r: Outcome)
      requires Valid() && |guess.digits| >= 3
      ensures r == Verdict(guess.digits, answers)
      ensures r == Correct <==> guess.digits[..3] == answers
    {
      var strike, ball := CalculateResult(guess);
      if IsCorrect(strike) {
        r := Correct;
      } else {
        r := Counts(ball, strike);
      }
    }

    /** Replaces the answers with a fresh draw of three distinct values. */
    method Reset(sample: seq<int>)
      requires IsSample(sample)
      modifies this
      ensures answers == sample && Valid()
      ensures PairwiseDistinct(answers)
    {
      SampleIsValid(sample);
      answers := sample;
    }

    /** The answers as the reveal button shows them. */
    function ShowAnswer(): (r: string)
      requires Valid()
      reads this
      ensures |r| == 3 && AllDigits(r)
      ensures forall i :: 0 <= i < 3 ==> DigitValue(r[i]) == answers[i]
      ensures UserInputs.Create(r).Ok? ==> Verdict(UserInputs.Create(r).value.digits, answers) == Correct
    {
      AnswerText(answers)
    }
  }
}
