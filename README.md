# Number baseball engine, in Dafny

A model of the game engine of a desktop "number baseball" game
(`numberbaseball/numberbaseball.py`). The player types a three-character
guess. `UserInput` validates it and turns it into three digits.
`NumberBaseball` holds the secret answers and scores each guess: a strike
is a digit in the right position, and a ball is a digit that is among the
answers but not in that position. The game reports "correct" when all three
positions are strikes. `reset` draws new answers.

Files:

- `results.dfy`: `Result` and `Check`, the values that stand in for the exceptions the source raises.
- `user_input.dfy`, module `UserInputs`: the guess. It is never mutated after construction, so it is a value (`datatype UserInput`). Its validation and parsing are pure functions.
- `number_baseball.dfy`, module `Baseball`: the secret answers' validation, the strike and ball counts as recursive specification functions, the outcome function `Verdict`, the text of the reveal button, and `class NumberBaseball`. Its `answers` field is reassigned by `Reset`. `CalculateResult` is the source's three-step counting loop, proved equal to the specification counts.

The draw `random.sample(range(0, 10), 3)` is a parameter `sample` of
`Create` and `Reset`. Its precondition `IsSample` states what the draw
guarantees: three pairwise distinct values, each in [0, 10).

`validate` (`numberbaseball/numberbaseball.py:49-55`) checks only the count
and the range of the answers. Repeated answers pass (`ValidateAcceptsRepeats`),
and the answers are distinct only because the draw makes them so (`IsSample`).
With repeated answers, a guessed value that also sits at another position
can still be a strike rather than a ball (`RepeatedAnswerStrikeNotBall`).

## Model

| member | source | states |
|---|---|---|
| `UserInputs.Validate` | numberbaseball/numberbaseball.py:18-27 | accepts exactly the texts of length 3 whose characters are all digits and pairwise distinct; the first failing check in the order length, digits, duplicates decides the error, so a text of length other than 3 is always `InvalidLength`, and `Duplicated` only happens for all-digit texts of length 3 |
| `UserInputs.CharSetOfThree` | numberbaseball/numberbaseball.py:26-27 | for a text of length 3, `len(set(text)) == 3` holds exactly when no two positions hold the same character |
| `UserInputs.DigitValue` | numberbaseball/numberbaseball.py:16 | `int(x)` of a digit character is a value in [0, 9] |
| `UserInputs.Digits` | numberbaseball/numberbaseball.py:16 | the conversion keeps the length and maps the i-th character to its numeric value |
| `UserInputs.Create` | numberbaseball/numberbaseball.py:13-16 | succeeds exactly when validation passes, and otherwise fails with the validation error; on success gives three pairwise distinct digits in [0, 9], the i-th being the value of the i-th character |
| `UserInputs.CreateExamples` | numberbaseball/numberbaseball.py:13-27 | "12" and "1234" are rejected for length, "1a3" as non-digit, "112" as duplicated, and "123" gives [1, 2, 3] |
| `UserInputs.DigitChar` | numberbaseball/numberbaseball.py:113 | `str(x)` of a value in [0, 9] is a digit character, and converting it back with `int` gives the value again |
| `Baseball.ValidateAnswers` | numberbaseball/numberbaseball.py:48-55 | passes exactly when there are 3 answers, each in [0, 9]; the count is checked before the range |
| `Baseball.ValidateAcceptsRepeats` | numberbaseball/numberbaseball.py:49-55 | validation does not reject repeated values: [7, 7, 7] passes |
| `Baseball.SampleIsValid` | numberbaseball/numberbaseball.py:45 | a draw of three distinct values from range(0, 10) is exactly a list that passes validation and has no repeats |
| `Baseball.StrikesBelow` | numberbaseball/numberbaseball.py:72-73 | the number of strike positions among the first n is at most n |
| `Baseball.IsBall` | numberbaseball/numberbaseball.py:74-75 | a position is a ball when it is not a strike and its guessed value is among the answers; the value then sits in the answers at some other position, whatever the answers are |
| `Baseball.BallsBelow` | numberbaseball/numberbaseball.py:74-75 | the number of ball positions among the first n is at most n |
| `Baseball.BallIsElsewhere` | numberbaseball/numberbaseball.py:72-75 | when the answers have no repeats, a position is a ball exactly when its guessed value sits in the answers at another position |
| `Baseball.RepeatedAnswerStrikeNotBall` | numberbaseball/numberbaseball.py:72-75 | with answers [1, 1, 2] and guess [1, 2, 3], position 0 is a strike and not a ball, although the guessed 1 also sits at position 1 of the answers |
| `Baseball.CountsBounded` | numberbaseball/numberbaseball.py:65-77 | no position counts as both strike and ball, so strikes plus balls over n positions is at most n |
| `Baseball.AllStrikes` | numberbaseball/numberbaseball.py:72-73 | the strike count over n positions equals n exactly when guess and answers agree on those positions |
| `Baseball.CountsAreSharedDigits` | numberbaseball/numberbaseball.py:65-77 | for a guess without repeats, strikes plus balls equals the number of distinct values the guess shares with the answers |
| `Baseball.CorrectIffEqual` | numberbaseball/numberbaseball.py:79-80 | for a guess of at least three digits and three answers, `is_correct` of the strike count holds exactly when the guess equals the answers |
| `Baseball.Verdict` | numberbaseball/numberbaseball.py:57-63 | the outcome is "correct" exactly when the guess equals the answers; otherwise it reports (ball, strike), with strike below 3 and ball + strike at most 3 |
| `Baseball.VerdictExamples` | numberbaseball/numberbaseball.py:57-77 | answers [1,2,3]: guess [1,2,3] is correct, [3,2,1] gives ball 2 strike 1, [4,5,6] gives 0 and 0; answers [0,1,2] with guess [2,0,1] give ball 3 strike 0 |
| `Baseball.AnswerText` | numberbaseball/numberbaseball.py:113 | joining the answers gives one digit character per answer, each denoting that answer |
| `Baseball.RevealedAnswerSolves` | numberbaseball/numberbaseball.py:113 | typing in the revealed text of drawn answers is accepted as a guess equal to the answers and is scored correct |
| `Baseball.AcceptedTextRoundTrip` | numberbaseball/numberbaseball.py:16 | writing the digits of an accepted guess back out gives the text that was typed |
| `Baseball.NumberBaseball.constructor` | numberbaseball/numberbaseball.py:39-41 | stores answers that passed validation |
| `Baseball.NumberBaseball.New` | numberbaseball/numberbaseball.py:39-41 | builds a fresh game holding the answers exactly when they pass validation, and otherwise fails with the validation error |
| `Baseball.NumberBaseball.Create` | numberbaseball/numberbaseball.py:43-46 | a new game whose answers are the draw: three pairwise distinct values that pass validation |
| `Baseball.NumberBaseball.CalculateResult` | numberbaseball/numberbaseball.py:65-77 | the loop's strike count is the number of matching positions and its ball count the number of ball positions, with strike + ball at most 3 |
| `Baseball.NumberBaseball.Submit` | numberbaseball/numberbaseball.py:57-63 | gives `Verdict` of the guess against the answers: "correct" exactly when the guess equals the answers; it changes no state, so the same guess gives the same outcome again and a solved guess draws no new answers |
| `Baseball.NumberBaseball.Reset` | numberbaseball/numberbaseball.py:82-83 | replaces the answers with the draw, which passes validation and has no repeats; changes nothing else |
| `Baseball.NumberBaseball.ShowAnswer` | numberbaseball/numberbaseball.py:112-114 | the revealed text has three digit characters denoting the answers, and when typed in and accepted it is scored correct |

## Left out

- `BaseballApplication` and `Application` (numberbaseball/numberbaseball.py:86-123): window setup, button wiring, message boxes and the event loop. Only the joining of the answers into text (line 113) is modelled, as `AnswerText` and `ShowAnswer`.
- Message texts: the correct-answer and ball/strike messages and the error messages are the constructors of `Outcome`, `InputError` and `AnswerError`. Raised `ValueError`s are `Err`/`Fail` values.
- The distribution of `random.sample`: only what it guarantees (three distinct values in [0, 10)) is modelled, as the precondition `IsSample` on the `sample` parameter of `Create` and `Reset`.
- `get_user_input` (line 29-30) returns a copy of the stored list. The model's digits are an immutable sequence, so the copy is the stored value itself. `CalculateResult` reads `guess.digits` directly, and `UserInput` has no separate member for this.
- UserInputs.Validate: `str.isdigit` also accepts non-ASCII Unicode digits, some of which `int()` then rejects. The model treats only '0' to '9' as digits. So it does not capture two source behaviours. First, "1١2" (with U+0661) passes `isdigit` and the duplicate check, and line 16 then gives [1, 1, 2]: the source accepts a guess with repeated values, which the pairwise-distinct guarantee of `UserInputs.Create` rules out. Second, "²34" passes `validate` and fails only at `int()`.
- Baseball.NumberBaseball.Submit: requires a guess of at least three digits, for the same reason as `CalculateResult` (next line), which it calls.
- Baseball.NumberBaseball.CalculateResult: requires a guess of at least three digits; the source raises `IndexError` on a shorter list, which only a caller bypassing `UserInput.create` can pass.
- Baseball.NumberBaseball.New: the source keeps a reference to the caller's list, so a later change to that list would change the answers. The model stores a value, so such aliasing is not modelled.
- Python typing: the answers are modelled as integers. Non-integer entries (which the range comparison in `validate` could raise on or accept) are not modelled.
