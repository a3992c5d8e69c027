/**
 * The player's guess: validation of the raw text typed into the game and its
 * conversion into an ordered list of three digits.
 */
module UserInputs {
  import opened Results

  /** Number of characters a guess must have. */
  const INPUT_LENGTH := 3

  /** Why a raw guess is rejected, one constructor per validation check. */
  datatype InputError = InvalidLength | NonDigit | Duplicated

  /** An accepted guess: its digits, in the order they were typed. */
  datatype UserInput = UserInput(digits: seq<int>)

  predicate IsDigitChar(c: char) {
    '0' <= c <= '9'
  }

  /** Numeric value of a decimal digit character. */
  function DigitValue(c: char): (d: int)
    requires IsDigitChar(c)
    ensures 0 <= d <= 9
  {
    c as int - '0' as int
  }

  /** The decimal digit character of a value in [0, 9]. */
  function DigitChar(d: int): (c: char)
    requires 0 <= d <= 9
    ensures IsDigitChar(c) && DigitValue(c) == d
  {
    ('0' as int + d) as char
  }

  /** Every character of s is a decimal digit. */
  predicate AllDigits(s: string) {
    forall i :: 0 <= i < |s| ==> IsDigitChar(s[i])
  }

  predicate PairwiseDistinct<T(==)>(s: seq<T>) {
    forall i, j :: 0 <= i < j < |s| ==> s[i] != s[j]
  }

  /** The set of characters occurring in s. */
  function CharSet(s: string): set<char> {
    set c | c in s
  }

  /** A three-character text has three different characters exactly when no two positions hold the same one. */
  lemma CharSetOfThree(s: string)
    requires |s| == 3
    ensures |CharSet(s)| == 3 <==> PairwiseDistinct(s)
  {
    assert CharSet(s) == {s[0], s[1], s[2]};
    if s[0] == s[1] {
      assert CharSet(s) == {s[0], s[2]};
    } else if s[0] == s[2] || s[1] == s[2] {
      assert CharSet(s) == {s[0], s[1]};
    }
  }

  /**
   * The three checks, run in order: length, then digits, then duplicates.
   * The first failing check decides the error.
   */
  function Validate(s: string): (r: Check<InputError>)
    ensures r == Pass <==> |s| == 3 && AllDigits(s) && PairwiseDistinct(s)
    ensures r == Fail(InvalidLength) <==> |s| != 3
    ensures r == Fail(NonDigit) <==> |s| == 3 && !AllDigits(s)
    ensures r == Fail(Duplicated) <==> |s| == 3 && AllDigits(s) && !PairwiseDistinct(s)
  {
    if |s| != INPUT_LENGTH then Fail(InvalidLength)
    else if !AllDigits(s) then Fail(NonDigit)
    else if |CharSet(s)| != INPUT_LENGTH then (CharSetOfThree(s); Fail(Duplicated))
    else (CharSetOfThree(s); Pass)
  }

  /** The numeric values of the digit characters of s, in order. */
  function Digits(s: string): (d: seq<int>)
    requires AllDigits(s)
    ensures |d| == |s|
    ensures forall i :: 0 <= i < |s| ==> d[i] == DigitValue(s[i])
  {
    if s == [] then [] else [DigitValue(s[0])] + Digits(s[1..])
  }

  /** Validates the raw text, then converts each character to its digit value. */
  function Create(s: string): (r: Result<UserInput, InputError>)
    ensures r.Ok? <==> Validate(s) == Pass
    ensures r.Err? ==> Validate(s) == Fail(r.error)
    ensures r.Ok? ==> |r.value.digits| == 3 && PairwiseDistinct(r.value.digits)
    ensures r.Ok? ==> forall i :: 0 <= i < 3 ==> r.value.digits[i] == DigitValue(s[i]) && 0 <= r.value.digits[i] <= 9
  {
    match Validate(s)
    case Fail(e) => Err(e)
    case Pass => Ok(UserInput(Digits(s)))
  }

  /** The four kinds of input, one of each. */
  lemma CreateExamples()
    ensures Create("12") == Err(InvalidLength)
    ensures Create("1234") == Err(InvalidLength)
    ensures Create("1a3") == Err(NonDigit)
    ensures Create("112") == Err(Duplicated)
    ensures Create("123") == Ok(UserInput([1, 2, 3]))
  {
    assert !AllDigits("1a3") by { assert !IsDigitChar("1a3"[1]); }
    assert !PairwiseDistinct("112") by { assert "112"[0] == "112"[1]; }
    assert Digits("123") == [1, 2, 3];
  }
}
