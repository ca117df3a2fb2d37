/** The worker count: ten unless the NUM_WORKERS environment variable holds
    a decimal integer that `strconv.Atoi` accepts. The environment is a
    parameter (an unset variable reads as the empty string, as `os.Getenv`
    returns it), and `strconv.Atoi` is modelled as it behaves for a 64-bit
    `int`: an optional sign, then one or more ASCII digits, and a value
    inside the int64 range; anything else is an error. */
module Config {
  import opened Prelude

  const DefaultWorkers: int := 10
  const MinInt64: int := -0x8000_0000_0000_0000
  const MaxInt64: int := 0x7fff_ffff_ffff_ffff

  predicate IsDigit(c: char)
  {
    '0' <= c <= '9'
  }

  predicate AllDigits(s: string)
  {
    forall i :: 0 <= i < |s| ==> IsDigit(s[i])
  }

  /** The value of a string of decimal digits, most significant first. */
  function DigitsValue(s: string): (v: nat)
    requires AllDigits(s)
    decreases |s|
  {
    if |s| == 0 then 0
    else DigitsValue(s[..|s| - 1]) * 10 + (s[|s| - 1] as int - '0' as int)
  }

  /** The ASCII digit for d. */
  function DigitChar(d: nat): (c: char)
    requires d < 10
    ensures IsDigit(c) && c as int - '0' as int == d
  {
    ('0' as int + d) as char
  }

  /** `strconv.Atoi` on a 64-bit platform: Some(value) when the whole string
      is a signed decimal that fits in an int64, None for the error cases
      (empty, a bare sign, any other character, out of range). */
  function Atoi(s: string): (r: Option<int>)
    ensures r.Some? ==> MinInt64 <= r.value <= MaxInt64
    ensures |s| == 0 ==> r.None?
    ensures r.Some? ==> exists i :: 0 <= i < |s| && IsDigit(s[i])
  {
    var signed := |s| > 0 && (s[0] == '-' || s[0] == '+');
    var body := if signed then s[1..] else s;
    if |body| == 0 || !AllDigits(body) then None
    else
      assert IsDigit(s[|s| - 1]);
      var mag: int := DigitsValue(body);
      var v := if signed && s[0] == '-' then -mag else mag;
      if MinInt64 <= v <= MaxInt64 then Some(v) else None
  }

  /** The decimal digits of n, most significant first, without leading
      zeros. */
  function Digits(n: nat): (s: string)
    ensures |s| > 0 && AllDigits(s) && DigitsValue(s) == n
    ensures s[0] != '-' && s[0] != '+'
    decreases n
  {
    if n < 10 then [DigitChar(n)]
    else
      var front := Digits(n / 10);
      var s := front + [DigitChar(n % 10)];
      assert s[..|s| - 1] == front;
      s
  }

  /** `strconv.Itoa`: the decimal rendering of n, with a leading minus sign
      when n is negative. */
  function Itoa(n: int): (s: string)
  {
    if n < 0 then "-" + Digits(-n) else Digits(n)
  }

  /** Every int64 written in decimal parses back to itself. */
  lemma AtoiItoa(n: int)
    requires MinInt64 <= n <= MaxInt64
    ensures Atoi(Itoa(n)) == Some(n)
  {
    var s := Itoa(n);
    if n < 0 {
      assert s[1..] == Digits(-n);
    }
  }

  /** A character other than a digit anywhere but in a leading sign makes
      the whole string an error: Atoi neither trims nor stops early. */
  lemma AtoiRejectsStray(s: string, i: nat)
    requires i < |s| && !IsDigit(s[i])
    requires i == 0 ==> s[0] != '-' && s[0] != '+'
    ensures Atoi(s) == None
  {
    if i > 0 && (s[0] == '-' || s[0] == '+') {
      assert s[1..][i - 1] == s[i];
    }
  }

  /** numWorkers: the parsed NUM_WORKERS when Atoi accepts it, otherwise the
      default of ten. */
  function WorkerCount(env: string): (n: int)
    ensures MinInt64 <= n <= MaxInt64
    ensures n == DefaultWorkers || Atoi(env) == Some(n)
    ensures Atoi(env).Some? ==> n == Atoi(env).value
  {
    match Atoi(env)
    case Some(v) => v
    case None => DefaultWorkers
  }

  /** An unset variable, a blank one, a bare sign and a value with a space
      around it all fall back to the default of ten workers. */
  lemma WorkerCountFallsBack()
    ensures WorkerCount("") == DefaultWorkers
    ensures WorkerCount("+") == DefaultWorkers
    ensures WorkerCount("-") == DefaultWorkers
    ensures WorkerCount(" 4") == DefaultWorkers
    ensures WorkerCount("4 ") == DefaultWorkers
  {
    assert !IsDigit(' ');
    assert !AllDigits(" 4") && !AllDigits("4 ") by {
      assert " 4"[0] == ' ' && "4 "[1] == ' ';
    }
  }

  /** Any int64 the operator writes in decimal is taken as the worker count,
      zero and negative counts included; a leading plus sign is accepted. */
  lemma WorkerCountRoundTrip(n: int)
    requires MinInt64 <= n <= MaxInt64
    ensures WorkerCount(Itoa(n)) == n
    ensures n >= 0 ==> WorkerCount("+" + Itoa(n)) == n
  {
    AtoiItoa(n);
    if n >= 0 {
      var s := "+" + Itoa(n);
      assert s[1..] == Digits(n);
    }
  }

  /** A decimal beyond the int64 range is an Atoi error, so it too gives the
      default. */
  lemma WorkerCountOutOfRange(n: nat)
    requires n > MaxInt64
    ensures WorkerCount(Digits(n)) == DefaultWorkers
  {
  }
}
