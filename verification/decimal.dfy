/** Decimal text for `u64`: Rust's `Display` (the `{}` in `write!`) and
    `str::parse::<u64>` (`FromStr`, i.e. `from_str_radix(s, 10)`). */
module Decimal {
  import opened Wrappers

  const U64_MAX: int := 0xFFFF_FFFF_FFFF_FFFF

  type u64 = x: int | 0 <= x <= U64_MAX

  /** The reasons `str::parse::<u64>` gives for rejecting its input. */
  datatype ParseError = Empty | InvalidDigit | PosOverflow

  predicate IsDigit(c: char) {
    '0' <= c <= '9'
  }

  function DigitValue(c: char): nat
    requires IsDigit(c)
  {
    c as int - '0' as int
  }

  function Digit(d: nat): (c: char)
    requires d < 10
    ensures IsDigit(c) && DigitValue(c) == d
  {
    ('0' as int + d) as char
  }

  predicate AllDigits(s: string) {
    forall i :: 0 <= i < |s| ==> IsDigit(s[i])
  }

  /** The number a string of decimal digits denotes, most significant first. */
  function Value(s: string): nat
    requires AllDigits(s)
    decreases |s|
  {
    if |s| == 0 then 0 else Value(s[..|s| - 1]) * 10 + DigitValue(s[|s| - 1])
  }

  /** A prefix of a digit string never denotes more than the whole string. */
  lemma {:induction false} ValuePrefixBound(s: string, k: nat)
    requires k <= |s|
    ensures AllDigits(s) ==> Value(s[..k]) <= Value(s)
    decreases |s|
  {
    if k == |s| {
      assert s[..k] == s;
    } else if AllDigits(s) {
      var t := s[..|s| - 1];
      assert t[..k] == s[..k];
      assert AllDigits(t);
      ValuePrefixBound(t, k);
      assert Value(s) == Value(t) * 10 + DigitValue(s[|s| - 1]);
    }
  }

  /** `n` written in decimal without leading zeros, as `{}` formats a `u64`. */
  function Show(n: nat): (s: string)
    ensures 0 < |s| && AllDigits(s)
    ensures s[0] == '0' <==> n == 0
    ensures s[0] == '0' ==> s == "0"
    ensures Value(s) == n
    decreases n
  {
    if n < 10 then [Digit(n)] else Show(n / 10) + [Digit(n % 10)]
  }

  /** A larger number never has fewer decimal digits. */
  lemma {:induction false} ShowLengthMonotone(a: nat, b: nat)
    requires a <= b
    ensures |Show(a)| <= |Show(b)|
    decreases b
  {
    if a >= 10 {
      ShowLengthMonotone(a / 10, b / 10);
    }
  }

  /** The part of the text `from_str_radix` reads digits from: an unsigned
      parse skips one leading '+'. */
  function Magnitude(s: string): string {
    if 0 < |s| && s[0] == '+' then s[1..] else s
  }

  /** The texts `str::parse::<u64>` accepts: an optional '+', then at least
      one decimal digit and nothing else, denoting at most `U64_MAX`. */
  predicate IsU64Text(s: string) {
    var m := Magnitude(s);
    0 < |m| && AllDigits(m) && Value(m) <= U64_MAX
  }

  /** The digit loop of `from_str_radix`: `acc` is the value of the first `i`
      characters; each further character must be a digit and the checked
      `acc * 10 + digit` must stay within `u64`. */
  function Accumulate(s: string, i: nat, acc: u64): (r: Result<u64, ParseError>)
    requires i <= |s| && AllDigits(s[..i]) && acc == Value(s[..i])
    ensures r.Success? <==> AllDigits(s) && Value(s) <= U64_MAX
    ensures r.Success? ==> r.value == Value(s)
    ensures r != Failure(Empty)
    decreases |s| - i
  {
    if i == |s| then
      assert s[..i] == s;
      Success(acc)
    else if !IsDigit(s[i]) then
      Failure(InvalidDigit)
    else
      var next := acc * 10 + DigitValue(s[i]);
      assert s[..i + 1][..i] == s[..i];
      if next > U64_MAX then
        ValuePrefixBound(s, i + 1);
        Failure(PosOverflow)
      else
        Accumulate(s, i + 1, next)
  }

  /** `str::parse::<u64>`: the empty text is `Empty`, a lone '+' is
      `InvalidDigit`, otherwise the digit loop decides. */
  function ParseU64(s: string): (r: Result<u64, ParseError>)
    ensures r.Success? <==> IsU64Text(s)
    ensures r.Success? ==> r.value == Value(Magnitude(s))
    ensures r == Failure(Empty) <==> s == ""
  {
    if |s| == 0 then
      Failure(Empty)
    else if s == "+" then
      Failure(InvalidDigit)
    else
      var m := Magnitude(s);
      assert m[..0] == [];
      Accumulate(m, 0, 0)
  }

  /** Decimal text written by `Show` parses back to the same number. */
  lemma ShowParses(n: nat)
    requires n <= U64_MAX
    ensures ParseU64(Show(n)) == Success(n)
  {
  }
}
