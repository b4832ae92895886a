/** Decimal text of int64 values: `fmt.Sprintf("%d", n)` and `strconv.ParseInt(s, 10, 64)`. */
module Decimal {
  import opened Options

  const INT64_MIN := -0x8000_0000_0000_0000
  const INT64_MAX := 0x7fff_ffff_ffff_ffff

  predicate IsInt64(n: int) { INT64_MIN <= n <= INT64_MAX }

  /** Go's int64 multiplication wraps around. */
  function Wrap64(n: int): (r: int)
    ensures IsInt64(r)
    ensures IsInt64(n) ==> r == n
    ensures (n - r) % 0x1_0000_0000_0000_0000 == 0
  {
    (n + 0x8000_0000_0000_0000) % 0x1_0000_0000_0000_0000 - 0x8000_0000_0000_0000
  }

  function Digits(n: nat): string {
    if n < 10 then [('0' as int + n) as char] else Digits(n / 10) + [('0' as int + n % 10) as char]
  }

  function FormatInt(n: int): string {
    if n < 0 then "-" + Digits(-n) else Digits(n)
  }

  predicate IsDigit(c: char) { '0' as int <= c as int <= '9' as int }

  function DigitOf(c: char): nat
    requires IsDigit(c)
  {
    c as int - '0' as int
  }

  function DigitsValue(s: string): Option<nat> {
    if s == "" || !IsDigit(s[|s| - 1]) then None
    else
      var d := DigitOf(s[|s| - 1]);
      if |s| == 1 then Some(d)
      else match DigitsValue(s[..|s| - 1])
        case None => None
        case Some(v) => Some(10 * v + d)
  }

  /** ParseInt: an optional sign, decimal digits, and the int64 range. */
  function ParseInt64(s: string): Option<int> {
    var negative := s != "" && s[0] == '-';
    var signed := s != "" && (s[0] == '-' || s[0] == '+');
    match DigitsValue(if signed then s[1..] else s)
    case None => None
    case Some(v) =>
      var n: int := if negative then 0 - v else v;
      if IsInt64(n) then Some(n) else None
  }

  lemma {:induction false} DigitsRoundTrip(n: nat)
    ensures Digits(n) != "" && IsDigit(Digits(n)[0])
    ensures DigitsValue(Digits(n)) == Some(n)
  {
    if n >= 10 {
      DigitsRoundTrip(n / 10);
      assert Digits(n)[..|Digits(n)| - 1] == Digits(n / 10);
      assert Digits(n)[0] == Digits(n / 10)[0];
    }
  }

  /** Every int64 comes back from its decimal text. */
  lemma FormatParse(n: int)
    requires IsInt64(n)
    ensures ParseInt64(FormatInt(n)) == Some(n)
  {
    var digits := Digits(if n < 0 then -n else n);
    DigitsRoundTrip(if n < 0 then -n else n);
    assert ("-" + digits)[1..] == digits;
  }

  // ---------------------------------------------------------------- which texts are read as what

  /** The decimal digits of `v`, with any number of zeros before them. */
  ghost predicate Padded(s: string, v: nat) {
    var zeros := |s| - |Digits(v)|;
    zeros >= 0 && s[zeros..] == Digits(v) && forall i :: 0 <= i < zeros ==> s[i] == '0'
  }

  /** The text of `n`: an optional sign, which is '-' for a negative number, and padded digits. */
  ghost predicate Reads(s: string, n: int) {
    if s != "" && s[0] == '-' then n <= 0 && Padded(s[1..], -n)
    else n >= 0 && Padded(if s != "" && s[0] == '+' then s[1..] else s, n)
  }

  lemma {:induction false} PaddedZero(s: string, d: nat)
    requires s != "" && d < 10
    ensures Padded(s + [('0' as int + d) as char], d) <==> Padded(s, 0)
  {
    var n := |s| - 1;
    var t := s + [('0' as int + d) as char];
    assert Digits(d) == [('0' as int + d) as char] && Digits(0) == ['0'];
    assert t[n + 1..] == Digits(d) && s[n..] == [s[n]];
    assert forall i :: 0 <= i < |s| ==> t[i] == s[i];
  }

  lemma {:induction false} PaddedMore(s: string, v: nat, d: nat)
    requires s != "" && d < 10 && v > 0
    ensures Padded(s + [('0' as int + d) as char], 10 * v + d) <==> Padded(s, v)
  {
    var c, w := ('0' as int + d) as char, 10 * v + d;
    var t, zeros := s + [c], |s| - |Digits(v)|;
    assert w / 10 == v && w % 10 == d;
    assert Digits(w) == Digits(v) + [c];
    if zeros >= 0 {
      assert t[zeros..] == s[zeros..] + [c];
      assert (s[zeros..] + [c])[..|s| - zeros] == s[zeros..] && (Digits(v) + [c])[..|Digits(v)|] == Digits(v);
      assert forall i :: 0 <= i < zeros ==> t[i] == s[i];
    }
  }

  /** One more digit at the end. */
  lemma {:induction false} PaddedSnoc(s: string, v: nat, d: nat)
    requires s != "" && d < 10
    ensures Padded(s + [('0' as int + d) as char], 10 * v + d) <==> Padded(s, v)
  {
    if v == 0 {
      PaddedZero(s, d);
    } else {
      PaddedMore(s, v, d);
    }
  }

  /** A run of digits has the value whose padded digits it is. */
  lemma {:induction false} DigitsValueIff(s: string, v: nat)
    ensures DigitsValue(s) == Some(v) <==> Padded(s, v)
  {
    DigitsRoundTrip(v);
    if s != "" {
      var n := |s| - 1;
      if Padded(s, v) {
        PaddedEnds(s, v);
      }
      if IsDigit(s[n]) {
        var d := DigitOf(s[n]);
        assert s == s[..n] + [('0' as int + d) as char];
        if n == 0 {
          SingleDigit(s, v);
        } else {
          DigitsValueIff(s[..n], v / 10);
          LastDigit(s, v, d);
          if v % 10 == d {
            PaddedSnoc(s[..n], v / 10, d);
          }
        }
      }
    }
  }

  lemma {:induction false} LastIsDigit(v: nat)
    ensures Digits(v) != "" && IsDigit(Digits(v)[|Digits(v)| - 1])
    ensures DigitOf(Digits(v)[|Digits(v)| - 1]) == v % 10
  {
  }

  lemma {:induction false} PaddedEnds(s: string, v: nat)
    requires Padded(s, v)
    ensures s != "" && IsDigit(s[|s| - 1]) && DigitOf(s[|s| - 1]) == v % 10
  {
    LastIsDigit(v);
    assert s[|s| - 1] == Digits(v)[|Digits(v)| - 1];
  }

  lemma SingleDigit(s: string, v: nat)
    requires |s| == 1 && IsDigit(s[0])
    ensures DigitsValue(s) == Some(v) <==> Padded(s, v)
  {
    LastIsDigit(v);
    if v >= 10 {
      DigitsRoundTrip(v / 10);
    } else {
      assert s[0..] == s && |Digits(v)| == 1;
    }
  }

  lemma LastDigit(s: string, v: nat, d: nat)
    requires |s| >= 2 && IsDigit(s[|s| - 1]) && d == DigitOf(s[|s| - 1])
    ensures DigitsValue(s) == Some(v) <==> DigitsValue(s[..|s| - 1]) == Some(v / 10) && v % 10 == d
    ensures Padded(s, v) ==> v % 10 == d
  {
    if Padded(s, v) {
      PaddedEnds(s, v);
    }
    var front := DigitsValue(s[..|s| - 1]);
    if front.Some? {
      assert (10 * front.value + d) / 10 == front.value && (10 * front.value + d) % 10 == d;
      assert 10 * (v / 10) + v % 10 == v;
    }
  }

  /** ParseInt reads exactly the texts of int64 values. */
  lemma ParsesIff(s: string, n: int)
    ensures ParseInt64(s) == Some(n) <==> IsInt64(n) && Reads(s, n)
  {
    var signed := s != "" && (s[0] == '-' || s[0] == '+');
    var digits := if signed then s[1..] else s;
    if n >= 0 {
      DigitsValueIff(digits, n);
    }
    if n <= 0 {
      DigitsValueIff(digits, -n);
    }
  }
}
