/** Numerals: digits back to front, reversal in place, and Horner's rule. */
module Numerals {

  function DigitChar(d: nat, upper: bool): char
    requires d < 16
  {
    if d < 10 then '0' + d as char else (if upper then 'A' else 'a') + (d - 10) as char
  }

  /** The radixes the callers use. */
  datatype Radix = Ten | Sixteen {
    function Base(): nat {
      if Ten? then 10 else 16
    }
    function Quot(u: nat): nat {
      if Ten? then u / 10 else u / 16
    }
    function Rem(u: nat): nat {
      if Ten? then u % 10 else u % 16
    }
  }

  /** The digits of u, least significant first; zero has one digit. */
  function Digits(u: nat, radix: Radix): (ds: seq<nat>)
    ensures |ds| >= 1 && forall k :: 0 <= k < |ds| ==> ds[k] < radix.Base()
  {
    [radix.Rem(u)] + if radix.Quot(u) == 0 then [] else Digits(radix.Quot(u), radix)
  }

  function Text(ds: seq<nat>, upper: bool): (s: string)
    requires forall k :: 0 <= k < |ds| ==> ds[k] < 16
    ensures |s| == |ds| && forall k :: 0 <= k < |ds| ==> s[k] == DigitChar(ds[k], upper)
  {
    if ds == [] then [] else [DigitChar(ds[0], upper)] + Text(ds[1..], upper)
  }

  function Reverse<T>(s: seq<T>): (r: seq<T>)
    ensures |r| == |s| && forall k :: 0 <= k < |s| ==> r[k] == s[|s| - 1 - k]
  {
    if s == [] then [] else Reverse(s[1..]) + [s[0]]
  }

  /** The numeral a reader sees: most significant digit first. */
  function Numeral(u: nat, radix: Radix, upper: bool): string {
    Reverse(Text(Digits(u, radix), upper))
  }

  /** The number a sequence of digits stands for, most significant first. */
  function Value(ds: seq<nat>, radix: Radix): nat {
    if ds == [] then 0 else Value(ds[..|ds| - 1], radix) * radix.Base() + ds[|ds| - 1]
  }

  lemma ValueSnoc(ds: seq<nat>, d: nat, radix: Radix)
    ensures Value(ds + [d], radix) == Value(ds, radix) * radix.Base() + d
  {
  }

  lemma QuotRem(u: nat, radix: Radix)
    ensures radix.Quot(u) * radix.Base() + radix.Rem(u) == u
  {
  }

  /** The numeral of a number stands for that number. */
  lemma {:induction false} DigitsMean(u: nat, radix: Radix)
    ensures Value(Reverse(Digits(u, radix)), radix) == u
    decreases u
  {
    var low, rest := radix.Rem(u), radix.Quot(u);
    var high := if rest == 0 then [] else Digits(rest, radix);
    QuotRem(u, radix);
    assert Reverse(Digits(u, radix)) == Reverse(high) + [low];
    ValueSnoc(Reverse(high), low, radix);
    if rest != 0 {
      DigitsMean(rest, radix);
    }
  }

  /** A number below 10 to the n has at most n digits. */
  lemma {:induction false} FewDigits(u: nat, radix: Radix, n: nat)
    requires n >= 1 && u < Pow10(n)
    ensures |Digits(u, radix)| <= n
    decreases n
  {
    assert Pow10(n) == 10 * Pow10(n - 1);
    if radix.Quot(u) != 0 {
      FewDigits(radix.Quot(u), radix, n - 1);
    }
  }

  function Pow10(n: nat): nat {
    if n == 0 then 1 else 10 * Pow10(n - 1)
  }

  /** The swap loop of mini_itoa and of reverse(). */
  method ReverseInPlace(s: array<char>, n: nat)
    requires n <= s.Length
    modifies s
    ensures s[..n] == Reverse(old(s[..n])) && forall k :: n <= k < s.Length ==> s[k] == old(s[k])
  {
    var i := 0;
    while i < n / 2
      invariant 0 <= i <= n / 2
      invariant forall k :: 0 <= k < i ==> s[k] == old(s[n - 1 - k]) && s[n - 1 - k] == old(s[k])
      invariant forall k :: i <= k < n - i ==> s[k] == old(s[k])
      invariant forall k :: n <= k < s.Length ==> s[k] == old(s[k])
    {
      s[i], s[n - i - 1] := s[n - i - 1], s[i];
      i := i + 1;
    }
    ghost var was := old(s[..n]);
    forall k | 0 <= k < n ensures s[..n][k] == Reverse(was)[k] {
      assert Reverse(was)[k] == was[n - 1 - k];
    }
  }

  /** The digit loops of mini_itoa and itohex: digits go into the buffer back to front. */
  method PutDigits(u: nat, radix: Radix, upper: bool, s: array<char>) returns (n: nat)
    requires |Digits(u, radix)| <= s.Length
    modifies s
    ensures n == |Digits(u, radix)| && s[..n] == Text(Digits(u, radix), upper)
  {
    ghost var all := Digits(u, radix);
    s[0] := DigitChar(radix.Rem(u), upper);
    n := 1;
    var value := radix.Quot(u);
    while value > 0
      invariant 1 <= n <= |all| && value >= 0
      invariant if value == 0 then n == |all| else n < |all| && all[n..] == Digits(value, radix)
      invariant forall k :: 0 <= k < n ==> s[k] == DigitChar(all[k], upper)
      decreases value
    {
      assert all[n] == Digits(value, radix)[0] == radix.Rem(value);
      assert radix.Quot(value) != 0 ==> all[n + 1..] == Digits(value, radix)[1..] == Digits(radix.Quot(value), radix);
      s[n] := DigitChar(radix.Rem(value), upper);
      n := n + 1;
      value := radix.Quot(value);
    }
  }
}
