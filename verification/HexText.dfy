/** itohex and htoi: the hexadecimal printer and parser of string.c undo each other. */
module HexText {
  import opened Basics
  import opened Numerals

  const INT_LIMIT := 0x8000_0000
  // Eight digits and the terminator.
  const ROOM := 9

  predicate IsHex(c: char) {
    '0' <= c <= '9' || 'a' <= c <= 'f'
  }

  function HexDigit(c: char): nat
    requires IsHex(c)
  {
    if '0' <= c <= '9' then (c - '0') as nat else (c - 'a') as nat + 10
  }

  /** The digits a string starts with. */
  function Leading(s: string): (ds: seq<nat>)
    ensures |ds| <= |s|
  {
    if s == [] || !IsHex(s[0]) then [] else [HexDigit(s[0])] + Leading(s[1..])
  }

  lemma {:induction false} LeadingOfText(ds: seq<nat>, tail: string)
    requires (forall k :: 0 <= k < |ds| ==> ds[k] < 16) && (tail == [] || !IsHex(tail[0]))
    ensures Leading(Text(ds, false) + tail) == ds
  {
    var s := Text(ds, false) + tail;
    if ds != [] {
      assert s[0] == DigitChar(ds[0], false) && HexDigit(s[0]) == ds[0];
      assert s[1..] == Text(ds[1..], false) + tail;
      LeadingOfText(ds[1..], tail);
    }
  }

  lemma {:induction false} TextSnoc(ds: seq<nat>, d: nat)
    requires d < 16 && forall k :: 0 <= k < |ds| ==> ds[k] < 16
    ensures Text(ds + [d], false) == Text(ds, false) + [DigitChar(d, false)]
  {
    if ds == [] {
    } else {
      assert (ds + [d])[1..] == ds[1..] + [d];
      TextSnoc(ds[1..], d);
    }
  }

  lemma {:induction false} ReverseText(ds: seq<nat>)
    requires forall k :: 0 <= k < |ds| ==> ds[k] < 16
    ensures Reverse(Text(ds, false)) == Text(Reverse(ds), false)
  {
    if ds == [] {
    } else {
      ReverseText(ds[1..]);
      TextSnoc(Reverse(ds[1..]), ds[0]);
    }
  }

  /** What is printed for n reads back as n. */
  lemma ReadsBack(n: nat, tail: string)
    requires tail == [] || !IsHex(tail[0])
    ensures Value(Leading(Numeral(n, Sixteen, false) + tail), Sixteen) == n
  {
    var ds := Digits(n, Sixteen);
    ReverseText(ds);
    LeadingOfText(Reverse(ds), tail);
    DigitsMean(n, Sixteen);
  }

  /** reverse: the characters before the terminator, in place */
  method ReverseString(s: array<char>)
    requires exists k :: 0 <= k < s.Length && s[k] == '\0'
    modifies s
    ensures exists n ::
      0 <= n < s.Length && old(s[n]) == '\0' && '\0' !in old(s[..n]) && s[..n] == Reverse(old(s[..n])) && s[n] == '\0'
  {
    ghost var end :| 0 <= end < s.Length && s[end] == '\0';
    var n := 0;
    while s[n] != '\0'
      invariant 0 <= n <= end && '\0' !in s[..n]
      decreases end - n
    {
      n := n + 1;
    }
    ReverseInPlace(s, n);
  }

  lemma NoTerminator(ds: seq<nat>)
    requires forall k :: 0 <= k < |ds| ==> ds[k] < 16
    ensures '\0' !in Text(ds, false)
  {
  }

  /** itohex */
  method Itohex(n: nat, s: array<char>)
    requires n < WORD && s.Length >= ROOM
    modifies s
    ensures |Numeral(n, Sixteen, false)| < s.Length
    ensures s[..|Numeral(n, Sixteen, false)|] == Numeral(n, Sixteen, false) && s[|Numeral(n, Sixteen, false)|] == '\0'
  {
    EightDigits(n);
    var i := PutDigits(n, Sixteen, false, s);
    s[i] := '\0';
    ghost var text := s[..i];
    NoTerminator(Digits(n, Sixteen));
    assert forall k :: 0 <= k < i ==> s[k] == text[k] && text[k] != '\0';
    ReverseString(s);
  }

  lemma EightDigits(n: nat)
    requires n < WORD
    ensures |Digits(n, Sixteen)| <= 8
  {
    SixteenDigits(n, 8);
  }

  lemma {:induction false} SixteenDigits(u: nat, n: nat)
    requires n >= 1 && u < Pow16(n)
    ensures |Digits(u, Sixteen)| <= n
    decreases n
  {
    assert Pow16(n) == 16 * Pow16(n - 1);
    if u / 16 != 0 {
      SixteenDigits(u / 16, n - 1);
    }
  }

  function Pow16(n: nat): nat {
    if n == 0 then 1 else 16 * Pow16(n - 1)
  }

  /** htoi, where the value fits an int */
  method Htoi(s: array<char>) returns (n: nat)
    requires (exists k :: 0 <= k < s.Length && s[k] == '\0') && Value(Leading(s[..]), Sixteen) < INT_LIMIT
    ensures n == Value(Leading(s[..]), Sixteen)
  {
    ghost var end :| 0 <= end < s.Length && s[end] == '\0';
    ghost var text, all := s[..], Leading(s[..]);
    n := 0;
    var i := 0;
    assert text[0..] == text && all[..0] == [];
    while IsHex(s[i])
      invariant 0 <= i <= end && i <= |all| && all[i..] == Leading(text[i..])
      invariant n == Value(all[..i], Sixteen)
      decreases end - i
    {
      LeadingStep(text, i);
      var d := HexDigit(s[i]);
      assert all[i] == all[i..][0] == d && all[i + 1..] == all[i..][1..] && all[..i + 1] == all[..i] + [d];
      ValueSnoc(all[..i], d, Sixteen);
      n := n * 16 + d;
      i := i + 1;
    }
    assert all[..i] == all;
  }

  lemma LeadingStep(s: string, i: nat)
    requires i < |s| && IsHex(s[i])
    ensures Leading(s[i..]) == [HexDigit(s[i])] + Leading(s[i + 1..])
  {
  }

  /** Printing a number below 2^31 and parsing the result gives it back. */
  method RoundTrip(n: nat) returns (r: nat)
    requires n < INT_LIMIT
    ensures r == n
  {
    var s := new char[ROOM](_ => '\0');
    Itohex(n, s);
    ghost var text := Numeral(n, Sixteen, false);
    assert s[..] == text + s[|text|..];
    ReadsBack(n, s[|text|..]);
    r := Htoi(s);
  }
}
