/**
 mini_vsnprintf: bounded formatting.  The specification is the unbounded rendering of a
 format; the code writes as much of it as fits, numerals through a 24-byte scratch buffer.
 */
module Printk {
  import opened Basics
  import opened Numerals

  const INT_LIMIT := 0x8000_0000
  const SCRATCH := 24

  /** One variadic argument, read as a word or as a pointer to characters. */
  datatype Arg = Arg(word: nat, text: string)

  /** The character at i of a string that ends with a NUL. */
  function At(s: string, i: nat): char {
    if i < |s| then s[i] else '\0'
  }

  /** The characters before the NUL. */
  function CString(s: string): string {
    if s == [] || s[0] == '\0' then [] else [s[0]] + CString(s[1..])
  }

  function Zeros(n: int): string {
    if n <= 0 then [] else seq(n, _ => '0')
  }

  predicate Negative(word: nat, unsig: bool) {
    !unsig && word % WORD >= INT_LIMIT
  }

  function Magnitude(word: nat, unsig: bool): nat {
    if Negative(word, unsig) then WORD - word % WORD else word % WORD
  }

  /** A number as printed: sign, zeros up to the width, digits. */
  function NumberText(word: nat, radix: Radix, upper: bool, unsig: bool, pad: nat): string {
    var digits := Numeral(Magnitude(word, unsig), radix, upper);
    (if Negative(word, unsig) then "-" else "") + Zeros(pad - |digits|) + digits
  }

  // ----------------------------------------------------------------- the unbounded rendering

  /** What the format says at one place: stop, a character, or a conversion with a width for zero padding. */
  datatype Directive = Stop | Plain(c: char, next: nat) | Conversion(c: char, pad: nat, next: nat)

  /** A zero after the percent sign takes one more character as the width, whatever it is. */
  function DirectiveAt(fmt: string, i: nat): Directive {
    if At(fmt, i) == '\0' then Stop
    else if At(fmt, i) != '%' then Plain(At(fmt, i), i + 1)
    else if At(fmt, i + 1) != '0' then ConversionBy(At(fmt, i + 1), 0, i + 2)
    else if At(fmt, i + 2) == '\0' then Stop
    else ConversionBy(At(fmt, i + 3), Width(At(fmt, i + 2)), i + 4)
  }

  function ConversionBy(c: char, pad: nat, next: nat): Directive {
    if c == '\0' then Stop else Conversion(c, pad, next)
  }

  function Width(c: char): (w: nat)
    ensures w <= 9
  {
    if '0' <= c <= '9' then (c - '0') as nat else 0
  }

  /** What a conversion makes of its argument; a character that is no conversion stands for itself. */
  function Converted(c: char, pad: nat, arg: Arg): string {
    match c
    case 'u' => NumberText(arg.word, Ten, false, true, pad)
    case 'd' => NumberText(arg.word, Ten, false, false, pad)
    case 'x' => NumberText(arg.word, Sixteen, false, true, pad)
    case 'X' => NumberText(arg.word, Sixteen, true, true, pad)
    case 'c' => [(arg.word % 256) as char]
    case 's' => CString(arg.text)
    case _ => [c]
  }

  /** How many arguments a conversion takes. */
  function Uses(c: char): nat {
    if c in {'u', 'd', 'x', 'X', 'c', 's'} then 1 else 0
  }

  /** A conversion of the k-th argument. */
  type Converter = (char, nat, nat) -> string

  function By(args: nat -> Arg): Converter {
    (c: char, pad: nat, k: nat) => Converted(c, pad, args(k))
  }

  /** The format from i on, with the arguments from number k on. */
  function Layout(fmt: string, conv: Converter, i: nat := 0, k: nat := 0): string
    decreases |fmt| - i
  {
    match DirectiveAt(fmt, i)
    case Stop => []
    case Plain(c, next) => [c] + Layout(fmt, conv, next, k)
    case Conversion(c, pad, next) => conv(c, pad, k) + Layout(fmt, conv, next, k + Uses(c))
  }

  function Render(fmt: string, args: nat -> Arg): string {
    Layout(fmt, By(args))
  }

  // ----------------------------------------------------------------- numerals

  lemma TenDigits(u: nat, radix: Radix)
    requires u < WORD
    ensures |Digits(u, radix)| <= 10
  {
    FewDigits(u, radix, 10);
  }

  lemma ReverseConcat(a: string, b: string)
    ensures Reverse(a + b) == Reverse(b) + Reverse(a)
  {
  }

  function Sign(negative: bool): string {
    if negative then "-" else ""
  }

  /** The buffer before it is reversed: digits back to front, padding, sign. */
  function BackToFront(digits: string, pad: nat, negative: bool): string {
    digits + Zeros(pad - |digits|) + Sign(negative)
  }

  lemma ReversedNumber(word: nat, radix: Radix, upper: bool, unsig: bool, pad: nat)
    ensures Reverse(BackToFront(Text(Digits(Magnitude(word, unsig), radix), upper), pad, Negative(word, unsig)))
         == NumberText(word, radix, upper, unsig, pad)
  {
    var digits := Text(Digits(Magnitude(word, unsig), radix), upper);
    ReverseZeros(pad - |digits|);
    ReverseSign(Negative(word, unsig));
    ReverseThree(digits, Zeros(pad - |digits|), Sign(Negative(word, unsig)));
  }

  lemma ReverseThree(a: string, b: string, c: string)
    ensures Reverse(a + b + c) == Reverse(c) + Reverse(b) + Reverse(a)
  {
    ReverseConcat(a + b, c);
    ReverseConcat(a, b);
    Regroup(Reverse(c), Reverse(b), Reverse(a));
  }

  lemma ReverseZeros(n: int)
    ensures Reverse(Zeros(n)) == Zeros(n)
  {
  }

  lemma ReverseSign(negative: bool)
    ensures Reverse(Sign(negative)) == Sign(negative)
  {
  }

  lemma Regroup(a: string, b: string, c: string)
    ensures a + (b + c) == (a + b) + c
  {
  }

  /** The padding loop and the sign. */
  method PadAndSign(bf: array<char>, n: nat, pad: nat, negative: bool) returns (len: nat)
    requires pad <= 9 && n <= 10 && bf.Length == SCRATCH
    modifies bf
    ensures len <= 11 && bf[..len] == BackToFront(old(bf[..n]), pad, negative) && bf[len] == '\0'
  {
    len := n;
    while len < pad
      invariant n <= len && (len <= pad || len == n)
      invariant forall j :: 0 <= j < n ==> bf[j] == old(bf[j])
      invariant forall j :: n <= j < len ==> bf[j] == '0'
    {
      bf[len] := '0';
      len := len + 1;
    }
    assert bf[..len] == old(bf[..n]) + Zeros(pad - n);
    if negative {
      bf[len] := '-';
      len := len + 1;
    }
    bf[len] := '\0';
  }

  /** mini_itoa for the radixes in use: the number as printed, never more than 12 of the 24 bytes. */
  method Itoa(word: nat, radix: Radix, upper: bool, unsig: bool, bf: array<char>, pad: nat) returns (len: nat)
    requires pad <= 9 && bf.Length == SCRATCH
    modifies bf
    ensures len <= 11 && bf[..len] == NumberText(word, radix, upper, unsig, pad) && bf[len] == '\0'
  {
    var negative := false;
    var value := word % WORD;
    if value >= INT_LIMIT && !unsig {
      negative := true;
      value := WORD - value;
    }
    TenDigits(value, radix);
    var n := PutDigits(value, radix, upper, bf);
    len := PadAndSign(bf, n, pad, negative);
    ReversedNumber(word, radix, upper, unsig, pad);
    ReverseInPlace(bf, len);
  }

  // ----------------------------------------------------------------- the bounded buffer

  /** struct mini_buff */
  class MiniBuff {
    const buffer: array<char>
    var pos: nat
    // Everything put so far, had there been room.
    ghost var all: string

    /** The buffer holds as much of the output as fits before a terminator. */
    ghost predicate Valid()
      reads this, buffer
    {
      && buffer.Length >= 1 && pos == Min(|all|, buffer.Length - 1) && buffer[..pos] == all[..pos]
      && (pos > 0 ==> buffer[pos] == '\0')
    }

    constructor (buffer: array<char>)
      requires buffer.Length >= 1
      ensures Valid() && all == [] && this.buffer == buffer
    {
      this.buffer, pos, all := buffer, 0, [];
    }

    predicate Full()
      requires buffer.Length >= 1
      reads this
    {
      pos + 1 >= buffer.Length
    }

    /** _putc */
    method Putc(ch: char) returns (n: nat)
      requires Valid()
      modifies this, buffer
      ensures Valid() && all == old(all) + [ch] && n == pos - old(pos)
    {
      all := all + [ch];
      if Full() {
        return 0;
      }
      buffer[pos] := ch;
      pos := pos + 1;
      buffer[pos] := '\0';
      return 1;
    }

    /** _puts */
    method Puts(s: string) returns (n: nat)
      requires Valid()
      modifies this, buffer
      ensures Valid() && all == old(all) + s && n == pos - old(pos)
    {
      var start := pos;
      n := if buffer.Length - pos - 1 < |s| then buffer.Length - pos - 1 else |s|;
      for i := 0 to n
        invariant pos == start + i && all == old(all)
        invariant forall j :: 0 <= j < start ==> buffer[j] == old(buffer[j])
        invariant forall j :: start <= j < pos ==> buffer[j] == s[j - start]
      {
        buffer[pos] := s[i];
        pos := pos + 1;
      }
      buffer[pos] := '\0';
      all := all + s;
      assert buffer[..start] == old(buffer[..start]);
      assert buffer[..pos] == old(all)[..start] + s[..n];
    }
  }

  /** mini_strlen, and the characters it counts */
  method Strlen(s: string) returns (n: nat)
    ensures n <= |s| && s[..n] == CString(s)
  {
    n := 0;
    while At(s, n) != '\0'
      invariant n <= |s| && CString(s) == s[..n] + CString(s[n..])
      decreases |s| - n
    {
      assert s[n..][0] == s[n] && s[n..][1..] == s[n + 1..];
      assert s[..n + 1] == s[..n] + [s[n]];
      n := n + 1;
    }
    assert n < |s| ==> s[n..][0] == s[n];
  }

  /** One conversion of mini_vsnprintf, once its character is known. */
  method Convert(b: MiniBuff, c: char, pad: nat, args: nat -> Arg, k: nat) returns (k': nat)
    requires b.Valid() && c != '\0' && pad <= 9
    modifies b, b.buffer
    ensures b.Valid() && b.all == old(b.all) + Converted(c, pad, args(k)) && k' == k + Uses(c)
  {
    k' := k + 1;
    var bf := new char[SCRATCH](_ => '\0');
    if c == 'u' || c == 'd' {
      var len := Itoa(args(k).word, Ten, false, c == 'u', bf, pad);
      var _ := b.Puts(bf[..len]);
    } else if c == 'x' || c == 'X' {
      var len := Itoa(args(k).word, Sixteen, c == 'X', true, bf, pad);
      var _ := b.Puts(bf[..len]);
    } else if c == 'c' {
      var _ := b.Putc((args(k).word % 256) as char);
    } else if c == 's' {
      var len := Strlen(args(k).text);
      var _ := b.Puts(args(k).text[..len]);
    } else {
      var _ := b.Putc(c);
      k' := k;
    }
  }

  /** One turn of the loop of mini_vsnprintf. */
  method Turn(b: MiniBuff, fmt: string, args: nat -> Arg, i: nat, k: nat) returns (stop: bool, i': nat, k': nat)
    requires b.Valid() && At(fmt, i) != '\0'
    modifies b, b.buffer
    ensures b.Valid() && (!stop ==> i < i')
    ensures old(b.all) + Layout(fmt, By(args), i, k) == b.all + if stop then [] else Layout(fmt, By(args), i', k')
  {
    stop, i', k' := false, i + 1, k;
    var ch := At(fmt, i);
    if ch != '%' {
      var _ := b.Putc(ch);
      Regroup(old(b.all), [ch], Layout(fmt, By(args), i', k'));
    } else {
      var pad := 0;
      ch := At(fmt, i + 1);
      i' := i + 2;
      if ch == '0' {
        ch := At(fmt, i + 2);
        if ch == '\0' {
          stop := true;
          return;
        }
        pad := Width(ch);
        ch := At(fmt, i + 3);
        i' := i + 4;
      }
      if ch == '\0' {
        stop := true;
        return;
      }
      assert DirectiveAt(fmt, i) == Conversion(ch, pad, i');
      k' := Convert(b, ch, pad, args, k);
      Regroup(old(b.all), By(args)(ch, pad, k), Layout(fmt, By(args), i', k'));
    }
  }

  /**
   mini_vsnprintf: for every format, arguments and capacity of at least 1, the buffer gets the
   first capacity - 1 characters of the unbounded rendering, and their number is returned.
   */
  method Vsnprintf(buffer: array<char>, fmt: string, args: nat -> Arg) returns (ret: nat)
    requires buffer.Length >= 1
    modifies buffer
    ensures ret == Min(|Render(fmt, args)|, buffer.Length - 1)
    ensures buffer[..ret] == Render(fmt, args)[..ret] && (ret > 0 ==> buffer[ret] == '\0')
  {
    var b := new MiniBuff(buffer);
    var i, k, stop := 0, 0, false;
    ghost var full, rest := Render(fmt, args), Render(fmt, args);
    while !stop && At(fmt, i) != '\0' && !b.Full()
      invariant fresh(b) && b.buffer == buffer && b.Valid() && full == b.all + rest
      invariant rest == if stop then [] else Layout(fmt, By(args), i, k)
      decreases !stop, |fmt| - i
    {
      stop, i, k := Turn(b, fmt, args, i, k);
      rest := if stop then [] else Layout(fmt, By(args), i, k);
    }
    ret := b.pos;
    assert b.Full() || full == b.all;
    assert full[..ret] == b.all[..ret];
  }
}
