/**
 What a rendering means to a reader, told without the code that makes it: numbers read back
 digit by digit, characters and strings are the arguments', and a format is rendered directive
 by directive.  Together the laws leave no freedom to the rendering.
 */
module PrintkLaws {
  import opened Basics
  import opened Numerals
  import opened Printk

  // ----------------------------------------------------------------- reading numerals

  /** The digit a reader sees in a character; letters are digits in base 16, in one case only. */
  function DigitOf(c: char, radix: Radix, upper: bool): Option<nat> {
    if '0' <= c <= '9' then Some((c - '0') as nat)
    else if radix.Sixteen? && upper && 'A' <= c <= 'F' then Some((c - 'A') as nat + 10)
    else if radix.Sixteen? && !upper && 'a' <= c <= 'f' then Some((c - 'a') as nat + 10)
    else None
  }

  /** The digits a reader sees, or None if some character is no digit. */
  function DigitsOf(text: string, radix: Radix, upper: bool): Option<seq<nat>> {
    if text == [] then Some([])
    else
      match (DigitOf(text[0], radix, upper), DigitsOf(text[1..], radix, upper))
      case (Some(d), Some(ds)) => Some([d] + ds)
      case _ => None
  }

  predicate HasSign(text: string) {
    text != [] && text[0] == '-'
  }

  /** What follows the sign, if there is one. */
  function Unsigned(text: string): string {
    if HasSign(text) then text[1..] else text
  }

  /** The number the text stands for. */
  function Reading(text: string, radix: Radix, upper: bool): Option<int> {
    match DigitsOf(Unsigned(text), radix, upper)
    case None => None
    case Some(ds) =>
      var v: int := Value(ds, radix);
      Some(if HasSign(text) then -v else v)
  }

  // ----------------------------------------------------------------- what numbers must look like

  predicate IsNumeric(c: char) {
    c == 'd' || c == 'u' || c == 'x' || c == 'X'
  }

  /** %d takes its argument for a signed word, the others for an unsigned one. */
  function Meaning(c: char, word: nat): int {
    if c == 'd' && word % WORD >= WORD / 2 then word % WORD - WORD else word % WORD
  }

  function RadixOf(c: char): Radix {
    if c == 'd' || c == 'u' then Ten else Sixteen
  }

  /** The directive for a conversion with or without a width; only a digit is a width. */
  predicate Asks(fmt: string, c: char, width: nat) {
    || (fmt == ['%', c] && c != '0' && width == 0)
    || (|fmt| == 4 && fmt[..2] == "%0" && fmt[2] != '\0' && fmt[3] == c
        && width == if '0' <= fmt[2] <= '9' then (fmt[2] - '0') as nat else 0)
  }

  /** The text stands for the number, has at least `width` digits, and no more than it needs. */
  predicate Shows(text: string, value: int, radix: Radix, upper: bool, width: nat) {
    && Reading(text, radix, upper) == Some(value) && (HasSign(text) <==> value < 0)
    && |Unsigned(text)| >= 1 && |Unsigned(text)| >= width
    && (|Unsigned(text)| > 1 && |Unsigned(text)| > width ==> Unsigned(text)[0] != '0')
  }

  // ----------------------------------------------------------------- numerals read back

  lemma DigitReadsBack(d: nat, radix: Radix, upper: bool)
    requires d < radix.Base()
    ensures DigitOf(DigitChar(d, upper), radix, upper) == Some(d) && DigitChar(d, upper) != '-'
    ensures DigitChar(d, upper) == '0' <==> d == 0
  {
  }

  /** A text made of the characters of some digits reads as these digits. */
  lemma {:induction false} DigitsReadBack(text: string, ds: seq<nat>, radix: Radix, upper: bool)
    requires |text| == |ds| && forall k :: 0 <= k < |ds| ==> ds[k] < radix.Base() && text[k] == DigitChar(ds[k], upper)
    ensures DigitsOf(text, radix, upper) == Some(ds)
  {
    if ds == [] {
    } else {
      DigitReadsBack(ds[0], radix, upper);
      DigitsReadBack(text[1..], ds[1..], radix, upper);
      assert ds == [ds[0]] + ds[1..];
    }
  }

  lemma {:induction false} LeadingZeros(n: nat, ds: seq<nat>, radix: Radix)
    ensures Value(seq(n, _ => 0) + ds, radix) == Value(ds, radix)
    decreases |ds|, n
  {
    var zeros := seq(n, _ => 0);
    if ds != [] {
      var init := ds[..|ds| - 1];
      LeadingZeros(n, init, radix);
      assert zeros + ds == (zeros + init) + [ds[|ds| - 1]];
      ValueSnoc(zeros + init, ds[|ds| - 1], radix);
    } else if n > 0 {
      LeadingZeros(n - 1, [], radix);
      assert zeros + ds == (seq(n - 1, _ => 0) + []) + [0];
      ValueSnoc(seq(n - 1, _ => 0) + [], 0, radix);
    } else {
      assert zeros + ds == ds;
    }
  }

  /** The most significant digit of a number with several digits is not zero. */
  lemma {:induction false} TopDigit(u: nat, radix: Radix)
    ensures var ds := Digits(u, radix); |ds| > 1 ==> ds[|ds| - 1] != 0
    decreases u
  {
    QuotRem(u, radix);
    if radix.Quot(u) != 0 {
      TopDigit(radix.Quot(u), radix);
    }
  }

  lemma {:induction false} DigitsOfConcat(a: string, b: string, radix: Radix, upper: bool)
    requires DigitsOf(a, radix, upper).Some? && DigitsOf(b, radix, upper).Some?
    ensures DigitsOf(a + b, radix, upper) == Some(DigitsOf(a, radix, upper).value + DigitsOf(b, radix, upper).value)
  {
    if a == [] {
      assert a + b == b;
      assert [] + DigitsOf(b, radix, upper).value == DigitsOf(b, radix, upper).value;
    } else {
      assert (a + b)[1..] == a[1..] + b;
      DigitsOfConcat(a[1..], b, radix, upper);
      var d, x, y := DigitOf(a[0], radix, upper), DigitsOf(a[1..], radix, upper), DigitsOf(b, radix, upper);
      assert [d.value] + (x.value + y.value) == ([d.value] + x.value) + y.value;
    }
  }

  lemma {:induction false} ReversedReads(ds: seq<nat>, radix: Radix, upper: bool)
    requires forall k :: 0 <= k < |ds| ==> ds[k] < radix.Base() && ds[k] < 16
    ensures DigitsOf(Reverse(Text(ds, upper)), radix, upper) == Some(Reverse(ds))
  {
    if ds == [] {
    } else {
      var c, rest := DigitChar(ds[0], upper), Text(ds[1..], upper);
      ReversedReads(ds[1..], radix, upper);
      DigitReadsBack(ds[0], radix, upper);
      assert [c][1..] == [] && [ds[0]] + [] == [ds[0]];
      DigitsOfConcat(Reverse(rest), [c], radix, upper);
      assert Text(ds, upper)[1..] == rest;
    }
  }

  lemma NumeralReads(u: nat, radix: Radix, upper: bool)
    ensures DigitsOf(Numeral(u, radix, upper), radix, upper) == Some(Reverse(Digits(u, radix)))
    ensures Value(Reverse(Digits(u, radix)), radix) == u
  {
    ReversedReads(Digits(u, radix), radix, upper);
    DigitsMean(u, radix);
  }

  lemma ZerosRead(n: nat, radix: Radix, upper: bool)
    ensures DigitsOf(Zeros(n), radix, upper) == Some(seq(n, _ => 0))
  {
    DigitsReadBack(Zeros(n), seq(n, _ => 0), radix, upper);
  }

  /** A padded numeral stands for its number. */
  lemma PaddedReads(u: nat, radix: Radix, upper: bool, n: nat)
    ensures var ds := DigitsOf(Zeros(n) + Numeral(u, radix, upper), radix, upper);
      ds.Some? && Value(ds.value, radix) == u
  {
    NumeralReads(u, radix, upper);
    ZerosRead(n, radix, upper);
    DigitsOfConcat(Zeros(n), Numeral(u, radix, upper), radix, upper);
    LeadingZeros(n, Reverse(Digits(u, radix)), radix);
  }

  lemma NumeralStarts(u: nat, radix: Radix, upper: bool)
    ensures var text := Numeral(u, radix, upper);
      |text| >= 1 && text[0] != '-' && (|text| > 1 ==> text[0] != '0')
  {
    var ds := Digits(u, radix);
    TopDigit(u, radix);
    DigitReadsBack(ds[|ds| - 1], radix, upper);
  }

  /** A text of digits, the number they stand for, and how it starts. */
  predicate DigitText(text: string, u: nat, radix: Radix, upper: bool, width: nat) {
    && (var ds := DigitsOf(text, radix, upper); ds.Some? && Value(ds.value, radix) == u)
    && |text| >= 1 && |text| >= width && text[0] != '-' && (|text| > 1 && |text| > width ==> text[0] != '0')
  }

  lemma PaddedIs(n: nat, u: nat, radix: Radix, upper: bool, width: nat)
    requires var m := n + |Numeral(u, radix, upper)|; m >= width && (n > 0 ==> m == width)
    ensures DigitText(Zeros(n) + Numeral(u, radix, upper), u, radix, upper, width)
  {
    PaddedReads(u, radix, upper, n);
    NumeralStarts(u, radix, upper);
    assert |Zeros(n)| == n && (n > 0 ==> Zeros(n)[0] == '0');
  }

  lemma SignShows(text: string, negative: bool, u: nat, radix: Radix, upper: bool, width: nat)
    requires DigitText(text, u, radix, upper, width) && (negative ==> u > 0)
    ensures Shows(Sign(negative) + text, if negative then -(u as int) else u, radix, upper, width)
  {
    assert (Sign(negative) + text)[|Sign(negative)|..] == text;
    assert !negative ==> Sign(negative) + text == text;
  }

  lemma NumberParts(word: nat, radix: Radix, upper: bool, unsig: bool, pad: nat, n: nat)
    requires var digits := Numeral(Magnitude(word, unsig), radix, upper);
      n == if pad > |digits| then pad - |digits| else 0
    ensures NumberText(word, radix, upper, unsig, pad)
         == Sign(Negative(word, unsig)) + (Zeros(n) + Numeral(Magnitude(word, unsig), radix, upper))
  {
    var digits := Numeral(Magnitude(word, unsig), radix, upper);
    assert Zeros(pad - |digits|) == Zeros(n);
    Regroup(Sign(Negative(word, unsig)), Zeros(n), digits);
  }

  /** A number as printed shows its value. */
  lemma NumberShows(word: nat, radix: Radix, upper: bool, unsig: bool, pad: nat)
    ensures Shows(NumberText(word, radix, upper, unsig, pad),
      if Negative(word, unsig) then word % WORD - WORD else word % WORD, radix, upper, pad)
  {
    var u, m := Magnitude(word, unsig), |Numeral(Magnitude(word, unsig), radix, upper)|;
    var n := if pad > m then pad - m else 0;
    NumberParts(word, radix, upper, unsig, pad, n);
    PaddedIs(n, u, radix, upper, pad);
    SignShows(Zeros(n) + Numeral(u, radix, upper), Negative(word, unsig), u, radix, upper, pad);
  }

  lemma ConvertedShows(c: char, arg: Arg, width: nat)
    requires IsNumeric(c)
    ensures Shows(Converted(c, width, arg), Meaning(c, arg.word), RadixOf(c), c == 'X', width)
  {
    NumberShows(arg.word, RadixOf(c), c == 'X', c != 'd', width);
  }

  // ----------------------------------------------------------------- one directive

  lemma DirectiveIs(fmt: string, rest: string, c: char, width: nat)
    requires Asks(fmt, c, width) && c != '\0'
    ensures DirectiveAt(fmt + rest, 0) == Conversion(c, width, |fmt|)
  {
  }

  lemma LayoutOne(fmt: string, conv: Converter, c: char, width: nat)
    requires Asks(fmt, c, width) && c != '\0'
    ensures Layout(fmt, conv) == conv(c, width, 0)
  {
    assert fmt + [] == fmt;
    DirectiveIs(fmt, [], c, width);
    assert Layout(fmt, conv, |fmt|, Uses(c)) == [];
    assert conv(c, width, 0) + [] == conv(c, width, 0);
  }

  lemma RenderOne(fmt: string, args: nat -> Arg, c: char, width: nat)
    requires Asks(fmt, c, width) && c != '\0'
    ensures Render(fmt, args) == Converted(c, width, args(0))
  {
    LayoutOne(fmt, By(args), c, width);
  }

  /**
   %d, %u, %x and %X, with or without a width: the text reads back as the argument, signed for
   %d, in base 10 or 16 and in the case asked for, with the sign of the value, at least as many
   digits as the width and otherwise no leading zero.
   */
  lemma NumbersReadBack(fmt: string, args: nat -> Arg, c: char, width: nat)
    requires IsNumeric(c) && Asks(fmt, c, width)
    ensures Shows(Render(fmt, args), Meaning(c, args(0).word), RadixOf(c), c == 'X', width)
  {
    RenderOne(fmt, args, c, width);
    ConvertedShows(c, args(0), width);
  }

  /** %c is the low byte of its argument. */
  lemma CharacterIsLowByte(fmt: string, args: nat -> Arg, width: nat)
    requires Asks(fmt, 'c', width)
    ensures Render(fmt, args) == [(args(0).word % 256) as char]
  {
    RenderOne(fmt, args, 'c', width);
  }

  /** %s is its argument up to the first NUL. */
  lemma StringIsText(fmt: string, args: nat -> Arg, width: nat)
    requires Asks(fmt, 's', width)
    ensures var r, text := Render(fmt, args), args(0).text;
      r <= text && '\0' !in r && (|r| < |text| ==> text[|r|] == '\0')
  {
    RenderOne(fmt, args, 's', width);
    CStringIs(args(0).text);
  }

  lemma {:induction false} CStringIs(text: string)
    ensures var r := CString(text); r <= text && '\0' !in r && (|r| < |text| ==> text[|r|] == '\0')
  {
    if text == [] || text[0] == '\0' {
    } else {
      CStringIs(text[1..]);
      assert text == [text[0]] + text[1..];
    }
  }

  /** Any other character after the percent sign stands for itself. */
  lemma OtherIsItself(fmt: string, args: nat -> Arg, c: char, width: nat)
    requires Asks(fmt, c, width) && !IsNumeric(c) && c != 'c' && c != 's' && c != '\0'
    ensures Render(fmt, args) == [c]
  {
    RenderOne(fmt, args, c, width);
  }

  // ----------------------------------------------------------------- a whole format

  /** How many arguments a conversion takes, as a caller counts them. */
  function Taken(c: char): nat {
    if IsNumeric(c) || c == 'c' || c == 's' then 1 else 0
  }

  /** The arguments from number k on. */
  function Later(args: nat -> Arg, k: nat): nat -> Arg {
    (j: nat) => args(k + j)
  }

  /** A directive further on in a format, seen from there. */
  function Seen(e: Directive, at: nat): Directive {
    match e
    case Stop => Stop
    case Plain(c, next) => if next < at then Stop else Plain(c, next - at)
    case Conversion(c, pad, next) => if next < at then Stop else Conversion(c, pad, next - at)
  }

  lemma DirectiveLater(fmt: string, at: nat, i: nat)
    requires at <= |fmt|
    ensures DirectiveAt(fmt[at..], i) == Seen(DirectiveAt(fmt, at + i), at)
  {
    assert At(fmt[at..], i) == At(fmt, at + i);
    assert At(fmt[at..], i + 1) == At(fmt, at + i + 1);
    assert At(fmt[at..], i + 2) == At(fmt, at + i + 2);
    assert At(fmt[at..], i + 3) == At(fmt, at + i + 3);
  }

  /** The second converter has the arguments of the first from number k on. */
  ghost predicate Follows(conv: Converter, later: Converter, k: nat) {
    forall c: char, pad: nat, n: nat :: later(c, pad, n) == conv(c, pad, k + n)
  }

  /** Laying out from the middle of a format is laying out what is left of it. */
  lemma {:induction false} LayoutLater(fmt: string, conv: Converter, later: Converter, at: nat, k: nat, i: nat, j: nat)
    requires at <= |fmt| && Follows(conv, later, k)
    ensures Layout(fmt, conv, at + i, k + j) == Layout(fmt[at..], later, i, j)
    decreases |fmt| - (at + i)
  {
    DirectiveLater(fmt, at, i);
    match DirectiveAt(fmt, at + i)
    case Stop =>
    case Plain(c, next) =>
      var i' := next - at;
      LayoutLater(fmt, conv, later, at, k, i', j);
      assert at + i' == next;
    case Conversion(c, pad, next) =>
      var i', j' := next - at, j + Uses(c);
      LayoutLater(fmt, conv, later, at, k, i', j');
      assert at + i' == next && k + j' == (k + j) + Uses(c) && later(c, pad, j) == conv(c, pad, k + j);
  }

  lemma ByLater(args: nat -> Arg, k: nat, c: char, pad: nat, n: nat)
    ensures By(Later(args, k))(c, pad, n) == By(args)(c, pad, k + n)
  {
    assert Later(args, k)(n) == args(k + n);
  }

  lemma RenderLater(fmt: string, args: nat -> Arg, at: nat, k: nat)
    requires at <= |fmt|
    ensures Layout(fmt, By(args), at, k) == Render(fmt[at..], Later(args, k))
  {
    forall c: char, pad: nat, n: nat ensures By(Later(args, k))(c, pad, n) == By(args)(c, pad, k + n) {
      ByLater(args, k, c, pad, n);
    }
    LayoutLater(fmt, By(args), By(Later(args, k)), at, k, 0, 0);
  }

  /** A format that starts with a conversion: its rendering, then that of the rest with the remaining arguments. */
  lemma ConversionFirst(fmt: string, rest: string, args: nat -> Arg, c: char, width: nat)
    requires Asks(fmt, c, width) && c != '\0'
    ensures Render(fmt + rest, args) == Render(fmt, args) + Render(rest, Later(args, Taken(c)))
  {
    DirectiveIs(fmt, rest, c, width);
    RenderOne(fmt, args, c, width);
    RenderLater(fmt + rest, args, |fmt|, Taken(c));
    assert (fmt + rest)[|fmt|..] == rest;
  }

  /** A format that starts with any other character: that character, then the rest with all arguments. */
  lemma CharacterFirst(c: char, rest: string, args: nat -> Arg)
    requires c != '%' && c != '\0'
    ensures Render([c] + rest, args) == [c] + Render(rest, Later(args, 0))
  {
    RenderLater([c] + rest, args, 1, 0);
    assert ([c] + rest)[1..] == rest;
  }

  /** Nothing is rendered from a NUL on, nor for a conversion the format breaks off. */
  lemma NothingLeft(fmt: string, args: nat -> Arg)
    requires At(fmt, 0) == '\0'
          || (At(fmt, 0) == '%' && At(fmt, 1) == '\0')
          || (At(fmt, 0) == '%' && At(fmt, 1) == '0' && (At(fmt, 2) == '\0' || At(fmt, 3) == '\0'))
    ensures Render(fmt, args) == []
  {
  }

  /** A format without a percent sign or a NUL renders as itself. */
  lemma {:induction false} PlainIsItself(fmt: string, args: nat -> Arg)
    requires '%' !in fmt && '\0' !in fmt
    ensures Render(fmt, args) == fmt
  {
    if fmt == [] {
    } else {
      CharacterFirst(fmt[0], fmt[1..], args);
      PlainIsItself(fmt[1..], Later(args, 0));
      assert fmt == [fmt[0]] + fmt[1..];
    }
  }
}
