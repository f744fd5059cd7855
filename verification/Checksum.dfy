/**
 The Internet checksum of section 1 of RFC 1071, as csum computes it: 16-bit words in memory
 order on a little-endian host, summed in a wide register and folded twice.
 */
module Checksum {
  import opened Basics

  const HALF := 0x1_0000
  const ONES := 0xffff
  // The register the words are summed in is a 64-bit long.
  const LONG_LIMIT := 0x8000_0000_0000_0000
  // The byte count is an int.
  const INT_LIMIT := 0x8000_0000
  // The largest number of words whose sum two folds always reduce.
  const MAX_WORDS := 65538

  /** The sum of the 16-bit words; an odd last byte counts as a word. */
  function WordSum(data: seq<Byte>): nat {
    if data == [] then 0
    else if |data| == 1 then data[0]
    else data[0] + 256 * data[1] + WordSum(data[2..])
  }

  /** The number of words. */
  function Words(data: seq<Byte>): nat {
    (|data| + 1) / 2
  }

  /** One's complement addition keeps the sum modulo 65535, with 65535 for a sum that is not zero. */
  function OnesSum(sum: nat): (r: nat)
    ensures r <= ONES && (r == 0 <==> sum == 0)
  {
    if sum == 0 then 0 else (sum - 1) % ONES + 1
  }

  /** The folds of csum, before the complement is cut to 16 bits. */
  function FirstFold(sum: nat): nat {
    sum / HALF + sum % HALF
  }

  function TwoFolds(sum: nat): nat {
    var s := FirstFold(sum);
    (s + s / HALF) % HALF
  }

  /** What csum returns is the complement of the one's complement sum. */
  function Checksum(data: seq<Byte>): nat {
    ONES - OnesSum(WordSum(data))
  }

  lemma OnesSumIs(a: nat)
    ensures OnesSum(a) == if a == 0 then 0 else if a % ONES == 0 then ONES else a % ONES
  {
  }

  /** One fold keeps the one's complement sum. */
  lemma FoldKeeps(sum: nat)
    ensures OnesSum(FirstFold(sum)) == OnesSum(sum)
  {
    var high, low := sum / HALF, sum % HALF;
    assert sum == ONES * high + (high + low);
  }

  /** Two folds are the second fold cut to 16 bits. */
  lemma TwoFoldsAre(sum: nat)
    ensures TwoFolds(sum) == FirstFold(FirstFold(sum)) % HALF
  {
    var s := FirstFold(sum);
    assert s + s / HALF == HALF * (s / HALF) + (s / HALF + s % HALF);
  }

  /** Below 65536 a sum is its own one's complement sum; just above, 16 bits of it are not. */
  lemma CutIs(t: nat)
    requires t < HALF * ONES
    ensures t % HALF == OnesSum(t) <==> t < HALF
  {
    var high, low := t / HALF, t % HALF;
    assert t == ONES * high + (high + low) && high < ONES;
    OnesSumIs(t);
  }

  /** Two folds of a long give the one's complement sum exactly when no carry is left after them. */
  lemma TwoFoldsExact(sum: nat)
    requires sum < LONG_LIMIT
    ensures TwoFolds(sum) == OnesSum(sum) <==> FirstFold(FirstFold(sum)) < HALF
  {
    TwoFoldsAre(sum);
    FoldKeeps(sum);
    FoldKeeps(FirstFold(sum));
    CutIs(FirstFold(FirstFold(sum)));
  }

  /** No sum of at most 65538 words leaves a carry after two folds, and one of 65539 words does. */
  lemma CarryFrom(sum: nat)
    ensures sum <= ONES * MAX_WORDS ==> TwoFolds(sum) == OnesSum(sum)
    ensures sum == ONES * MAX_WORDS + 1 ==> TwoFolds(sum) == 0 && OnesSum(sum) == 1
  {
    if sum <= ONES * MAX_WORDS {
      TwoFoldsExact(sum);
    }
  }

  lemma {:induction false} SumBound(data: seq<Byte>)
    ensures WordSum(data) <= ONES * Words(data)
  {
    if |data| < 2 {
    } else {
      SumBound(data[2..]);
      assert Words(data) == Words(data[2..]) + 1;
    }
  }

  /** The sum of the bytes at even places. */
  function EvenBytes(data: seq<Byte>): nat {
    if data == [] then 0 else data[0] + if |data| == 1 then 0 else EvenBytes(data[2..])
  }

  /** Bytes at even places count once and bytes at odd places 256 times, whether or not their number is even. */
  lemma {:induction false} BytesWeigh(data: seq<Byte>)
    ensures WordSum(data) == EvenBytes(data) + if data == [] then 0 else 256 * EvenBytes(data[1..])
  {
    if |data| < 2 {
    } else {
      BytesWeigh(data[2..]);
      if |data| == 2 {
        assert data[2..] == [];
      } else {
        assert data[1..][2..] == data[2..][1..];
      }
    }
  }

  /** n words, all bits set. */
  function FullWords(n: nat): (r: seq<Byte>)
    ensures |r| == 2 * n
  {
    if n == 0 then [] else [255, 255] + FullWords(n - 1)
  }

  lemma WordFirst(a: Byte, b: Byte, rest: seq<Byte>)
    ensures WordSum([a, b] + rest) == a + 256 * (b as int) + WordSum(rest)
  {
    assert ([a, b] + rest)[2..] == rest;
  }

  lemma {:induction false} FullSum(n: nat, rest: seq<Byte>)
    ensures WordSum(FullWords(n) + rest) == ONES * n + WordSum(rest)
  {
    if n == 0 {
      assert FullWords(n) + rest == rest;
    } else {
      FullSum(n - 1, rest);
      WordFirst(255, 255, FullWords(n - 1) + rest);
      assert FullWords(n) + rest == [255, 255] + (FullWords(n - 1) + rest);
    }
  }

  lemma {:induction false} ZeroSum(data: seq<Byte>)
    requires forall i :: 0 <= i < |data| ==> data[i] == 0
    ensures WordSum(data) == 0
  {
    if |data| < 2 {
    } else {
      ZeroSum(data[2..]);
    }
  }

  /** The words the code gets wrong first: 65538 full ones, the word 1, and any number of zeros. */
  function Overflowing(full: nat, zeros: nat): seq<Byte> {
    FullWords(full) + ([1, 0] + seq(2 * zeros, _ => 0))
  }

  /** On this input the two folds drop a carry: they give 0 where the one's complement sum is 1. */
  lemma TwoFoldsFail(full: nat, zeros: nat)
    requires full == MAX_WORDS
    ensures Words(Overflowing(full, zeros)) == MAX_WORDS + 1 + zeros
    ensures TwoFolds(WordSum(Overflowing(full, zeros))) == 0 && OnesSum(WordSum(Overflowing(full, zeros))) == 1
  {
    var rest := [1, 0] + seq(2 * zeros, _ => 0);
    FullSum(full, rest);
    assert rest[2..] == seq(2 * zeros, _ => 0);
    ZeroSum(rest[2..]);
    CarryFrom(WordSum(Overflowing(full, zeros)));
  }

  /** Two folds give the one's complement sum of every input of n words. */
  ghost predicate TwoFoldsDo(n: nat) {
    forall data: seq<Byte> | Words(data) == n :: TwoFolds(WordSum(data)) == OnesSum(WordSum(data))
  }

  /** Two folds do for n words exactly up to n == 65538. */
  lemma TwoFoldsSuffice(n: nat)
    ensures TwoFoldsDo(n) <==> n <= MAX_WORDS
  {
    if n <= MAX_WORDS {
      forall data: seq<Byte> | Words(data) == n ensures TwoFolds(WordSum(data)) == OnesSum(WordSum(data)) {
        SumBound(data);
        CarryFrom(WordSum(data));
      }
    } else {
      TwoFoldsFail(MAX_WORDS, n - MAX_WORDS - 1);
    }
  }

  /** csum */
  method Csum(data: array<Byte>) returns (answer: nat)
    requires data.Length < INT_LIMIT
    ensures answer == ONES - TwoFolds(WordSum(data[..]))
    ensures Words(data[..]) <= MAX_WORDS ==> answer == Checksum(data[..])
  {
    var sum: nat, i := 0, 0;
    assert data[0..] == data[..];
    while data.Length - i > 1
      invariant 0 <= i <= data.Length && sum + WordSum(data[i..]) == WordSum(data[..])
    {
      assert data[i..][2..] == data[i + 2..];
      sum := sum + data[i] + 256 * (data[i + 1] as int);
      i := i + 2;
    }
    if data.Length - i == 1 {
      sum := sum + data[i];
    }
    SumBound(data[..]);
    assert sum < LONG_LIMIT;
    CarryFrom(sum);
    var s := sum / HALF + sum % HALF;
    s := s + s / HALF;
    answer := ONES - s % HALF;
  }

  /** The data with a word stored at an even offset. */
  function Stored(data: seq<Byte>, at: nat, word: nat): seq<Byte>
    requires at + 1 < |data| && word <= ONES
  {
    data[at := word % 256][at + 1 := word / 256]
  }

  lemma {:induction false} SumStored(data: seq<Byte>, at: nat, word: nat)
    requires at % 2 == 0 && at + 1 < |data| && word <= ONES && data[at] == data[at + 1] == 0
    ensures WordSum(Stored(data, at, word)) == WordSum(data) + word
    decreases |data|
  {
    var r := Stored(data, at, word);
    if at == 0 {
      assert r[2..] == data[2..];
    } else {
      assert r[2..] == Stored(data[2..], at - 2, word);
      SumStored(data[2..], at - 2, word);
    }
  }

  /** The header with its checksum stored in a field that was zero has checksum zero. */
  lemma StoredChecksumCancels(data: seq<Byte>, at: nat)
    requires at % 2 == 0 && at + 1 < |data| && data[at] == data[at + 1] == 0
    ensures Checksum(Stored(data, at, Checksum(data))) == 0
  {
    var sum := WordSum(data);
    SumStored(data, at, Checksum(data));
    OnesSumIs(sum);
    Complement(sum);
  }

  lemma Complement(sum: nat)
    ensures OnesSum(sum + (ONES - OnesSum(sum))) == ONES
  {
  }
}
