/** Bitmaps over byte arrays, and the search for the least clear bit. */
module Bitmap {

  const BYTE_SIZE := 8

  function Mask(offset: nat): bv8
    requires offset < BYTE_SIZE
  {
    (1 as bv8) << offset
  }

  predicate BitOf(b: bv8, offset: nat)
    requires offset < BYTE_SIZE
  {
    Mask(offset) & b != 0
  }

  lemma SetOne(b: bv8, o: nat, p: nat)
    requires o < BYTE_SIZE && p < BYTE_SIZE
    ensures BitOf(b | Mask(o), p) == (o == p || BitOf(b, p))
  {
  }

  lemma ClearOne(b: bv8, o: nat, p: nat)
    requires o < BYTE_SIZE && p < BYTE_SIZE
    ensures BitOf(b & !Mask(o), p) == (o != p && BitOf(b, p))
  {
  }

  lemma MaskCases(o: nat)
    requires o < BYTE_SIZE
    ensures Mask(o) == [1, 2, 4, 8, 16, 32, 64, 128][o]
  {
  }

  /** A byte is 0xff exactly when all its bits are set. */
  lemma FullByte(b: bv8)
    ensures b == 0xff <==> forall o :: 0 <= o < BYTE_SIZE ==> BitOf(b, o)
  {
    forall o | 0 <= o < BYTE_SIZE ensures Mask(o) == [1, 2, 4, 8, 16, 32, 64, 128][o] {
      MaskCases(o);
    }
    if forall o :: 0 <= o < BYTE_SIZE ==> BitOf(b, o) {
      assert BitOf(b, 0) && BitOf(b, 1) && BitOf(b, 2) && BitOf(b, 3);
      assert BitOf(b, 4) && BitOf(b, 5) && BitOf(b, 6) && BitOf(b, 7);
    }
  }

  /** Bit i of the bitmap. */
  predicate Bit(bytes: seq<bv8>, i: nat) {
    i / BYTE_SIZE < |bytes| && BitOf(bytes[i / BYTE_SIZE], i % BYTE_SIZE)
  }

  /** The first bit that is clear. */
  ghost predicate LeastClear(bytes: seq<bv8>, f: nat) {
    !Bit(bytes, f) && forall k: nat :: k < f ==> Bit(bytes, k)
  }

  /** check_bitmap */
  method Check(bytes: array<bv8>, i: nat) returns (on: bool)
    requires i / BYTE_SIZE < bytes.Length
    ensures on == Bit(bytes[..], i)
  {
    on := Mask(i % BYTE_SIZE) & bytes[i / BYTE_SIZE] != 0;
  }

  /** set_bitmap: the bit is set and no other bit changes. */
  method Set(bytes: array<bv8>, i: nat)
    requires i / BYTE_SIZE < bytes.Length
    modifies bytes
    ensures forall k: nat :: Bit(bytes[..], k) == (k == i || Bit(old(bytes[..]), k))
  {
    bytes[i / BYTE_SIZE] := bytes[i / BYTE_SIZE] | Mask(i % BYTE_SIZE);
    forall k: nat ensures Bit(bytes[..], k) == (k == i || Bit(old(bytes[..]), k)) {
      SetOne(old(bytes[i / BYTE_SIZE]), i % BYTE_SIZE, k % BYTE_SIZE);
    }
  }

  /** unset_bitmap: the bit is clear and no other bit changes. */
  method Unset(bytes: array<bv8>, i: nat)
    requires i / BYTE_SIZE < bytes.Length
    modifies bytes
    ensures forall k: nat :: Bit(bytes[..], k) == (k != i && Bit(old(bytes[..]), k))
  {
    bytes[i / BYTE_SIZE] := bytes[i / BYTE_SIZE] & !Mask(i % BYTE_SIZE);
    forall k: nat ensures Bit(bytes[..], k) == (k != i && Bit(old(bytes[..]), k)) {
      ClearOne(old(bytes[i / BYTE_SIZE]), i % BYTE_SIZE, k % BYTE_SIZE);
    }
  }

  /** find_free_block and find_free_inode: the least clear bit of the bitmap, or the error code if all are set. */
  method FindFree(bytes: array<bv8>, error: int) returns (r: int)
    requires error < 0
    ensures r == error || 0 <= r < BYTE_SIZE * bytes.Length
    ensures r >= 0 ==> !Bit(bytes[..], r) && forall k :: 0 <= k < r ==> Bit(bytes[..], k)
    ensures r < 0 ==> forall k :: 0 <= k < BYTE_SIZE * bytes.Length ==> Bit(bytes[..], k)
  {
    var j := 0;
    for i := 0 to bytes.Length
      invariant j == BYTE_SIZE * i
      invariant forall k :: 0 <= k < j ==> Bit(bytes[..], k)
    {
      FullByte(bytes[i]);
      if bytes[i] != 0xff {
        ghost var o :| 0 <= o < BYTE_SIZE && !BitOf(bytes[i], o);
        assert !Bit(bytes[..], BYTE_SIZE * i + o);
        var on := Check(bytes, j);
        while on
          invariant BYTE_SIZE * i <= j <= BYTE_SIZE * i + o
          invariant on == Bit(bytes[..], j) && forall k :: 0 <= k < j ==> Bit(bytes[..], k)
          decreases BYTE_SIZE * i + o - j
        {
          j := j + 1;
          on := Check(bytes, j);
        }
        return j;
      }
      forall k | j <= k < j + BYTE_SIZE ensures Bit(bytes[..], k) {
        assert k / BYTE_SIZE == i && k % BYTE_SIZE < BYTE_SIZE;
      }
      j := j + BYTE_SIZE;
    }
    return error;
  }
}
