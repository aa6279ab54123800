/** Bytes, and the single bits of a byte. */
module Bytes {

  /** The source's `uint8_t`. */
  type byte = x: int | 0 <= x < 256

  datatype Option<+T> = None | Some(value: T)

  /** Several sequences one after another. */
  function Joined<T>(parts: seq<seq<T>>): seq<T>
    decreases |parts|
  {
    if parts == [] then [] else parts[0] + Joined(parts[1..])
  }

  /** The weight of bit `k`. */
  function Pow2(k: nat): (p: int)
    ensures p >= 1
  {
    if k == 0 then 1 else 2 * Pow2(k - 1)
  }

  /** Bit `k` of `b`, counted from the least significant one. */
  predicate Bit(b: nat, k: nat) {
    if k == 0 then b % 2 == 1 else Bit(b / 2, k - 1)
  }

  /** `b` with bit `k` set to `v`. */
  function SetBit(b: nat, k: nat, v: bool): nat {
    if k == 0 then b - b % 2 + (if v then 1 else 0) else 2 * SetBit(b / 2, k - 1, v) + b % 2
  }

  /** Setting one bit sets that bit and no other. */
  lemma {:induction false} BitOfSetBit(b: nat, k: nat, v: bool, j: nat)
    ensures Bit(SetBit(b, k, v), j) == if j == k then v else Bit(b, j)
  {
    if k > 0 {
      var r := SetBit(b, k, v);
      assert r / 2 == SetBit(b / 2, k - 1, v) && r % 2 == b % 2;
      if j > 0 {
        BitOfSetBit(b / 2, k - 1, v, j - 1);
      }
    } else if j > 0 {
      assert SetBit(b, k, v) / 2 == b / 2;
    }
  }

  /** Setting a bit to what it is changes nothing; otherwise the number moves by the bit's weight. */
  lemma {:induction false} SetBitMoves(b: nat, k: nat, v: bool)
    ensures Bit(b, k) == v ==> SetBit(b, k, v) == b
    ensures Bit(b, k) && !v ==> SetBit(b, k, v) == b - Pow2(k)
    ensures !Bit(b, k) && v ==> SetBit(b, k, v) == b + Pow2(k)
  {
    if k > 0 {
      SetBitMoves(b / 2, k - 1, v);
    }
  }

  /** Setting one of the low `w` bits of a `w`-bit number leaves a `w`-bit number. */
  lemma {:induction false} SetBitStays(b: nat, w: nat, k: nat, v: bool)
    requires b < Pow2(w) && k < w
    ensures SetBit(b, k, v) < Pow2(w)
  {
    if k > 0 {
      SetBitStays(b / 2, w - 1, k - 1, v);
    }
  }

  /** Numbers of `w` bits with the same bits are equal. */
  lemma {:induction false} SameBits(a: nat, b: nat, w: nat)
    requires a < Pow2(w) && b < Pow2(w)
    requires forall k: nat | k < w :: Bit(a, k) == Bit(b, k)
    ensures a == b
  {
    if w > 0 {
      assert Bit(a, 0) == Bit(b, 0);
      forall k: nat | k < w - 1
        ensures Bit(a / 2, k) == Bit(b / 2, k)
      {
        assert Bit(a, k + 1) == Bit(b, k + 1);
      }
      SameBits(a / 2, b / 2, w - 1);
    }
  }

  /** `b` with bit `k` set to `v`, as `etk::Bits<uint8>::set_bit` is taken to do. */
  function ByteSetBit(b: byte, k: nat, v: bool): (r: byte)
    requires k < 8
    ensures forall j: nat | j < 8 :: Bit(r, j) == if j == k then v else Bit(b, j)
  {
    PowEight();
    SetBitStays(b, 8, k, v);
    assert forall j: nat | j < 8 :: Bit(SetBit(b, k, v), j) == if j == k then v else Bit(b, j) by {
      forall j: nat | j < 8 {
        BitOfSetBit(b, k, v, j);
      }
    }
    SetBit(b, k, v)
  }

  lemma PowEight()
    ensures Pow2(0) == 1 && Pow2(1) == 2 && Pow2(2) == 4 && Pow2(3) == 8 && Pow2(4) == 16
    ensures Pow2(5) == 32 && Pow2(6) == 64 && Pow2(7) == 128 && Pow2(8) == 256
  {
    assert Pow2(1) == 2;
    assert Pow2(2) == 4;
    assert Pow2(3) == 8;
    assert Pow2(4) == 16;
    assert Pow2(5) == 32;
    assert Pow2(6) == 64;
    assert Pow2(7) == 128;
  }
}
