/** Bytes, results and big-endian integers shared by every codec of the protocol. */
module Bytes {
  type byte = b: int | 0 <= b < 256

  /** The two decoding errors the codecs distinguish. */
  datatype Error = UnexpectedEof | InvalidData

  datatype Option<+T> = None | Some(value: T)

  datatype Result<+T> = Ok(value: T) | Err(error: Error) {
    predicate IsFailure() {
      Err?
    }

    function PropagateFailure<U>(): Result<U>
      requires Err?
    {
      Err(error)
    }

    function Extract(): T
      requires Ok?
    {
      value
    }
  }

  /** The growable byte vector that every encoder appends to. */
  class Buffer {
    var data: seq<byte>

    constructor ()
      ensures data == []
    {
      data := [];
    }

    method Push(b: byte)
      modifies this
      ensures data == old(data) + [b]
    {
      data := data + [b];
    }

    method Extend(bs: seq<byte>)
      modifies this
      ensures data == old(data) + bs
    {
      data := data + bs;
    }
  }

  lemma Associate<T>(a: seq<T>, b: seq<T>, c: seq<T>)
    ensures (a + b) + c == a + (b + c)
  {
  }

  /** 256 to the power n. */
  function Pow256(n: nat): (p: nat)
    ensures p >= 1
  {
    if n == 0 then 1 else 256 * Pow256(n - 1)
  }

  /** The n low-order bytes of v, most significant first. */
  function BigEndian(v: nat, n: nat): (bs: seq<byte>)
    ensures |bs| == n
  {
    if n == 0 then [] else BigEndian(v / 256, n - 1) + [v % 256]
  }

  /** Shifts the bytes of bs into acc from the right. */
  function Fold(acc: nat, bs: seq<byte>): nat {
    if bs == [] then acc else Fold(acc, bs[..|bs| - 1]) * 256 + bs[|bs| - 1]
  }

  lemma ModUnique(v: nat, d: nat, k: nat, m: nat)
    requires v == d * k + m && m < d
    ensures v % d == m && v / d == k
  {
    var x := v / d - k;
    assert d * x == m - v % d by {
      assert v == d * (v / d) + v % d;
      assert d * x == d * (v / d) - d * k;
    }
    SmallMultiple(d, x);
  }

  lemma SmallMultiple(d: int, x: int)
    requires -d < d * x < d
    ensures x == 0
  {
  }

  /** Splitting off the last byte commutes with reducing modulo 256 * p. */
  lemma ModByBytes(v: nat, p: nat)
    requires p >= 1
    ensures v % (256 * p) == 256 * ((v / 256) % p) + v % 256
  {
    var q := v / 256;
    var m := 256 * (q % p) + v % 256;
    assert q == p * (q / p) + q % p;
    assert 256 * (p * (q / p)) == (256 * p) * (q / p);
    assert q % p <= p - 1;
    ModUnique(v, 256 * p, q / p, m);
  }

  lemma Shifted(acc: nat, p: nat, q: nat, low: nat)
    ensures (acc * p + q) * 256 + low == acc * (256 * p) + (256 * q + low)
  {
  }

  /** Folding the n low-order bytes of v back in recovers v modulo 256 to the n. */
  lemma {:induction false} FoldBigEndian(acc: nat, v: nat, n: nat)
    ensures Fold(acc, BigEndian(v, n)) == acc * Pow256(n) + v % Pow256(n)
  {
    hide Fold, BigEndian;
    if n == 0 {
      FoldNone(acc, v);
      ModUnique(v, 1, v, 0);
    } else {
      var p := Pow256(n - 1);
      FoldBigEndian(acc, v / 256, n - 1);
      FoldLast(acc, v, n);
      ModByBytes(v, p);
      Shifted(acc, p, (v / 256) % p, v % 256);
    }
  }

  lemma FoldNone(acc: nat, v: nat)
    ensures Fold(acc, BigEndian(v, 0)) == acc
  {
  }

  lemma FoldLast(acc: nat, v: nat, n: nat)
    requires n > 0
    ensures Fold(acc, BigEndian(v, n)) == Fold(acc, BigEndian(v / 256, n - 1)) * 256 + v % 256
  {
    assert BigEndian(v, n)[..n - 1] == BigEndian(v / 256, n - 1);
  }

  lemma DropByte(v: nat, p: nat)
    requires p >= 1
    ensures v / (256 * p) == (v / 256) / p
  {
    var q := (v / 256) / p;
    assert v / 256 == p * q + (v / 256) % p;
    assert v == (256 * p) * q + (256 * ((v / 256) % p) + v % 256);
    ModUnique(v, 256 * p, q, 256 * ((v / 256) % p) + v % 256);
  }

  /** The i-th of the n bytes has n - 1 - i less significant ones after it. */
  lemma {:induction false} BigEndianDigit(v: nat, n: nat, i: nat)
    requires i < n
    ensures BigEndian(v, n)[i] == (v / Pow256(n - 1 - i)) % 256
    decreases n
  {
    if i < n - 1 {
      BigEndianDigit(v / 256, n - 1, i);
      DropByte(v, Pow256(n - 2 - i));
    }
  }

  /** Writing back the integer that n bytes spell gives the same n bytes. */
  lemma {:induction false} BigEndianFold(bs: seq<byte>)
    ensures BigEndian(Fold(0, bs), |bs|) == bs
  {
    if bs != [] {
      var front, last := bs[..|bs| - 1], bs[|bs| - 1];
      BigEndianFold(front);
      ModUnique(Fold(0, bs), 256, Fold(0, front), last);
      assert front + [last] == bs;
    }
  }

  lemma {:induction false} FoldBound(acc: nat, bs: seq<byte>)
    ensures Fold(acc, bs) < (acc + 1) * Pow256(|bs|)
  {
    if bs != [] {
      FoldBound(acc, bs[..|bs| - 1]);
      assert (acc + 1) * Pow256(|bs|) == ((acc + 1) * Pow256(|bs| - 1)) * 256;
    }
  }

  /** Bitwise exclusive or, one bit at a time. */
  function Xor(a: nat, b: nat): nat
    decreases a + b
  {
    if a == 0 && b == 0 then 0 else (a + b) % 2 + 2 * Xor(a / 2, b / 2)
  }

  /** Exclusive or of two k-bit numbers has k bits; bound is 2 to the k. */
  lemma {:induction false} XorBound(a: nat, b: nat, k: nat, bound: nat)
    requires bound == Pow2(k) && a < bound && b < bound
    ensures Xor(a, b) < bound
    decreases k
  {
    if k > 0 {
      XorBound(a / 2, b / 2, k - 1, Pow2(k - 1));
    }
  }

  function Pow2(k: nat): (p: nat)
    ensures p >= 1
  {
    if k == 0 then 1 else 2 * Pow2(k - 1)
  }

  lemma XorStep(a: nat, b: nat)
    ensures Xor(a, b) == (a + b) % 2 + 2 * Xor(a / 2, b / 2)
  {
  }

  /** The low bit and the rest of the masked number, and the low bit of masking it again. */
  lemma XorBits(a: nat, b: nat, h: nat)
    ensures var x := (a + b) % 2 + 2 * h; x / 2 == h && (x + b) % 2 == a % 2
  {
    var x := (a + b) % 2 + 2 * h;
    assert x + b == a + 2 * (b + h - (a + b) / 2);
  }

  /** Applying the same mask twice restores the operand. */
  lemma {:induction false} XorTwice(a: nat, b: nat)
    ensures Xor(Xor(a, b), b) == a
    decreases a + b
  {
    hide Xor;
    if a == 0 && b == 0 {
      XorStep(0, 0);
    } else {
      XorTwice(a / 2, b / 2);
      var h := Xor(a / 2, b / 2);
      XorStep(a, b);
      XorBits(a, b, h);
      XorStep(Xor(a, b), b);
    }
  }

  lemma HalfThenRest(x: nat, p: nat)
    requires p >= 1
    ensures x / (2 * p) == (x / 2) / p
  {
    var q := (x / 2) / p;
    assert x / 2 == p * q + (x / 2) % p;
    assert x == (2 * p) * q + (2 * ((x / 2) % p) + x % 2);
    ModUnique(x, 2 * p, q, 2 * ((x / 2) % p) + x % 2);
  }

  /** Each bit of an exclusive or is the sum, modulo two, of the operands' bits. */
  lemma {:induction false} XorBit(a: nat, b: nat, j: nat)
    ensures (Xor(a, b) / Pow2(j)) % 2 == (a / Pow2(j) + b / Pow2(j)) % 2
    decreases j
  {
    hide Xor;
    XorStep(a, b);
    if j > 0 {
      var p := Pow2(j - 1);
      XorBit(a / 2, b / 2, j - 1);
      HalfThenRest(Xor(a, b), p);
      HalfThenRest(a, p);
      HalfThenRest(b, p);
    }
  }

  /** A number of k bits is determined by them. */
  lemma {:induction false} BitsDetermine(a: nat, b: nat, k: nat)
    requires a < Pow2(k) && b < Pow2(k)
    requires forall j | 0 <= j < k :: (a / Pow2(j)) % 2 == (b / Pow2(j)) % 2
    ensures a == b
    decreases k
  {
    if k > 0 {
      assert Pow2(0) == 1 && (a / Pow2(0)) % 2 == (b / Pow2(0)) % 2;
      forall j | 0 <= j < k - 1
        ensures (a / 2 / Pow2(j)) % 2 == (b / 2 / Pow2(j)) % 2
      {
        HalfThenRest(a, Pow2(j));
        HalfThenRest(b, Pow2(j));
        assert Pow2(j + 1) == 2 * Pow2(j);
      }
      BitsDetermine(a / 2, b / 2, k - 1);
    }
  }

  function XorByte(a: byte, b: byte): (c: byte) {
    assert Pow2(8) == 256 by { assert Pow2(4) == 16; }
    XorBound(a, b, 8, 256);
    Xor(a, b)
  }
}
