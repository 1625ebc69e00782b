/** Machine words: as numbers, as little-endian bytes, and as bits (least significant first). */
module Words {
  import opened Esp

  type Bytes = seq<U8>
  type Bits = seq<bool>

  const BYTE: nat := 8

  function Pow256(n: nat): (p: int)
    ensures p > 0
  {
    if n == 0 then 1 else 256 * Pow256(n - 1)
  }

  /** `put_u16`, `put_u32`, `put_u64`: the low `n` bytes of a number, least significant first. */
  function Put(v: nat, n: nat): (r: Bytes)
    ensures |r| == n
  {
    if n == 0 then [] else [v % 256] + Put(v / 256, n - 1)
  }

  /** `get_u16`, `get_u32`, `get_u64`. */
  function Get(b: Bytes): (v: int)
    ensures 0 <= v < Pow256(|b|)
  {
    if b == [] then 0 else b[0] + 256 * Get(b[1..])
  }

  lemma {:induction false} GetPut(v: nat, n: nat)
    requires v < Pow256(n)
    ensures Get(Put(v, n)) == v
  {
    if n > 0 {
      GetPut(v / 256, n - 1);
      assert Put(v, n)[1..] == Put(v / 256, n - 1);
    }
  }

  lemma {:induction false} PutGet(b: Bytes)
    ensures Put(Get(b), |b|) == b
  {
    if b != [] {
      PutGet(b[1..]);
      assert Get(b) % 256 == b[0] && Get(b) / 256 == Get(b[1..]);
    }
  }

  function Binary(v: nat, n: nat): (r: Bits)
    ensures |r| == n
  {
    if n == 0 then [] else [v % 2 == 1] + Binary(v / 2, n - 1)
  }

  function Number(b: Bits): nat {
    if b == [] then 0 else (if b[0] then 1 else 0) + 2 * Number(b[1..])
  }

  lemma {:induction false} BinaryNumber(b: Bits)
    ensures Binary(Number(b), |b|) == b
  {
    if b != [] {
      BinaryNumber(b[1..]);
      assert Number(b) / 2 == Number(b[1..]);
    }
  }

  lemma {:induction false} BinaryInjective(v: nat, w: nat, n: nat, bound: nat)
    requires v < bound && w < bound && Binary(v, n) == Binary(w, n)
    requires bound <= Pow2(n)
    ensures v == w
  {
    if n > 0 {
      assert Binary(v, n)[0] == Binary(w, n)[0];
      assert Binary(v / 2, n - 1) == Binary(v, n)[1..] == Binary(w, n)[1..] == Binary(w / 2, n - 1);
      BinaryInjective(v / 2, w / 2, n - 1, Pow2(n - 1));
    }
  }

  function Pow2(n: nat): (p: int)
    ensures p > 0
  {
    if n == 0 then 1 else 2 * Pow2(n - 1)
  }

  /** A byte's bits come first, then those of the rest of the number. */
  lemma PeelByte(v: nat, n: nat)
    ensures Binary(v, n + 8) == Binary(v % 256, BYTE) + Binary(v / 256, n)
  {
    SplitBits(v, 8, n);
    LowByte(v);
    HighBytes(v);
  }

  lemma LowByte(v: nat)
    ensures Binary(v, BYTE) == Binary(v % 256, BYTE)
  {
    assert Pow2(8) == 256 by { assert Pow2(4) == 16; }
    LowBits(v, v % 256, v / 256, 8);
  }

  lemma HighBytes(v: nat)
    ensures Halved(v, 8) == v / 256
  {
    HalvedFourTimes(v, 4);
    HalvedFourTimes(v / 16, 0);
  }

  lemma HalvedFourTimes(v: nat, m: nat)
    ensures Halved(v, m + 4) == Halved(v / 16, m)
  {
    assert Halved(v, m + 4) == Halved(v / 2, m + 3);
    assert Halved(v / 2, m + 3) == Halved(v / 2 / 2, m + 2);
    assert Halved(v / 2 / 2, m + 2) == Halved(v / 2 / 2 / 2, m + 1);
  }

  function Halved(v: nat, m: nat): nat {
    if m == 0 then v else Halved(v / 2, m - 1)
  }

  lemma {:induction false} SplitBits(v: nat, m: nat, n: nat)
    ensures Binary(v, m + n) == Binary(v, m) + Binary(Halved(v, m), n)
  {
    if m > 0 {
      SplitBits(v / 2, m - 1, n);
      assert Binary(v, m + n) == [v % 2 == 1] + Binary(v / 2, m + n - 1);
    }
  }

  lemma {:induction false} LowBits(a: nat, b: nat, q: nat, m: nat)
    requires a == b + Pow2(m) * q
    ensures Binary(a, m) == Binary(b, m)
  {
    if m > 0 {
      var t := Pow2(m - 1) * q;
      assert Pow2(m) * q == 2 * t;
      LowBits(a / 2, b / 2, q, m - 1);
    }
  }

  /** The bits of a byte string in transmission order. */
  function BitsOf(b: Bytes): (r: Bits)
    ensures |r| == 8 * |b|
  {
    if b == [] then [] else Binary(b[0], BYTE) + BitsOf(b[1..])
  }

  lemma {:induction false} BitsOfPut(v: nat, n: nat)
    ensures BitsOf(Put(v, n)) == Binary(v, 8 * n)
  {
    if n > 0 {
      BitsOfPut(v / 256, n - 1);
      PeelByte(v, 8 * n - 8);
      assert Put(v, n)[1..] == Put(v / 256, n - 1);
    }
  }

  lemma {:induction false} BitsOfConcat(a: Bytes, b: Bytes)
    ensures BitsOf(a + b) == BitsOf(a) + BitsOf(b)
  {
    if a == [] {
      assert a + b == b;
    } else {
      BitsOfConcat(a[1..], b);
      assert (a + b)[0] == a[0] && (a + b)[1..] == a[1..] + b;
      calc {
        BitsOf(a + b);
        Binary(a[0], BYTE) + BitsOf(a[1..] + b);
        Binary(a[0], BYTE) + (BitsOf(a[1..]) + BitsOf(b));
        BitsOf(a) + BitsOf(b);
      }
    }
  }

  lemma {:induction false} BitsOfInjective(a: Bytes, b: Bytes)
    requires |a| == |b| && BitsOf(a) == BitsOf(b)
    ensures a == b
  {
    if a != [] {
      assert Binary(a[0], BYTE) == BitsOf(a)[..8] == BitsOf(b)[..8] == Binary(b[0], BYTE);
      assert BitsOf(a[1..]) == BitsOf(a)[8..] == BitsOf(b)[8..] == BitsOf(b[1..]);
      assert Pow2(8) == 256 by { assert Pow2(4) == 16; }
      BinaryInjective(a[0], b[0], BYTE, 256);
      BitsOfInjective(a[1..], b[1..]);
    }
  }

  /** Bytes of `a` and `b` that agree have bits that agree, and conversely at the ends of a window. */
  lemma {:induction false} BitOfByte(a: Bytes, i: nat)
    requires i < 8 * |a|
    ensures BitsOf(a)[i] == Binary(a[i / 8], BYTE)[i % 8]
  {
    if i >= 8 {
      BitOfByte(a[1..], i - 8);
      assert (i - 8) / 8 == i / 8 - 1 && (i - 8) % 8 == i % 8;
    }
  }

  lemma {:induction false} NumberBelow(b: Bits)
    ensures Number(b) < Pow2(|b|)
  {
    if b != [] { NumberBelow(b[1..]); }
  }
}
