/**
 The two CRCs of the firmware, CRC-32 (components/pm_config/pm_config.c, section 3.2.9 of IEEE 802.3)
 and CRC-16 (components/pm_meter/pm_meter_pzem_v4_classic.c, section 6.2.2 of MODBUS over Serial Line
 V1.02), and the error bursts they are proved to detect. Registers are words of 32 or 16 bits, least
 significant first.
 */
module Crc {
  import opened Esp
  import opened Words

  const POLY_32: nat := 0xEDB8_8320
  const WIDTH_32: nat := 32
  const POLY_16: nat := 0xA001
  const WIDTH_16: nat := 16

  /** A right-shifting register: its feedback polynomial, and whether the result is complemented. */
  datatype Register = Register(poly: Bits, complement: bool)
  {
    function Width(): nat { |poly| }
    function Size(): nat { |poly| / 8 }
  }

  type Kind = k: Register | |k.poly| >= 8 && |k.poly| % 8 == 0 && k.poly[|k.poly| - 1]
    witness Register([true, true, true, true, true, true, true, true], false)

  function Ieee32(): (k: Kind)
    ensures k.Width() == 32 && k.complement
  {
    PolyTopBits();
    Register(Binary(POLY_32, WIDTH_32), true)
  }

  function Modbus16(): (k: Kind)
    ensures k.Width() == 16 && !k.complement
  {
    PolyTopBits();
    Register(Binary(POLY_16, WIDTH_16), false)
  }

  function Constant(bit: bool, n: nat): (r: Bits)
    ensures |r| == n && forall i :: 0 <= i < n ==> r[i] == bit
  {
    seq(n, _ => bit)
  }

  function Pad(w: Bits, n: nat): (r: Bits)
    requires |w| <= n
    ensures |r| == n && (forall i :: 0 <= i < n ==> r[i] == (i < |w| && w[i]))
  {
    w + Constant(false, n - |w|)
  }

  function Xor(a: Bits, b: Bits): (r: Bits)
    requires |a| == |b|
    ensures |r| == |a| && forall i :: 0 <= i < |a| ==> r[i] == (a[i] != b[i])
  {
    seq(|a|, i requires 0 <= i < |a| => a[i] != b[i])
  }

  function And(a: Bits, b: Bits): (r: Bits)
    requires |a| == |b|
    ensures |r| == |a| && forall i :: 0 <= i < |a| ==> r[i] == (a[i] && b[i])
  {
    seq(|a|, i requires 0 <= i < |a| => a[i] && b[i])
  }

  function ShiftRight(a: Bits): (r: Bits)
    requires |a| > 0
    ensures |r| == |a|
  {
    a[1..] + [false]
  }

  /** One step of the shift register. */
  function Shift(k: Kind, s: Bits): (r: Bits)
    requires |s| == k.Width()
    ensures |r| == |s|
  {
    if s[0] then Xor(ShiftRight(s), k.poly) else ShiftRight(s)
  }

  function Shifted(k: Kind, s: Bits, n: nat): (r: Bits)
    requires |s| == k.Width()
    ensures |r| == |s|
    decreases n
  {
    if n == 0 then s else Shifted(k, Shift(k, s), n - 1)
  }

  /** A byte is xored into the low bits, then shifted out. */
  function AfterByte(k: Kind, s: Bits, byte: Bits): (r: Bits)
    requires |s| == k.Width() >= |byte|
    ensures |r| == |s|
  {
    Shifted(k, Xor(s, Pad(byte, k.Width())), |byte|)
  }

  function State(k: Kind, bytes: Bytes): (r: Bits)
    ensures |r| == k.Width()
  {
    if bytes == [] then Constant(true, k.Width())
    else AfterByte(k, State(k, bytes[..|bytes| - 1]), Binary(bytes[|bytes| - 1], BYTE))
  }

  /** CRC-32 is returned complemented, CRC-16 is not. */
  function Checksum(k: Kind, bytes: Bytes): nat {
    Number(Xor(State(k, bytes), Constant(k.complement, k.Width())))
  }

  /** A frame whose last bytes hold, little-endian, the checksum of the bytes before them. */
  predicate Guarded(k: Kind, frame: Bytes)
    requires |frame| >= k.Size()
  {
    var n := |frame| - k.Size();
    Get(frame[n..]) == Checksum(k, frame[..n])
  }

  /* ---- The source's loops ---- */

  method Crc32Ieee(data: Bytes) returns (crc: nat)
    ensures crc == Checksum(Ieee32(), data)
  {
    crc := ComplementedCrc(Ieee32(), data);
  }

  method ModbusCrc16(data: Bytes) returns (crc: nat)
    ensures crc == Checksum(Modbus16(), data)
  {
    crc := PlainCrc(Modbus16(), data);
  }

  /** The byte loop of `pm_crc32_ieee`, for any polynomial. */
  method ComplementedCrc(k: Kind, data: Bytes) returns (crc: nat)
    requires k.complement
    ensures crc == Checksum(k, data)
  {
    var register := Constant(true, k.Width());
    for i := 0 to |data|
      invariant register == State(k, data[..i])
    {
      register := MaskedByte(k, register, Binary(data[i], BYTE));
      assert data[..i + 1][..i] == data[..i];
    }
    assert data[..|data|] == data;
    crc := Number(Xor(register, Constant(true, k.Width())));
  }

  /** Its bit loop: the polynomial is masked by the bit shifted out. */
  method MaskedByte(k: Kind, before: Bits, byte: Bits) returns (register: Bits)
    requires |before| == k.Width() >= |byte|
    ensures register == AfterByte(k, before, byte)
  {
    register := Xor(before, Pad(byte, k.Width()));
    ghost var start := register;
    for bit := 0 to |byte|
      invariant |register| == k.Width()
      invariant Shifted(k, register, |byte| - bit) == Shifted(k, start, |byte|)
    {
      register := MaskedShift(k, register);
    }
  }

  method MaskedShift(k: Kind, s: Bits) returns (r: Bits)
    requires |s| == k.Width()
    ensures r == Shift(k, s)
  {
    var mask := Constant(s[0], k.Width());
    r := Xor(ShiftRight(s), And(k.poly, mask));
  }

  /** The byte loop of `pm_modbus_crc16`, for any polynomial. */
  method PlainCrc(k: Kind, data: Bytes) returns (crc: nat)
    requires !k.complement
    ensures crc == Checksum(k, data)
  {
    var register := Constant(true, k.Width());
    for i := 0 to |data|
      invariant register == State(k, data[..i])
    {
      register := BranchedByte(k, register, Binary(data[i], BYTE));
      assert data[..i + 1][..i] == data[..i];
    }
    assert data[..|data|] == data;
    assert Xor(register, Constant(false, k.Width())) == register;
    crc := Number(register);
  }

  method BranchedByte(k: Kind, before: Bits, byte: Bits) returns (register: Bits)
    requires |before| == k.Width() >= |byte|
    ensures register == AfterByte(k, before, byte)
  {
    register := Xor(before, Pad(byte, k.Width()));
    ghost var start := register;
    for bit := 0 to |byte|
      invariant |register| == k.Width()
      invariant Shifted(k, register, |byte| - bit) == Shifted(k, start, |byte|)
    {
      register := Shift(k, register);
    }
  }

  /* ---- The register fed bit by bit, and its differences ---- */

  function Enter(s: Bits, bit: bool): (r: Bits)
    requires |s| > 0
    ensures |r| == |s|
  {
    s[0 := s[0] != bit]
  }

  function Feed(k: Kind, s: Bits, bits: Bits): (r: Bits)
    requires |s| == k.Width()
    ensures |r| == |s|
    decreases |bits|
  {
    if bits == [] then s else Feed(k, Shift(k, Enter(s, bits[0])), bits[1..])
  }

  lemma {:induction false} FeedConcat(k: Kind, s: Bits, a: Bits, b: Bits)
    requires |s| == k.Width()
    ensures Feed(k, s, a + b) == Feed(k, Feed(k, s, a), b)
    decreases |a|
  {
    if a == [] {
      assert a + b == b;
    } else {
      assert (a + b)[1..] == a[1..] + b;
      FeedConcat(k, Shift(k, Enter(s, a[0])), a[1..], b);
    }
  }

  lemma ShiftIsLinear(k: Kind, s: Bits, t: Bits)
    requires |s| == |t| == k.Width()
    ensures Shift(k, Xor(s, t)) == Xor(Shift(k, s), Shift(k, t))
  {
    assert ShiftRight(Xor(s, t)) == Xor(ShiftRight(s), ShiftRight(t));
  }

  lemma {:induction false} FeedIsLinear(k: Kind, s: Bits, t: Bits, a: Bits, b: Bits)
    requires |s| == |t| == k.Width() && |a| == |b|
    ensures Feed(k, Xor(s, t), Xor(a, b)) == Xor(Feed(k, s, a), Feed(k, t, b))
    decreases |a|
  {
    if a != [] {
      var s1, t1 := Enter(s, a[0]), Enter(t, b[0]);
      assert Enter(Xor(s, t), Xor(a, b)[0]) == Xor(s1, t1);
      ShiftIsLinear(k, s1, t1);
      assert Xor(a, b)[1..] == Xor(a[1..], b[1..]);
      FeedIsLinear(k, Shift(k, s1), Shift(k, t1), a[1..], b[1..]);
    }
  }

  function Zero(k: Kind): (r: Bits)
    ensures |r| == k.Width()
  {
    Constant(false, k.Width())
  }

  lemma {:induction false} TopBit(v: nat, n: nat)
    requires 0 < n && Pow2(n - 1) <= v < Pow2(n)
    ensures Binary(v, n)[n - 1]
  {
    if n > 1 {
      TopBit(v / 2, n - 1);
    }
  }

  lemma PolyTopBits()
    ensures Binary(POLY_32, WIDTH_32)[31] && Binary(POLY_16, WIDTH_16)[15]
  {
    assert Pow2(15) == 0x8000 by { Pow2Doubled(7, 8); }
    assert Pow2(31) == 0x8000_0000 by { Pow2Doubled(15, 16); Pow2Doubled(8, 8); }
    TopBit(POLY_32, WIDTH_32);
    TopBit(POLY_16, WIDTH_16);
  }

  lemma {:induction false} Pow2Doubled(a: nat, b: nat)
    ensures Pow2(a + b) == Pow2(a) * Pow2(b)
    ensures Pow2(7) == 128 && Pow2(8) == 256
  {
    assert Pow2(4) == 16;
    if a > 0 {
      Pow2Doubled(a - 1, b);
      assert Pow2(a + b) == 2 * (Pow2(a - 1) * Pow2(b));
    }
  }

  /** Undoing one shift when the top bit of the result is clear. */
  lemma ShiftBack(k: Kind, s: Bits, r: Bits)
    requires |s| == |r| == k.Width() && !r[k.Width() - 1]
    ensures Shift(k, s) == r <==> s == [false] + r[..k.Width() - 1]
  {
    UndoShift(k.poly, s, r);
  }

  lemma UndoShift(poly: Bits, s: Bits, r: Bits)
    requires 0 < |s| == |r| == |poly| && poly[|s| - 1] && !r[|s| - 1]
    ensures (if s[0] then Xor(ShiftRight(s), poly) else ShiftRight(s)) == r <==> s == [false] + r[..|s| - 1]
  {
    if s[0] {
      assert Xor(ShiftRight(s), poly)[|s| - 1];
    } else {
      assert s == [false] + s[1..];
      assert ShiftRight(s)[..|s| - 1] == s[1..];
      assert r == r[..|s| - 1] + [false];
    }
  }

  /** At most one register's worth of bits clears the register exactly when they equal its content. */
  lemma {:induction false} FeedClears(k: Kind, s: Bits, bits: Bits)
    requires |s| == k.Width() && |bits| <= k.Width()
    ensures Feed(k, s, bits) == Zero(k) <==> s == Pad(bits, k.Width())
    decreases |bits|
  {
    if bits == [] {
      assert Pad(bits, k.Width()) == Zero(k);
    } else {
      var entered := Enter(s, bits[0]);
      FeedClears(k, Shift(k, entered), bits[1..]);
      ShiftBack(k, entered, Pad(bits[1..], k.Width()));
      EnteredBack(s, bits, k.Width());
    }
  }

  lemma EnteredBack(s: Bits, bits: Bits, w: nat)
    requires 0 < |bits| <= w && |s| == w
    ensures Enter(s, bits[0]) == [false] + Pad(bits[1..], w)[..w - 1] <==> s == Pad(bits, w)
  {
    var p := Pad(bits, w);
    assert [false] + Pad(bits[1..], w)[..w - 1] == Enter(p, bits[0]);
    if Enter(s, bits[0]) == Enter(p, bits[0]) {
      assert forall i :: 0 <= i < w ==> s[i] == (Enter(s, bits[0])[i] != (i == 0 && bits[0]));
      assert forall i :: 0 <= i < w ==> p[i] == (Enter(p, bits[0])[i] != (i == 0 && bits[0]));
    }
  }

  lemma {:induction false} FeedZeros(k: Kind, s: Bits, n: nat)
    requires |s| == k.Width()
    ensures Feed(k, s, Constant(false, n)) == Zero(k) <==> s == Zero(k)
    decreases n
  {
    if n > 0 {
      assert Enter(s, false) == s;
      assert Constant(false, n)[1..] == Constant(false, n - 1);
      FeedZeros(k, Shift(k, s), n - 1);
      ShiftBack(k, s, Zero(k));
      assert [false] + Zero(k)[..k.Width() - 1] == Zero(k);
    }
  }

  /** All the differing bits lie in a window no longer than the register. */
  predicate Burst(d: Bits, start: nat, length: nat) {
    true in d && forall i :: 0 <= i < |d| && d[i] ==> start <= i < start + length
  }

  lemma WindowOf(d: Bits, start: nat, length: nat) returns (window: Bits, after: nat)
    requires Burst(d, start, length)
    ensures d == Constant(false, start) + (window + Constant(false, after))
    ensures |window| <= length && true in window
  {
    var i :| 0 <= i < |d| && d[i];
    var end := if start + length < |d| then start + length else |d|;
    window, after := d[start..end], |d| - end;
    assert window[i - start];
    assert d[..start] == Constant(false, start) && d[end..] == Constant(false, after);
    assert d == d[..start] + (d[start..end] + d[end..]);
  }

  /** A burst never cancels out of the register. */
  lemma BurstLeavesTrace(k: Kind, d: Bits, start: nat)
    requires Burst(d, start, k.Width())
    ensures Feed(k, Zero(k), d) != Zero(k)
  {
    var window, after := WindowOf(d, start, k.Width());
    FeedConcat(k, Zero(k), Constant(false, start), window + Constant(false, after));
    FeedZeros(k, Zero(k), start);
    FeedConcat(k, Zero(k), window, Constant(false, after));
    FeedZeros(k, Feed(k, Zero(k), window), after);
    FeedClears(k, Zero(k), window);
    var i :| 0 <= i < |window| && window[i];
    assert Pad(window, k.Width())[i] != Zero(k)[i];
  }

  /* ---- From bits back to the byte loop ---- */

  /** Xoring a whole word in and then shifting is the same as feeding its bits one at a time. */
  lemma {:induction false} WordAtOnce(k: Kind, s: Bits, w: Bits)
    requires |s| == k.Width() && |w| <= k.Width()
    ensures Shifted(k, Xor(s, Pad(w, k.Width())), |w|) == Feed(k, s, w)
    decreases |w|
  {
    if w == [] {
      assert Xor(s, Pad(w, k.Width())) == s;
    } else {
      FirstBitEnters(k, s, w);
      WordAtOnce(k, Shift(k, Enter(s, w[0])), w[1..]);
    }
  }

  lemma FirstBitEnters(k: Kind, s: Bits, w: Bits)
    requires |s| == k.Width() && 0 < |w| <= k.Width()
    ensures Shift(k, Xor(s, Pad(w, k.Width()))) == Xor(Shift(k, Enter(s, w[0])), Pad(w[1..], k.Width()))
  {
    var later := [false] + Pad(w, k.Width())[1..];
    assert Xor(s, Pad(w, k.Width())) == Xor(Enter(s, w[0]), later);
    ShiftIsLinear(k, Enter(s, w[0]), later);
    assert Shift(k, later) == Pad(w[1..], k.Width());
  }

  /** Feeding a word after other bits is shifting it in at once. */
  lemma FeedLast(k: Kind, s: Bits, bits: Bits, w: Bits)
    requires |s| == k.Width() && |w| <= k.Width()
    ensures Feed(k, s, bits + w) == AfterByte(k, Feed(k, s, bits), w)
  {
    FeedConcat(k, s, bits, w);
    WordAtOnce(k, Feed(k, s, bits), w);
  }

  lemma BitsOfSnoc(front: Bytes, last: U8)
    ensures BitsOf(front + [last]) == BitsOf(front) + Binary(last, BYTE)
  {
    BitsOfConcat(front, [last]);
    assert BitsOf([last]) == Binary(last, BYTE) + BitsOf([]);
  }

  lemma FeedSnoc(k: Kind, s: Bits, front: Bytes, last: U8)
    requires |s| == k.Width()
    ensures Feed(k, s, BitsOf(front + [last])) == AfterByte(k, Feed(k, s, BitsOf(front)), Binary(last, BYTE))
  {
    BitsOfSnoc(front, last);
    FeedLast(k, s, BitsOf(front), Binary(last, BYTE));
  }

  lemma StateSnoc(k: Kind, front: Bytes, last: U8)
    ensures State(k, front + [last]) == AfterByte(k, State(k, front), Binary(last, BYTE))
  {
    var bytes := front + [last];
    assert bytes[..|bytes| - 1] == front && bytes[|bytes| - 1] == last;
  }

  lemma {:induction false} StateIsFeed(k: Kind, bytes: Bytes)
    ensures State(k, bytes) == Feed(k, Constant(true, k.Width()), BitsOf(bytes))
  {
    if bytes != [] {
      var front, last := bytes[..|bytes| - 1], bytes[|bytes| - 1];
      assert bytes == front + [last];
      StateIsFeed(k, front);
      StateSnoc(k, front, last);
      FeedSnoc(k, Constant(true, k.Width()), front, last);
    }
  }

  lemma GuardBits(k: Kind, frame: Bytes)
    requires |frame| >= k.Size() && Guarded(k, frame)
    ensures var n := |frame| - k.Size();
            BitsOf(frame[n..]) == Xor(State(k, frame[..n]), Constant(k.complement, k.Width()))
  {
    var n := |frame| - k.Size();
    PutGet(frame[n..]);
    BitsOfPut(Get(frame[n..]), k.Size());
    BinaryNumber(Xor(State(k, frame[..n]), Constant(k.complement, k.Width())));
  }

  lemma DifferenceSplits(x: Bytes, y: Bytes, n: nat)
    requires n <= |x| == |y|
    ensures Xor(BitsOf(x), BitsOf(y)) == Xor(BitsOf(x[..n]), BitsOf(y[..n])) + Xor(BitsOf(x[n..]), BitsOf(y[n..]))
  {
    assert x == x[..n] + x[n..] && y == y[..n] + y[n..];
    BitsOfConcat(x[..n], x[n..]);
    BitsOfConcat(y[..n], y[n..]);
  }

  lemma StatesDiffer(k: Kind, x: Bytes, y: Bytes)
    requires |x| == |y|
    ensures Feed(k, Zero(k), Xor(BitsOf(x), BitsOf(y))) == Xor(State(k, x), State(k, y))
  {
    var ones := Constant(true, k.Width());
    assert Xor(ones, ones) == Zero(k);
    FeedIsLinear(k, ones, ones, BitsOf(x), BitsOf(y));
    StateIsFeed(k, x);
    StateIsFeed(k, y);
  }

  lemma ChecksumsDiffer(k: Kind, x: Bytes, y: Bytes)
    requires |x| == |y| >= k.Size() && Guarded(k, x) && Guarded(k, y)
    ensures var n := |x| - k.Size();
            Xor(BitsOf(x[n..]), BitsOf(y[n..])) == Xor(State(k, x[..n]), State(k, y[..n]))
  {
    GuardBits(k, x);
    GuardBits(k, y);
  }

  /** Two accepted frames differ by bits that cancel out of the register. */
  lemma AcceptedFramesCancel(k: Kind, x: Bytes, y: Bytes)
    requires |x| == |y| >= k.Size() && Guarded(k, x) && Guarded(k, y)
    ensures Feed(k, Zero(k), Xor(BitsOf(x), BitsOf(y))) == Zero(k)
  {
    var n := |x| - k.Size();
    var rx, ry := State(k, x[..n]), State(k, y[..n]);
    var tail := Xor(BitsOf(x[n..]), BitsOf(y[n..]));
    DifferenceSplits(x, y, n);
    StatesDiffer(k, x[..n], y[..n]);
    FeedConcat(k, Zero(k), Xor(BitsOf(x[..n]), BitsOf(y[..n])), tail);
    ChecksumsDiffer(k, x, y);
    FeedClears(k, Xor(rx, ry), tail);
    assert Pad(tail, k.Width()) == tail;
  }

  /**
   CRC strength. Damage to an accepted frame, data or checksum, that is confined to 32 consecutive bits
   (CRC-32) or 16 consecutive bits (CRC-16) of the transmission order is always detected.
   */
  lemma BurstsAreDetected(k: Kind, x: Bytes, y: Bytes, start: nat)
    requires |x| == |y| >= k.Size() && Guarded(k, x)
    requires Burst(Xor(BitsOf(x), BitsOf(y)), start, k.Width())
    ensures !Guarded(k, y)
  {
    if Guarded(k, y) {
      AcceptedFramesCancel(k, x, y);
      BurstLeavesTrace(k, Xor(BitsOf(x), BitsOf(y)), start);
    }
  }

  /** In whole bytes: any change within four (CRC-32) or two (CRC-16) consecutive bytes. */
  lemma ByteBurstsAreDetected(k: Kind, x: Bytes, y: Bytes, start: nat)
    requires |x| == |y| >= k.Size() && Guarded(k, x) && x != y
    requires forall i :: 0 <= i < |x| && x[i] != y[i] ==> start <= i < start + k.Size()
    ensures !Guarded(k, y)
  {
    var d := Xor(BitsOf(x), BitsOf(y));
    forall i | 0 <= i < |d| && d[i]
      ensures 8 * start <= i < 8 * start + k.Width()
    {
      BitOfByte(x, i);
      BitOfByte(y, i);
      assert start <= i / 8 < start + k.Size();
    }
    if true !in d {
      assert BitsOf(x) == BitsOf(y);
      BitsOfInjective(x, y);
    }
    BurstsAreDetected(k, x, y, 8 * start);
  }
}
