/**
 What the two checksums compute: the remainder of a division of polynomials over the integers modulo 2, by the generator
 of section 3.2.9 of IEEE 802.3 and by that of section 6.2.2.2 of MODBUS over Serial Line V1.02. A polynomial is the
 sequence of its coefficients, highest first; the bits of a message are its coefficients in the order of transmission.
 */
module CrcDivision {
  import opened Esp
  import opened Words
  import opened Crc

  type Polynomial = Bits

  /** The sum of the given powers. */
  function PowersOf(exponents: set<nat>, degree: nat): (r: Polynomial)
    ensures |r| == degree + 1
  {
    seq(degree + 1, i requires 0 <= i <= degree => degree - i in exponents)
  }

  const IEEE_802_3 := {32, 26, 23, 22, 16, 12, 11, 10, 8, 7, 5, 4, 2, 1, 0}
  const MODBUS := {16, 15, 2, 0}

  function Nothing(n: nat): (r: Polynomial)
    ensures |r| == n && forall i :: 0 <= i < n ==> !r[i]
  {
    Constant(false, n)
  }

  function Multiple(b: bool, g: Polynomial): (r: Polynomial)
    ensures |r| == |g|
  {
    if b then g else Nothing(|g|)
  }

  /** The product of two polynomials. */
  function Times(q: Polynomial, g: Polynomial): (r: Polynomial)
    requires |g| > 0
    ensures |r| == |q| + |g| - 1
  {
    if q == [] then Nothing(|g| - 1)
    else
      var front := q[..|q| - 1];
      Xor(Times(front, g) + [false], Nothing(|front|) + Multiple(q[|q| - 1], g))
  }

  /** The message with room for the checksum behind it, its first bits added to the initial register. */
  function Dividend(start: Bits, message: Bits): (r: Polynomial)
    ensures |r| == |start| + |message|
  {
    Xor(message + Nothing(|start|), start + Nothing(|message|))
  }

  function Generator(k: Kind): Polynomial { [true] + k.poly }

  /** `r` is what is left of a dividend: the rest is a multiple of the generator. */
  predicate Divides(dividend: Polynomial, q: Polynomial, g: Polynomial, r: Polynomial)
    requires |g| == |r| + 1 && |dividend| == |q| + |r|
  {
    dividend == Xor(Times(q, g), Nothing(|q|) + r)
  }

  /** The checksum of the bytes, or its complement, is the remainder when the register starts with ones. */
  predicate IsRemainder(k: Kind, bytes: Bytes, g: Polynomial, complement: bool, q: Polynomial) {
    var w := k.Width();
    && |g| == w + 1 && |q| == 8 * |bytes|
    && Divides(Dividend(Constant(true, w), BitsOf(bytes)), q, g,
               Xor(Binary(Checksum(k, bytes), w), Constant(complement, w)))
  }

  /* ---- Addition ---- */

  lemma XorAssociates(a: Bits, b: Bits, c: Bits)
    requires |a| == |b| == |c|
    ensures Xor(Xor(a, b), c) == Xor(a, Xor(b, c))
  {
  }

  lemma XorSplits(a: Bits, b: Bits, c: Bits, d: Bits)
    requires |a| == |b| && |c| == |d|
    ensures Xor(a + c, b + d) == Xor(a, b) + Xor(c, d)
  {
  }

  lemma XorCancels(a: Bits, b: Bits, c: Bits)
    requires |a| == |b| == |c| && Xor(a, b) == Xor(a, c)
    ensures b == c
  {
    forall i | 0 <= i < |b| ensures b[i] == c[i] { assert Xor(a, b)[i] == Xor(a, c)[i]; }
  }

  lemma NothingGrows(n: nat)
    ensures Nothing(n) + [false] == [false] + Nothing(n) == Nothing(n + 1)
  {
  }

  lemma NothingAdds(a: Bits)
    ensures Xor(a, Nothing(|a|)) == Xor(Nothing(|a|), a) == a
  {
  }

  /* ---- The register holds the remainder ---- */

  /** One step of the register: the bit comes in, and the generator is taken off once if the highest power is there. */
  lemma RegisterStep(k: Kind, r: Bits, bit: bool)
    requires |r| == k.Width()
    ensures Xor(r + [false], [bit] + Nothing(k.Width())) ==
            Xor(Multiple(r[0] != bit, Generator(k)), [false] + Shift(k, Enter(r, bit)))
  {
    var top, w := r[0] != bit, k.Width();
    var entered := Enter(r, bit);
    assert entered == [top] + r[1..] && r + [false] == [r[0]] + ShiftRight(r);
    assert ShiftRight(entered) == ShiftRight(r);
    XorSplits([r[0]], [bit], ShiftRight(r), Nothing(w));
    NothingAdds(ShiftRight(r));
    assert Xor([r[0]], [bit]) == [top];
    StepDown(top, k.poly, ShiftRight(r));
  }

  lemma StepDown(top: bool, poly: Bits, s: Bits)
    requires |poly| == |s|
    ensures [top] + s == Xor(Multiple(top, [true] + poly), [false] + if top then Xor(s, poly) else s)
  {
  }

  lemma TimesSnoc(q: Polynomial, top: bool, g: Polynomial)
    requires |g| > 0
    ensures Times(q + [top], g) == Xor(Times(q, g) + [false], Nothing(|q|) + Multiple(top, g))
  {
    assert (q + [top])[..|q|] == q;
  }

  lemma DividendSnoc(start: Bits, message: Bits, bit: bool)
    ensures Dividend(start, message + [bit]) ==
            Xor(Dividend(start, message) + [false], Nothing(|message|) + ([bit] + Nothing(|start|)))
  {
    var n, w := |message|, |start|;
    var d, d' := Dividend(start, message), Dividend(start, message + [bit]);
    forall i | 0 <= i < n + w + 1
      ensures d'[i] == ((d + [false])[i] != (Nothing(n) + ([bit] + Nothing(w)))[i])
    {
      assert d'[i] == ((message + [bit] + Nothing(w))[i] != (start + Nothing(n + 1))[i]);
      assert i < n + w ==> d[i] == ((message + Nothing(w))[i] != (start + Nothing(n))[i]);
    }
  }

  /** Adding to both sides of a division. */
  lemma Rearranged(t: Bits, n: nat, r: Bits, x: Bits, m: Bits, y: Bits)
    requires |r| == |x| == |m| == |y| && |t| == n + |r| && Xor(r, x) == Xor(m, y)
    ensures Xor(Xor(t, Nothing(n) + r), Nothing(n) + x) == Xor(Xor(t, Nothing(n) + m), Nothing(n) + y)
  {
    XorAssociates(t, Nothing(n) + r, Nothing(n) + x);
    XorSplits(Nothing(n), Nothing(n), r, x);
    XorSplits(Nothing(n), Nothing(n), m, y);
    XorAssociates(t, Nothing(n) + m, Nothing(n) + y);
  }

  lemma Shifted(t: Bits, n: nat, r: Bits)
    requires |t| == n + |r|
    ensures Xor(t, Nothing(n) + r) + [false] == Xor(t + [false], Nothing(n) + (r + [false]))
  {
    XorSplits(t, Nothing(n) + r, [false], [false]);
    assert (Nothing(n) + r) + [false] == Nothing(n) + (r + [false]);
    assert Xor([false], [false]) == [false];
  }

  lemma StepAlgebra(t: Bits, n: nat, r: Bits, bit: bool, m: Bits, r': Bits)
    requires |t| == n + |r| && |m| == |r| + 1 == |r'| + 1
    requires Xor(r + [false], [bit] + Nothing(|r|)) == Xor(m, [false] + r')
    ensures Xor(Xor(t, Nothing(n) + r) + [false], Nothing(n) + ([bit] + Nothing(|r|))) ==
            Xor(Xor(t + [false], Nothing(n) + m), Nothing(n + 1) + r')
  {
    Shifted(t, n, r);
    Rearranged(t + [false], n, r + [false], [bit] + Nothing(|r|), m, [false] + r');
    assert Nothing(n) + ([false] + r') == Nothing(n + 1) + r';
  }

  lemma OneMoreBit(k: Kind, start: Bits, message: Bits, bit: bool, q: Polynomial, r: Bits, g: Polynomial)
    requires |start| == |r| == k.Width() && |q| == |message| && g == Generator(k)
    requires Divides(Dividend(start, message), q, g, r)
    ensures Divides(Dividend(start, message + [bit]), q + [r[0] != bit], g, Shift(k, Enter(r, bit)))
  {
    var top, r' := r[0] != bit, Shift(k, Enter(r, bit));
    var d, d' := Dividend(start, message), Dividend(start, message + [bit]);
    var t, t' := Times(q, g), Times(q + [top], g);
    DividendSnoc(start, message, bit);
    TimesSnoc(q, top, g);
    var m := Multiple(top, g);
    NextStep(k, r, bit, g, m, r');
    StepOf(d, t, |q|, r, bit, m, r', d', t');
    assert |q + [top]| == |q| + 1;
  }

  lemma NextStep(k: Kind, r: Bits, bit: bool, g: Bits, m: Bits, r': Bits)
    requires |r| == k.Width() && g == Generator(k) && m == Multiple(r[0] != bit, g) && r' == Shift(k, Enter(r, bit))
    ensures |m| == |r| + 1 == |r'| + 1 && Xor(r + [false], [bit] + Nothing(|r|)) == Xor(m, [false] + r')
  {
    RegisterStep(k, r, bit);
  }

  lemma StepOf(d: Bits, t: Bits, n: nat, r: Bits, bit: bool, m: Bits, r': Bits, d': Bits, t': Bits)
    requires |t| == n + |r| && |m| == |r| + 1 == |r'| + 1 && d == Xor(t, Nothing(n) + r)
    requires Xor(r + [false], [bit] + Nothing(|r|)) == Xor(m, [false] + r')
    requires d' == Xor(d + [false], Nothing(n) + ([bit] + Nothing(|r|))) && t' == Xor(t + [false], Nothing(n) + m)
    ensures d' == Xor(t', Nothing(n + 1) + r')
  {
    StepAlgebra(t, n, r, bit, m, r');
  }

  lemma {:induction false} FeedDivides(k: Kind, start: Bits, message: Bits) returns (q: Polynomial)
    requires |start| == k.Width()
    ensures |q| == |message| && Divides(Dividend(start, message), q, Generator(k), Feed(k, start, message))
  {
    if message == [] {
      q := [];
      NothingToDivide(start, Generator(k));
    } else {
      var front, last := message[..|message| - 1], message[|message| - 1];
      var q' := FeedDivides(k, start, front);
      q := FeedDividesMore(k, start, front, last, q');
      assert message == front + [last];
    }
  }

  lemma NothingToDivide(start: Bits, g: Polynomial)
    requires |g| == |start| + 1
    ensures Divides(Dividend(start, []), [], g, start)
  {
    assert Dividend(start, []) == start;
    assert Xor(Nothing(|start|), Nothing(0) + start) == start;
  }

  lemma FeedDividesMore(k: Kind, start: Bits, front: Bits, last: bool, q': Polynomial) returns (q: Polynomial)
    requires |start| == k.Width() && |q'| == |front|
    requires Divides(Dividend(start, front), q', Generator(k), Feed(k, start, front))
    ensures |q| == |front| + 1
    ensures Divides(Dividend(start, front + [last]), q, Generator(k), Feed(k, start, front + [last]))
  {
    var r := Feed(k, start, front);
    FeedOneMore(k, start, front, last);
    OneMoreBit(k, start, front, last, q', r, Generator(k));
    q := q' + [r[0] != last];
  }

  lemma FeedOneMore(k: Kind, start: Bits, front: Bits, last: bool)
    requires |start| == k.Width()
    ensures Feed(k, start, front + [last]) == Shift(k, Enter(Feed(k, start, front), last))
  {
    FeedConcat(k, start, front, [last]);
    assert [last][1..] == [];
  }

  /* ---- There is only one remainder ---- */

  lemma {:induction false} TimesFromTheFront(a: bool, q: Polynomial, g: Polynomial)
    requires |g| > 0
    ensures Times([a] + q, g) == Xor(Multiple(a, g) + Nothing(|q|), [false] + Times(q, g))
  {
    if q == [] {
      TimesOne(a, g);
      assert [a] + q == [a];
    } else {
      var front, last := q[..|q| - 1], q[|q| - 1];
      TimesFromTheFront(a, front, g);
      assert q == front + [last];
      BetweenFrontAndBack(a, front, last, g);
    }
  }

  lemma TimesOne(a: bool, g: Polynomial)
    requires |g| > 0
    ensures Times([a], g) == Xor(Multiple(a, g) + Nothing(0), [false] + Nothing(|g| - 1))
  {
    TimesSnoc([], a, g);
    assert [] + [a] == [a];
    NothingGrows(|g| - 1);
    OneTerm(Multiple(a, g));
  }

  lemma Reassociated(a: bool, front: Bits, last: bool)
    ensures [a] + (front + [last]) == ([a] + front) + [last]
  {
  }

  lemma LeadSnoc(a: bool, front: Polynomial, last: bool, g: Polynomial)
    requires |g| > 0
    ensures Times([a] + (front + [last]), g) ==
            Xor(Times([a] + front, g) + [false], Nothing(|front| + 1) + Multiple(last, g))
  {
    var lead, whole := [a] + front, [a] + (front + [last]);
    assert whole == lead + [last] by { Reassociated(a, front, last); }
    TimesSnoc(lead, last, g);
  }

  lemma BetweenFrontAndBack(a: bool, front: Polynomial, last: bool, g: Polynomial)
    requires |g| > 0
    requires Times([a] + front, g) == Xor(Multiple(a, g) + Nothing(|front|), [false] + Times(front, g))
    ensures Times([a] + (front + [last]), g) ==
            Xor(Multiple(a, g) + Nothing(|front| + 1), [false] + Times(front + [last], g))
  {
    var p, p' := Times([a] + front, g), Times([a] + (front + [last]), g);
    var t, t' := Times(front, g), Times(front + [last], g);
    LeadSnoc(a, front, last, g);
    TimesSnoc(front, last, g);
    Combine(Multiple(a, g), |front|, Multiple(last, g), p, t, p', t');
  }

  lemma Combine(m: Bits, n: nat, l: Bits, p: Bits, t: Bits, p': Bits, t': Bits)
    requires |m| == |l| > 0 && |t| == n + |m| - 1 && p == Xor(m + Nothing(n), [false] + t)
    requires p' == Xor(p + [false], Nothing(n + 1) + l) && t' == Xor(t + [false], Nothing(n) + l)
    ensures p' == Xor(m + Nothing(n + 1), [false] + t')
  {
    FrontAndBack(m, t, n, l);
  }

  lemma OneTerm(m: Bits)
    ensures Xor(Nothing(|m|), Nothing(0) + m) == m == Xor(m + Nothing(0), Nothing(|m|))
  {
    NothingAdds(m);
    assert Nothing(0) + m == m == m + Nothing(0);
  }

  lemma FrontAndBack(m: Bits, t: Bits, n: nat, l: Bits)
    requires |m| == |l| > 0 && |t| == n + |m| - 1
    ensures Xor(Xor(m + Nothing(n), [false] + t) + [false], Nothing(n + 1) + l) ==
            Xor(m + Nothing(n + 1), [false] + Xor(t + [false], Nothing(n) + l))
  {
    NothingGrows(n);
    XorSplits(m + Nothing(n), [false] + t, [false], [false]);
    assert (m + Nothing(n)) + [false] == m + Nothing(n + 1) && ([false] + t) + [false] == [false] + (t + [false]);
    XorSplits([false], [false], t + [false], Nothing(n) + l);
    assert [false] + (Nothing(n) + l) == Nothing(n + 1) + l && Xor([false], [false]) == [false];
    XorAssociates(m + Nothing(n + 1), [false] + (t + [false]), Nothing(n + 1) + l);
  }

  lemma DivisionFromTheFront(a: bool, q: Polynomial, g: Polynomial, r: Polynomial)
    requires |g| == |r| + 1
    ensures Xor(Times([a] + q, g), Nothing(|q| + 1) + r) ==
            Xor(Multiple(a, g) + Nothing(|q|), [false] + Xor(Times(q, g), Nothing(|q|) + r))
  {
    TimesFromTheFront(a, q, g);
    AddBehind(Multiple(a, g) + Nothing(|q|), Times(q, g), |q|, r);
  }

  lemma AddBehind(m: Bits, t: Bits, n: nat, r: Bits)
    requires |t| == n + |r| && |m| == |t| + 1
    ensures Xor(Xor(m, [false] + t), Nothing(n + 1) + r) == Xor(m, [false] + Xor(t, Nothing(n) + r))
  {
    assert Nothing(n + 1) + r == [false] + (Nothing(n) + r);
    assert Xor([false], [false]) == [false];
    XorAssociates(m, [false] + t, [false] + (Nothing(n) + r));
    XorSplits([false], [false], t, Nothing(n) + r);
  }

  lemma {:induction false} RemainderIsUnique(p: Polynomial, q: Polynomial, g: Polynomial, r: Polynomial, s: Polynomial)
    requires |p| == |q| && |g| == |r| + 1 == |s| + 1 && g[0]
    requires Xor(Times(p, g), Nothing(|p|) + r) == Xor(Times(q, g), Nothing(|q|) + s)
    ensures p == q && r == s
  {
    if p == [] {
      assert Times(p, g) == Nothing(|r|) && Nothing(0) + r == r && Nothing(0) + s == s;
      XorCancels(Nothing(|r|), r, s);
    } else {
      var a, b, p', q' := p[0], q[0], p[1..], q[1..];
      assert p == [a] + p' && q == [b] + q';
      SameFront(a, p', b, q', g, r, s);
      RemainderIsUnique(p', q', g, r, s);
    }
  }

  lemma SameFront(a: bool, p: Polynomial, b: bool, q: Polynomial, g: Polynomial, r: Polynomial, s: Polynomial)
    requires |p| == |q| && |g| == |r| + 1 == |s| + 1 && g[0]
    requires Xor(Times([a] + p, g), Nothing(|p| + 1) + r) == Xor(Times([b] + q, g), Nothing(|q| + 1) + s)
    ensures a == b && Xor(Times(p, g), Nothing(|p|) + r) == Xor(Times(q, g), Nothing(|q|) + s)
  {
    var x, y := Xor(Times(p, g), Nothing(|p|) + r), Xor(Times(q, g), Nothing(|q|) + s);
    DivisionFromTheFront(a, p, g, r);
    DivisionFromTheFront(b, q, g, s);
    SameLead(a, b, g, x, y, |p|);
  }

  lemma SameLead(a: bool, b: bool, g: Polynomial, x: Bits, y: Bits, n: nat)
    requires |g| > 0 && g[0] && |x| == |y| == n + |g| - 1
    requires Xor(Multiple(a, g) + Nothing(n), [false] + x) == Xor(Multiple(b, g) + Nothing(n), [false] + y)
    ensures a == b && x == y
  {
    assert Xor(Multiple(a, g) + Nothing(n), [false] + x)[0] == a;
    assert Xor(Multiple(b, g) + Nothing(n), [false] + y)[0] == b;
    XorCancels(Multiple(a, g) + Nothing(n), [false] + x, [false] + y);
    assert x == ([false] + x)[1..] && y == ([false] + y)[1..];
  }

  /* ---- The generators ---- */

  /** Bit by bit, from the highest power down. */
  predicate HasPowers(v: nat, n: nat, exponents: set<nat>)
    decreases n
  {
    n == 0 || ((v % 2 == 1 <==> n - 1 in exponents) && HasPowers(v / 2, n - 1, exponents))
  }

  lemma {:induction false} BinaryHasPowers(v: nat, n: nat, exponents: set<nat>)
    requires HasPowers(v, n, exponents)
    ensures forall i :: 0 <= i < n ==> (Binary(v, n)[i] <==> n - 1 - i in exponents)
    decreases n
  {
    if n > 0 {
      BinaryHasPowers(v / 2, n - 1, exponents);
      assert Binary(v, n) == [v % 2 == 1] + Binary(v / 2, n - 1);
    }
  }

  lemma GeneratorHasPowers(k: Kind, v: nat, exponents: set<nat>)
    requires k.poly == Binary(v, k.Width()) && HasPowers(v, k.Width(), exponents) && k.Width() in exponents
    ensures Generator(k) == PowersOf(exponents, k.Width())
  {
    BinaryHasPowers(v, k.Width(), exponents);
  }

  lemma FourPowers(v: nat, n: nat, exponents: set<nat>)
    requires (v % 2 == 1 <==> n + 3 in exponents) && (v / 2 % 2 == 1 <==> n + 2 in exponents)
    requires (v / 4 % 2 == 1 <==> n + 1 in exponents) && (v / 8 % 2 == 1 <==> n in exponents)
    requires HasPowers(v / 16, n, exponents)
    ensures HasPowers(v, n + 4, exponents)
  {
    assert v / 8 / 2 == v / 16 && v / 4 / 2 == v / 8 && v / 2 / 2 == v / 4;
    assert HasPowers(v / 8, n + 1, exponents);
    assert HasPowers(v / 4, n + 2, exponents);
    assert HasPowers(v / 2, n + 3, exponents);
  }

  lemma IeeeGenerator(v: nat, n: nat)
    requires v == POLY_32 && n == WIDTH_32
    ensures HasPowers(v, n, IEEE_802_3)
  {
    IeeeMiddlePowers(v / 256, n - 8);
    FourPowers(v / 16, n - 8, IEEE_802_3);
    FourPowers(v, n - 4, IEEE_802_3);
  }

  lemma IeeeMiddlePowers(v: nat, n: nat)
    requires v == 0xED_B883 && n == 24
    ensures HasPowers(v, n, IEEE_802_3)
  {
    IeeeLowPowers(v / 256, n - 8);
    FourPowers(v / 16, n - 8, IEEE_802_3);
    FourPowers(v, n - 4, IEEE_802_3);
  }

  lemma IeeeLowPowers(v: nat, n: nat)
    requires v == 0xEDB8 && n == 16
    ensures HasPowers(v, n, IEEE_802_3)
  {
    FourPowers(v / 4096, n - 16, IEEE_802_3);
    FourPowers(v / 256, n - 12, IEEE_802_3);
    FourPowers(v / 16, n - 8, IEEE_802_3);
    FourPowers(v, n - 4, IEEE_802_3);
  }

  lemma ModbusGenerator(v: nat, n: nat)
    requires v == POLY_16 && n == WIDTH_16
    ensures HasPowers(v, n, MODBUS)
  {
    FourPowers(v / 4096, n - 16, MODBUS);
    FourPowers(v / 256, n - 12, MODBUS);
    FourPowers(v / 16, n - 8, MODBUS);
    FourPowers(v, n - 4, MODBUS);
  }

  lemma ChecksumIsRemainder(k: Kind, bytes: Bytes) returns (q: Polynomial)
    ensures IsRemainder(k, bytes, Generator(k), k.complement, q)
  {
    var register, mask := State(k, bytes), Constant(k.complement, k.Width());
    q := FeedDivides(k, Constant(true, k.Width()), BitsOf(bytes));
    StateIsFeed(k, bytes);
    var sum := Xor(register, mask);
    BinaryNumber(sum);
    XorTwice(register, mask);
    assert Binary(Checksum(k, bytes), k.Width()) == sum;
  }

  lemma XorTwice(a: Bits, b: Bits)
    requires |a| == |b|
    ensures Xor(Xor(a, b), b) == a
  {
  }

  /**
   What a register computes whose feedback is written as the number `v`. `IeeeGenerator` and `ModbusGenerator` name the
   powers of the two the firmware uses.
   */
  lemma RemainderByPowers(k: Kind, v: nat, exponents: set<nat>, bytes: Bytes) returns (q: Polynomial)
    requires k.poly == Binary(v, k.Width()) && HasPowers(v, k.Width(), exponents) && k.Width() in exponents
    ensures IsRemainder(k, bytes, PowersOf(exponents, k.Width()), k.complement, q)
  {
    GeneratorHasPowers(k, v, exponents);
    q := ChecksumIsRemainder(k, bytes);
  }
}
