/** The fixed-layout journal record (components/pm_storage/pm_journal.c): 124 bytes of fields and their CRC-32. */
module JournalCodec {
  import opened Esp
  import opened Words
  import opened Crc

  const RECORD_MAGIC: U32 := 0x504D_5244
  const SEGMENT_MAGIC: U32 := 0x504D_5347
  const FORMAT_VERSION: U16 := 1
  const RECORD_SIZE: int := 128
  const HEADER_SIZE: int := 96
  const TWO32: int := 0x1_0000_0000
  const TWO64: int := 0x1_0000_0000_0000_0000

  type U16 = x: int | 0 <= x <= 0xFFFF
  type I32 = x: int | -0x8000_0000 <= x <= 0x7FFF_FFFF
  type I64 = x: int | -0x8000_0000_0000_0000 <= x <= 0x7FFF_FFFF_FFFF_FFFF
  type Id = b: Bytes | |b| == 16 witness [0, 0, 0, 0, 0, 0, 0, 0, 0, 0, 0, 0, 0, 0, 0, 0]

  datatype Record = Record(
    device: Id, sequence: U64, resetGeneration: U32, flags: U32,
    startUtc: I64, endUtc: I64, startMonotonic: I64, endMonotonic: I64,
    samples: U32, expectedSamples: U32, completeness: U16, source: U16,
    voltage: I32, current: I32, power: I32, frequency: I32, powerFactor: I32,
    energyStart: U64, energyEnd: U64, selectedEnergy: U64, diagnosticEnergy: U64)

  /* ---- Numbers of the C types as bytes; signed ones as two's complement ---- */

  lemma Powers()
    ensures Pow256(2) == 0x1_0000 && Pow256(4) == TWO32 && Pow256(8) == TWO64
  {
    assert Pow256(3) == 0x100_0000;
    assert Pow256(4) == 256 * Pow256(3) && Pow256(5) == 256 * Pow256(4) && Pow256(6) == 256 * Pow256(5);
    assert Pow256(7) == 256 * Pow256(6) && Pow256(8) == 256 * Pow256(7);
  }

  function P16(x: U16): Bytes { Put(x, 2) }
  function P32(x: U32): Bytes { Put(x, 4) }
  function P64(x: U64): Bytes { Put(x, 8) }
  function S32(x: I32): Bytes { Put(if x < 0 then x + TWO32 else x, 4) }
  function S64(x: I64): Bytes { Put(if x < 0 then x + TWO64 else x, 8) }

  function G16(b: Bytes): (x: U16)
    requires |b| == 2
    ensures P16(x) == b
  {
    Powers(); PutGet(b);
    Get(b)
  }

  function G32(b: Bytes): (x: U32)
    requires |b| == 4
    ensures P32(x) == b
  {
    Powers(); PutGet(b);
    Get(b)
  }

  function G64(b: Bytes): (x: U64)
    requires |b| == 8
    ensures P64(x) == b
  {
    Powers(); PutGet(b);
    Get(b)
  }

  function T32(b: Bytes): (x: I32)
    requires |b| == 4
    ensures S32(x) == b
  {
    var u := G32(b);
    if u < 0x8000_0000 then u else u - TWO32
  }

  function T64(b: Bytes): (x: I64)
    requires |b| == 8
    ensures S64(x) == b
  {
    var u := G64(b);
    if u < 0x8000_0000_0000_0000 then u else u - TWO64
  }

  lemma Got16(x: U16) ensures G16(P16(x)) == x { Powers(); GetPut(x, 2); }
  lemma Got32(x: U32) ensures G32(P32(x)) == x { Powers(); GetPut(x, 4); }
  lemma Got64(x: U64) ensures G64(P64(x)) == x { Powers(); GetPut(x, 8); }
  lemma Trip32(x: I32) ensures T32(S32(x)) == x { Got32(if x < 0 then x + TWO32 else x); }
  lemma Trip64(x: I64) ensures T64(S64(x)) == x { Got64(if x < 0 then x + TWO64 else x); }

  /* ---- The record, in the groups its layout falls into ---- */

  function Saturated(v: U64): U32 { if v > U32_MAX then U32_MAX else v }

  /** Bytes 0 to 7. */
  function Preamble(): (b: Bytes)
    ensures |b| == 8
  {
    P32(RECORD_MAGIC) + P16(FORMAT_VERSION) + P16(RECORD_SIZE)
  }

  /** Bytes 24 to 39. */
  function Identity(r: Record): (b: Bytes)
    ensures |b| == 16
  {
    P64(r.sequence) + P32(r.resetGeneration) + P32(r.flags)
  }

  /** Bytes 40 to 71. */
  function Times(r: Record): (b: Bytes)
    ensures |b| == 32
  {
    S64(r.startUtc) + S64(r.endUtc) + S64(r.startMonotonic) + S64(r.endMonotonic)
  }

  /** Bytes 72 to 83. */
  function Counts(r: Record): (b: Bytes)
    ensures |b| == 12
  {
    P32(r.samples) + P32(r.expectedSamples) + P16(r.completeness) + P16(r.source)
  }

  /** Bytes 84 to 103. */
  function Measures(r: Record): (b: Bytes)
    ensures |b| == 20
  {
    S32(r.voltage) + S32(r.current) + S32(r.power) + S32(r.frequency) + S32(r.powerFactor)
  }

  /** Bytes 104 to 123. */
  function Energies(r: Record): (b: Bytes)
    ensures |b| == 20
  {
    P64(r.energyStart) + P64(r.energyEnd) + P32(Saturated(r.selectedEnergy))
  }

  function Body(r: Record): (b: Bytes)
    ensures |b| == 124
  {
    Preamble() + r.device + Identity(r) + Times(r) + Counts(r) + Measures(r) + Energies(r)
  }

  /** What encoding writes. */
  function Image(r: Record): (b: Bytes)
    ensures |b| == 128
  {
    Body(r) + Put(Checksum(Ieee32(), Body(r)), 4)
  }

  function Fields(b: Bytes): Record
    requires |b| == 128
  {
    Record(
      b[8..24], G64(b[24..32]), G32(b[32..36]), G32(b[36..40]),
      T64(b[40..48]), T64(b[48..56]), T64(b[56..64]), T64(b[64..72]),
      G32(b[72..76]), G32(b[76..80]), G16(b[80..82]), G16(b[82..84]),
      T32(b[84..88]), T32(b[88..92]), T32(b[92..96]), T32(b[96..100]), T32(b[100..104]),
      G64(b[104..112]), G64(b[112..120]), G32(b[120..124]), 0)
  }

  predicate Acceptable(r: Record) { r.sequence != 0 && r.completeness <= 1000 }

  predicate Framed(b: Bytes) {
    |b| == RECORD_SIZE && G32(b[0..4]) == RECORD_MAGIC && G16(b[4..6]) == FORMAT_VERSION && G16(b[6..8]) == RECORD_SIZE
  }

  /** What decoding returns, `None` standing for false. */
  function Decode(b: Bytes): Option<Record> {
    if Framed(b) && Guarded(Ieee32(), b) && Acceptable(Fields(b)) then Some(Fields(b)) else None
  }

  datatype SegmentHeader = SegmentHeader(device: Id, card: Id, segment: Id, first: U64, createdUtc: I64,
                                         createdMonotonic: I64, timeTrusted: bool)

  predicate HeaderFramed(b: Bytes) {
    |b| == HEADER_SIZE && G32(b[0..4]) == SEGMENT_MAGIC && G16(b[4..6]) == FORMAT_VERSION && G16(b[6..8]) == HEADER_SIZE
  }

  function HeaderFields(b: Bytes): SegmentHeader
    requires |b| == 96
  {
    SegmentHeader(b[8..24], b[24..40], b[40..56], G64(b[56..64]), T64(b[64..72]), T64(b[72..80]), b[80] != 0)
  }

  /** `pm_journal_decode_segment_header`. */
  function DecodeHeader(b: Bytes): Option<SegmentHeader> {
    if HeaderFramed(b) && Guarded(Ieee32(), b) then Some(HeaderFields(b)) else None
  }

  /** What an accepted header holds, byte by byte. */
  lemma HeaderRead(b: Bytes)
    requires DecodeHeader(b).Some?
    ensures var h := DecodeHeader(b).value;
            && |b| == 96 && b[0..4] == P32(SEGMENT_MAGIC) && b[4..6] == P16(1) && b[6..8] == P16(96)
            && h.device == b[8..24] && h.card == b[24..40] && h.segment == b[40..56]
            && P64(h.first) == b[56..64] && S64(h.createdUtc) == b[64..72] && S64(h.createdMonotonic) == b[72..80]
            && (h.timeTrusted <==> b[80] != 0)
  {
    assert HeaderFramed(b);
  }

  lemma DecodedMagic(b: Bytes)
    requires Decode(b).Some?
    ensures b[0..4] == P32(RECORD_MAGIC)
  {
    assert Framed(b);
  }

  /* ---- Encode after decode: each group, then the whole image ---- */

  lemma Join(b: Bytes, i: nat, j: nat, k: nat)
    requires i <= j <= k <= |b|
    ensures b[i..j] + b[j..k] == b[i..k]
  {
  }

  lemma IdentityRestored(b: Bytes)
    requires |b| == 128
    ensures Identity(Fields(b)) == b[24..40]
  {
    Join(b, 24, 32, 36);
    Join(b, 24, 36, 40);
  }

  lemma TimesRestored(b: Bytes)
    requires |b| == 128
    ensures Times(Fields(b)) == b[40..72]
  {
    Join(b, 40, 48, 56);
    Join(b, 40, 56, 64);
    Join(b, 40, 64, 72);
  }

  lemma CountsRestored(b: Bytes)
    requires |b| == 128
    ensures Counts(Fields(b)) == b[72..84]
  {
    Join(b, 72, 76, 80);
    Join(b, 72, 80, 82);
    Join(b, 72, 82, 84);
  }

  lemma MeasuresRestored(b: Bytes)
    requires |b| == 128
    ensures Measures(Fields(b)) == b[84..104]
  {
    Join(b, 84, 88, 92);
    Join(b, 84, 92, 96);
    Join(b, 84, 96, 100);
    Join(b, 84, 100, 104);
  }

  lemma EnergiesRestored(b: Bytes)
    requires |b| == 128
    ensures Energies(Fields(b)) == b[104..124]
  {
    Join(b, 104, 112, 120);
    Join(b, 104, 120, 124);
  }

  lemma PreambleRestored(b: Bytes)
    requires |b| == 128 && G32(b[0..4]) == RECORD_MAGIC && G16(b[4..6]) == FORMAT_VERSION && G16(b[6..8]) == RECORD_SIZE
    ensures Preamble() == b[0..8]
  {
    Join(b, 0, 4, 6);
    Join(b, 0, 6, 8);
  }

  lemma BodyRestored(b: Bytes)
    requires Decode(b).Some?
    ensures Body(Fields(b)) == b[..124]
  {
    PreambleRestored(b);
    IdentityRestored(b);
    TimesRestored(b);
    CountsRestored(b);
    MeasuresRestored(b);
    EnergiesRestored(b);
    Join(b, 0, 8, 24);
    Join(b, 0, 24, 40);
    Join(b, 0, 40, 72);
    Join(b, 0, 72, 84);
    Join(b, 0, 84, 104);
    Join(b, 0, 104, 124);
  }

  /** Encoding what decoding returned reproduces every accepted image byte for byte. */
  lemma EncodeAfterDecode(b: Bytes)
    requires Decode(b).Some?
    ensures Image(Decode(b).value) == b && Decode(b).value.device == b[8..24]
    ensures Decode(b).value.sequence != 0 && Decode(b).value.completeness <= 1000
  {
    BodyRestored(b);
    PutGet(b[124..]);
    assert b == b[..124] + b[124..];
  }

  /* ---- Decode after encode ---- */

  lemma Pow2Of32()
    ensures Pow2(32) == TWO32
  {
    assert Pow2(4) == 16;
    assert Pow2(8) == 256;
    Pow2Doubled(8, 8);
    Pow2Doubled(16, 16);
  }

  lemma ChecksumFits(b: Bytes)
    ensures Checksum(Ieee32(), b) < Pow256(4)
  {
    NumberBelow(Xor(State(Ieee32(), b), Constant(true, 32)));
    Powers();
    Pow2Of32();
  }

  lemma ImageIsGuarded(r: Record)
    ensures Guarded(Ieee32(), Image(r))
  {
    ChecksumFits(Body(r));
    GetPut(Checksum(Ieee32(), Body(r)), 4);
    assert Image(r)[..124] == Body(r) && Image(r)[124..] == Put(Checksum(Ieee32(), Body(r)), 4);
  }

  lemma Groups(r: Record, b: Bytes)
    requires |b| == 128 && b[..124] == Body(r)
    ensures b[0..8] == Preamble() && b[8..24] == r.device && b[24..40] == Identity(r) && b[40..72] == Times(r)
    ensures b[72..84] == Counts(r) && b[84..104] == Measures(r) && b[104..124] == Energies(r)
  {
    var p2 := Preamble() + r.device;
    var p3 := p2 + Identity(r);
    var p4 := p3 + Times(r);
    var p5 := p4 + Counts(r);
    var p6 := p5 + Measures(r);
    LastPart(b, p6, Energies(r));
    LastPart(b, p5, Measures(r));
    LastPart(b, p4, Counts(r));
    LastPart(b, p3, Times(r));
    LastPart(b, p2, Identity(r));
    LastPart(b, Preamble(), r.device);
  }

  lemma LastPart(b: Bytes, x: Bytes, y: Bytes)
    requires |x| + |y| <= |b| && b[..|x| + |y|] == x + y
    ensures b[..|x|] == x && b[|x|..|x| + |y|] == y
  {
    assert b[..|x|] == b[..|x| + |y|][..|x|];
    assert b[|x|..|x| + |y|] == b[..|x| + |y|][|x|..];
  }

  /** A slice of a group is a slice of the image. */
  lemma Slice(b: Bytes, lo: nat, hi: nat, i: nat, j: nat)
    requires lo <= hi <= |b| && i <= j <= hi - lo
    ensures b[lo..hi][i..j] == b[lo + i..lo + j]
  {
    assert forall k :: 0 <= k < j - i ==> b[lo..hi][i..j][k] == b[lo + i..lo + j][k];
  }

  lemma PreambleRead(b: Bytes)
    requires |b| == 128 && b[0..8] == Preamble()
    ensures G32(b[0..4]) == RECORD_MAGIC &&
            G16(b[4..6]) == FORMAT_VERSION &&
            G16(b[6..8]) == RECORD_SIZE
  {
    Slice(b, 0, 8, 0, 4); Got32(RECORD_MAGIC); assert Preamble()[0..4] == P32(RECORD_MAGIC);
    Slice(b, 0, 8, 4, 6); Got16(FORMAT_VERSION); assert Preamble()[4..6] == P16(FORMAT_VERSION);
    Slice(b, 0, 8, 6, 8); Got16(RECORD_SIZE); assert Preamble()[6..8] == P16(RECORD_SIZE);
  }

  lemma IdentityRead(r: Record, b: Bytes)
    requires |b| == 128 && b[24..40] == Identity(r)
    ensures G64(b[24..32]) == r.sequence &&
            G32(b[32..36]) == r.resetGeneration &&
            G32(b[36..40]) == r.flags
  {
    Slice(b, 24, 40, 0, 8); Got64(r.sequence); assert Identity(r)[0..8] == P64(r.sequence);
    Slice(b, 24, 40, 8, 12); Got32(r.resetGeneration); assert Identity(r)[8..12] == P32(r.resetGeneration);
    Slice(b, 24, 40, 12, 16); Got32(r.flags); assert Identity(r)[12..16] == P32(r.flags);
  }

  lemma TimesRead(r: Record, b: Bytes)
    requires |b| == 128 && b[40..72] == Times(r)
    ensures T64(b[40..48]) == r.startUtc &&
            T64(b[48..56]) == r.endUtc &&
            T64(b[56..64]) == r.startMonotonic &&
            T64(b[64..72]) == r.endMonotonic
  {
    Slice(b, 40, 72, 0, 8); Trip64(r.startUtc); assert Times(r)[0..8] == S64(r.startUtc);
    Slice(b, 40, 72, 8, 16); Trip64(r.endUtc); assert Times(r)[8..16] == S64(r.endUtc);
    Slice(b, 40, 72, 16, 24); Trip64(r.startMonotonic); assert Times(r)[16..24] == S64(r.startMonotonic);
    Slice(b, 40, 72, 24, 32); Trip64(r.endMonotonic); assert Times(r)[24..32] == S64(r.endMonotonic);
  }

  lemma CountsRead(r: Record, b: Bytes)
    requires |b| == 128 && b[72..84] == Counts(r)
    ensures G32(b[72..76]) == r.samples &&
            G32(b[76..80]) == r.expectedSamples &&
            G16(b[80..82]) == r.completeness &&
            G16(b[82..84]) == r.source
  {
    Slice(b, 72, 84, 0, 4); Got32(r.samples); assert Counts(r)[0..4] == P32(r.samples);
    Slice(b, 72, 84, 4, 8); Got32(r.expectedSamples); assert Counts(r)[4..8] == P32(r.expectedSamples);
    Slice(b, 72, 84, 8, 10); Got16(r.completeness); assert Counts(r)[8..10] == P16(r.completeness);
    Slice(b, 72, 84, 10, 12); Got16(r.source); assert Counts(r)[10..12] == P16(r.source);
  }

  lemma MeasuresRead(r: Record, b: Bytes)
    requires |b| == 128 && b[84..104] == Measures(r)
    ensures T32(b[84..88]) == r.voltage &&
            T32(b[88..92]) == r.current &&
            T32(b[92..96]) == r.power &&
            T32(b[96..100]) == r.frequency &&
            T32(b[100..104]) == r.powerFactor
  {
    Slice(b, 84, 104, 0, 4); Trip32(r.voltage); assert Measures(r)[0..4] == S32(r.voltage);
    Slice(b, 84, 104, 4, 8); Trip32(r.current); assert Measures(r)[4..8] == S32(r.current);
    Slice(b, 84, 104, 8, 12); Trip32(r.power); assert Measures(r)[8..12] == S32(r.power);
    Slice(b, 84, 104, 12, 16); Trip32(r.frequency); assert Measures(r)[12..16] == S32(r.frequency);
    Slice(b, 84, 104, 16, 20); Trip32(r.powerFactor); assert Measures(r)[16..20] == S32(r.powerFactor);
  }

  lemma EnergiesRead(r: Record, b: Bytes)
    requires |b| == 128 && b[104..124] == Energies(r)
    ensures G64(b[104..112]) == r.energyStart &&
            G64(b[112..120]) == r.energyEnd &&
            G32(b[120..124]) == Saturated(r.selectedEnergy)
  {
    Slice(b, 104, 124, 0, 8); Got64(r.energyStart); assert Energies(r)[0..8] == P64(r.energyStart);
    Slice(b, 104, 124, 8, 16); Got64(r.energyEnd); assert Energies(r)[8..16] == P64(r.energyEnd);
    Slice(b, 104, 124, 16, 20); Got32(Saturated(r.selectedEnergy));
    assert Energies(r)[16..20] == P32(Saturated(r.selectedEnergy));
  }

  lemma FieldsRead(r: Record, b: Bytes)
    requires |b| == 128 && b[..124] == Body(r)
    ensures G32(b[0..4]) == RECORD_MAGIC && G16(b[4..6]) == FORMAT_VERSION && G16(b[6..8]) == RECORD_SIZE
    ensures Fields(b) == r.(selectedEnergy := Saturated(r.selectedEnergy), diagnosticEnergy := 0)
  {
    Groups(r, b);
    PreambleRead(b);
    IdentityRead(r, b);
    TimesRead(r, b);
    CountsRead(r, b);
    MeasuresRead(r, b);
    EnergiesRead(r, b);
  }

  /**
   Decoding what encoding wrote returns the record, up to what the format drops; it is refused exactly
   when the sequence number is zero or the completeness exceeds 1000 per mille.
   */
  lemma DecodeAfterEncode(r: Record)
    ensures Decode(Image(r)) ==
            if r.sequence != 0 && r.completeness <= 1000
            then
              Some(r.(diagnosticEnergy := 0,
                      selectedEnergy := if r.selectedEnergy > 0xFFFF_FFFF then 0xFFFF_FFFF else r.selectedEnergy))
            else None
  {
    ImageIsGuarded(r);
    assert Image(r)[..124] == Body(r);
    FieldsRead(r, Image(r));
  }

  /** An accepted record damaged within any 32 consecutive bits, checksum included, is refused. */
  lemma DamageIsRefused(b: Bytes, c: Bytes, start: nat)
    requires Decode(b).Some? && |c| == |b| && Burst(Xor(BitsOf(b), BitsOf(c)), start, 32)
    ensures Decode(c).None?
  {
    BurstsAreDetected(Ieee32(), b, c, start);
  }

  lemma DamagedBytesAreRefused(b: Bytes, c: Bytes, start: nat)
    requires Decode(b).Some? && |c| == |b| && c != b
    requires forall i :: 0 <= i < |b| && b[i] != c[i] ==> start <= i < start + 4
    ensures Decode(c).None?
  {
    ByteBurstsAreDetected(Ieee32(), b, c, start);
  }

  /* ---- The source's buffer code ---- */

  method PutNumber(output: array<U8>, at: nat, value: nat, n: nat)
    requires at + n <= output.Length
    modifies output
    ensures output[..at + n] == old(output[..at]) + Put(value, n)
    ensures output[at + n..] == old(output[at + n..])
  {
    var rest := value;
    for i := 0 to n
      invariant output[..at] == old(output[..at]) && output[at + n..] == old(output[at + n..])
      invariant output[at..at + i] + Put(rest, n - i) == Put(value, n)
    {
      output[at + i] := rest % 256;
      rest := rest / 256;
      assert output[at..at + i + 1] == output[at..at + i] + [output[at + i]];
    }
    assert output[..at + n] == output[..at] + output[at..at + n];
  }

  method PutBytes(output: array<U8>, at: nat, bytes: Bytes)
    requires at + |bytes| <= output.Length
    modifies output
    ensures output[..at + |bytes|] == old(output[..at]) + bytes
    ensures output[at + |bytes|..] == old(output[at + |bytes|..])
  {
    for i := 0 to |bytes|
      invariant output[..at + i] == old(output[..at]) + bytes[..i]
      invariant output[at + |bytes|..] == old(output[at + |bytes|..])
    {
      output[at + i] := bytes[i];
      assert output[..at + i + 1] == output[..at + i] + [bytes[i]];
    }
    assert bytes[..|bytes|] == bytes;
  }

  lemma RegroupThree(a: Bytes, b: Bytes, c: Bytes, d: Bytes)
    ensures a + b + c + d == a + (b + c + d)
  {
  }

  lemma RegroupFour(a: Bytes, b: Bytes, c: Bytes, d: Bytes, e: Bytes)
    ensures a + b + c + d + e == a + (b + c + d + e)
  {
  }

  method PutIdentity(output: array<U8>, r: Record)
    requires output.Length >= 128
    modifies output
    ensures output[..40] == old(output[..24]) + Identity(r)
  {
    ghost var front := output[..24];
    PutNumber(output, 24, r.sequence, 8);
    assert output[..32] == front + P64(r.sequence);
    PutNumber(output, 32, r.resetGeneration, 4);
    assert output[..36] == front + P64(r.sequence) + P32(r.resetGeneration);
    PutNumber(output, 36, r.flags, 4);
    RegroupThree(front, P64(r.sequence), P32(r.resetGeneration), P32(r.flags));
  }

  method PutTimes(output: array<U8>, r: Record)
    requires output.Length >= 128
    modifies output
    ensures output[..72] == old(output[..40]) + Times(r)
  {
    ghost var front := output[..40];
    PutNumber(output, 40, if r.startUtc < 0 then r.startUtc + TWO64 else r.startUtc, 8);
    assert output[..48] == front + S64(r.startUtc);
    PutNumber(output, 48, if r.endUtc < 0 then r.endUtc + TWO64 else r.endUtc, 8);
    assert output[..56] == front + S64(r.startUtc) + S64(r.endUtc);
    PutNumber(output, 56, if r.startMonotonic < 0 then r.startMonotonic + TWO64 else r.startMonotonic, 8);
    assert output[..64] == front + S64(r.startUtc) + S64(r.endUtc) + S64(r.startMonotonic);
    PutNumber(output, 64, if r.endMonotonic < 0 then r.endMonotonic + TWO64 else r.endMonotonic, 8);
    RegroupFour(front, S64(r.startUtc), S64(r.endUtc), S64(r.startMonotonic), S64(r.endMonotonic));
  }

  method PutCounts(output: array<U8>, r: Record)
    requires output.Length >= 128
    modifies output
    ensures output[..84] == old(output[..72]) + Counts(r)
  {
    ghost var front := output[..72];
    PutNumber(output, 72, r.samples, 4);
    assert output[..76] == front + P32(r.samples);
    PutNumber(output, 76, r.expectedSamples, 4);
    assert output[..80] == front + P32(r.samples) + P32(r.expectedSamples);
    PutNumber(output, 80, r.completeness, 2);
    assert output[..82] == front + P32(r.samples) + P32(r.expectedSamples) + P16(r.completeness);
    PutNumber(output, 82, r.source, 2);
    RegroupFour(front, P32(r.samples), P32(r.expectedSamples), P16(r.completeness), P16(r.source));
  }

  method PutMeasures(output: array<U8>, r: Record)
    requires output.Length >= 128
    modifies output
    ensures output[..104] == old(output[..84]) + Measures(r)
  {
    ghost var front := output[..84];
    PutNumber(output, 84, if r.voltage < 0 then r.voltage + TWO32 else r.voltage, 4);
    assert output[..88] == front + S32(r.voltage);
    PutNumber(output, 88, if r.current < 0 then r.current + TWO32 else r.current, 4);
    assert output[..92] == front + S32(r.voltage) + S32(r.current);
    PutNumber(output, 92, if r.power < 0 then r.power + TWO32 else r.power, 4);
    assert output[..96] == front + S32(r.voltage) + S32(r.current) + S32(r.power);
    PutNumber(output, 96, if r.frequency < 0 then r.frequency + TWO32 else r.frequency, 4);
    PutNumber(output, 100, if r.powerFactor < 0 then r.powerFactor + TWO32 else r.powerFactor, 4);
    Regroup(front, S32(r.voltage), S32(r.current), S32(r.power), S32(r.frequency), S32(r.powerFactor));
  }

  lemma Regroup(a: Bytes, b: Bytes, c: Bytes, d: Bytes, e: Bytes, f: Bytes)
    ensures a + b + c + d + e + f == a + (b + c + d + e + f)
  {
  }

  method PutEnergies(output: array<U8>, r: Record)
    requires output.Length >= 128
    modifies output
    ensures output[..124] == old(output[..104]) + Energies(r)
  {
    ghost var front := output[..104];
    PutNumber(output, 104, r.energyStart, 8);
    assert output[..112] == front + P64(r.energyStart);
    PutNumber(output, 112, r.energyEnd, 8);
    assert output[..120] == front + P64(r.energyStart) + P64(r.energyEnd);
    PutNumber(output, 120, if r.selectedEnergy > U32_MAX then U32_MAX else r.selectedEnergy, 4);
    RegroupThree(front, P64(r.energyStart), P64(r.energyEnd), P32(Saturated(r.selectedEnergy)));
  }

  /** Returns the number of bytes written, 0 when the buffer is too small. */
  method EncodeRecord(r: Record, output: array<U8>) returns (written: nat)
    modifies output
    ensures written == if output.Length < 128 then 0 else 128
    ensures output.Length >= 128 ==> output[..128] == Image(r)
    ensures output.Length < 128 ==> output[..] == old(output[..])
  {
    if output.Length < 128 { return 0; }
    PutNumber(output, 0, RECORD_MAGIC, 4);
    PutNumber(output, 4, FORMAT_VERSION, 2);
    PutNumber(output, 6, RECORD_SIZE, 2);
    assert output[..8] == Preamble();
    PutBytes(output, 8, r.device);
    PutIdentity(output, r);
    PutTimes(output, r);
    PutCounts(output, r);
    PutMeasures(output, r);
    PutEnergies(output, r);
    PutChecksum(output, r);
    written := 128;
  }

  method PutChecksum(output: array<U8>, r: Record)
    requires output.Length >= 128 && output[..124] == Body(r)
    modifies output
    ensures output[..128] == Image(r)
  {
    var crc := Crc32Ieee(output[..124]);
    PutNumber(output, 124, crc, 4);
  }

  method GetNumber(data: Bytes, at: nat, n: nat) returns (value: nat)
    requires at + n <= |data|
    ensures value == Get(data[at..at + n])
  {
    value := 0;
    var i := n;
    while i > 0
      invariant 0 <= i <= n && value == Get(data[at + i..at + n])
    {
      i := i - 1;
      value := data[at + i] + 256 * value;
      assert data[at + i..at + n][1..] == data[at + i + 1..at + n];
    }
  }

  method IsFramed(data: Bytes) returns (ok: bool)
    ensures ok == Framed(data)
  {
    if |data| != RECORD_SIZE { return false; }
    var magic := GetNumber(data, 0, 4);
    var version := GetNumber(data, 4, 2);
    var size := GetNumber(data, 6, 2);
    ok := magic == RECORD_MAGIC && version == FORMAT_VERSION && size == RECORD_SIZE;
  }

  /** The checksum of a whole record is its last four bytes. */
  lemma GuardIs(k: Kind, data: Bytes)
    requires k.Size() == 4 && |data| == RECORD_SIZE
    ensures Guarded(k, data) <==> Get(data[124..124 + 4]) == Checksum(k, data[..124])
  {
    assert data[124..124 + 4] == data[124..];
  }

  method IsGuarded(data: Bytes) returns (ok: bool)
    requires |data| == RECORD_SIZE
    ensures ok == Guarded(Ieee32(), data)
  {
    ok := HasTrailer(Ieee32(), data);
  }

  method HasTrailer(k: Kind, data: Bytes) returns (ok: bool)
    requires k.Size() == 4 && k.complement && |data| == RECORD_SIZE
    ensures ok == Guarded(k, data)
  {
    GuardIs(k, data);
    var stored := GetNumber(data, 124, 4);
    var crc := ComplementedCrc(k, data[..124]);
    ok := stored == crc;
  }

  method DecodeRecord(data: Bytes) returns (r: Option<Record>)
    ensures r == Decode(data)
  {
    var framed := IsFramed(data);
    if !framed { return None; }
    var guarded := IsGuarded(data);
    if !guarded { return None; }
    var fields := Fields(data);
    r := if fields.sequence != 0 && fields.completeness <= 1000 then Some(fields) else None;
  }
}
