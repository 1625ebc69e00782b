/**
 The frames of the PZEM-004T meter (components/pm_meter/pm_meter_pzem_v4_classic.c), up to the scaling of the
 measured fields.
 */
module Pzem {
  import opened Esp
  import opened Words
  import opened Crc

  const REQUEST_SIZE: nat := 8
  const RESPONSE_SIZE: nat := 25
  const CRC_SIZE: nat := 2

  datatype Status = ShortFrame | BadCrc | WrongSlave | WrongFunction | Framed

  /** What the response parser decides before it looks at the measurements. */
  function StatusOf(slave: U8, frame: Bytes): Status {
    if |frame| != RESPONSE_SIZE then ShortFrame
    else if !Guarded(Modbus16(), frame) then BadCrc
    else if frame[0] != slave then WrongSlave
    else if frame[1] != 4 || frame[2] != 20 then WrongFunction
    else Framed
  }

  lemma SizeOfCrc()
    ensures Modbus16().Size() == CRC_SIZE
  {
  }

  function Word(low: int, high: int): int { low + 256 * high }

  /** The trailer is the checksum, low byte first. */
  lemma TrailerGuards(k: Kind, body: Bytes, low: U8, high: U8)
    requires k.Size() == CRC_SIZE
    ensures Guarded(k, body + [low, high]) <==> Word(low, high) == Checksum(k, body)
  {
    var frame, n := body + [low, high], |body|;
    assert frame[..n] == body && frame[n..] == [low, high];
    assert [low, high][1..] == [high] && [high][1..] == [];
    assert Get([high]) == high && Get([low, high]) == low + 256 * high;
  }

  lemma ChecksumFits(k: Kind, body: Bytes)
    requires k.Width() == 16
    ensures Checksum(k, body) < 0x1_0000
  {
    NumberBelow(Xor(State(k, body), Constant(k.complement, k.Width())));
    assert Pow2(4) == 16 && Pow2(8) == 256 && Pow2(12) == 4096;
  }

  method WithTrailer(k: Kind, body: Bytes) returns (frame: Bytes)
    requires k.Width() == 16 && !k.complement
    ensures |frame| == |body| + CRC_SIZE && frame[..|body|] == body && Guarded(k, frame)
  {
    ChecksumFits(k, body);
    var crc := PlainCrc(k, body);
    TrailerGuards(k, body, crc % 256, crc / 256);
    frame := body + [crc % 256, crc / 256];
  }

  lemma TrailerIs(k: Kind, frame: Bytes)
    requires k.Size() == CRC_SIZE && |frame| >= CRC_SIZE
    ensures var n := |frame| - 2; Guarded(k, frame) <==> Word(frame[n], frame[n + 1]) == Checksum(k, frame[..n])
  {
    var n := |frame| - 2;
    assert frame == frame[..n] + [frame[n], frame[n + 1]];
    TrailerGuards(k, frame[..n], frame[n], frame[n + 1]);
  }

  method HasTrailer(k: Kind, frame: Bytes) returns (ok: bool)
    requires k.Width() == 16 && !k.complement && |frame| >= CRC_SIZE
    ensures ok == Guarded(k, frame)
  {
    TrailerIs(k, frame);
    var received := Word(frame[|frame| - 2], frame[|frame| - 1]);
    var crc := PlainCrc(k, frame[..|frame| - 2]);
    ok := crc == received;
  }

  /** `pm_pzem_v4_classic_build_request`: reads ten registers, under a checksum the meter will accept. */
  method BuildRequest(slave: U8) returns (request: Bytes)
    ensures |request| == REQUEST_SIZE && request[..REQUEST_SIZE - CRC_SIZE] == [slave, 4, 0, 0, 0, 10]
    ensures Modbus16().Size() == CRC_SIZE && Guarded(Modbus16(), request)
  {
    request := WithTrailer(Modbus16(), [slave, 4, 0, 0, 0, 10]);
  }

  method ParseResponse(slave: U8, frame: Bytes) returns (status: Status)
    ensures status == StatusOf(slave, frame)
    ensures status.Framed? ==> |frame| == 25 && frame[0] == slave && frame[1] == 4 && frame[2] == 20
  {
    if |frame| != RESPONSE_SIZE { return ShortFrame; }
    var ok := HasTrailer(Modbus16(), frame);
    if !ok { return BadCrc; }
    if frame[0] != slave { return WrongSlave; }
    if frame[1] != 4 || frame[2] != 20 { return WrongFunction; }
    status := Framed;
  }

  /**
   However an accepted frame is damaged within two consecutive bytes, and whichever slave is asked for, the parser
   reports a bad checksum.
   */
  lemma DamagedFramesAreRefused(frame: Bytes, damaged: Bytes, start: nat, slave: U8, expected: U8)
    requires StatusOf(slave, frame) == Framed && |damaged| == |frame| && damaged != frame
    requires forall i :: 0 <= i < |frame| && frame[i] != damaged[i] ==> start <= i < start + 2
    ensures StatusOf(expected, damaged) == BadCrc
  {
    SizeOfCrc();
    ByteBurstsAreDetected(Modbus16(), frame, damaged, start);
  }
}
