/** internal/hdhomerun/packet.go:66-136: the framing of HDHomeRun packets. */
module HdhrPacket {
  import opened Bytes
  import opened Crc
  import opened EthernetCrc

  type u16 = n: nat | n < 0x1_0000

  datatype Packet = Packet(typ: u16, payload: seq<byte>)

  /** Panic: the slice bounds 4+length wrapped around. */
  datatype Decoded = Accepted(p: Packet) | TooShort | Truncated | BadCrc | Panic

  const MAX_PAYLOAD: nat := 65531

  function PutU16(n: u16): (w: seq<byte>)
    ensures |w| == 2
  {
    [Byte(n / 256), Byte(n % 256)]
  }

  function GetU16(hi: byte, lo: byte): u16 {
    Int(hi) * 256 + Int(lo)
  }

  function PutLittle(c: bv32): (w: seq<byte>)
    ensures |w| == 4
  {
    var b := BigEndian(c);
    [b[3], b[2], b[1], b[0]]
  }

  function GetLittle(w: seq<byte>): bv32
    requires |w| == 4
  {
    Word([w[3], w[2], w[1], w[0]])
  }

  /** Everything before the CRC; the length field holds the length modulo 65536. */
  function Front(p: Packet): (f: seq<byte>)
    ensures |f| == 4 + |p.payload|
  {
    PutU16(p.typ) + PutU16(|p.payload| % 0x1_0000) + p.payload
  }

  function Marshal(p: Packet): seq<byte> {
    Front(p) + PutLittle(Checksum(Front(p)))
  }

  function Unmarshal(data: seq<byte>): Decoded {
    if |data| < 8 then TooShort
    else
      var length := GetU16(data[2], data[3]);
      if |data| < 4 + length + 4 then Truncated
      else
        // the source's 4+length is computed in 16 bits
        var end := (4 + length) % 0x1_0000;
        if length > 0 && end < 4 then Panic
        else if GetLittle(data[end..end + 4]) != Checksum(data[..end]) then BadCrc
        else Accepted(Packet(GetU16(data[0], data[1]), data[4..end]))
  }

  lemma {:induction false} U16Back(n: u16)
    ensures GetU16(PutU16(n)[0], PutU16(n)[1]) == n
  {
    hide Byte, Int;
    IntOfByte(n / 256);
    IntOfByte(n % 256);
  }

  lemma {:induction false} U16Forth(hi: byte, lo: byte)
    ensures PutU16(GetU16(hi, lo)) == [hi, lo]
  {
    hide Byte, Int;
    ByteOfInt(hi);
    ByteOfInt(lo);
    assert (Int(hi) * 256 + Int(lo)) / 256 == Int(hi) && (Int(hi) * 256 + Int(lo)) % 256 == Int(lo);
  }

  lemma {:induction false} LittleBack(c: bv32, w: seq<byte>)
    requires |w| == 4
    ensures GetLittle(w) == c <==> w == PutLittle(c)
  {
    hide Word, BigEndian;
    WordOfRegister(c);
    var v := [w[3], w[2], w[1], w[0]];
    WordReadBack(v);
    assert w == [v[3], v[2], v[1], v[0]];
    assert BigEndian(c) == [BigEndian(c)[0], BigEndian(c)[1], BigEndian(c)[2], BigEndian(c)[3]];
  }

  /** Unmarshal accepts p from some data exactly when p fits the 16-bit arithmetic and the data begin with what
      Marshal makes of p: printing then parsing gives the packet back, and parsing then printing the data. */
  lemma {:induction false} AcceptsIff(data: seq<byte>, p: Packet)
    ensures Unmarshal(data) == Accepted(p) <==> |p.payload| <= MAX_PAYLOAD && Marshal(p) <= data
  {
    hide Byte, Int, GetLittle, PutLittle, Checksum, PutU16, GetU16;
    if |data| >= 8 {
      var length := GetU16(data[2], data[3]);
      U16Forth(data[0], data[1]);
      U16Forth(data[2], data[3]);
      if |p.payload| <= MAX_PAYLOAD && Marshal(p) <= data {
        MarshalParts(data, p);
        U16Back(p.typ);
        U16Back(|p.payload|);
        LittleBack(Checksum(Front(p)), data[4 + |p.payload|..8 + |p.payload|]);
      }
      if Unmarshal(data) == Accepted(p) {
        assert |p.payload| == length;
        assert Front(p) == data[..4 + length];
        LittleBack(Checksum(Front(p)), data[4 + length..8 + length]);
        assert Marshal(p) == data[..8 + length];
      }
    }
  }

  lemma {:induction false} MarshalParts(data: seq<byte>, p: Packet)
    requires |p.payload| <= MAX_PAYLOAD && Marshal(p) <= data
    ensures var n := |p.payload|;
      && |data| >= 8 + n
      && data[..2] == PutU16(p.typ) && data[2..4] == PutU16(n) && data[4..4 + n] == p.payload
      && data[..4 + n] == Front(p) && data[4 + n..8 + n] == PutLittle(Checksum(Front(p)))
  {
    hide PutU16, PutLittle, Checksum;
    var n := |p.payload|;
    var m := Marshal(p);
    assert m[..2] == PutU16(p.typ) && m[2..4] == PutU16(n) && m[4..4 + n] == p.payload;
    assert m[..4 + n] == Front(p) && m[4 + n..8 + n] == PutLittle(Checksum(Front(p)));
    assert forall i :: 0 <= i < |m| ==> data[i] == m[i];
  }

  /** A packet round-trips, whatever follows it in the data, exactly up to 65531 bytes of payload. */
  lemma {:induction false} RoundTripIff(p: Packet, rest: seq<byte>)
    ensures Unmarshal(Marshal(p) + rest) == Accepted(p) <==> |p.payload| <= MAX_PAYLOAD
  {
    hide Unmarshal, Marshal;
    AcceptsIff(Marshal(p) + rest, p);
  }

  /** Damage within four consecutive bytes of an accepted packet's type or payload is always noticed. */
  lemma {:induction false} DamageNoticed(data: seq<byte>, bad: seq<byte>, p: Packet, at: nat)
    requires Unmarshal(data) == Accepted(p) && |bad| == |data| && bad != data
    requires forall k :: 0 <= k < |data| && bad[k] != data[k] ==>
               at <= k < at + 4 && (k < 2 || 4 <= k < 4 + |p.payload|)
    ensures Unmarshal(bad) == BadCrc
  {
    hide Byte, Int, GetLittle, Checksum, GetU16;
    var end := 4 + |p.payload|;
    assert end == 4 + GetU16(data[2], data[3]);
    ChecksumDetectsBurst(data[..end], bad[..end], at);
    assert data[..end] != bad[..end] by {
      var k :| 0 <= k < |data| && bad[k] != data[k];
      assert data[..end][k] != bad[..end][k];
    }
    assert data[end..end + 4] == bad[end..end + 4];
  }

  /** When the 16-bit sum goes wrong: exactly for data that are long enough for a length field over 65531. */
  lemma {:induction false} PanicIff(data: seq<byte>)
    ensures Unmarshal(data).Panic? <==>
              |data| >= 8 && GetU16(data[2], data[3]) > MAX_PAYLOAD && |data| >= 8 + GetU16(data[2], data[3])
  {
    hide Checksum, GetLittle, Int;
  }
}
