/** internal/tuner/psi_keepalive.go: the PAT and PMT packets sent while a stream starts up. */
module PsiKeepalive {
  import opened Bytes
  import opened TsPacket
  import opened Crc
  import opened Sinks

  const PMT_PID: nat := 0x1000
  const VIDEO_PID: nat := 0x0100
  const AUDIO_PID: nat := 0x0101

  /** ISO/IEC 13818-1, 2.4.4.3: one program, number 1, at PMT_PID. */
  function PatSection(): (s: seq<byte>)
    ensures |s| == 12
  {
    [0x00, 0xB0, 0x0D, 0x00, 0x01, 0xC1, 0x00, 0x00, 0x00, 0x01, 0xF0, 0x00]
  }

  /** ISO/IEC 13818-1, 2.4.4.8: H.264 video, which also carries the PCR, and AAC audio. */
  function PmtSection(): (s: seq<byte>)
    ensures |s| == 22
  {
    [0x02, 0xB0, 0x17, 0x00, 0x01, 0xC1, 0x00, 0x00, 0xE1, 0x00, 0xF0, 0x00,
     0x1B, 0xE1, 0x00, 0xF0, 0x00, 0x0F, 0xE1, 0x01, 0xF0, 0x00]
  }

  /** A section closed by its CRC, in a packet of its own padded with 0xFF. */
  function SectionPacket(b1: byte, b2: byte, cc: byte, section: seq<byte>): (p: Packet)
    requires |section| <= 179
  {
    [0x47, b1, b2, 0x10 | (cc & 0x0F), 0x00] + section + BigEndian(Crc32(section)) + seq(179 - |section|, _ => 0xFF)
  }

  function PatPacket(cc: byte): Packet {
    SectionPacket(0x40, 0x00, cc, PatSection())
  }

  function PmtPacket(cc: byte): Packet {
    SectionPacket(0x50, 0x00, cc, PmtSection())
  }

  /** Consecutive byte stores from index off on. */
  method Put(pkt: array<byte>, off: nat, data: seq<byte>)
    requires off + |data| <= pkt.Length
    modifies pkt
    ensures pkt[..] == old(pkt[..off]) + data + old(pkt[off + |data|..])
  {
    for i := 0 to |data|
      invariant forall k :: 0 <= k < pkt.Length ==>
        pkt[k] == if off <= k < off + i then data[k - off] else old(pkt[k])
    {
      pkt[off + i] := data[i];
    }
  }

  /** Header, section, its CRC and the 0xFF padding, written in the order of both builders. */
  method BuildSectionPacket(b1: byte, b2: byte, cc: byte, section: seq<byte>) returns (pkt: array<byte>)
    requires |section| <= 179
    ensures fresh(pkt) && pkt[..] == SectionPacket(b1, b2, cc, section)
  {
    hide Crc32, BigEndian;
    pkt := new byte[188](_ => 0);
    Put(pkt, 0, [0x47, b1, b2, 0x10 | (cc & 0x0F), 0x00]);
    Put(pkt, 5, section);
    var end := 5 + |section|;
    assert pkt[5..end] == section;
    var crc := MpegTsCrc32(pkt[5..end]);
    Put(pkt, end, BigEndian(crc));
    ghost var head := pkt[..end + 4];
    assert head == [0x47, b1, b2, 0x10 | (cc & 0x0F), 0x00] + section + BigEndian(crc);
    for i := end + 4 to 188
      invariant pkt[..end + 4] == head
      invariant forall k :: end + 4 <= k < i ==> pkt[k] == 0xFF
    {
      pkt[i] := 0xFF;
    }
    assert pkt[..] == head + pkt[end + 4..];
  }

  method BuildPat(cc: byte) returns (pkt: array<byte>)
    ensures fresh(pkt) && pkt[..] == PatPacket(cc)
  {
    pkt := BuildSectionPacket(0x40, 0x00, cc,
      [0x00, 0xB0, 0x0D, 0x00, 0x01, 0xC1, 0x00, 0x00, 0x00, 0x01, 0xF0, 0x00]);
  }

  method BuildPmt(cc: byte) returns (pkt: array<byte>)
    ensures fresh(pkt) && pkt[..] == PmtPacket(cc)
  {
    pkt := BuildSectionPacket(0x50, 0x00, cc,
      [0x02, 0xB0, 0x17, 0x00, 0x01, 0xC1, 0x00, 0x00, 0xE1, 0x00, 0xF0, 0x00,
       0x1B, 0xE1, 0x00, 0xF0, 0x00, 0x0F, 0xE1, 0x01, 0xF0, 0x00]);
  }

  /** Every built section, with the CRC behind it, checks to zero in the decoder of Annex A. */
  lemma {:induction false} BuiltSectionsCheck(cc: byte)
    ensures Crc32(PatPacket(cc)[5..21]) == 0
    ensures Crc32(PmtPacket(cc)[5..31]) == 0
  {
    hide Crc32, BigEndian;
    var pat, pmt := PatSection(), PmtSection();
    assert PatPacket(cc)[5..21] == pat + BigEndian(Crc32(pat));
    assert PmtPacket(cc)[5..31] == pmt + BigEndian(Crc32(pmt));
    SelfCheck(pat, BigEndian(Crc32(pat)));
    SelfCheck(pmt, BigEndian(Crc32(pmt)));
  }

  // ---- the ticks ---------------------------------------------------------

  /** The counter of the k-th packet of either table (psi_keepalive.go:204-205). */
  function CounterAt(k: nat): byte {
    if k == 0 then 0 else (CounterAt(k - 1) + 1) & 0x0F
  }

  /** The packets of the first n ticks. */
  function TickPackets(n: nat): seq<Packet> {
    if n == 0 then [] else TickPackets(n - 1) + [PatPacket(CounterAt(n - 1)), PmtPacket(CounterAt(n - 1))]
  }

  /** The goroutine's loop, stopped after at most n ticks or at the first failed write. */
  method Keepalive(dst: Sink, n: nat) returns (ticks: nat, ok: bool)
    modifies dst
    ensures ticks <= n && (ok <==> ticks == n)
    ensures ok <==> old(dst.room) >= 2 * n
    ensures ok ==> dst.bytes == old(dst.bytes) + Join(TickPackets(n))
    ensures !ok ==>
      || dst.bytes == old(dst.bytes) + Join(TickPackets(ticks))
      || dst.bytes == old(dst.bytes) + Join(TickPackets(ticks)) + PatPacket(CounterAt(ticks))
  {
    hide PatPacket, PmtPacket, CounterAt, Join, TickPackets;
    NoTicks();
    var patCC: byte, pmtCC: byte := 0, 0;
    ticks := 0;
    while ticks < n
      invariant ticks <= n && patCC == pmtCC == CounterAt(ticks)
      invariant dst.bytes == old(dst.bytes) + Join(TickPackets(ticks))
      invariant dst.room + 2 * ticks == old(dst.room)
    {
      var pat := BuildPat(patCC);
      var pmt := BuildPmt(pmtCC);
      patCC := (patCC + 1) & 0x0F;
      pmtCC := (pmtCC + 1) & 0x0F;
      var wrote := dst.Write(pat[..]);
      if !wrote { return ticks, false; }
      wrote := dst.Write(pmt[..]);
      if !wrote { return ticks, false; }
      TicksJoin(ticks);
      CounterStep(ticks);
      ticks := ticks + 1;
    }
    return ticks, true;
  }

  lemma NoTicks()
    ensures Join(TickPackets(0)) == [] && CounterAt(0) == 0
  {
  }

  lemma CounterStep(k: nat)
    ensures CounterAt(k + 1) == (CounterAt(k) + 1) & 0x0F
  {
  }

  lemma {:induction false} TicksJoin(k: nat)
    ensures Join(TickPackets(k + 1)) == Join(TickPackets(k)) + PatPacket(CounterAt(k)) + PmtPacket(CounterAt(k))
  {
    hide PatPacket, PmtPacket;
    var pat, pmt := PatPacket(CounterAt(k)), PmtPacket(CounterAt(k));
    assert TickPackets(k) + [pat, pmt] == (TickPackets(k) + [pat]) + [pmt];
    JoinSnoc(TickPackets(k), pat);
    JoinSnoc(TickPackets(k) + [pat], pmt);
  }
}
