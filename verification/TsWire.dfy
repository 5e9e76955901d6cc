/** Packets, PES headers and program sections laid out as in ISO/IEC 13818-1, 2.4.3 and 2.4.4, and what the inspector
    (ts_inspector.go:191-534) reads in them. */
module TsWire {
  import opened Bytes
  import opened TsPacket
  import opened TsInspector
  import opened TsHistory
  import opened TsTables

  // ---- fields of thirteen and of twelve bits -----------------------------

  /** Three bits, then a PID. */
  function PidBytes(bits: byte, pid: nat): (b: seq<byte>)
    requires pid < 0x2000
    ensures |b| == 2
  {
    [(bits << 5) | Byte(pid / 256), Byte(pid % 256)]
  }

  /** Four bits, then a length. */
  function LengthBytes(bits: byte, n: nat): (b: seq<byte>)
    requires n < 0x1000
    ensures |b| == 2
  {
    [(bits << 4) | Byte(n / 256), Byte(n % 256)]
  }

  lemma {:induction false} LowFive(bits: byte, b: byte)
    requires Int(b) < 32
    ensures ((bits << 5) | b) & 0x1F == b
    ensures Bit((bits << 5) | b, 0x40) <==> Bit(bits, 0x02)
  {
    assert b < 32;
  }

  lemma {:induction false} LowFour(bits: byte, b: byte)
    requires Int(b) < 16
    ensures ((bits << 4) | b) & 0x0F == b
  {
    assert b < 16;
  }

  lemma {:induction false} PidBack(bits: byte, pid: nat)
    requires pid < 0x2000
    ensures var b := PidBytes(bits, pid);
            ThirteenBits(b[0], b[1]) == pid && (Bit(b[0], 0x40) <==> Bit(bits, 0x02))
  {
    hide Byte, Int, Bit;
    IntOfByte(pid / 256);
    IntOfByte(pid % 256);
    LowFive(bits, Byte(pid / 256));
  }

  lemma {:induction false} LengthBack(bits: byte, n: nat)
    requires n < 0x1000
    ensures TwelveBits(LengthBytes(bits, n)[0], LengthBytes(bits, n)[1]) == n
  {
    hide Byte, Int;
    IntOfByte(n / 256);
    IntOfByte(n % 256);
    LowFour(bits, Byte(n / 256));
  }

  // ---- packets (2.4.3.2 to 2.4.3.5) --------------------------------------

  /** The adaptation field behind its length byte, if there is one. */
  function AdaptationBytes(a: Option<seq<byte>>): seq<byte>
    requires a.Some? ==> |a.value| < 184
  {
    if a.None? then [] else [Byte(|a.value|)] + a.value
  }

  predicate Fits(pid: nat, a: Option<seq<byte>>, payload: seq<byte>) {
    pid < 0x2000 && |payload| == match a { case None => 184 case Some(f) => 183 - |f| }
  }

  function Control(scrambling: byte, a: bool, payload: bool, cc: byte): byte {
    (scrambling << 6) | (if a then 0x20 else 0x00) | (if payload then 0x10 else 0x00) | (cc & 0x0F)
  }

  function PacketOf(bits: byte, pid: nat, scrambling: byte, cc: byte, a: Option<seq<byte>>, payload: seq<byte>): Packet
    requires Fits(pid, a, payload)
  {
    [0x47] + PidBytes(bits, pid) + [Control(scrambling, a.Some?, payload != [], cc)] + AdaptationBytes(a) + payload
  }

  lemma {:induction false} ControlBits(scrambling: byte, a: bool, payload: bool, cc: byte)
    ensures var c := Control(scrambling, a, payload, cc);
            (c >> 4) & 0x03 == (if a then 0x02 else 0x00) + (if payload then 0x01 else 0x00) && c & 0x0F == cc & 0x0F
  {
  }

  lemma Layout(pid: seq<byte>, c: byte, field: seq<byte>, payload: seq<byte>)
    requires |pid| == 2
    ensures var p := [0x47] + pid + [c] + field + payload;
      && p[1] == pid[0] && p[2] == pid[1] && p[3] == c && p[4..4 + |field|] == field && p[4 + |field|..] == payload
  {
  }

  /** A length byte and the field behind it. */
  lemma {:induction false} FieldParts(p: seq<byte>, n: byte, field: seq<byte>)
    requires 5 + |field| <= |p| && p[4..5 + |field|] == [n] + field
    ensures p[4] == n && (field != [] ==> p[5] == field[0]) && (|field| >= 7 ==> p[6..12] == field[1..7])
  {
    var s := p[4..5 + |field|];
    assert forall k :: 0 <= k < |field| ==> field[k] == s[1 + k] == p[5 + k];
  }

  /** Every field of a packet is read as it was written. */
  lemma {:induction false} PacketBack(bits: byte, pid: nat, scrambling: byte, cc: byte, a: Option<seq<byte>>,
                                      payload: seq<byte>)
    requires Fits(pid, a, payload)
    ensures var p := PacketOf(bits, pid, scrambling, cc, a, payload);
      && Pid(p) == pid && (Pusi(p) <==> Bit(bits, 0x02)) && Cc(p) == cc & 0x0F
      && (HasPayload(p) <==> payload != []) && Payload(p) == payload
      && (Discontinuity(p) <==> a.Some? && a.value != [] && Bit(a.value[0], 0x80))
      && (HasPcr(p) <==> a.Some? && |a.value| >= 7 && Bit(a.value[0], 0x10))
      && (HasPcr(p) ==> p[6..12] == a.value[1..7])
  {
    hide Byte, Int, Bit, Control, PidBytes, ThirteenBits;
    var p := PacketOf(bits, pid, scrambling, cc, a, payload);
    ControlBits(scrambling, a.Some?, payload != [], cc);
    PidBack(bits, pid);
    Layout(PidBytes(bits, pid), Control(scrambling, a.Some?, payload != [], cc), AdaptationBytes(a), payload);
    if a.Some? {
      IntOfByte(|a.value|);
      FieldParts(p, Byte(|a.value|), a.value);
    }
  }

  /** A PCR on the wire is one more sample of its PID. */
  lemma {:induction false} PcrCarried(ps: seq<Packet>, p: Packet, base: nat, ext: nat)
    requires base < 0x2_0000_0000 && ext < 0x200
    requires HasPcr(p) && p[6..12] == EncodePcr(base, ext)
    ensures PcrSamples(OfPid(ps + [p], Pid(p))) == PcrSamples(OfPid(ps, Pid(p))) + [base * 300 + ext]
  {
    hide ParsePcr, EncodePcr, HasPcr, Pid;
    PcrRoundTrip(base, ext);
    assert (ps + [p])[..|ps|] == ps;
    var h := OfPid(ps, Pid(p));
    assert (h + [p])[..|h|] == h;
  }

  // ---- PES headers (2.4.3.6, 2.4.3.7) ------------------------------------

  datatype Stamps = Unstamped | Presented(pts: nat) | Decoded(pts: nat, dts: nat)

  predicate InRange(st: Stamps) {
    (!st.Unstamped? ==> st.pts < 0x2_0000_0000) && (st.Decoded? ==> st.dts < 0x2_0000_0000)
  }

  function StampBytes(st: Stamps): seq<byte>
    requires InRange(st)
  {
    match st
    case Unstamped => []
    case Presented(pts) => EncodeTimestamp(0x02, pts)
    case Decoded(pts, dts) => EncodeTimestamp(0x03, pts) + EncodeTimestamp(0x01, dts)
  }

  /** PTS_DTS_flags; 1 is forbidden and stands for no stamp. */
  predicate Flagged(st: Stamps, flags: byte) {
    var two := (flags >> 6) & 0x03;
    match st
    case Unstamped => two == 0x00 || two == 0x01
    case Presented(_) => two == 0x02
    case Decoded(_, _) => two == 0x03
  }

  /** Start code, stream id and packet length; two bytes of flags; the header's length, its fields, and the data.
      `other` holds the fields after the time stamps, with the stuffing. */
  function PesUnit(id: byte, length: seq<byte>, marks: byte, flags: byte, st: Stamps, other: seq<byte>, data: seq<byte>)
    : seq<byte>
    requires |length| == 2 && InRange(st) && |StampBytes(st)| + |other| < 256
  {
    [0x00, 0x00, 0x01, id] + length + [marks, flags, Byte(|StampBytes(st)| + |other|)] + StampBytes(st) + other + data
  }

  function Stamped(st: Stamps): Pes {
    Pes(if st.Unstamped? then None else Some(st.pts), if st.Decoded? then Some(st.dts) else None)
  }

  /** A header that lies in its packet gives exactly the time stamps it was written with. */
  lemma {:induction false} PesBack(id: byte, length: seq<byte>, marks: byte, flags: byte, st: Stamps, other: seq<byte>,
                                   data: seq<byte>)
    requires |length| == 2 && InRange(st) && |StampBytes(st)| + |other| < 256 && Flagged(st, flags)
    ensures ParsePes(PesUnit(id, length, marks, flags, st, other, data)) == Stamped(st)
  {
    hide Byte, Int, ParseTimestamp, EncodeTimestamp;
    var u := PesUnit(id, length, marks, flags, st, other, data);
    IntOfByte(|StampBytes(st)| + |other|);
    assert u[7] == flags && u[8] == Byte(|StampBytes(st)| + |other|);
    match st {
      case Unstamped =>
      case Presented(pts) =>
        StampSize(0x02, pts);
        TimestampRoundTrip(0x02, pts);
        assert u[9..14] == EncodeTimestamp(0x02, pts);
      case Decoded(pts, dts) =>
        StampSize(0x03, pts);
        StampSize(0x01, dts);
        TimestampRoundTrip(0x03, pts);
        TimestampRoundTrip(0x01, dts);
        assert u[9..14] == EncodeTimestamp(0x03, pts) && u[14..19] == EncodeTimestamp(0x01, dts);
    }
  }

  lemma StampSize(prefix: byte, v: nat)
    requires v < 0x2_0000_0000
    ensures |EncodeTimestamp(prefix, v)| == 5
  {
  }

  /** Nothing is read without the start code, nor of a header that goes on in the next packet. */
  lemma {:induction false} NoPes(payload: seq<byte>)
    requires [0x00, 0x00, 0x01] <= payload ==> |payload| < 9 || |payload| < 9 + Int(payload[8])
    ensures ParsePes(payload) == Pes(None, None)
  {
    if |payload| >= 14 && payload[0] == 0x00 && payload[1] == 0x00 && payload[2] == 0x01 {
      assert payload[..3] == [0x00, 0x00, 0x01];
    }
  }

  /** The stream ids whose packets have no flags and no header, only data: maps, padding, private_stream_2, ECM, EMM,
      DSM-CC, H.222.1 type E and directories (section 2.4.3.7). */
  predicate Headerless(id: byte) {
    id in {0xBC, 0xBE, 0xBF, 0xF0, 0xF1, 0xF2, 0xF8, 0xFF}
  }

  /** The data of a packet without a header happen to look like one with a time stamp. */
  predicate LooksStamped(data: seq<byte>) {
    && |data| >= 8 && 3 + Int(data[2]) <= |data| && Bit(data[1], 0x80)
    && Bit(data[3], 0x01) && Bit(data[5], 0x01) && Bit(data[7], 0x01)
  }

  /** ... and exactly then a time stamp is read where there is none. */
  lemma {:induction false} HeaderlessReadIff(id: byte, length: seq<byte>, data: seq<byte>)
    requires Headerless(id) && |length| == 2
    ensures ParsePes([0x00, 0x00, 0x01, id] + length + data).pts.Some? <==> LooksStamped(data)
  {
    var u := [0x00, 0x00, 0x01, id] + length + data;
    assert |u| == 6 + |data|;
    if |data| >= 8 {
      assert u[7] == data[1] && u[8] == data[2];
      assert u[9..14][0] == data[3] && u[9..14][2] == data[5] && u[9..14][4] == data[7];
      TopTwo(data[1]);
      LowBit(data[3]);
      LowBit(data[5]);
      LowBit(data[7]);
    }
  }

  lemma TopTwo(b: byte)
    ensures (b >> 6) & 0x03 == 0x02 || (b >> 6) & 0x03 == 0x03 <==> b & 0x80 != 0
  {
  }

  lemma LowBit(b: byte)
    ensures b & 0x01 == 0x01 <==> b & 0x01 != 0
  {
  }

  /** It happens, in a packet of private data. */
  lemma {:induction false} PrivateDataRead()
    ensures ParsePes([0x00, 0x00, 0x01, 0xBF, 0x00, 0x08, 0x00, 0x80, 0x05, 0x21, 0x00, 0x01, 0x00, 0x01]).pts.Some?
  {
    var data: seq<byte> := [0x00, 0x80, 0x05, 0x21, 0x00, 0x01, 0x00, 0x01];
    HeaderlessReadIff(0xBF, [0x00, 0x08], data);
    assert [0x00, 0x00, 0x01, 0xBF] + [0x00, 0x08] + data ==
           [0x00, 0x00, 0x01, 0xBF, 0x00, 0x08, 0x00, 0x80, 0x05, 0x21, 0x00, 0x01, 0x00, 0x01];
  }

  /** The packet in which a PES packet starts adds its time stamps to the clocks of its PID, and to no other's. */
  lemma {:induction false} PesCarried(ps: seq<Packet>, p: Packet, id: byte, length: seq<byte>, marks: byte, flags: byte,
                                      st: Stamps, other: seq<byte>, data: seq<byte>, q: nat)
    requires |length| == 2 && InRange(st) && |StampBytes(st)| + |other| < 256 && Flagged(st, flags)
    requires Pusi(p) && Payload(p) == PesUnit(id, length, marks, flags, st, other, data)
    requires Pid(p) != 0 && ProgramAt(ps) != Some(Pid(p))
    ensures var pts := PtsOf(ps, q) + if q == Pid(p) && !st.Unstamped? then [st.pts] else [];
            var dts := DtsOf(ps, q) + if q == Pid(p) && st.Decoded? then [st.dts] else [];
            var s := Stat(Fold(START, ps + [p]).pids, q);
            s.pts == ClockOf(pts) && s.dts == ClockOf(dts)
  {
    hide Payload, PesUnit, ParsePes, Stat, Fold, ClockOf, Pusi, Pid;
    PesBack(id, length, marks, flags, st, other, data);
    UnitNotEmpty(id, length, marks, flags, st, other, data);
    MarksAreHistory(ps + [p], q);
    assert (ps + [p])[..|ps|] == ps;
    assert PesOf(ps, p) == Stamped(st);
  }

  lemma UnitNotEmpty(id: byte, length: seq<byte>, marks: byte, flags: byte, st: Stamps, other: seq<byte>,
                     data: seq<byte>)
    requires |length| == 2 && InRange(st) && |StampBytes(st)| + |other| < 256
    ensures PesUnit(id, length, marks, flags, st, other, data) != []
  {
  }

  // ---- program sections (2.4.4) ------------------------------------------

  /** A payload unit that holds a section: the pointer field and what it skips; then the section and what follows it. */
  function SectionUnit(gap: seq<byte>, section: seq<byte>, rest: seq<byte>): seq<byte>
    requires |gap| < 256
  {
    [Byte(|gap|)] + gap + section + rest
  }

  lemma {:induction false} SectionBack(gap: seq<byte>, section: seq<byte>, rest: seq<byte>)
    requires |gap| < 256 && section != []
    ensures Section(SectionUnit(gap, section, rest)) == section + rest
  {
    hide Byte, Int;
    IntOfByte(|gap|);
  }

  /** A program of a PAT; number 0 names the network information table. */
  datatype Entry = Entry(number: nat, pid: nat)

  predicate EntriesOk(es: seq<Entry>) {
    forall e <- es :: e.number < 0x1_0000 && e.pid < 0x2000
  }

  function EntryBytes(e: Entry): (b: seq<byte>)
    requires e.number < 0x1_0000 && e.pid < 0x2000
    ensures |b| == 4
  {
    [Byte(e.number / 256), Byte(e.number % 256)] + PidBytes(0x07, e.pid)
  }

  function EntriesBytes(es: seq<Entry>): (b: seq<byte>)
    requires EntriesOk(es)
    ensures |b| == 4 * |es|
  {
    if es == [] then [] else EntryBytes(es[0]) + EntriesBytes(es[1..])
  }

  /** The program a PAT announces to the inspector: its first that is one. */
  function Announced(es: seq<Entry>): Option<nat> {
    if es == [] then None else if es[0].number != 0 then Some(es[0].pid) else Announced(es[1..])
  }

  /** Table id and length; five bytes of id, version and numbering; the programs; the CRC. */
  function PatOfEntries(fixed: seq<byte>, es: seq<Entry>, crc: seq<byte>): seq<byte>
    requires |fixed| == 5 && |crc| == 4 && EntriesOk(es) && |es| < 0x3F0
  {
    [0x00] + LengthBytes(0x0B, 9 + 4 * |es|) + fixed + EntriesBytes(es) + crc
  }

  lemma {:induction false} NumberZero(n: nat)
    requires n < 0x1_0000
    ensures Byte(n / 256) != 0 || Byte(n % 256) != 0 <==> n != 0
  {
    hide Byte;
    IntOfByte(n / 256);
    IntOfByte(n % 256);
    IntOfByte(0);
    ByteOfInt(0);
  }

  lemma {:induction false} EntriesBack(sec: seq<byte>, i: nat, es: seq<Entry>)
    requires EntriesOk(es) && i + 4 * |es| + 4 <= |sec| && sec[i..i + 4 * |es|] == EntriesBytes(es)
    ensures FirstProgram(sec, i, i + 4 * |es| + 4) == Announced(es)
    decreases |es|
  {
    hide Byte, PidBytes, ThirteenBits;
    if es != [] {
      var e := es[0];
      var b := sec[i..i + 4 * |es|];
      assert b[..4] == EntryBytes(e) && b[4..] == EntriesBytes(es[1..]);
      assert sec[i] == b[..4][0] && sec[i + 1] == b[..4][1] && sec[i + 2] == b[..4][2] && sec[i + 3] == b[..4][3];
      assert sec[i + 4..i + 4 + 4 * |es[1..]|] == b[4..];
      NumberZero(e.number);
      PidBack(0x07, e.pid);
      EntriesBack(sec, i + 4, es[1..]);
    }
  }

  /** Whatever programs a PAT lists, the PID read from it is that of the first one with a number; without one it is no
      table. */
  lemma {:induction false} PatBack(gap: seq<byte>, fixed: seq<byte>, es: seq<Entry>, crc: seq<byte>, rest: seq<byte>)
    requires |gap| < 256 && |fixed| == 5 && |crc| == 4 && EntriesOk(es) && |es| < 0x3F0
    ensures PatProgram(SectionUnit(gap, PatOfEntries(fixed, es, crc), rest)) == Announced(es)
  {
    hide SectionUnit, Section, LengthBytes, TwelveBits, EntriesBytes, FirstProgram;
    var pat := PatOfEntries(fixed, es, crc);
    var sec := pat + rest;
    SectionBack(gap, pat, rest);
    LengthBack(0x0B, 9 + 4 * |es|);
    assert sec[1] == LengthBytes(0x0B, 9 + 4 * |es|)[0] && sec[2] == LengthBytes(0x0B, 9 + 4 * |es|)[1];
    assert sec[8..8 + 4 * |es|] == EntriesBytes(es);
    EntriesBack(sec, 8, es);
  }

  /** A stream of a PMT with its descriptors. */
  datatype Listed = Listed(streamType: byte, pid: nat, info: seq<byte>)

  predicate ListedOk(ls: seq<Listed>) {
    forall l <- ls :: l.pid < 0x2000 && |l.info| < 0x1000
  }

  function ListedBytes(ls: seq<Listed>): seq<byte>
    requires ListedOk(ls)
  {
    if ls == [] then []
    else
      var l := ls[0];
      [l.streamType] + PidBytes(0x07, l.pid) + LengthBytes(0x0F, |l.info|) + l.info + ListedBytes(ls[1..])
  }

  function StreamsOf(ls: seq<Listed>): seq<Stream> {
    seq(|ls|, i requires 0 <= i < |ls| => Stream(ls[i].pid, ls[i].streamType))
  }

  /** Table id and length; five fixed bytes; the PCR PID; the program's descriptors; the streams; the CRC. */
  function PmtOfListed(fixed: seq<byte>, pcrPid: nat, descriptors: seq<byte>, ls: seq<Listed>, crc: seq<byte>)
    : seq<byte>
    requires |fixed| == 5 && |crc| == 4 && pcrPid < 0x2000 && ListedOk(ls)
    requires 13 + |descriptors| + |ListedBytes(ls)| < 0x1000
  {
    [0x02] + LengthBytes(0x0B, 13 + |descriptors| + |ListedBytes(ls)|) + fixed + PidBytes(0x07, pcrPid)
    + LengthBytes(0x0F, |descriptors|) + descriptors + ListedBytes(ls) + crc
  }

  lemma {:induction false} ListedHead(sec: seq<byte>, i: nat, l: Listed, tail: seq<byte>)
    requires l.pid < 0x2000 && |l.info| < 0x1000
    requires i + 5 + |l.info| + |tail| <= |sec|
    requires sec[i..i + 5 + |l.info| + |tail|] ==
               [l.streamType] + PidBytes(0x07, l.pid) + LengthBytes(0x0F, |l.info|) + l.info + tail
    ensures sec[i] == l.streamType && ThirteenBits(sec[i + 1], sec[i + 2]) == l.pid
    ensures TwelveBits(sec[i + 3], sec[i + 4]) == |l.info|
    ensures sec[i + 5 + |l.info|..i + 5 + |l.info| + |tail|] == tail
  {
    hide PidBytes, LengthBytes, ThirteenBits, TwelveBits;
    PidBack(0x07, l.pid);
    LengthBack(0x0F, |l.info|);
    var n := 5 + |l.info|;
    var b := sec[i..i + n + |tail|];
    assert b[n..] == tail && sec[i + n..i + n + |tail|] == b[n..];
    assert b[1] == PidBytes(0x07, l.pid)[0] && b[2] == PidBytes(0x07, l.pid)[1];
    assert b[3] == LengthBytes(0x0F, |l.info|)[0] && b[4] == LengthBytes(0x0F, |l.info|)[1];
  }

  lemma ListedSplit(ls: seq<Listed>)
    requires ListedOk(ls) && ls != []
    ensures var l := ls[0];
      ListedBytes(ls) == [l.streamType] + PidBytes(0x07, l.pid) + LengthBytes(0x0F, |l.info|) + l.info
                         + ListedBytes(ls[1..])
  {
  }

  lemma StreamsSplit(ls: seq<Listed>)
    requires ls != []
    ensures StreamsOf(ls) == [Stream(ls[0].pid, ls[0].streamType)] + StreamsOf(ls[1..])
  {
  }

  lemma {:induction false} ListedBack(sec: seq<byte>, i: nat, ls: seq<Listed>)
    requires ListedOk(ls)
    requires i + |ListedBytes(ls)| + 4 <= |sec| && sec[i..i + |ListedBytes(ls)|] == ListedBytes(ls)
    ensures StreamsFrom(sec, i, i + |ListedBytes(ls)| + 4) == StreamsOf(ls)
    decreases |ls|
  {
    hide PidBytes, LengthBytes, ThirteenBits, TwelveBits, StreamsFrom;
    var end := i + |ListedBytes(ls)| + 4;
    if ls == [] {
      StreamsEnd(sec, i, end);
    } else {
      var l, tail := ls[0], ls[1..];
      hide StreamsOf, ListedBytes;
      ListedSplit(ls);
      StreamsSplit(ls);
      ListedHead(sec, i, l, ListedBytes(tail));
      ListedBack(sec, i + 5 + |l.info|, tail);
      StreamsStep(sec, i, end);
    }
  }

  /** Whatever a program map lists, its PCR PID and each stream's PID and type are read, over all descriptors. */
  lemma {:induction false} PmtBack(gap: seq<byte>, fixed: seq<byte>, pcrPid: nat, descriptors: seq<byte>,
                                   ls: seq<Listed>, crc: seq<byte>, rest: seq<byte>)
    requires |gap| < 256 && |fixed| == 5 && |crc| == 4 && pcrPid < 0x2000 && ListedOk(ls)
    requires 13 + |descriptors| + |ListedBytes(ls)| < 0x1000
    ensures PmtContents(SectionUnit(gap, PmtOfListed(fixed, pcrPid, descriptors, ls, crc), rest))
         == Some(Pmt(pcrPid, StreamsOf(ls)))
  {
    hide SectionUnit, Section, LengthBytes, PidBytes, ThirteenBits, TwelveBits, ListedBytes, StreamsFrom, StreamsOf;
    var pmt := PmtOfListed(fixed, pcrPid, descriptors, ls, crc);
    var sec := pmt + rest;
    var len, d, s := 13 + |descriptors| + |ListedBytes(ls)|, |descriptors|, |ListedBytes(ls)|;
    SectionBack(gap, pmt, rest);
    LengthBack(0x0B, len);
    LengthBack(0x0F, d);
    PidBack(0x07, pcrPid);
    assert sec[1] == LengthBytes(0x0B, len)[0] && sec[2] == LengthBytes(0x0B, len)[1];
    assert sec[8] == PidBytes(0x07, pcrPid)[0] && sec[9] == PidBytes(0x07, pcrPid)[1];
    assert sec[10] == LengthBytes(0x0F, d)[0] && sec[11] == LengthBytes(0x0F, d)[1];
    assert sec[12 + d..12 + d + s] == ListedBytes(ls);
    ListedBack(sec, 12 + d, ls);
  }

  /** A PAT on the wire moves the program; one without programs leaves it. */
  lemma {:induction false} PatCarried(ps: seq<Packet>, p: Packet, gap: seq<byte>, fixed: seq<byte>, es: seq<Entry>,
                                      crc: seq<byte>, rest: seq<byte>)
    requires |gap| < 256 && |fixed| == 5 && |crc| == 4 && EntriesOk(es) && |es| < 0x3F0
    requires Pusi(p) && Pid(p) == 0 && Payload(p) == SectionUnit(gap, PatOfEntries(fixed, es, crc), rest)
    ensures var found := ProgramOf(Fold(START, ps + [p]));
      && found.pmtPid == (if Announced(es).Some? then Announced(es) else ProgramAt(ps))
      && found.pats == Tables(ps) + Count(Announced(es).Some?)
  {
    hide Payload, PatOfEntries, Pusi, Pid, Fold, PatProgram;
    PatBack(gap, fixed, es, crc, rest);
    ProgramIsHistory(ps + [p]);
    assert (ps + [p])[..|ps|] == ps;
  }

  /** A program map on the wire names the PCR PID and the types of its streams. */
  lemma {:induction false} PmtCarried(ps: seq<Packet>, p: Packet, gap: seq<byte>, fixed: seq<byte>, pcrPid: nat,
                                      descriptors: seq<byte>, ls: seq<Listed>, crc: seq<byte>, rest: seq<byte>, q: nat)
    requires |gap| < 256 && |fixed| == 5 && |crc| == 4 && pcrPid < 0x2000 && ListedOk(ls)
    requires 13 + |descriptors| + |ListedBytes(ls)| < 0x1000
    requires Pusi(p) && Pid(p) != 0 && ProgramAt(ps) == Some(Pid(p))
    requires Payload(p) == SectionUnit(gap, PmtOfListed(fixed, pcrPid, descriptors, ls, crc), rest)
    ensures var st := Fold(START, ps + [p]);
      && ProgramOf(st).pcrPid == Some(pcrPid) && ProgramOf(st).pmts == Maps(ps) + 1
      && (Named(StreamsOf(ls), q).Some? ==> MarksOf(Stat(st.pids, q)).streamType == Named(StreamsOf(ls), q))
  {
    hide Payload, PmtOfListed, Pusi, Pid, Fold, PmtContents, StreamsOf, Named, Stat;
    PmtBack(gap, fixed, pcrPid, descriptors, ls, crc, rest);
    ProgramIsHistory(ps + [p]);
    MarksAreHistory(ps + [p], q);
    assert (ps + [p])[..|ps|] == ps;
  }
}
