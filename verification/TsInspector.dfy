/** internal/tuner/ts_inspector.go: per-PID continuity, clock and table statistics of a transport stream.
    The class below is the source's inspector; Step, Fold and Summary say what it computes. */
module TsInspector {
  import opened Bytes
  import opened TsPacket

  // ---- clocks ------------------------------------------------------------

  /** The source's uint64 ticks stay below 2^42, so they are numbers here. */
  datatype Clock = Clock(count: nat, first: nat, last: nat, backwards: nat, minDelta: nat, maxDelta: nat)

  const NO_CLOCK := Clock(0, 0, 0, 0, 0, 0)

  /** recordTickGeneric: the minimum is seeded only by a second sample that is not backwards. */
  function Record(t: Clock, v: nat): Clock {
    if t.count == 0 then t.(count := 1, first := v, last := v)
    else if v < t.last then t.(count := t.count + 1, last := v, backwards := t.backwards + 1)
    else
      var d := v - t.last;
      t.(count := t.count + 1, last := v,
         minDelta := if t.count == 1 || d < t.minDelta then d else t.minDelta,
         maxDelta := if d > t.maxDelta then d else t.maxDelta)
  }

  /** parseTSPCR: 33 bits of 90 kHz base and 9 bits of 27 MHz extension; shifts written as products. */
  function ParsePcr(b: seq<byte>): nat
    requires |b| >= 6
  {
    var base := Int(b[0]) * 0x200_0000 + Int(b[1]) * 0x2_0000 + Int(b[2]) * 0x200 + Int(b[3]) * 2 + Int(b[4] >> 7);
    var ext := Int(b[4] & 0x01) * 256 + Int(b[5]);
    base * 300 + ext
  }

  /** parseMPEGTimestamp33: 33 bits spread over five bytes, rejected when a marker bit is missing. */
  function ParseTimestamp(b: seq<byte>): Option<nat>
    requires |b| >= 5
  {
    if b[0] & 0x01 != 0x01 || b[2] & 0x01 != 0x01 || b[4] & 0x01 != 0x01 then None
    else Some(Int((b[0] >> 1) & 0x07) * 0x4000_0000 + Int(b[1]) * 0x40_0000 + Int((b[2] >> 1) & 0x7F) * 0x8000
            + Int(b[3]) * 0x80 + Int((b[4] >> 1) & 0x7F))
  }

  datatype Pes = Pes(pts: Option<nat>, dts: Option<nat>)

  /** parsePESPTSDTS. */
  function ParsePes(payload: seq<byte>): Pes {
    if |payload| < 14 || payload[0] != 0x00 || payload[1] != 0x00 || payload[2] != 0x01 then Pes(None, None)
    else if 9 + Int(payload[8]) > |payload| then Pes(None, None)
    else
      var flags := (payload[7] >> 6) & 0x03;
      var pts := if flags == 0x02 || flags == 0x03 then ParseTimestamp(payload[9..14]) else None;
      var dts := if flags == 0x03 && 19 <= |payload| then ParseTimestamp(payload[14..19]) else None;
      Pes(pts, dts)
  }

  // ---- program tables ----------------------------------------------------

  function TwelveBits(hi: byte, lo: byte): nat {
    Int(hi & 0x0F) * 256 + Int(lo)
  }

  /** The section after the pointer field, if it starts inside the payload. */
  function Section(payload: seq<byte>): seq<byte> {
    if |payload| < 1 || 1 + Int(payload[0]) >= |payload| then [] else payload[1 + Int(payload[0])..]
  }

  /** The first program with a non-zero number among the entries of a PAT section, from index i on. */
  function FirstProgram(sec: seq<byte>, i: nat, end: nat): Option<nat>
    requires end <= |sec|
    decreases end - i
  {
    if i + 8 > end then None
    else if sec[i] != 0 || sec[i + 1] != 0 then Some(ThirteenBits(sec[i + 2], sec[i + 3]))
    else FirstProgram(sec, i + 4, end)
  }

  function PatProgram(payload: seq<byte>): Option<nat> {
    var sec := Section(payload);
    if |sec| < 8 || sec[0] != 0x00 then None
    else
      var len := TwelveBits(sec[1], sec[2]);
      if len < 9 || 3 + len > |sec| then None else FirstProgram(sec, 8, 3 + len)
  }

  datatype Stream = Stream(pid: nat, streamType: byte)
  datatype Pmt = Pmt(pcrPid: nat, streams: seq<Stream>)

  /** The elementary streams of a PMT section, from index i on. */
  function StreamsFrom(sec: seq<byte>, i: nat, end: nat): seq<Stream>
    requires end <= |sec|
    decreases end - i
  {
    if i + 9 > end then
      []
    else
      [Stream(ThirteenBits(sec[i + 1], sec[i + 2]), sec[i])]
      + StreamsFrom(sec, i + 5 + TwelveBits(sec[i + 3], sec[i + 4]), end)
  }

  lemma StreamsStep(sec: seq<byte>, i: nat, end: nat)
    requires i + 9 <= end <= |sec|
    ensures StreamsFrom(sec, i, end) == [Stream(ThirteenBits(sec[i + 1], sec[i + 2]), sec[i])]
                                      + StreamsFrom(sec, i + 5 + TwelveBits(sec[i + 3], sec[i + 4]), end)
  {
  }

  lemma StreamsEnd(sec: seq<byte>, i: nat, end: nat)
    requires end <= |sec|
    ensures i + 9 > end ==> StreamsFrom(sec, i, end) == []
  {
  }

  function PmtContents(payload: seq<byte>): Option<Pmt> {
    var sec := Section(payload);
    if |sec| < 12 || sec[0] != 0x02 then None
    else
      var len := TwelveBits(sec[1], sec[2]);
      if len < 13 || 3 + len > |sec| then None
      else Some(Pmt(ThirteenBits(sec[8], sec[9]), StreamsFrom(sec, 12 + TwelveBits(sec[10], sec[11]), 3 + len)))
  }

  // ---- state -------------------------------------------------------------

  datatype PidStats = PidStats(
    pid: nat, streamType: byte, streamTypeKnown: bool,
    packets: nat, payloadPackets: nat, pusi: nat,
    ccSeen: bool, lastCc: byte, ccErrors: nat, ccDup: nat, discPackets: nat,
    pcr: Clock, pts: Clock, dts: Clock)

  function NewStats(pid: nat): PidStats {
    PidStats(pid, 0, false, 0, 0, 0, false, 0, 0, 0, 0, NO_CLOCK, NO_CLOCK, NO_CLOCK)
  }

  type Table = map<nat, PidStats>

  /** pidStat: a PID never seen before has fresh statistics. */
  function Stat(pids: Table, pid: nat): PidStats {
    if pid in pids then pids[pid] else NewStats(pid)
  }

  datatype State = State(
    packets: nat, ccErrs: nat, ccDup: nat, disc: nat, patCount: nat, pmtCount: nat,
    pmtPid: nat, pmtPidSet: bool, pcrPid: nat, pcrPidSet: bool, pids: Table)

  const START := State(0, 0, 0, 0, 0, 0, 0, false, 0, false, map[])

  /** What the continuity counter of a packet says, given the PID's last payload packet. */
  datatype Verdict = Continuous | Duplicate | Lost

  function Judge(s: PidStats, p: seq<byte>): Verdict
    requires |p| == 188
  {
    if !HasPayload(p) || !s.ccSeen || Cc(p) == (s.lastCc + 1) & 0x0F || Discontinuity(p) then Continuous
    else if Cc(p) == s.lastCc then Duplicate
    else Lost
  }

  function Count(b: bool): nat {
    if b then 1 else 0
  }

  function AccountAdaptation(s: PidStats, p: seq<byte>): PidStats
    requires |p| == 188
  {
    s.(packets := s.packets + 1,
       pusi := s.pusi + Count(Pusi(p)),
       discPackets := s.discPackets + Count(Discontinuity(p)),
       pcr := if HasPcr(p) then Record(s.pcr, ParsePcr(p[6..12])) else s.pcr)
  }

  function AccountPayload(s: PidStats, p: seq<byte>): PidStats
    requires |p| == 188
  {
    if !HasPayload(p) then s
    else s.(payloadPackets := s.payloadPackets + 1,
            ccDup := s.ccDup + Count(Judge(s, p).Duplicate?),
            ccErrors := s.ccErrors + Count(Judge(s, p).Lost?),
            ccSeen := true,
            lastCc := Cc(p))
  }

  function Account(s: PidStats, p: seq<byte>): PidStats
    requires |p| == 188
  {
    AccountPayload(AccountAdaptation(s, p), p)
  }

  lemma JudgeIgnoresAdaptation(s: PidStats, p: seq<byte>)
    requires |p| == 188
    ensures Judge(AccountAdaptation(s, p), p) == Judge(s, p)
  {
  }

  function WithStreams(pids: Table, streams: seq<Stream>): Table
    decreases |streams|
  {
    if streams == [] then pids
    else
      var s := streams[0];
      WithStreams(pids[s.pid := Stat(pids, s.pid).(streamType := s.streamType, streamTypeKnown := true)], streams[1..])
  }

  function AddPes(s: PidStats, pes: Pes): PidStats {
    s.(pts := if pes.pts.Some? then Record(s.pts, pes.pts.value) else s.pts,
       dts := if pes.dts.Some? then Record(s.dts, pes.dts.value) else s.dts)
  }

  function Tally(st: State, p: seq<byte>): State
    requires |p| == 188
  {
    var s := Stat(st.pids, Pid(p));
    st.(packets := st.packets + 1,
        disc := st.disc + Count(Discontinuity(p)),
        ccDup := st.ccDup + Count(Judge(s, p).Duplicate?),
        ccErrs := st.ccErrs + Count(Judge(s, p).Lost?),
        pids := st.pids[Pid(p) := Account(s, p)])
  }

  function Interpret(st: State, p: seq<byte>): State
    requires |p| == 188
  {
    var payload := Payload(p);
    if payload == [] || !Pusi(p) then st
    else if Pid(p) == 0 then
      var prog := PatProgram(payload);
      if prog.None? then st else st.(pmtPid := prog.value, pmtPidSet := true, patCount := st.patCount + 1)
    else if st.pmtPidSet && Pid(p) == st.pmtPid then
      var pmt := PmtContents(payload);
      if pmt.None? then st
      else st.(pcrPid := pmt.value.pcrPid, pcrPidSet := true, pmtCount := st.pmtCount + 1,
               pids := WithStreams(st.pids, pmt.value.streams))
    else st.(pids := st.pids[Pid(p) := AddPes(Stat(st.pids, Pid(p)), ParsePes(payload))])
  }

  function Step(st: State, p: seq<byte>): State
    requires |p| == 188
  {
    Interpret(Tally(st, p), p)
  }

  function Fold(st: State, ps: seq<Packet>): State
    decreases |ps|
  {
    if ps == [] then st else Fold(Step(st, ps[0]), ps[1..])
  }

  lemma {:induction false} FoldConcat(st: State, a: seq<Packet>, b: seq<Packet>)
    ensures Fold(st, a + b) == Fold(Fold(st, a), b)
    decreases |a|
  {
    hide Step;
    if a == [] {
      assert a + b == b;
    } else {
      assert (a + b)[1..] == a[1..] + b;
      FoldConcat(Step(st, a[0]), a[1..], b);
    }
  }

  /** The packets an inspector limited to n packets looks at. */
  function Cut(ps: seq<Packet>, n: int): (r: seq<Packet>)
    ensures |r| == Min(|ps|, Max(n, 0))
  {
    if n <= 0 then [] else if |ps| <= n then ps else ps[..n]
  }

  /** The state after the bytes of a stream, however they were split into writes. */
  function Summary(stream: seq<byte>, maxPackets: int): State {
    Fold(START, Cut(Scan(stream), maxPackets))
  }

  // ---- the inspector -----------------------------------------------------

  class Inspector {
    const maxPackets: int
    var buf: seq<byte>
    var closed: bool
    var loggedDone: bool
    var totalBytes: nat
    var syncLosses: nat
    var packets: nat
    var globalCcErrs: nat
    var globalCcDup: nat
    var globalDisc: nat
    var patCount: nat
    var pmtCount: nat
    var pmtPid: nat
    var pmtPidSet: bool
    var pcrPid: nat
    var pcrPidSet: bool
    var pids: Table
    /** Every byte observed before Close. */
    ghost var stream: seq<byte>

    ghost function Snapshot(): State
      reads this
    {
      State(packets, globalCcErrs, globalCcDup, globalDisc, patCount, pmtCount, pmtPid, pmtPidSet, pcrPid, pcrPidSet, pids)
    }

    ghost predicate Valid()
      reads this
    {
      && totalBytes == |stream|
      && packets == |Cut(Scan(stream), maxPackets)|
      && Snapshot() == Summary(stream, maxPackets)
      && (!loggedDone && maxPackets > 0 ==> |Scan(stream)| < maxPackets && Strip(buf) == Strip(Rest(stream)))
      && (loggedDone && !closed ==> |Scan(stream)| >= maxPackets)
    }

    constructor (maxPackets: int)
      ensures Valid() && !closed && stream == [] && this.maxPackets == maxPackets
    {
      this.maxPackets := maxPackets;
      buf, closed, loggedDone, totalBytes, syncLosses, stream := [], false, false, 0, 0, [];
      packets, globalCcErrs, globalCcDup, globalDisc, patCount, pmtCount := 0, 0, 0, 0, 0, 0;
      pmtPid, pmtPidSet, pcrPid, pcrPidSet, pids := 0, false, 0, false, map[];
    }

    /** Close: nothing observed later changes anything. */
    method Close()
      requires Valid()
      modifies this`closed, this`loggedDone
      ensures Valid() && closed
    {
      if closed { return; }
      closed := true;
      loggedDone := true;
    }

    method ParsePat(payload: seq<byte>) returns (ok: bool)
      modifies this`pmtPid, this`pmtPidSet
      ensures var prog := PatProgram(payload);
              ok == prog.Some?
              && pmtPidSet == (old(pmtPidSet) || ok)
              && pmtPid == (if ok then prog.value else old(pmtPid))
    {
      hide Int, TwelveBits, ThirteenBits;
      if |payload| < 1 { return false; }
      var ptr := Int(payload[0]);
      if 1 + ptr >= |payload| { return false; }
      var sec := payload[1 + ptr..];
      if |sec| < 8 || sec[0] != 0x00 { return false; }
      var sectionLen := TwelveBits(sec[1], sec[2]);
      if sectionLen < 9 || 3 + sectionLen > |sec| { return false; }
      var end := 3 + sectionLen;
      var i := 8;
      while i + 4 <= end - 4
        invariant 8 <= i
        invariant FirstProgram(sec, 8, end) == FirstProgram(sec, i, end)
        invariant pmtPid == old(pmtPid) && pmtPidSet == old(pmtPidSet)
      {
        if sec[i] != 0 || sec[i + 1] != 0 {
          pmtPid := ThirteenBits(sec[i + 2], sec[i + 3]);
          pmtPidSet := true;
          return true;
        }
        i := i + 4;
      }
      return false;
    }

    method ParsePmt(payload: seq<byte>) returns (ok: bool)
      modifies this`pcrPid, this`pcrPidSet, this`pids
      ensures var pmt := PmtContents(payload);
              ok == pmt.Some?
              && pcrPidSet == (old(pcrPidSet) || ok)
              && pcrPid == (if ok then pmt.value.pcrPid else old(pcrPid))
              && pids == (if ok then WithStreams(old(pids), pmt.value.streams) else old(pids))
    {
      hide Int, TwelveBits, ThirteenBits, StreamsFrom, Stat;
      if |payload| < 1 { return false; }
      var ptr := Int(payload[0]);
      if 1 + ptr >= |payload| { return false; }
      var sec := payload[1 + ptr..];
      if |sec| < 12 || sec[0] != 0x02 { return false; }
      var sectionLen := TwelveBits(sec[1], sec[2]);
      if sectionLen < 13 || 3 + sectionLen > |sec| { return false; }
      var end := 3 + sectionLen;
      pcrPid := ThirteenBits(sec[8], sec[9]);
      pcrPidSet := true;
      var i := 12 + TwelveBits(sec[10], sec[11]);
      StreamsEnd(sec, i, end);
      if i > end - 4 { return true; }
      ghost var all := StreamsFrom(sec, i, end);
      while i + 5 <= end - 4
        invariant WithStreams(pids, StreamsFrom(sec, i, end)) == WithStreams(old(pids), all)
        decreases end - i
        modifies this`pids
      {
        StreamsStep(sec, i, end);
        ghost var rest := StreamsFrom(sec, i, end);
        assert rest[1..] == StreamsFrom(sec, i + 5 + TwelveBits(sec[i + 3], sec[i + 4]), end);
        var pid := ThirteenBits(sec[i + 1], sec[i + 2]);
        pids := pids[pid := Stat(pids, pid).(streamType := sec[i], streamTypeKnown := true)];
        i := i + 5 + TwelveBits(sec[i + 3], sec[i + 4]);
      }
      StreamsEnd(sec, i, end);
      return true;
    }

    /** The adaptation field of observePacket (ts_inspector.go:271-297). */
    static method CountAdaptation(s0: PidStats, p: Packet) returns (s: PidStats, disc: bool, off: nat)
      ensures s == AccountAdaptation(s0, p) && disc == Discontinuity(p) && off == PayloadOffset(p)
    {
      hide Record, ParsePcr, HasAdaptation, Pusi, Bit, Int;
      var pusi, discPackets, pcr := s0.pusi, s0.discPackets, s0.pcr;
      if Pusi(p) {
        pusi := pusi + 1;
      }
      disc, off := false, 4;
      if HasAdaptation(p) {
        var alen := Int(p[off]);
        off := off + 1;
        if off + alen <= |p| && alen > 0 {
          var flags := p[off];
          disc := Bit(flags, 0x80);
          if disc {
            discPackets := discPackets + 1;
          }
          if Bit(flags, 0x10) && alen >= 7 {
            assert p[off + 1..off + 7] == p[6..12];
            pcr := Record(pcr, ParsePcr(p[off + 1..off + 7]));
          }
        }
        off := off + alen;
      }
      s := s0.(packets := s0.packets + 1, pusi := pusi, discPackets := discPackets, pcr := pcr);
    }

    /** The continuity check of observePacket (ts_inspector.go:299-317). */
    static method CountPayload(s0: PidStats, p: Packet, disc: bool) returns (s: PidStats, verdict: Verdict)
      requires disc == Discontinuity(p)
      ensures s == AccountPayload(s0, p) && verdict == Judge(s0, p)
    {
      hide Discontinuity, Afc, Cc;
      s, verdict := s0, Continuous;
      var cc := Cc(p);
      if HasPayload(p) {
        s := s.(payloadPackets := s.payloadPackets + 1);
        if s.ccSeen {
          var exp := (s.lastCc + 1) & 0x0F;
          if cc != exp {
            if disc {
              // signalled: the counter starts afresh
            } else if cc == s.lastCc {
              s := s.(ccDup := s.ccDup + 1);
              verdict := Duplicate;
            } else {
              s := s.(ccErrors := s.ccErrors + 1);
              verdict := Lost;
            }
          }
        }
        s := s.(ccSeen := true, lastCc := cc);
      }
    }

    method TallyPacket(p: Packet) returns (off: nat)
      modifies this`packets, this`globalCcErrs, this`globalCcDup, this`globalDisc, this`pids
      ensures Snapshot() == Tally(old(Snapshot()), p) && off == PayloadOffset(p)
    {
      hide Pid, AccountAdaptation, AccountPayload, Discontinuity, PayloadOffset, Stat, Judge;
      packets := packets + 1;
      var s0 := Stat(pids, Pid(p));
      var s1, disc, o := CountAdaptation(s0, p);
      off := o;
      if disc {
        globalDisc := globalDisc + 1;
      }
      var s, verdict := CountPayload(s1, p, disc);
      JudgeIgnoresAdaptation(s0, p);
      if verdict.Duplicate? {
        globalCcDup := globalCcDup + 1;
      } else if verdict.Lost? {
        globalCcErrs := globalCcErrs + 1;
      }
      pids := pids[Pid(p) := s];
    }

    method ObservePacket(p: Packet)
      modifies this`packets, this`globalCcErrs, this`globalCcDup, this`globalDisc, this`patCount, this`pmtCount
      modifies this`pmtPid, this`pmtPidSet, this`pcrPid, this`pcrPidSet, this`pids
      ensures Snapshot() == Step(old(Snapshot()), p)
    {
      hide Int, ParsePes, PatProgram, PmtContents, WithStreams, Pid, Tally, PayloadOffset, AddPes, HasPayload, Pusi, Stat;
      var off := TallyPacket(p);
      var pid, pusi := Pid(p), Pusi(p);
      if !HasPayload(p) || off >= |p| { return; }
      var payload := p[off..];
      if pid == 0 && pusi {
        var ok := ParsePat(payload);
        if ok { patCount := patCount + 1; }
        return;
      }
      if pmtPidSet && pid == pmtPid && pusi {
        var ok := ParsePmt(payload);
        if ok { pmtCount := pmtCount + 1; }
        return;
      }
      if pusi {
        pids := pids[pid := AddPes(Stat(pids, pid), ParsePes(payload))];
      }
    }

    /** The loop's state: the packets seen so far, and a buffer that still holds the rest of the scan. */
    ghost predicate Scanning()
      reads this
    {
      && totalBytes == |stream| && !closed && !loggedDone
      && 0 <= packets < maxPackets && packets <= |Scan(stream)|
      && Scan(stream) == Scan(stream)[..packets] + Scan(buf)
      && Strip(Rest(buf)) == Strip(Rest(stream))
      && Snapshot() == Fold(START, Scan(stream)[..packets])
    }

    lemma {:induction false} ScanOver()
      requires Scanning() && Scan(buf) == [] && Strip(Rest(buf)) == Strip(buf)
      ensures Valid()
    {
      assert Scan(stream)[..packets] == Scan(stream);
    }

    /** Lost sync (ts_inspector.go:208-221): jump to the next sync byte, or keep a tail of 187 bytes. */
    method Resync() returns (more: bool)
      requires Scanning() && |buf| >= 188 && buf[0] != SYNC
      modifies this`buf, this`syncLosses
      ensures Scanning()
      ensures if more then |buf| < |old(buf)| else Scan(buf) == [] && Strip(Rest(buf)) == Strip(buf)
    {
      hide Scan, Rest, Strip, Fold, IndexByte;
      var n := IndexByte(buf[1..], SYNC);
      if n < 0 {
        assert forall k :: 0 <= k < |buf| ==> buf[k] == (if k == 0 then buf else buf[1..])[if k == 0 then 0 else k - 1];
        NoSync(buf);
        NoSync(buf[|buf| - 187..]);
        if |buf| > 187 {
          buf := buf[|buf| - 187..];
        }
        syncLosses := syncLosses + 1;
        return false;
      }
      assert buf[..n + 1] == [buf[0]] + buf[1..][..n];
      SkipTo(buf, n + 1);
      buf := buf[n + 1..];
      syncLosses := syncLosses + 1;
      return true;
    }

    /** One packet off the front of the buffer (ts_inspector.go:222-229). */
    method TakePacket()
      requires Scanning() && |buf| >= 188 && buf[0] == SYNC
      modifies this`buf, this`loggedDone
      modifies this`packets, this`globalCcErrs, this`globalCcDup, this`globalDisc, this`patCount, this`pmtCount
      modifies this`pmtPid, this`pmtPidSet, this`pcrPid, this`pcrPidSet, this`pids
      ensures if loggedDone then Valid() else Scanning() && |buf| < |old(buf)|
    {
      hide Scan, Rest, Strip, Fold, Step;
      ghost var s0 := Snapshot();
      ghost var buf0 := buf;
      var pkt := buf[..188];
      OneMore(stream, buf, packets);
      SyncRest(buf);
      FoldConcat(START, Scan(stream)[..packets], [pkt]);
      FoldOne(s0, pkt);
      buf := buf[188..];
      ObservePacket(pkt);
      StepCounts(s0, pkt);
      assert Snapshot() == Fold(START, Scan(stream)[..packets]);
      if packets >= maxPackets {
        assert Cut(Scan(stream), maxPackets) == Scan(stream)[..packets];
        loggedDone := true;
      }
    }

    method Observe(p: seq<byte>)
      requires Valid()
      modifies this
      ensures Valid() && closed == old(closed)
      ensures stream == if closed then old(stream) else old(stream) + p
    {
      hide Step, START, Fold, Scan, Rest, Strip;
      if |p| == 0 {
        assert stream + p == stream;
        return;
      }
      if closed { return; }
      totalBytes := totalBytes + |p|;
      ghost var before, buf0 := stream, buf;
      stream := stream + p;
      ScanConcat(before, p);
      if loggedDone {
        assert Cut(Scan(stream), maxPackets) == Cut(Scan(before), maxPackets);
        return;
      }
      buf := buf + p;
      if maxPackets > 0 {
        ScanSameStrip(buf0, Rest(before), p);
        assert Scan(stream)[..packets] == Scan(before);
      }
      while packets < maxPackets
        invariant stream == before + p
        invariant if maxPackets > 0 then Scanning() else Valid() && !closed && !loggedDone
        decreases |buf|
      {
        if |buf| < 188 {
          ShortBuffer(buf);
          ScanOver();
          return;
        }
        if buf[0] != SYNC {
          var more := Resync();
          if !more {
            ScanOver();
            return;
          }
        } else {
          TakePacket();
          if packets >= maxPackets {
            return;
          }
        }
      }
    }
  }

  lemma ShortBuffer(s: seq<byte>)
    requires |s| < 188
    ensures Scan(s) == [] && Rest(s) == s
  {
  }

  lemma SyncRest(s: seq<byte>)
    requires |s| >= 188 && s[0] == SYNC
    ensures Rest(s) == Rest(s[188..])
  {
  }

  lemma {:induction false} StepCounts(st: State, p: Packet)
    ensures Step(st, p).packets == st.packets + 1
  {
    hide Account, Judge, PatProgram, PmtContents, ParsePes, WithStreams, Pid, Discontinuity, HasPayload;
  }

  lemma {:induction false} FoldOne(st: State, p: Packet)
    ensures Fold(st, [p]) == Step(st, p)
  {
    hide Step;
  }

  lemma {:induction false} SkipTo(s: seq<byte>, n: nat)
    requires n <= |s| && SYNC !in s[..n]
    ensures Scan(s) == Scan(s[n..]) && Strip(Rest(s)) == Strip(Rest(s[n..]))
  {
    StripSkips(s, n);
    ScanStrip(s);
    ScanStrip(s[n..]);
  }

  lemma {:induction false} OneMore(s: seq<byte>, buf: seq<byte>, n: nat)
    requires |buf| >= 188 && buf[0] == SYNC
    requires n <= |Scan(s)| && Scan(s) == Scan(s)[..n] + Scan(buf)
    ensures n < |Scan(s)| && Scan(s)[n] == buf[..188]
    ensures Scan(s)[..n + 1] == Scan(s)[..n] + [buf[..188]]
    ensures Scan(s) == Scan(s)[..n + 1] + Scan(buf[188..])
  {
    var h: Packet := buf[..188];
    assert Scan(buf) == [h] + Scan(buf[188..]);
    NextElement(Scan(s), n, h, Scan(buf[188..]));
  }

  lemma {:induction false} NextElement<T>(all: seq<T>, n: nat, h: T, rest: seq<T>)
    requires n <= |all| && all == all[..n] + ([h] + rest)
    ensures n < |all| && all[n] == h && all[..n + 1] == all[..n] + [h] && all == all[..n + 1] + rest
  {
    assert all == (all[..n] + [h]) + rest;
  }
}
