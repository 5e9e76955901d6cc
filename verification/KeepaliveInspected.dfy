/** The keepalive's packets fed to the inspector: builder, scan and inspector composed. */
module KeepaliveInspected {
  import opened Bytes
  import opened TsPacket
  import opened TsInspector
  import opened TsHistory
  import opened PsiKeepalive
  import Crc

  // ---- what the inspector reads in one packet ----------------------------

  lemma SmallBytes()
    ensures Int(0x00) == 0 && Int(0x01) == 1 && Int(0x0D) == 13 && Int(0x17) == 23 && Int(0x10) == 16
  {
  }

  lemma {:induction false} PayloadOnly(b1: byte, b2: byte, cc: byte, section: seq<byte>)
    requires |section| <= 179
    ensures var p := SectionPacket(b1, b2, cc, section);
            Afc(p) == 1 && Cc(p) == cc & 0x0F && HasPayload(p) && !Discontinuity(p) && !HasPcr(p)
            && Payload(p) == p[4..] && Pid(p) == ThirteenBits(b1, b2) && (Pusi(p) <==> Bit(b1, 0x40))
  {
    hide Crc.Crc32, Crc.BigEndian, ThirteenBits, Bit;
    assert ((0x10 | (cc & 0x0F)) >> 4) & 0x03 == 1;
    assert (0x10 | (cc & 0x0F)) & 0x0F == cc & 0x0F;
  }

  lemma {:induction false} SectionBehindPointer(b1: byte, b2: byte, cc: byte, section: seq<byte>)
    requires |section| <= 179
    ensures var p := SectionPacket(b1, b2, cc, section);
            |Section(p[4..])| == 183 && Section(p[4..])[..|section|] == section
  {
    hide Crc.Crc32, Crc.BigEndian;
    SmallBytes();
  }

  lemma {:induction false} PatReadBack(cc: byte)
    ensures var p := PatPacket(cc);
            HasPayload(p) && !Discontinuity(p) && !HasPcr(p) && Pusi(p) && Cc(p) == cc & 0x0F && Pid(p) == 0
            && Payload(p) != [] && PatProgram(Payload(p)) == Some(PMT_PID)
  {
    hide Section, SectionPacket, Payload, Pusi, Cc, HasPayload, Discontinuity, HasPcr;
    var p := PatPacket(cc);
    PayloadOnly(0x40, 0x00, cc, PatSection());
    SectionBehindPointer(0x40, 0x00, cc, PatSection());
    SmallBytes();
    var sec := Section(p[4..]);
    assert forall k :: 0 <= k < 12 ==> sec[k] == sec[..12][k];
    assert 0xB0 & 0x0F == (0 as byte) && 0xF0 & 0x1F == (0x10 as byte) && 0x40 & 0x1F == (0 as byte);
    assert FirstProgram(sec, 8, 16) == Some(PMT_PID);
  }

  lemma {:induction false} PmtReadBack(cc: byte)
    ensures var p := PmtPacket(cc);
            HasPayload(p) && !Discontinuity(p) && !HasPcr(p) && Pusi(p) && Cc(p) == cc & 0x0F && Pid(p) == PMT_PID
            && Payload(p) != []
            && PmtContents(Payload(p)) == Some(Pmt(VIDEO_PID, [Stream(VIDEO_PID, 0x1B), Stream(AUDIO_PID, 0x0F)]))
  {
    hide Section, SectionPacket, Payload, Pusi, Cc, HasPayload, Discontinuity, HasPcr;
    var p := PmtPacket(cc);
    PayloadOnly(0x50, 0x00, cc, PmtSection());
    SectionBehindPointer(0x50, 0x00, cc, PmtSection());
    SmallBytes();
    var sec := Section(p[4..]);
    assert forall k :: 0 <= k < 22 ==> sec[k] == sec[..22][k];
    assert 0xB0 & 0x0F == (0 as byte) && 0xF0 & 0x0F == (0 as byte) && 0xE1 & 0x1F == (0x01 as byte) && 0x50 & 0x1F == (0x10 as byte);
    assert StreamsFrom(sec, 22, 26) == [];
    assert StreamsFrom(sec, 17, 26) == [Stream(AUDIO_PID, 0x0F)];
    assert StreamsFrom(sec, 12, 26) == [Stream(VIDEO_PID, 0x1B), Stream(AUDIO_PID, 0x0F)];
  }

  // ---- one tick ----------------------------------------------------------

  lemma CounterFourBits(k: nat)
    ensures CounterAt(k) & 0x0F == CounterAt(k)
  {
  }

  /** The PID's last counter is the one of tick n - 1, so that of tick n continues it. */
  ghost predicate InStep(s: PidStats, n: nat) {
    if n == 0 then !s.ccSeen else s.ccSeen && s.lastCc == CounterAt(n - 1)
  }

  lemma {:induction false} ContinuesInStep(s: PidStats, n: nat, p: Packet)
    requires InStep(s, n)
    requires HasPayload(p) && Cc(p) == CounterAt(n)
    ensures Judge(s, p) == Continuous && InStep(Account(s, p), n + 1)
  {
    hide HasPayload, Cc, Discontinuity, HasPcr, Record, ParsePcr, Pusi;
    JudgeIgnoresAdaptation(s, p);
  }

  ghost predicate AfterTicks(st: State, n: nat) {
    && st.packets == 2 * n && st.ccErrs == 0 && st.ccDup == 0 && st.disc == 0
    && st.patCount == n && st.pmtCount == n
    && InStep(Stat(st.pids, 0), n) && InStep(Stat(st.pids, PMT_PID), n)
    && (n > 0 ==>
      && st.pmtPidSet && st.pmtPid == PMT_PID && st.pcrPidSet && st.pcrPid == VIDEO_PID
      && Named(st.pids, VIDEO_PID, 0x1B) && Named(st.pids, AUDIO_PID, 0x0F))
  }

  predicate Named(pids: Table, pid: nat, streamType: byte) {
    Stat(pids, pid).streamTypeKnown && Stat(pids, pid).streamType == streamType
  }

  lemma {:induction false} PatTick(st: State, n: nat)
    requires AfterTicks(st, n)
    ensures var r := Step(st, PatPacket(CounterAt(n)));
            r == Tally(st, PatPacket(CounterAt(n))).(pmtPid := PMT_PID, pmtPidSet := true, patCount := n + 1)
            && r.packets == 2 * n + 1 && r.ccErrs == 0 && r.ccDup == 0 && r.disc == 0
            && InStep(Stat(r.pids, 0), n + 1) && InStep(Stat(r.pids, PMT_PID), n)
            && r.pids == st.pids[0 := Account(Stat(st.pids, 0), PatPacket(CounterAt(n)))]
  {
    hide PatPacket, HasPayload, Discontinuity, HasPcr, Pusi, Cc, Pid, Payload, PatProgram, PmtContents, Account, Judge,
      CounterAt, ParsePes;
    var p := PatPacket(CounterAt(n));
    PatReadBack(CounterAt(n));
    CounterFourBits(n);
    ContinuesInStep(Stat(st.pids, 0), n, p);
  }

  lemma {:induction false} PmtTick(st: State, n: nat)
    requires st.packets == 2 * n + 1 && st.ccErrs == 0 && st.ccDup == 0 && st.disc == 0
    requires st.patCount == n + 1 && st.pmtCount == n && st.pmtPidSet && st.pmtPid == PMT_PID
    requires InStep(Stat(st.pids, 0), n + 1) && InStep(Stat(st.pids, PMT_PID), n)
    ensures AfterTicks(Step(st, PmtPacket(CounterAt(n))), n + 1)
  {
    hide PmtPacket, HasPayload, Discontinuity, HasPcr, Pusi, Cc, Pid, Payload, PatProgram, PmtContents, Account, Judge,
      CounterAt, ParsePes, WithStreams;
    var p := PmtPacket(CounterAt(n));
    PmtReadBack(CounterAt(n));
    CounterFourBits(n);
    ContinuesInStep(Stat(st.pids, PMT_PID), n, p);
    TwoStreams(Tally(st, p).pids);
    StreamsKeepCore(Tally(st, p).pids, [Stream(VIDEO_PID, 0x1B), Stream(AUDIO_PID, 0x0F)], 0);
    StreamsKeepCore(Tally(st, p).pids, [Stream(VIDEO_PID, 0x1B), Stream(AUDIO_PID, 0x0F)], PMT_PID);
  }

  lemma {:induction false} TwoStreams(pids: Table)
    ensures var r := WithStreams(pids, [Stream(VIDEO_PID, 0x1B), Stream(AUDIO_PID, 0x0F)]);
            Named(r, VIDEO_PID, 0x1B) && Named(r, AUDIO_PID, 0x0F)
  {
    var v, a := Stream(VIDEO_PID, 0x1B), Stream(AUDIO_PID, 0x0F);
    var m1 := pids[VIDEO_PID := Stat(pids, VIDEO_PID).(streamType := 0x1B, streamTypeKnown := true)];
    var m2 := m1[AUDIO_PID := Stat(m1, AUDIO_PID).(streamType := 0x0F, streamTypeKnown := true)];
    assert [v, a][1..] == [a] && [a][1..] == [];
    assert WithStreams(m2, []) == m2;
    assert WithStreams(m1, [a]) == m2;
    assert WithStreams(pids, [v, a]) == m2;
  }

  /** n ticks: every table read, every stream named, no continuity error through any wrap of the counter. */
  lemma {:induction false} TicksInspected(n: nat)
    ensures AfterTicks(Fold(START, TickPackets(n)), n)
  {
    hide PatPacket, PmtPacket, Step, CounterAt;
    if n > 0 {
      var pat, pmt := PatPacket(CounterAt(n - 1)), PmtPacket(CounterAt(n - 1));
      var st := Fold(START, TickPackets(n - 1));
      TicksInspected(n - 1);
      FoldConcat(START, TickPackets(n - 1), [pat, pmt]);
      FoldConcat(st, [pat], [pmt]);
      assert [pat, pmt] == [pat] + [pmt];
      FoldOne(st, pat);
      FoldOne(Step(st, pat), pmt);
      PatTick(st, n - 1);
      PmtTick(Step(st, pat), n - 1);
    }
  }

  // ---- the bytes ---------------------------------------------------------

  lemma NothingScanned()
    ensures Scan([]) == []
  {
  }

  lemma {:induction false} TicksLength(n: nat)
    ensures |TickPackets(n)| == 2 * n
  {
    hide PatPacket, PmtPacket;
    if n > 0 {
      TicksLength(n - 1);
    }
  }

  /** The whole keepalive, cut into writes in any way, as a fresh inspector reports it. */
  method InspectKeepalive(ins: Inspector, n: nat, chunks: seq<seq<byte>>)
    requires ins.Valid() && !ins.closed && ins.stream == []
    requires 2 * n <= ins.maxPackets
    requires Join(chunks) == Join(TickPackets(n))
    modifies ins
    ensures ins.patCount == n && ins.pmtCount == n && ins.packets == 2 * n
    ensures n > 0 ==> ins.pmtPidSet && ins.pmtPid == 0x1000 && ins.pcrPidSet && ins.pcrPid == 0x100
    ensures n > 0 ==> Named(ins.pids, 0x100, 0x1B) && Named(ins.pids, 0x101, 0x0F)
    ensures ins.globalCcErrs == 0 && ins.globalCcDup == 0 && ins.globalDisc == 0
    ensures ins.totalBytes == 376 * n
  {
    hide Fold, TickPackets, Scan, Step, START;
    ObserveAll(ins, chunks);
    TicksLength(n);
    ScanAligned(TickPackets(n), []);
    assert Scan([]) == [] by { NothingScanned(); }
    assert TickPackets(n) + [] == TickPackets(n);
    assert Join(TickPackets(n)) + [] == Join(TickPackets(n)) == [] + Join(chunks);
    TicksInspected(n);
  }
}
