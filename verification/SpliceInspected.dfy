/** The splice writer's output fed to the inspector: injected packets are visible as discontinuities and
    change nothing else the inspector reports. */
module SpliceInspected {
  import opened Bytes
  import opened TsPacket
  import opened TsInspector
  import opened TsHistory
  import opened SpliceWriter

  // ---- a shim as a packet ------------------------------------------------

  lemma {:induction false} FiveBits(b: byte)
    ensures Int(b & 0x1F) < 32
    ensures Int(b) < 32 ==> b & 0x1F == b
  {
    assert b & 0x1F < 32;
    assert b < 32 ==> b & 0x1F == b;
  }

  lemma {:induction false} PidRange(c: Chunk)
    ensures Pid(c) < 8192
  {
    hide Int;
    FiveBits(c[1]);
  }

  lemma {:induction false} ShimHeader(pid: nat, cc: byte)
    requires pid < 8192
    ensures var p := ShimPacket(pid, cc);
            Pid(p) == pid && !HasPayload(p) && !Pusi(p) && Discontinuity(p) && !HasPcr(p)
  {
    hide Int, Byte;
    var p := ShimPacket(pid, cc);
    IntOfByte(pid / 256 % 32);
    IntOfByte(pid % 256);
    FiveBits(p[1]);
    assert ((0x20 | (cc & 0x0F)) >> 4) & 0x03 == 2;
    assert p[1] & 0x40 == 0 by { NoStart(p[1]); }
    assert Int(p[4]) == 183 by { Length183(); }
    assert Bit(0x80, 0x80) && !Bit(0x80, 0x10);
  }

  lemma Length183()
    ensures Int(183) == 183
  {
  }

  lemma {:induction false} NoStart(b: byte)
    requires Int(b) < 32
    ensures b & 0x40 == 0
  {
    assert b < 32;
  }

  // ---- the inspector's state with shims added ----------------------------

  function Bump(s: PidStats, shimmed: bool): PidStats {
    if shimmed then s.(packets := s.packets + 1, discPackets := s.discPackets + 1) else s
  }

  /** The state of an inspector that also saw one shim for every PID of a set. */
  function WithShims(st: State, pids: set<nat>): State {
    st.(packets := st.packets + |pids|, disc := st.disc + |pids|,
        pids := map q | q in st.pids :: Bump(st.pids[q], q in pids))
  }

  function BumpAll(m: Table, pids: set<nat>): Table {
    map q | q in m :: Bump(m[q], q in pids)
  }

  lemma {:induction false} AccountBump(s: PidStats, b: bool, p: Packet)
    ensures Account(Bump(s, b), p) == Bump(Account(s, p), b) && Judge(Bump(s, b), p) == Judge(s, p)
  {
    hide Pusi, HasPayload, Discontinuity, HasPcr, Record, ParsePcr, Cc;
  }

  /** Absent PIDs outside the shimmed set stay absent, so their statistics start equal. */
  lemma StatBump(m: Table, pids: set<nat>, q: nat)
    requires q in pids ==> q in m
    ensures Stat(BumpAll(m, pids), q) == Bump(Stat(m, q), q in pids)
  {
  }

  lemma {:induction false} StreamsBump(m: Table, pids: set<nat>, streams: seq<Stream>)
    requires pids <= m.Keys
    ensures WithStreams(BumpAll(m, pids), streams) == BumpAll(WithStreams(m, streams), pids)
    ensures m.Keys <= WithStreams(m, streams).Keys
    decreases |streams|
  {
    if streams != [] {
      var s := streams[0];
      var named := m[s.pid := Stat(m, s.pid).(streamType := s.streamType, streamTypeKnown := true)];
      StatBump(m, pids, s.pid);
      var b := BumpAll(m, pids);
      assert BumpAll(named, pids)
          == b[s.pid := Stat(b, s.pid).(streamType := s.streamType, streamTypeKnown := true)];
      StreamsBump(named, pids, streams[1..]);
    }
  }

  lemma {:induction false} TallyBump(st: State, pids: set<nat>, p: Packet)
    requires pids <= st.pids.Keys
    ensures Tally(WithShims(st, pids), p) == WithShims(Tally(st, p), pids)
    ensures st.pids.Keys <= Tally(st, p).pids.Keys && Pid(p) in Tally(st, p).pids
  {
    hide Account, Judge, Pid, Discontinuity;
    var q := Pid(p);
    StatBump(st.pids, pids, q);
    AccountBump(Stat(st.pids, q), q in pids, p);
    assert BumpAll(st.pids, pids)[q := Account(Bump(Stat(st.pids, q), q in pids), p)]
        == BumpAll(st.pids[q := Account(Stat(st.pids, q), p)], pids);
  }

  lemma {:induction false} BumpUpdate(m: Table, pids: set<nat>, q: nat, s: PidStats)
    requires pids <= m.Keys
    ensures BumpAll(m, pids)[q := Bump(s, q in pids)] == BumpAll(m[q := s], pids)
  {
    hide Bump;
  }

  lemma {:induction false} AddPesBump(s: PidStats, b: bool, pes: Pes)
    ensures AddPes(Bump(s, b), pes) == Bump(AddPes(s, pes), b)
  {
    hide Record;
  }

  lemma {:induction false} InterpretBump(st: State, pids: set<nat>, p: Packet)
    requires pids <= st.pids.Keys && Pid(p) in st.pids
    ensures Interpret(WithShims(st, pids), p) == WithShims(Interpret(st, p), pids)
    ensures st.pids.Keys <= Interpret(st, p).pids.Keys
  {
    hide Pid, Pusi, PatProgram, PmtContents, ParsePes, WithStreams, Payload, AddPes, Bump, Stat;
    var q := Pid(p);
    StatBump(st.pids, pids, q);
    var pmt := PmtContents(Payload(p));
    if pmt.Some? {
      StreamsBump(st.pids, pids, pmt.value.streams);
    }
    var pes := ParsePes(Payload(p));
    AddPesBump(Stat(st.pids, q), q in pids, pes);
    BumpUpdate(st.pids, pids, q, AddPes(Stat(st.pids, q), pes));
  }

  lemma {:induction false} StepBump(st: State, pids: set<nat>, p: Packet)
    requires pids <= st.pids.Keys
    ensures Step(WithShims(st, pids), p) == WithShims(Step(st, p), pids)
    ensures st.pids.Keys + {Pid(p)} <= Step(st, p).pids.Keys
  {
    hide Tally, Interpret, WithShims, Pid;
    TallyBump(st, pids, p);
    InterpretBump(Tally(st, p), pids, p);
  }

  lemma {:induction false} ShimTally(st: State, pid: nat, cc: byte)
    requires pid < 8192
    ensures var s := ShimPacket(pid, cc);
            Step(st, s) == st.(packets := st.packets + 1, disc := st.disc + 1,
                               pids := st.pids[pid := Bump(Stat(st.pids, pid), true)])
  {
    hide ShimPacket, Pid, HasPayload, Pusi, Discontinuity, HasPcr, Record, ParsePcr, PatProgram, PmtContents, ParsePes;
    ShimHeader(pid, cc);
  }

  /** A shim and the packet behind it: that packet, on a state with one more shim. */
  lemma {:induction false} ShimThenPacket(st: State, pids: set<nat>, p: Packet, cc: byte)
    requires pids <= st.pids.Keys && Pid(p) !in pids
    ensures Step(Step(WithShims(st, pids), ShimPacket(Pid(p), cc)), p) == WithShims(Step(st, p), pids + {Pid(p)})
  {
    hide ShimPacket, Pid, Step, Account, Judge, Interpret, Discontinuity;
    var q := Pid(p);
    var all := pids + {q};
    PidRange(p);
    ShimTally(WithShims(st, pids), q, cc);
    var st1 := Step(WithShims(st, pids), ShimPacket(q, cc));
    StatBump(st.pids, pids, q);
    assert Stat(st1.pids, q) == Bump(Stat(st.pids, q), true);
    AccountBump(Stat(st.pids, q), true, p);
    assert st1.pids[q := Bump(Account(Stat(st.pids, q), p), true)]
        == BumpAll(st.pids[q := Account(Stat(st.pids, q), p)], all);
    assert Tally(st1, p) == WithShims(Tally(st, p), all);
    InterpretBump(Tally(st, p), all, p);
    StepIs(st, p);
    StepIs(st1, p);
  }

  lemma StepIs(st: State, p: Packet)
    ensures Step(st, p) == Interpret(Tally(st, p), p)
  {
  }

  // ---- whole outputs -----------------------------------------------------

  lemma {:induction false} FoldBump(st: State, pids: set<nat>, ps: seq<Packet>)
    requires pids <= st.pids.Keys
    ensures Fold(WithShims(st, pids), ps) == WithShims(Fold(st, ps), pids)
    ensures st.pids.Keys <= Fold(st, ps).pids.Keys
    decreases |ps|
  {
    hide Step, WithShims;
    if ps != [] {
      StepBump(st, pids, ps[0]);
      FoldBump(Step(st, ps[0]), pids, ps[1..]);
    }
  }

  /** The packets of an output whose input never lost sync. */
  function PacketsOf(cs: seq<Chunk>): seq<Packet>
    requires AllSync(cs)
  {
    if cs == [] then []
    else
      var init, c := cs[..|cs| - 1], cs[|cs| - 1];
      PacketsOf(init) + (if Wants(ModeAfter(init), c) then [ShimPacket(Pid(c), Cc(c))] else []) + [c]
  }

  lemma {:induction false} FlatPackets(cs: seq<Chunk>)
    requires AllSync(cs)
    ensures Flat(Output(cs)) == Join(PacketsOf(cs))
    decreases |cs|
  {
    hide ModeAfter, Wants, ShimPacket, Pid, Cc;
    if cs == [] {
    } else {
      var init, c := cs[..|cs| - 1], cs[|cs| - 1];
      FlatPackets(init);
      var xs, ps := Output(init), PacketsOf(init);
      if Wants(ModeAfter(init), c) {
        FlatSnoc(xs, Shim(Pid(c), Cc(c)));
        FlatSnoc(xs + [Shim(Pid(c), Cc(c))], Raw(c));
        JoinSnoc(ps, ShimPacket(Pid(c), Cc(c)));
        JoinSnoc(ps + [ShimPacket(Pid(c), Cc(c))], c);
      } else {
        assert xs + [] == xs && ps + [] == ps;
        FlatSnoc(xs, Raw(c));
        JoinSnoc(ps, c);
      }
    }
  }

  lemma {:induction false} SyncedOutput(cs: seq<Chunk>)
    requires AllSync(cs)
    ensures var ps: seq<Packet> := cs;
            ModeAfter(cs).seen <= Fold(START, ps).pids.Keys
            && Fold(START, PacketsOf(cs)) == WithShims(Fold(START, ps), ModeAfter(cs).seen)
    decreases |cs|
  {
    hide Step, ShimPacket, Pid, Cc, START;
    if cs == [] {
      NoShimsNoChange();
    } else {
      var init, c := cs[..|cs| - 1], cs[|cs| - 1];
      var before: seq<Packet>, p: Packet := init, c;
      var m := ModeAfter(init);
      SyncedOutput(init);
      var st := Fold(START, before);
      assert cs == before + [p];
      FoldConcat(START, before, [p]);
      FoldOne(st, p);
      StepBump(st, m.seen, p);
      if Wants(m, c) {
        var shim := ShimPacket(Pid(c), Cc(c));
        FoldConcat(START, PacketsOf(init), [shim] + [p]);
        assert PacketsOf(cs) == PacketsOf(init) + ([shim] + [p]);
        FoldTwo(WithShims(st, m.seen), shim, p);
        ShimThenPacket(st, m.seen, p, Cc(c));
      } else {
        assert PacketsOf(cs) == PacketsOf(init) + [p];
        FoldConcat(START, PacketsOf(init), [p]);
        FoldOne(WithShims(st, m.seen), p);
      }
    }
  }

  lemma NoShimsNoChange()
    ensures Fold(START, []) == WithShims(Fold(START, []), {})
  {
  }

  lemma {:induction false} FoldTwo(st: State, p: Packet, q: Packet)
    ensures Fold(st, [p] + [q]) == Step(Step(st, p), q)
  {
    hide Step;
    FoldConcat(st, [p], [q]);
    FoldOne(st, p);
    FoldOne(Step(st, p), q);
  }

  /** A packet that finds the mode inactive, or has no sync byte, is copied and leaves the mode inactive. */
  lemma CopyOne(m: Mode, c: Chunk)
    requires !m.active || c[0] != SYNC
    ensures Before(m, c) == [] && Next(m, c).seen == m.seen && !Next(m, c).active
  {
  }

  lemma {:induction false} CopySnoc(cs: seq<Chunk>, c: Chunk)
    requires !ModeAfter(cs).active || c[0] != SYNC
    ensures Flat(Output(cs + [c])) == Flat(Output(cs)) + c
    ensures ModeAfter(cs + [c]).seen == ModeAfter(cs).seen && !ModeAfter(cs + [c]).active
  {
    hide Before, Next, Flat, Output, ModeAfter, Shims, Erase;
    CopyOne(ModeAfter(cs), c);
    OutputSnoc(cs, c);
    assert Output(cs) + [] == Output(cs);
    FlatSnoc(Output(cs), Raw(c));
  }

  /** Once sync is lost the writer copies. */
  lemma {:induction false} CopiesAfterLoss(a: seq<Chunk>, b: seq<Chunk>)
    requires b != [] ==> b[0][0] != SYNC
    ensures Flat(Output(a + b)) == Flat(Output(a)) + Join(b)
    ensures ModeAfter(a + b).seen == ModeAfter(a).seen && (b != [] ==> !ModeAfter(a + b).active)
    decreases |b|
  {
    hide Pid, Cc, Flat, Output, ModeAfter;
    if b == [] {
      assert a + b == a;
    } else {
      var init, c := b[..|b| - 1], b[|b| - 1];
      CopiesAfterLoss(a, init);
      assert a + b == (a + init) + [c] && b == init + [c];
      if init == [] {
        assert a + init == a;
      }
      CopySnoc(a + init, c);
      JoinSnoc(init, c);
    }
  }

  /** The longest prefix of packets that all start with a sync byte. */
  function Synced(cs: seq<Chunk>): (n: nat)
    ensures n <= |cs| && AllSync(cs[..n]) && (n < |cs| ==> cs[n][0] != SYNC)
  {
    if cs == [] || cs[0][0] != SYNC then 0 else
      var n := Synced(cs[1..]);
      assert forall k :: 0 <= k < n ==> cs[..n + 1][k + 1] == cs[1..][..n][k];
      n + 1
  }

  /** For every input whatever, aligned or not: an inspector fed the spliced stream reports what it reports on
      the raw stream, plus one packet and one discontinuity for every PID that got a shim. */
  lemma {:induction false} SplicedInspection(s: seq<byte>)
    ensures Fold(START, Scan(Flat(Splice(s)))) == WithShims(Fold(START, Scan(s)), ModeAfter(Chunks(s)).seen)
  {
    hide START, Fold, Flat, Output, ModeAfter, WithShims, Chunks, Join, Scan, PacketsOf;
    var cs, r := Chunks(s), Remainder(s);
    var n := Synced(cs);
    var a, b := cs[..n], cs[n..];
    var ps: seq<Packet> := a;
    var tail := Join(b) + r;
    assert cs == a + b;
    ChunksJoin(s);
    JoinConcat(a, b);
    assert s == Join(ps) + tail;
    CopiesAfterLoss(a, b);
    FlatPackets(a);
    FlatSplice(s);
    assert Flat(Splice(s)) == Join(PacketsOf(a)) + tail;
    ScanAligned(ps, tail);
    ScanAligned(PacketsOf(a), tail);
    SyncedOutput(a);
    FoldConcat(START, ps, Scan(tail));
    FoldConcat(START, PacketsOf(a), Scan(tail));
    FoldBump(Fold(START, ps), ModeAfter(a).seen, Scan(tail));
  }

  lemma {:induction false} FlatSplice(s: seq<byte>)
    ensures Flat(Splice(s)) == Flat(Output(Chunks(s))) + Remainder(s)
  {
    hide Flat, Output, Chunks, Remainder;
    var r := Remainder(s);
    if r == [] {
      assert Output(Chunks(s)) + [] == Output(Chunks(s));
    } else {
      FlatSnoc(Output(Chunks(s)), Raw(r));
    }
  }

  lemma {:induction false} FoldCounts(ps: seq<Packet>)
    ensures Fold(START, ps).packets == |ps|
    decreases |ps|
  {
    hide Step;
    if ps != [] {
      var init, p := ps[..|ps| - 1], ps[|ps| - 1];
      assert ps == init + [p];
      FoldCounts(init);
      FoldConcat(START, init, [p]);
      FoldOne(Fold(START, init), p);
      StepCounts(Fold(START, init), p);
    }
  }

  /** In the inspector's own numbers, as long as its packet limit is not reached. */
  lemma {:induction false} SplicedSummary(s: seq<byte>, limit: int)
    requires |Scan(Flat(Splice(s)))| <= limit
    ensures var raw, out := Summary(s, limit), Summary(Flat(Splice(s)), limit);
            var shims := |Shims(Splice(s))|;
            && out.ccErrs == raw.ccErrs && out.ccDup == raw.ccDup
            && out.disc == raw.disc + shims && out.packets == raw.packets + shims && shims <= 16
            && out.patCount == raw.patCount && out.pmtCount == raw.pmtCount
            && out.pids.Keys == raw.pids.Keys
  {
    hide START, Fold, Flat, Output, ModeAfter, Chunks, Scan, Shims;
    SplicedInspection(s);
    FoldCounts(Scan(s));
    FoldCounts(Scan(Flat(Splice(s))));
    ShimsAreSeen(Chunks(s));
    var r := Remainder(s);
    if r == [] {
      assert Output(Chunks(s)) + [] == Output(Chunks(s));
    } else {
      FlatSnoc(Output(Chunks(s)), Raw(r));
    }
  }
}
