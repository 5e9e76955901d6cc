/** The inspector's program tables, stream types and PES clocks (ts_inspector.go:319-410) as facts about the packet
    history. */
module TsTables {
  import opened Bytes
  import opened TsPacket
  import opened TsInspector
  import opened TsHistory

  /** A packet in which a payload unit starts: the only ones that are interpreted. */
  predicate Starts(p: Packet) {
    Payload(p) != [] && Pusi(p)
  }

  /** The program a packet announces. */
  function PatOf(p: Packet): Option<nat> {
    if Starts(p) && Pid(p) == 0 then PatProgram(Payload(p)) else None
  }

  /** The PID of the program map, as the latest PAT has it. */
  function ProgramAt(ps: seq<Packet>): Option<nat> {
    if ps == [] then None
    else
      var pat := PatOf(ps[|ps| - 1]);
      if pat.Some? then pat else ProgramAt(ps[..|ps| - 1])
  }

  /** The map a packet carries, after the packets h. */
  function PmtOf(h: seq<Packet>, p: Packet): Option<Pmt> {
    if Starts(p) && Pid(p) != 0 && ProgramAt(h) == Some(Pid(p)) then PmtContents(Payload(p)) else None
  }

  /** The time stamps a packet carries, after the packets h: neither a PAT's nor a program map's. */
  function PesOf(h: seq<Packet>, p: Packet): Pes {
    if Starts(p) && Pid(p) != 0 && ProgramAt(h) != Some(Pid(p)) then ParsePes(Payload(p)) else Pes(None, None)
  }

  function Tables(ps: seq<Packet>): nat {
    if ps == [] then 0
    else Tables(ps[..|ps| - 1]) + Count(PatOf(ps[|ps| - 1]).Some?)
  }

  function Maps(ps: seq<Packet>): nat {
    if ps == [] then 0
    else Maps(ps[..|ps| - 1]) + Count(PmtOf(ps[..|ps| - 1], ps[|ps| - 1]).Some?)
  }

  /** The PCR PID of the latest program map. */
  function PcrPidAt(ps: seq<Packet>): Option<nat> {
    if ps == [] then None
    else
      var pmt := PmtOf(ps[..|ps| - 1], ps[|ps| - 1]);
      if pmt.Some? then Some(pmt.value.pcrPid) else PcrPidAt(ps[..|ps| - 1])
  }

  /** The last type a list of streams gives a PID. */
  function Named(streams: seq<Stream>, q: nat): Option<byte> {
    if streams == [] then None
    else
      var last := streams[|streams| - 1];
      if last.pid == q then Some(last.streamType) else Named(streams[..|streams| - 1], q)
  }

  /** The type the latest program map that names a PID gives it. */
  function TypeAt(ps: seq<Packet>, q: nat): Option<byte> {
    if ps == [] then None
    else
      var init := ps[..|ps| - 1];
      var pmt := PmtOf(init, ps[|ps| - 1]);
      if pmt.Some? && Named(pmt.value.streams, q).Some? then Named(pmt.value.streams, q) else TypeAt(init, q)
  }

  function Sample(v: Option<nat>): seq<nat> {
    if v.Some? then [v.value] else []
  }

  /** The presentation and the decoding time stamps of a PID. */
  function PtsOf(ps: seq<Packet>, q: nat): seq<nat> {
    if ps == [] then []
    else
      var init, p := ps[..|ps| - 1], ps[|ps| - 1];
      PtsOf(init, q) + if Pid(p) == q then Sample(PesOf(init, p).pts) else []
  }

  function DtsOf(ps: seq<Packet>, q: nat): seq<nat> {
    if ps == [] then []
    else
      var init, p := ps[..|ps| - 1], ps[|ps| - 1];
      DtsOf(init, q) + if Pid(p) == q then Sample(PesOf(init, p).dts) else []
  }

  /** What a PID's statistics say beyond their core. */
  datatype Marks = Marks(streamType: Option<byte>, pts: Clock, dts: Clock)

  function MarksOf(s: PidStats): Marks {
    Marks(if s.streamTypeKnown then Some(s.streamType) else None, s.pts, s.dts)
  }

  function Marked(ps: seq<Packet>, q: nat): Marks {
    Marks(TypeAt(ps, q), ClockOf(PtsOf(ps, q)), ClockOf(DtsOf(ps, q)))
  }

  /** What the state says of the program. */
  datatype Program = Program(pmtPid: Option<nat>, pcrPid: Option<nat>, pats: nat, pmts: nat)

  function ProgramOf(st: State): Program {
    Program(if st.pmtPidSet then Some(st.pmtPid) else None, if st.pcrPidSet then Some(st.pcrPid) else None,
            st.patCount, st.pmtCount)
  }

  function ProgramIn(ps: seq<Packet>): Program {
    Program(ProgramAt(ps), PcrPidAt(ps), Tables(ps), Maps(ps))
  }

  // ---- one step ----------------------------------------------------------

  lemma {:induction false} SampleRecorded(samples: seq<nat>, v: Option<nat>)
    ensures ClockOf(samples + Sample(v)) == if v.Some? then Record(ClockOf(samples), v.value) else ClockOf(samples)
  {
    hide Record;
    assert samples + [] == samples;
    if v.Some? {
      assert (samples + [v.value])[..|samples|] == samples;
    }
  }

  lemma {:induction false} StreamsMark(pids: Table, streams: seq<Stream>, q: nat)
    ensures MarksOf(Stat(WithStreams(pids, streams), q)) ==
              MarksOf(Stat(pids, q)).(streamType := if Named(streams, q).Some? then Named(streams, q)
                                                    else MarksOf(Stat(pids, q)).streamType)
    decreases |streams|
  {
    if streams != [] {
      var s := streams[0];
      var named := pids[s.pid := Stat(pids, s.pid).(streamType := s.streamType, streamTypeKnown := true)];
      StreamsMark(named, streams[1..], q);
      NamedFirst(streams, q);
    }
  }

  lemma {:induction false} NamedFirst(streams: seq<Stream>, q: nat)
    requires streams != []
    ensures Named(streams, q) == if Named(streams[1..], q).Some? then Named(streams[1..], q)
                                 else if streams[0].pid == q then Some(streams[0].streamType) else None
  {
    var n := |streams| - 1;
    if n > 0 {
      NamedFirst(streams[..n], q);
      assert streams[..n][1..] == streams[1..][..n - 1] && streams[1..][n - 1] == streams[n];
    }
  }

  lemma {:induction false} TallyKeepsMarks(st: State, p: Packet, q: nat)
    ensures MarksOf(Stat(Tally(st, p).pids, q)) == MarksOf(Stat(st.pids, q))
    ensures ProgramOf(Tally(st, p)) == ProgramOf(st)
  {
    hide Judge, Discontinuity, HasPcr, Record, ParsePcr, Pusi, HasPayload, Cc, Pid;
  }

  /** What a packet means, read in a state whose program is that of the history h. */
  lemma {:induction false} InterpretMarks(st: State, h: seq<Packet>, p: Packet)
    requires ProgramOf(st).pmtPid == ProgramAt(h)
    ensures var r := Interpret(st, p);
      && ProgramOf(r).pmtPid == (if PatOf(p).Some? then PatOf(p) else ProgramAt(h))
      && r.patCount == st.patCount + Count(PatOf(p).Some?)
      && r.pmtCount == st.pmtCount + Count(PmtOf(h, p).Some?)
      && ProgramOf(r).pcrPid == (if PmtOf(h, p).Some? then Some(PmtOf(h, p).value.pcrPid) else ProgramOf(st).pcrPid)
  {
    hide PatProgram, PmtContents, ParsePes, WithStreams, Payload, Pusi, Pid, ProgramAt;
  }

  lemma {:induction false} InterpretMarksPid(st: State, h: seq<Packet>, p: Packet, q: nat)
    requires ProgramOf(st).pmtPid == ProgramAt(h)
    ensures var r, was := MarksOf(Stat(Interpret(st, p).pids, q)), MarksOf(Stat(st.pids, q));
      var pes := if Pid(p) == q then PesOf(h, p) else Pes(None, None);
      && r.pts == (if pes.pts.Some? then Record(was.pts, pes.pts.value) else was.pts)
      && r.dts == (if pes.dts.Some? then Record(was.dts, pes.dts.value) else was.dts)
      && r.streamType == (if PmtOf(h, p).Some? && Named(PmtOf(h, p).value.streams, q).Some?
                          then Named(PmtOf(h, p).value.streams, q) else was.streamType)
  {
    hide PatProgram, PmtContents, ParsePes, WithStreams, Payload, Pusi, Pid, ProgramAt, Named, Record;
    var pmt := PmtContents(Payload(p));
    if pmt.Some? {
      StreamsMark(st.pids, pmt.value.streams, q);
    }
  }

  // ---- whole histories ---------------------------------------------------

  lemma {:induction false} FoldSnoc(init: seq<Packet>, p: Packet)
    ensures Fold(START, init + [p]) == Interpret(Tally(Fold(START, init), p), p)
  {
    hide Tally, Interpret;
    FoldConcat(START, init, [p]);
    FoldOne(Fold(START, init), p);
  }

  /** The program map's PID, the PCR PID and the numbers of tables read are those of the latest tables in the history,
      each program map recognised by the PAT before it. */
  lemma {:induction false} ProgramIsHistory(ps: seq<Packet>)
    ensures ProgramOf(Fold(START, ps)) == ProgramIn(ps)
    decreases |ps|
  {
    hide Tally, Interpret, PatOf, PmtOf, Fold;
    if ps == [] {
      NothingRead(0);
    } else {
      var init, p := ps[..|ps| - 1], ps[|ps| - 1];
      assert ps == init + [p];
      ProgramIsHistory(init);
      FoldSnoc(init, p);
      TallyKeepsMarks(Fold(START, init), p, 0);
      InterpretMarks(Tally(Fold(START, init), p), init, p);
    }
  }

  /** Every PID's stream type is the one its latest program map gives it, and its PTS and DTS clocks are those of the
      time stamps in its packets. */
  lemma {:induction false} MarksAreHistory(ps: seq<Packet>, q: nat)
    ensures MarksOf(Stat(Fold(START, ps).pids, q)) == Marked(ps, q)
    decreases |ps|
  {
    hide Tally, Interpret, PatOf, PmtOf, PesOf, Pid, Fold, Named, Record, ClockOf, Sample, Stat;
    if ps == [] {
      NothingRead(q);
    } else {
      var init, p := ps[..|ps| - 1], ps[|ps| - 1];
      assert ps == init + [p];
      var st := Fold(START, init);
      MarksAreHistory(init, q);
      ProgramIsHistory(init);
      FoldSnoc(init, p);
      TallyKeepsMarks(st, p, q);
      InterpretMarksPid(Tally(st, p), init, p, q);
      SampleRecorded(PtsOf(init, q), PesOf(init, p).pts);
      SampleRecorded(DtsOf(init, q), PesOf(init, p).dts);
      assert PtsOf(init, q) + [] == PtsOf(init, q) && DtsOf(init, q) + [] == DtsOf(init, q);
    }
  }

  lemma NothingRead(q: nat)
    ensures ProgramOf(Fold(START, [])) == ProgramIn([])
    ensures MarksOf(Stat(Fold(START, []).pids, q)) == Marked([], q)
  {
  }
}
