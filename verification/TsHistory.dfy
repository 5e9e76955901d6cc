/** What the inspector's statistics mean in terms of the packets it has seen, and of nothing else. */
module TsHistory {
  import opened Bytes
  import opened TsPacket
  import opened TsInspector

  // ---- reference definitions ---------------------------------------------

  function OfPid(ps: seq<Packet>, pid: nat): seq<Packet> {
    if ps == [] then []
    else
      var last := ps[|ps| - 1];
      OfPid(ps[..|ps| - 1], pid) + (if Pid(last) == pid then [last] else [])
  }

  function WithPayload(ps: seq<Packet>): seq<Packet> {
    if ps == [] then []
    else
      var last := ps[|ps| - 1];
      WithPayload(ps[..|ps| - 1]) + (if HasPayload(last) then [last] else [])
  }

  /** Two payload packets of one PID that follow each other: counter repeated. */
  predicate Repeats(a: Packet, b: Packet) {
    !Discontinuity(b) && Cc(b) == Cc(a)
  }

  /** ... counter neither repeated nor stepped by one modulo 16. */
  predicate Breaks(a: Packet, b: Packet) {
    !Discontinuity(b) && Cc(b) != Cc(a) && Cc(b) != (Cc(a) + 1) & 0x0F
  }

  datatype Event = Start | Jump | Loss | Repeat

  /** Does packet p, after the packets h, count as this event? */
  predicate Happens(e: Event, h: seq<Packet>, p: Packet) {
    match e
    case Start => Pusi(p)
    case Jump => Discontinuity(p)
    case Loss => h != [] && Breaks(h[|h| - 1], p)
    case Repeat => h != [] && Repeats(h[|h| - 1], p)
  }

  function Tallied(e: Event, h: seq<Packet>): nat {
    if h == [] then 0
    else
      var before, last := h[..|h| - 1], h[|h| - 1];
      Tallied(e, before) + Count(Happens(e, before, last))
  }

  function PcrSamples(h: seq<Packet>): seq<nat> {
    if h == [] then []
    else
      var last := h[|h| - 1];
      PcrSamples(h[..|h| - 1]) + (if HasPcr(last) then [ParsePcr(last[6..12])] else [])
  }

  function ClockOf(samples: seq<nat>): Clock {
    if samples == [] then NO_CLOCK else Record(ClockOf(samples[..|samples| - 1]), samples[|samples| - 1])
  }

  /** The statistics of one PID that do not depend on the program tables. */
  datatype Core = Core(packets: nat, payloadPackets: nat, pusi: nat, discPackets: nat,
                       ccSeen: bool, lastCc: byte, ccErrors: nat, ccDup: nat, pcr: Clock)

  function CoreOf(s: PidStats): Core {
    Core(s.packets, s.payloadPackets, s.pusi, s.discPackets, s.ccSeen, s.lastCc, s.ccErrors, s.ccDup, s.pcr)
  }

  /** The statistics the packets of a PID deserve, counted over its history. */
  function Deserved(h: seq<Packet>): Core {
    var c := WithPayload(h);
    Core(|h|, |c|, Tallied(Start, h), Tallied(Jump, h),
         c != [], if c == [] then 0 else Cc(c[|c| - 1]),
         Tallied(Loss, c), Tallied(Repeat, c), ClockOf(PcrSamples(h)))
  }

  // ---- one packet --------------------------------------------------------

  lemma CounterNotItsSuccessor(c: byte)
    requires c & 0x0F == c
    ensures c != (c + 1) & 0x0F
  {
  }

  lemma CcIsFourBits(p: Packet)
    ensures Cc(p) & 0x0F == Cc(p)
  {
  }

  /** Judging a packet against the PID's last counter is comparing it with the PID's last payload packet. */
  lemma {:induction false} JudgeByHistory(s: PidStats, c: seq<Packet>, p: Packet)
    requires s.ccSeen == (c != []) && (c != [] ==> s.lastCc == Cc(c[|c| - 1]))
    requires HasPayload(p)
    ensures Judge(s, p).Duplicate? <==> c != [] && Repeats(c[|c| - 1], p)
    ensures Judge(s, p).Lost? <==> c != [] && Breaks(c[|c| - 1], p)
  {
    hide Discontinuity, HasPayload, Cc;
    if c != [] {
      CcIsFourBits(c[|c| - 1]);
      CounterNotItsSuccessor(Cc(c[|c| - 1]));
    }
  }

  lemma {:induction false} AccountDeserved(s: PidStats, h: seq<Packet>, p: Packet)
    requires CoreOf(s) == Deserved(h)
    ensures CoreOf(Account(s, p)) == Deserved(h + [p])
  {
    hide Pusi, Discontinuity, HasPcr, ParsePcr, Record, HasPayload, Cc, Judge, Repeats, Breaks, WithPayload, PcrSamples, Tallied, ClockOf;
    var c := WithPayload(h);
    SnocFacts(h, p);
    JudgeIgnoresAdaptation(s, p);
    if HasPayload(p) {
      JudgeByHistory(s, c, p);
    }
  }

  lemma {:induction false} SnocFacts(h: seq<Packet>, p: Packet)
    ensures WithPayload(h + [p]) == if HasPayload(p) then WithPayload(h) + [p] else WithPayload(h)
    ensures PcrSamples(h + [p]) == if HasPcr(p) then PcrSamples(h) + [ParsePcr(p[6..12])] else PcrSamples(h)
    ensures forall e :: Tallied(e, h + [p]) == Tallied(e, h) + Count(Happens(e, h, p))
    ensures var c := WithPayload(h);
            forall e :: Tallied(e, c + [p]) == Tallied(e, c) + Count(Happens(e, c, p))
    ensures var x := PcrSamples(h);
            HasPcr(p) ==> ClockOf(x + [ParsePcr(p[6..12])]) == Record(ClockOf(x), ParsePcr(p[6..12]))
  {
    hide Happens, HasPayload, HasPcr, ParsePcr, Record;
    assert (h + [p])[..|h|] == h;
    var c := WithPayload(h);
    assert (c + [p])[..|c|] == c;
    if HasPcr(p) {
      var x := PcrSamples(h);
      var v := ParsePcr(p[6..12]);
      assert (x + [v])[..|x|] == x;
    }
  }

  lemma {:induction false} StreamsKeepCore(pids: Table, streams: seq<Stream>, q: nat)
    ensures CoreOf(Stat(WithStreams(pids, streams), q)) == CoreOf(Stat(pids, q))
    decreases |streams|
  {
    if streams != [] {
      var s := streams[0];
      var named := pids[s.pid := Stat(pids, s.pid).(streamType := s.streamType, streamTypeKnown := true)];
      assert CoreOf(Stat(named, q)) == CoreOf(Stat(pids, q));
      StreamsKeepCore(named, streams[1..], q);
    }
  }

  /** Reading tables and time stamps leaves the core statistics of every PID alone. */
  lemma {:induction false} InterpretKeepsCore(st: State, p: Packet, q: nat)
    ensures CoreOf(Stat(Interpret(st, p).pids, q)) == CoreOf(Stat(st.pids, q))
    ensures var r := Interpret(st, p); r.packets == st.packets && r.ccErrs == st.ccErrs && r.ccDup == st.ccDup && r.disc == st.disc
  {
    hide PatProgram, PmtContents, ParsePes, WithStreams, Pid, HasPayload, Pusi;
    var pmt := PmtContents(Payload(p));
    if pmt.Some? {
      StreamsKeepCore(st.pids, pmt.value.streams, q);
    }
  }

  // ---- main results ------------------------------------------------------

  /** Every PID's statistics are exactly those its packet history deserves. */
  lemma {:induction false} StatsAreHistory(ps: seq<Packet>, q: nat)
    ensures CoreOf(Stat(Fold(START, ps).pids, q)) == Deserved(OfPid(ps, q))
    decreases |ps|
  {
    hide Account, Interpret, Pid, Deserved;
    if ps == [] {
      DeservedNothing(q);
    } else {
      var init, p := ps[..|ps| - 1], ps[|ps| - 1];
      var st := Fold(START, init);
      assert ps == init + [p];
      FoldConcat(START, init, [p]);
      FoldOne(st, p);
      StatsAreHistory(init, q);
      InterpretKeepsCore(Tally(st, p), p, q);
      if Pid(p) == q {
        AccountDeserved(Stat(st.pids, q), OfPid(init, q), p);
      } else {
        assert OfPid(ps, q) == OfPid(init, q);
      }
    }
  }

  lemma DeservedNothing(q: nat)
    ensures CoreOf(Stat(Fold(START, []).pids, q)) == Deserved([])
  {
  }

  // ---- totals ------------------------------------------------------------

  datatype Counter = Packets | Errors | Duplicates | Discontinuities

  function Field(c: Counter, s: PidStats): nat {
    match c
    case Packets => s.packets
    case Errors => s.ccErrors
    case Duplicates => s.ccDup
    case Discontinuities => s.discPackets
  }

  function Global(c: Counter, st: State): nat {
    match c
    case Packets => st.packets
    case Errors => st.ccErrs
    case Duplicates => st.ccDup
    case Discontinuities => st.disc
  }

  ghost function Total(c: Counter, m: Table): nat
    decreases |m|
  {
    if m == map[] then 0
    else
      var k :| k in m;
      Field(c, m[k]) + Total(c, m - {k})
  }

  lemma {:induction false} TotalRemove(c: Counter, m: Table, k: nat)
    requires k in m
    ensures Total(c, m) == Field(c, m[k]) + Total(c, m - {k})
    decreases |m|
  {
    hide Field;
    var j :| j in m && Total(c, m) == Field(c, m[j]) + Total(c, m - {j});
    if j != k {
      TotalRemove(c, m - {j}, k);
      TotalRemove(c, m - {k}, j);
      assert m - {j} - {k} == m - {k} - {j};
    }
  }

  lemma {:induction false} TotalUpdate(c: Counter, m: Table, k: nat, s: PidStats)
    ensures Total(c, m[k := s]) + Field(c, Stat(m, k)) == Total(c, m) + Field(c, s)
  {
    hide Total;
    TotalRemove(c, m[k := s], k);
    assert m[k := s] - {k} == m - {k};
    if k in m {
      TotalRemove(c, m, k);
    } else {
      assert m - {k} == m;
    }
  }

  lemma {:induction false} StreamsKeepTotal(c: Counter, pids: Table, streams: seq<Stream>)
    ensures Total(c, WithStreams(pids, streams)) == Total(c, pids)
    decreases |streams|
  {
    hide Total;
    if streams != [] {
      var s := streams[0];
      var named := Stat(pids, s.pid).(streamType := s.streamType, streamTypeKnown := true);
      TotalUpdate(c, pids, s.pid, named);
      StreamsKeepTotal(c, pids[s.pid := named], streams[1..]);
    }
  }

  /** The global counters are at every moment the sums of the per-PID counters. */
  lemma {:induction false} TotalsMatch(c: Counter, ps: seq<Packet>)
    ensures Global(c, Fold(START, ps)) == Total(c, Fold(START, ps).pids)
    decreases |ps|
  {
    hide Total, Account, Judge, Pid, Discontinuity, PatProgram, PmtContents, ParsePes, WithStreams, AddPes;
    if ps == [] {
      EmptyTotal(c);
    } else {
      var init, p := ps[..|ps| - 1], ps[|ps| - 1];
      var st := Fold(START, init);
      var t := Tally(st, p);
      assert ps == init + [p];
      FoldConcat(START, init, [p]);
      FoldOne(st, p);
      TotalsMatch(c, init);
      TotalUpdate(c, st.pids, Pid(p), Account(Stat(st.pids, Pid(p)), p));
      AccountCounts(Stat(st.pids, Pid(p)), p);
      InterpretKeepsTotal(c, t, p);
    }
  }

  lemma EmptyTotal(c: Counter)
    ensures Total(c, map[]) == 0
  {
  }

  lemma {:induction false} AccountCounts(s: PidStats, p: Packet)
    ensures Account(s, p).packets == s.packets + 1
    ensures Account(s, p).discPackets == s.discPackets + Count(Discontinuity(p))
    ensures Account(s, p).ccDup == s.ccDup + Count(Judge(s, p).Duplicate?)
    ensures Account(s, p).ccErrors == s.ccErrors + Count(Judge(s, p).Lost?)
  {
    hide Discontinuity, HasPcr, Record, ParsePcr, Pusi, Cc;
    JudgeIgnoresAdaptation(s, p);
  }

  lemma {:induction false} InterpretKeepsTotal(c: Counter, st: State, p: Packet)
    ensures Total(c, Interpret(st, p).pids) == Total(c, st.pids)
    ensures Global(c, Interpret(st, p)) == Global(c, st)
  {
    hide Total, Pid, PatProgram, PmtContents, ParsePes, WithStreams, HasPayload, Pusi;
    var pmt := PmtContents(Payload(p));
    if pmt.Some? {
      StreamsKeepTotal(c, st.pids, pmt.value.streams);
    }
    TotalUpdate(c, st.pids, Pid(p), AddPes(Stat(st.pids, Pid(p)), ParsePes(Payload(p))));
  }

  // ---- clocks ------------------------------------------------------------

  predicate Forward(s: seq<nat>, k: nat)
    requires k < |s|
  {
    0 < k && s[k - 1] <= s[k]
  }

  lemma {:induction false} ClockSnoc(s: seq<nat>)
    requires s != []
    ensures |s| == 1 ==> ClockOf(s) == Record(NO_CLOCK, s[0])
    ensures |s| > 1 ==> ClockOf(s) == Record(ClockOf(s[..|s| - 1]), s[|s| - 1])
  {
    assert |s| == 1 ==> ClockOf(s[..0]) == NO_CLOCK;
  }

  /** The count, the ends and the extreme steps of a clock are those of its samples. */
  lemma {:induction false} ClockBounds(s: seq<nat>)
    requires s != []
    ensures var t := ClockOf(s);
            t.count == |s| && t.first == s[0] && t.last == s[|s| - 1]
            && forall k :: 0 <= k < |s| && Forward(s, k) ==> t.minDelta <= s[k] - s[k - 1] <= t.maxDelta
    decreases |s|
  {
    hide ClockOf;
    ClockSnoc(s);
    if |s| > 1 {
      var r, n := s[..|s| - 1], |s| - 1;
      ClockBounds(r);
      forall k | 0 <= k < |s| && Forward(s, k)
        ensures ClockOf(s).minDelta <= s[k] - s[k - 1] <= ClockOf(s).maxDelta
      {
        if k < n {
          assert Forward(r, k) && r[k] == s[k] && r[k - 1] == s[k - 1];
        }
      }
    }
  }

  lemma {:induction false} MinimumSnoc(s: seq<nat>)
    requires |s| >= 2
    ensures var r, n := s[..|s| - 1], |s| - 1;
      && (ClockOf(s).minDelta == ClockOf(r).minDelta || (Forward(s, n) && ClockOf(s).minDelta == s[n] - s[n - 1]))
      && (n == 1 ==> ClockOf(s).minDelta == if s[0] <= s[1] then s[1] - s[0] else 0)
      && (s[1] < s[0] && ClockOf(r).minDelta == 0 ==> ClockOf(s).minDelta == 0)
  {
    hide ClockOf;
    ClockSnoc(s);
    ClockSnoc(s[..|s| - 1]);
    ClockBounds(s[..|s| - 1]);
  }

  /** The reported minimum is a real step if the second sample is not backwards; otherwise it is 0 for good. */
  lemma {:induction false} ClockMinimum(s: seq<nat>)
    requires |s| >= 2
    ensures s[1] < s[0] ==> ClockOf(s).minDelta == 0
    ensures s[0] <= s[1] ==> exists k :: 0 <= k < |s| && Forward(s, k) && ClockOf(s).minDelta == s[k] - s[k - 1]
    decreases |s|
  {
    hide ClockOf, Record;
    var r, n := s[..|s| - 1], |s| - 1;
    MinimumSnoc(s);
    if |s| == 2 {
      if s[0] <= s[1] {
        assert Forward(s, 1);
      }
    } else {
      ClockMinimum(r);
      if s[0] <= s[1] {
        var k :| 0 <= k < |r| && Forward(r, k) && ClockOf(r).minDelta == r[k] - r[k - 1];
        assert Forward(s, k) && r[k] == s[k] && r[k - 1] == s[k - 1];
      }
    }
  }

  /** Somewhere the clock steps forward by d, and nowhere by less. */
  ghost predicate SmallestStep(s: seq<nat>, d: nat) {
    && (exists k :: 0 <= k < |s| && Forward(s, k) && s[k] - s[k - 1] == d)
    && (forall k :: 0 <= k < |s| && Forward(s, k) ==> d <= s[k] - s[k - 1])
  }

  /** The reported minimum is the smallest forward step exactly when the second sample is not backwards, or a sample
      repeats the one before it. */
  lemma {:induction false} ClockMinimumIff(s: seq<nat>)
    requires |s| >= 2
    ensures SmallestStep(s, ClockOf(s).minDelta) <==>
              s[0] <= s[1] || exists k :: 0 < k < |s| && s[k] == s[k - 1]
  {
    hide ClockOf;
    ClockMinimum(s);
    ClockBounds(s);
    if k :| 0 < k < |s| && s[k] == s[k - 1] {
      assert Forward(s, k);
    }
  }

  /** It can be off: the one forward step is 3, the reported minimum 0. */
  lemma {:induction false} ClockMinimumMisses()
    ensures ClockOf([5, 0, 3]).minDelta == 0 && SmallestStep([5, 0, 3], 3) && !SmallestStep([5, 0, 3], 0)
  {
    hide ClockOf;
    var s: seq<nat> := [5, 0, 3];
    ClockMinimum(s);
    assert Forward(s, 2);
  }

  // ---- time stamps on the wire -------------------------------------------

  /** Section 2.4.3.7 of ISO/IEC 13818-1: 33 bits in five bytes with three marker bits. */
  function EncodeTimestamp(prefix: byte, v: nat): seq<byte>
    requires v < 0x2_0000_0000
  {
    [ (prefix << 4) | (Byte(v / 0x4000_0000) << 1) | 0x01,
      Byte(v / 0x40_0000 % 256),
      (Byte(v / 0x8000 % 128) << 1) | 0x01,
      Byte(v / 0x80 % 256),
      (Byte(v % 128) << 1) | 0x01 ]
  }

  lemma {:induction false} SevenBits(b: byte)
    ensures ((b << 1) | 0x01) & 0x01 == 0x01
    ensures Int(b) < 128 ==> (((b << 1) | 0x01) >> 1) & 0x7F == b
  {
    assert b < 128 ==> (((b << 1) | 0x01) >> 1) & 0x7F == b;
  }

  lemma {:induction false} ThreeBits(prefix: byte, b: byte)
    ensures ((prefix << 4) | (b << 1) | 0x01) & 0x01 == 0x01
    ensures Int(b) < 8 ==> (((prefix << 4) | (b << 1) | 0x01) >> 1) & 0x07 == b
  {
    assert b < 8 ==> (((prefix << 4) | (b << 1) | 0x01) >> 1) & 0x07 == b;
  }

  lemma {:induction false} TimestampDigits(v: nat)
    requires v < 0x2_0000_0000
    ensures v / 0x4000_0000 < 8
    ensures v / 0x4000_0000 * 0x4000_0000 + v / 0x40_0000 % 256 * 0x40_0000 + v / 0x8000 % 128 * 0x8000
          + v / 0x80 % 256 * 0x80 + v % 128 == v
  {
    var w := v / 0x80;
    var x := w / 256;
    assert x == v / 0x8000;
    var y := x / 128;
    assert y == v / 0x40_0000;
    assert y / 256 == v / 0x4000_0000;
  }

  lemma {:induction false} TimestampPieces(prefix: byte, hi: byte, a: byte, mid: byte, c: byte, low: byte)
    requires Int(hi) < 8 && Int(mid) < 128 && Int(low) < 128
    ensures ParseTimestamp([(prefix << 4) | (hi << 1) | 0x01, a, (mid << 1) | 0x01, c, (low << 1) | 0x01])
         == Some(Int(hi) * 0x4000_0000 + Int(a) * 0x40_0000 + Int(mid) * 0x8000 + Int(c) * 0x80 + Int(low))
  {
    hide Int;
    ThreeBits(prefix, hi);
    SevenBits(mid);
    SevenBits(low);
  }

  /** Every 33-bit time stamp survives encoding and parsing, whatever the prefix nibble. */
  lemma {:induction false} TimestampRoundTrip(prefix: byte, v: nat)
    requires v < 0x2_0000_0000
    ensures ParseTimestamp(EncodeTimestamp(prefix, v)) == Some(v)
  {
    hide Int, Byte, ParseTimestamp;
    TimestampDigits(v);
    var hi, a, mid, c, low := v / 0x4000_0000, v / 0x40_0000 % 256, v / 0x8000 % 128, v / 0x80 % 256, v % 128;
    IntOfByte(hi);
    IntOfByte(a);
    IntOfByte(mid);
    IntOfByte(c);
    IntOfByte(low);
    TimestampPieces(prefix, Byte(hi), Byte(a), Byte(mid), Byte(c), Byte(low));
  }

  /** Section 2.4.3.5: 33 bits of base, six reserved bits, nine bits of extension. */
  function EncodePcr(base: nat, ext: nat): seq<byte>
    requires base < 0x2_0000_0000 && ext < 0x200
  {
    [ Byte(base / 0x200_0000), Byte(base / 0x2_0000 % 256), Byte(base / 0x200 % 256), Byte(base / 2 % 256),
      (Byte(base % 2) << 7) | 0x7E | Byte(ext / 256), Byte(ext % 256) ]
  }

  lemma {:induction false} OuterBits(b: byte, e: byte)
    requires Int(b) < 2 && Int(e) < 2
    ensures ((b << 7) | 0x7E | e) >> 7 == b && ((b << 7) | 0x7E | e) & 0x01 == e
  {
    assert b < 2 && e < 2;
  }

  lemma {:induction false} PcrDigits(v: nat)
    requires v < 0x2_0000_0000
    ensures v / 0x200_0000 < 256
    ensures v / 0x200_0000 * 0x200_0000 + v / 0x2_0000 % 256 * 0x2_0000 + v / 0x200 % 256 * 0x200
          + v / 2 % 256 * 2 + v % 2 == v
  {
    var w := v / 2;
    var x := w / 256;
    assert x == v / 0x200;
    var y := x / 256;
    assert y == v / 0x2_0000;
    assert y / 256 == v / 0x200_0000;
  }

  lemma {:induction false} PcrPieces(b0: byte, b1: byte, b2: byte, b3: byte, b: byte, e: byte, b5: byte)
    requires Int(b) < 2 && Int(e) < 2
    ensures ParsePcr([b0, b1, b2, b3, (b << 7) | 0x7E | e, b5])
         == (Int(b0) * 0x200_0000 + Int(b1) * 0x2_0000 + Int(b2) * 0x200 + Int(b3) * 2 + Int(b)) * 300
          + (Int(e) * 256 + Int(b5))
  {
    hide Int;
    OuterBits(b, e);
  }

  lemma {:induction false} PcrRoundTrip(base: nat, ext: nat)
    requires base < 0x2_0000_0000 && ext < 0x200
    ensures ParsePcr(EncodePcr(base, ext)) == base * 300 + ext
  {
    hide Int, Byte, ParsePcr;
    PcrDigits(base);
    IntOfByte(base / 0x200_0000);
    IntOfByte(base / 0x2_0000 % 256);
    IntOfByte(base / 0x200 % 256);
    IntOfByte(base / 2 % 256);
    IntOfByte(base % 2);
    IntOfByte(ext / 256);
    IntOfByte(ext % 256);
    PcrPieces(Byte(base / 0x200_0000), Byte(base / 0x2_0000 % 256), Byte(base / 0x200 % 256), Byte(base / 2 % 256),
              Byte(base % 2), Byte(ext / 256), Byte(ext % 256));
  }

  // ---- writes ------------------------------------------------------------

  /** However a stream is split into writes, the inspector ends in the same state (ts_inspector.go:50-59). */
  method ObserveAll(ins: Inspector, chunks: seq<seq<byte>>)
    requires ins.Valid() && !ins.closed
    modifies ins
    ensures ins.Valid() && !ins.closed && ins.stream == old(ins.stream) + Join(chunks)
    ensures ins.Snapshot() == Summary(old(ins.stream) + Join(chunks), ins.maxPackets)
    ensures ins.totalBytes == |old(ins.stream)| + |Join(chunks)|
  {
    hide Summary;
    for k := 0 to |chunks|
      invariant ins.Valid() && !ins.closed && ins.stream == old(ins.stream) + Join(chunks[..k])
    {
      ins.Observe(chunks[k]);
      assert chunks[..k + 1] == chunks[..k] + [chunks[k]];
      JoinSnoc(chunks[..k], chunks[k]);
    }
    assert chunks[..|chunks|] == chunks;
  }
}
