/** The splice writer of internal/tuner/gateway_stream_helpers.go:14-121: it cuts a byte stream into 188-byte
    packets and puts a discontinuity packet before the first packet of every PID. */
module SpliceWriter {
  import opened Bytes
  import opened TsPacket
  import opened Sinks

  const MAX_PIDS: nat := 16

  type Chunk = c: seq<byte> | |c| == 188 witness seq(188, _ => 0)

  /** makeTSDiscontinuityPacket: an adaptation field that fills the packet and says only "discontinuity". */
  function ShimPacket(pid: nat, cc: byte): Packet {
    [0x47, Byte(pid / 256 % 32), Byte(pid % 256), 0x20 | (cc & 0x0F), 183, 0x80] + seq(182, _ => 0xFF)
  }

  method MakeShim(pid: nat, cc: byte) returns (pkt: array<byte>)
    ensures fresh(pkt) && pkt[..] == ShimPacket(pid, cc)
  {
    hide Byte;
    pkt := new byte[188](_ => 0);
    pkt[0], pkt[1], pkt[2] := 0x47, Byte(pid / 256 % 32), Byte(pid % 256);
    pkt[3], pkt[4], pkt[5] := 0x20 | (cc & 0x0F), 183, 0x80;
    for i := 6 to 188
      invariant pkt[..6] == [0x47, Byte(pid / 256 % 32), Byte(pid % 256), 0x20 | (cc & 0x0F), 183, 0x80]
      invariant forall k :: 6 <= k < i ==> pkt[k] == 0xFF
    {
      pkt[i] := 0xFF;
    }
    assert pkt[..] == pkt[..6] + pkt[6..];
  }

  // ---- what the writer emits ---------------------------------------------

  datatype Item = Raw(data: seq<byte>) | Shim(pid: nat, cc: byte)

  function ItemBytes(x: Item): seq<byte> {
    match x
    case Raw(data) => data
    case Shim(pid, cc) => ShimPacket(pid, cc)
  }

  function Flat(xs: seq<Item>): seq<byte> {
    if xs == [] then [] else Flat(xs[..|xs| - 1]) + ItemBytes(xs[|xs| - 1])
  }

  /** The output without the injected packets. */
  function Erase(xs: seq<Item>): seq<byte> {
    if xs == [] then []
    else Erase(xs[..|xs| - 1]) + (if xs[|xs| - 1].Raw? then xs[|xs| - 1].data else [])
  }

  function Shims(xs: seq<Item>): seq<nat> {
    if xs == [] then []
    else Shims(xs[..|xs| - 1]) + (if xs[|xs| - 1].Shim? then [xs[|xs| - 1].pid] else [])
  }

  datatype Mode = Mode(active: bool, seen: set<nat>)

  predicate Wants(m: Mode, c: Chunk) {
    m.active && c[0] == SYNC && Pid(c) != NULL_PID && Pid(c) !in m.seen && |m.seen| < MAX_PIDS
  }

  function Next(m: Mode, c: Chunk): Mode {
    if !m.active then m
    else if c[0] != SYNC then m.(active := false)
    else
      var seen := if Wants(m, c) then m.seen + {Pid(c)} else m.seen;
      Mode(|seen| < MAX_PIDS, seen)
  }

  function ModeAfter(cs: seq<Chunk>): Mode {
    if cs == [] then Mode(true, {}) else Next(ModeAfter(cs[..|cs| - 1]), cs[|cs| - 1])
  }

  function Before(m: Mode, c: Chunk): seq<Item> {
    if Wants(m, c) then [Shim(Pid(c), Cc(c))] else []
  }

  function Output(cs: seq<Chunk>): seq<Item> {
    if cs == [] then []
    else
      var init, c := cs[..|cs| - 1], cs[|cs| - 1];
      Output(init) + Before(ModeAfter(init), c) + [Raw(c)]
  }

  /** The whole packets of a stream, and the bytes behind the last one. */
  function Chunks(s: seq<byte>): seq<Chunk>
    decreases |s|
  {
    if |s| < 188 then [] else [s[..188]] + Chunks(s[188..])
  }

  function Remainder(s: seq<byte>): (r: seq<byte>)
    ensures |r| < 188
    decreases |s|
  {
    if |s| < 188 then s else Remainder(s[188..])
  }

  function Splice(s: seq<byte>): seq<Item> {
    Output(Chunks(s)) + (if Remainder(s) == [] then [] else [Raw(Remainder(s))])
  }

  lemma {:induction false} ChunksJoin(s: seq<byte>)
    ensures Join(Chunks(s)) + Remainder(s) == s
    decreases |s|
  {
    if |s| >= 188 {
      ChunksJoin(s[188..]);
      assert s == s[..188] + s[188..];
      assert Chunks(s)[1..] == Chunks(s[188..]);
    }
  }

  lemma {:induction false} ChunksOf(cs: seq<Chunk>, r: seq<byte>)
    ensures Chunks(Join(cs) + r) == cs + Chunks(r) && Remainder(Join(cs) + r) == Remainder(r)
    decreases |cs|
  {
    if cs == [] {
      assert Join(cs) + r == r;
    } else {
      var s := Join(cs) + r;
      assert s == cs[0] + (Join(cs[1..]) + r);
      assert s[..188] == cs[0] && s[188..] == Join(cs[1..]) + r;
      ChunksOf(cs[1..], r);
      assert [cs[0]] + (cs[1..] + Chunks(r)) == cs + Chunks(r);
    }
  }

  // ---- the writer --------------------------------------------------------

  class Writer {
    const dst: Sink
    var seenPids: set<nat>
    var buf: seq<byte>
    var emitted: nat
    var shimPackets: nat
    var rawPackets: nat
    var active: bool
    /** Every byte accepted by Write, the packets written out, and what dst held before the first write. */
    ghost var input: seq<byte>
    ghost var done: seq<Chunk>
    ghost const origin: seq<byte>
    /** A shim is out and its packet is not: the packet's own write failed. */
    ghost var half: bool

    ghost function CurrentMode(): Mode
      reads this
    {
      Mode(active, seenPids)
    }

    ghost function Written(): seq<Item>
      reads this
    {
      if half && |buf| >= 188 then Output(done) + Before(ModeAfter(done), buf[..188]) else Output(done)
    }

    ghost predicate Valid()
      reads this, dst
    {
      && input == Join(done) + buf
      && (half ==> |buf| >= 188)
      && CurrentMode() == (if half then Next(ModeAfter(done), buf[..188]) else ModeAfter(done))
      && dst.bytes == origin + Flat(Written())
      && emitted == |Flat(Written())|
      && shimPackets == |Shims(Written())|
      && rawPackets == |done|
    }

    constructor (dst: Sink)
      ensures Valid() && input == [] && buf == [] && !half && this.dst == dst && origin == dst.bytes
    {
      this.dst := dst;
      seenPids, buf, emitted, shimPackets, rawPackets, active := {}, [], 0, 0, 0, true;
      input, done, half, origin := [], [], false, dst.bytes;
    }

    /** The items out once the shim that pkt may want is written. */
    ghost predicate Shimmed(pkt: Chunk, shimmed: seq<Item>)
      reads this, dst
    {
      && shimmed == Output(done) + Before(ModeAfter(done), pkt)
      && dst.bytes == origin + Flat(shimmed)
      && emitted == |Flat(shimmed)| && shimPackets == |Shims(shimmed)| && rawPackets == |done|
    }

    /** The shim a packet may want, and the packet's effect on the mode (gateway_stream_helpers.go:62-84). */
    method Announce(pkt: Chunk, ghost shimmed: seq<Item>) returns (ok: bool)
      requires Valid() && |buf| >= 188 && pkt == buf[..188]
      requires shimmed == Output(done) + Before(ModeAfter(done), pkt)
      modifies this`seenPids, this`emitted, this`shimPackets, this`active, dst
      ensures ok ==> Shimmed(pkt, shimmed) && CurrentMode() == Next(ModeAfter(done), pkt)
      ensures !ok ==> Valid()
      ensures ok == (Wants(old(CurrentMode()), pkt) ==> old(dst.room) > 0)
      ensures ok ==> dst.room == old(dst.room) - (if Wants(old(CurrentMode()), pkt) then 1 else 0)
    {
      hide ItemBytes, ShimPacket, Output, ModeAfter, Cc, Pid, Flat, Shims, Join;
      NextTwice(ModeAfter(done), pkt);
      assert Output(done) + [] == Output(done);
      ok := true;
      if active {
        if pkt[0] != SYNC {
          active := false;
        } else {
          var pid := Pid(pkt);
          if pid != NULL_PID {
            if pid !in seenPids && |seenPids| < MAX_PIDS {
              var shim := MakeShim(pid, pkt[3] & 0x0F);
              ok := dst.Write(shim[..]);
              if !ok { return; }
              ShimBytes(pid, pkt);
              FlatSnoc(Output(done), Shim(pid, Cc(pkt)));
              emitted := emitted + shim.Length;
              shimPackets := shimPackets + 1;
              seenPids := seenPids + {pid};
            }
          }
          if |seenPids| >= MAX_PIDS {
            active := false;
          }
        }
      }
    }

    /** writePacket on the first packet of the buffer, and the step of Write's loop behind it. */
    method WritePacket() returns (ok: bool)
      requires Valid() && |buf| >= 188
      modifies this, dst
      ensures Valid() && input == old(input)
      ensures ok ==> !half && buf == old(buf[188..]) && done == old(done + [buf[..188]])
      ensures !ok ==> buf == old(buf) && done == old(done)
      ensures ok == (old(dst.room) > if Wants(old(CurrentMode()), old(buf[..188])) then 1 else 0)
      ensures ok ==> old(dst.room) <= dst.room + 2
    {
      hide Output, ModeAfter, Flat, Shims, Join, Before, Next, Wants;
      ghost var shimmed := Output(done) + Before(ModeAfter(done), buf[..188]);
      ok := Announce(buf[..188], shimmed);
      if ok {
        ok := WriteRaw(buf[..188], shimmed);
      }
    }

    method WriteRaw(pkt: Chunk, ghost shimmed: seq<Item>) returns (ok: bool)
      requires |buf| >= 188 && pkt == buf[..188] && input == Join(done) + buf
      requires Shimmed(pkt, shimmed) && CurrentMode() == Next(ModeAfter(done), pkt)
      modifies this, dst
      ensures Valid() && input == old(input)
      ensures ok ==> !half && buf == old(buf[188..]) && done == old(done) + [pkt]
      ensures !ok ==> buf == old(buf) && done == old(done)
      ensures ok == (old(dst.room) > 0) && (ok ==> dst.room == old(dst.room) - 1)
    {
      hide Output, ModeAfter, Flat, Shims, Join, Before, Next;
      ok := dst.Write(pkt);
      if ok {
        FlatSnoc(shimmed, Raw(pkt));
        OutputSnoc(done, pkt);
        JoinSnoc(done, pkt);
        emitted := emitted + |pkt|;
        rawPackets := rawPackets + 1;
        assert buf == pkt + buf[188..];
        buf, done, half := buf[188..], done + [pkt], false;
      } else {
        half := true;
      }
    }

    method Write(p: seq<byte>) returns (ok: bool)
      requires Valid()
      modifies this, dst
      ensures Valid() && input == old(input) + p
      ensures ok && p != [] ==> !half && |buf| < 188
      ensures p == [] ==> ok && half == old(half) && buf == old(buf)
      ensures old(dst.room) >= 2 * ((|old(buf)| + |p|) / 188) ==> ok
    {
      hide Join, Flat, Shims, Output, ModeAfter, Next, Wants, Before;
      if |p| == 0 {
        assert input + p == input;
        return true;
      }
      input := input + p;
      buf := buf + p;
      assert Valid() by {
        assert half ==> buf[..188] == old(buf)[..188];
        assert Join(done) + (old(buf) + p) == (Join(done) + old(buf)) + p;
      }
      while |buf| >= 188
        invariant Valid() && input == old(input) + p
        invariant |buf| < 188 ==> !half
        invariant old(dst.room) >= 2 * ((|old(buf)| + |p|) / 188) ==> dst.room >= 2 * (|buf| / 188)
        decreases |buf|
      {
        ok := WritePacket();
        if !ok { return; }
      }
      return true;
    }

    /** The items out once the buffer has gone out as it stands, a packet left by a failed write included. */
    ghost function Flushed(): seq<Item>
      reads this
    {
      if buf == [] then Written() else Written() + [Raw(buf)]
    }

    method FlushRemainder() returns (ok: bool)
      requires Valid()
      modifies this`emitted, this`buf, dst
      ensures old(Erase(Flushed())) == input && (!old(half) && |old(buf)| < 188 ==> old(Flushed()) == Splice(input))
      ensures ok ==>
        && dst.bytes == origin + Flat(old(Flushed())) && emitted == |Flat(old(Flushed()))| && buf == []
      ensures !ok ==> dst.bytes == old(dst.bytes) && buf == old(buf)
      ensures ok == (old(dst.room) > 0 || old(buf) == [])
    {
      hide Join, Flat, Output, Splice, Erase, Before, Written, ModeAfter, Next, Shims;
      FlushedFacts();
      hide Flushed;
      assert buf == [] ==> dst.bytes + buf == dst.bytes;
      ok := true;
      if |buf| > 0 {
        ok := dst.Write(buf);
        if !ok { return; }
        emitted := emitted + |buf|;
        buf := [];
      }
    }

    lemma {:induction false} FlushedFacts()
      requires Valid()
      ensures Flat(Flushed()) == Flat(Written()) + buf && Erase(Flushed()) == input
      ensures !half && |buf| < 188 ==> Flushed() == Splice(input)
    {
      hide Join, Flat, Output, Splice, Erase, Before, ModeAfter, Next, Shims;
      WrittenErases();
      if !half && |buf| < 188 {
        SpliceOf(done, buf);
      }
      if buf == [] {
        assert Flat(Written()) + [] == Flat(Written()) && Join(done) + [] == Join(done);
      } else {
        FlatSnoc(Written(), Raw(buf));
      }
    }

    lemma {:induction false} WrittenErases()
      requires Valid()
      ensures Erase(Written()) == Join(done)
    {
      EraseOutput(done);
      if half {
        var pkt := buf[..188];
        assert Output(done) + [] == Output(done);
        FlatSnoc(Output(done), Shim(Pid(pkt), Cc(pkt)));
        assert Erase(Output(done)) + [] == Erase(Output(done));
      }
    }
  }

  lemma {:induction false} SpliceOf(cs: seq<Chunk>, r: seq<byte>)
    requires |r| < 188
    ensures Splice(Join(cs) + r) == if r == [] then Output(cs) else Output(cs) + [Raw(r)]
  {
    hide Join, Output;
    ChunksOf(cs, r);
    assert cs + [] == cs;
    assert Output(cs) + [] == Output(cs);
  }

  lemma {:induction false} ShimBytes(pid: nat, p: Chunk)
    ensures ItemBytes(Shim(pid, Cc(p))) == ShimPacket(pid, p[3] & 0x0F)
  {
    assert (p[3] & 0x0F) & 0x0F == p[3] & 0x0F;
  }

  lemma {:induction false} OutputSnoc(cs: seq<Chunk>, c: Chunk)
    ensures Output(cs + [c]) == Output(cs) + Before(ModeAfter(cs), c) + [Raw(c)]
    ensures ModeAfter(cs + [c]) == Next(ModeAfter(cs), c)
  {
    assert (cs + [c])[..|cs|] == cs;
  }

  lemma {:induction false} FlatSnoc(xs: seq<Item>, x: Item)
    ensures Flat(xs + [x]) == Flat(xs) + ItemBytes(x)
    ensures Shims(xs + [x]) == Shims(xs) + (if x.Shim? then [x.pid] else [])
    ensures Erase(xs + [x]) == Erase(xs) + (if x.Raw? then x.data else [])
  {
    assert (xs + [x])[..|xs|] == xs;
  }

  /** Looking at a packet a second time changes nothing more. */
  lemma NextTwice(m: Mode, c: Chunk)
    ensures Next(Next(m, c), c) == Next(m, c) && !Wants(Next(m, c), c)
  {
  }

  // ---- what the output means ---------------------------------------------

  /** Erasing the injected packets gives the input back, byte for byte. */
  lemma {:induction false} EraseGivesInput(s: seq<byte>)
    ensures Erase(Splice(s)) == s
  {
    hide Chunks, Remainder, Output, Erase;
    var cs, r := Chunks(s), Remainder(s);
    ChunksJoin(s);
    EraseOutput(cs);
    if r == [] {
      assert Output(cs) + [] == Output(cs);
    } else {
      FlatSnoc(Output(cs), Raw(r));
    }
  }

  lemma {:induction false} EraseOutput(cs: seq<Chunk>)
    ensures Erase(Output(cs)) == Join(cs)
    decreases |cs|
  {
    hide ModeAfter, Wants, Cc, Pid;
    if cs != [] {
      var init, c := cs[..|cs| - 1], cs[|cs| - 1];
      EraseOutput(init);
      assert cs == init + [c];
      JoinSnoc(init, c);
      var xs := Output(init);
      if Wants(ModeAfter(init), c) {
        FlatSnoc(xs, Shim(Pid(c), Cc(c)));
        FlatSnoc(xs + [Shim(Pid(c), Cc(c))], Raw(c));
      } else {
        assert xs + [] == xs;
        FlatSnoc(xs, Raw(c));
      }
    }
  }

  predicate AllSync(cs: seq<Chunk>) {
    forall k :: 0 <= k < |cs| ==> cs[k][0] == SYNC
  }

  /** The PIDs of some packets, null packets aside. */
  function PidsOf(cs: seq<Chunk>): set<nat> {
    if cs == [] then {}
    else
      var c := cs[|cs| - 1];
      PidsOf(cs[..|cs| - 1]) + (if Pid(c) == NULL_PID then {} else {Pid(c)})
  }

  lemma {:induction false} SubsetSize<T>(a: set<T>, b: set<T>)
    requires a <= b
    ensures |a| <= |b|
  {
    assert b == a + (b - a);
  }

  /** The writer is active while sync held and fewer than 16 PIDs came; then it has seen them all. */
  lemma {:induction false} ModeMeaning(cs: seq<Chunk>)
    ensures var m := ModeAfter(cs);
            && |m.seen| <= MAX_PIDS && m.seen <= PidsOf(cs)
            && (m.active <==> AllSync(cs) && |PidsOf(cs)| < MAX_PIDS)
            && (m.active ==> m.seen == PidsOf(cs))
    decreases |cs|
  {
    hide Pid;
    if cs != [] {
      var init, c := cs[..|cs| - 1], cs[|cs| - 1];
      ModeMeaning(init);
      SubsetSize(PidsOf(init), PidsOf(cs));
      assert AllSync(cs) <==> AllSync(init) && c[0] == SYNC;
    }
  }

  /** The k-th packet opens its PID: nothing lost sync so far, and fewer than 16 PIDs came before. */
  predicate OpensPid(cs: seq<Chunk>, k: nat)
    requires k < |cs|
  {
    && AllSync(cs[..k + 1]) && Pid(cs[k]) != NULL_PID
    && Pid(cs[k]) !in PidsOf(cs[..k]) && |PidsOf(cs[..k])| < MAX_PIDS
  }

  function Placed(cs: seq<Chunk>, n: nat): seq<Item>
    requires n <= |cs|
  {
    if n == 0 then
      []
    else
      Placed(cs, n - 1)
      + (if OpensPid(cs, n - 1) then [Shim(Pid(cs[n - 1]), Cc(cs[n - 1]))] else [])
      + [Raw(cs[n - 1])]
  }

  lemma {:induction false} WantsWhenOpening(cs: seq<Chunk>, k: nat)
    requires k < |cs|
    ensures Wants(ModeAfter(cs[..k]), cs[k]) <==> OpensPid(cs, k)
  {
    hide Pid, ModeAfter, PidsOf;
    ModeMeaning(cs[..k]);
    assert cs[..k + 1] == cs[..k] + [cs[k]];
    assert AllSync(cs[..k + 1]) <==> AllSync(cs[..k]) && cs[k][0] == SYNC;
    hide AllSync;
  }

  /** A shim stands directly before a packet exactly when that packet opens its PID. */
  lemma {:induction false} ShimPlacement(cs: seq<Chunk>, n: nat)
    requires n <= |cs|
    ensures Output(cs[..n]) == Placed(cs, n)
  {
    hide Pid, Cc, Wants, OpensPid, Output, ModeAfter;
    if n == 0 {
      NothingOut();
    } else {
      ShimPlacement(cs, n - 1);
      assert cs[..n] == cs[..n - 1] + [cs[n - 1]];
      OutputSnoc(cs[..n - 1], cs[n - 1]);
      WantsWhenOpening(cs, n - 1);
    }
  }

  lemma NothingOut()
    ensures Output([]) == []
  {
  }

  ghost predicate Distinct<T(!new)>(xs: seq<T>) {
    forall i, j :: 0 <= i < j < |xs| ==> xs[i] != xs[j]
  }

  /** Each PID gets at most one shim, there are at most 16, and they are the PIDs the writer remembers. */
  lemma {:induction false} ShimsAreSeen(cs: seq<Chunk>)
    ensures Distinct(Shims(Output(cs)))
    ensures forall q :: q in Shims(Output(cs)) <==> q in ModeAfter(cs).seen
    ensures |Shims(Output(cs))| == |ModeAfter(cs).seen| <= MAX_PIDS && NULL_PID !in ModeAfter(cs).seen
    decreases |cs|
  {
    hide Pid, Shims, Output, PidsOf, AllSync;
    ModeMeaning(cs);
    NullNeverSeen(cs);
    if cs == [] {
      assert Shims(Output(cs)) == [] by { NoShims(); }
    } else {
      var init, c := cs[..|cs| - 1], cs[|cs| - 1];
      ShimsAreSeen(init);
      ShimsStep(init, c);
      assert cs == init + [c];
    }
  }

  lemma NoShims()
    ensures Shims(Output([])) == []
  {
  }

  lemma {:induction false} ShimsStep(cs: seq<Chunk>, c: Chunk)
    ensures Shims(Output(cs + [c])) == Shims(Output(cs)) + (if Wants(ModeAfter(cs), c) then [Pid(c)] else [])
  {
    hide Pid, Cc, Flat, Erase, ItemBytes, Output, ModeAfter, Wants;
    OutputSnoc(cs, c);
    var xs := Output(cs);
    var b := Before(ModeAfter(cs), c);
    FlatSnoc(xs + b, Raw(c));
    if b == [] {
      assert xs + b == xs;
    } else {
      FlatSnoc(xs, b[0]);
    }
  }

  lemma {:induction false} NullNeverSeen(cs: seq<Chunk>)
    ensures NULL_PID !in PidsOf(cs)
    decreases |cs|
  {
    if cs != [] {
      NullNeverSeen(cs[..|cs| - 1]);
    }
  }

  // ---- prefixes ----------------------------------------------------------

  lemma {:induction false} FlatConcat(a: seq<Item>, b: seq<Item>)
    ensures Flat(a + b) == Flat(a) + Flat(b)
    ensures Shims(a + b) == Shims(a) + Shims(b)
    decreases |b|
  {
    hide ItemBytes;
    if b == [] {
      assert a + b == a;
    } else {
      var init, x := b[..|b| - 1], b[|b| - 1];
      assert a + b == (a + init) + [x] && b == init + [x];
      FlatConcat(a, init);
      FlatSnoc(a + init, x);
      FlatSnoc(init, x);
    }
  }

  lemma {:induction false} OutputPrefix(a: seq<Chunk>, b: seq<Chunk>)
    ensures Output(a) <= Output(a + b)
    decreases |b|
  {
    if b == [] {
      assert a + b == a;
    } else {
      var init, c := b[..|b| - 1], b[|b| - 1];
      assert a + b == (a + init) + [c];
      OutputPrefix(a, init);
      OutputSnoc(a + init, c);
    }
  }

  /** At every moment, a failed write included, what is out is a prefix of what the input calls for,
      whatever bytes may still follow. */
  lemma {:induction false} WrittenIsPrefix(w: Writer, more: seq<byte>)
    requires w.Valid()
    ensures w.Written() <= Splice(w.input + more)
    ensures w.dst.bytes <= w.origin + Flat(Splice(w.input + more))
  {
    hide Output, Flat, ModeAfter, Chunks, Before;
    var rest := w.buf + more;
    var cs := Chunks(rest);
    assert w.input + more == Join(w.done) + rest;
    ChunksOf(w.done, rest);
    OutputPrefix(w.done, cs);
    if w.half {
      var c: Chunk := w.buf[..188];
      assert rest[..188] == c;
      assert cs == [c] + cs[1..] by { FirstChunk(rest); }
      assert w.done + cs == (w.done + [c]) + cs[1..];
      OutputPrefix(w.done + [c], cs[1..]);
      OutputSnoc(w.done, c);
    }
    var all := Splice(w.input + more);
    assert w.Written() <= Output(w.done + cs) <= all;
    var n := |w.Written()|;
    assert all == w.Written() + all[n..];
    FlatConcat(w.Written(), all[n..]);
  }

  lemma FirstChunk(s: seq<byte>)
    requires |s| >= 188
    ensures Chunks(s) == [s[..188]] + Chunks(s[188..])
  {
  }

  /** However the input is split into writes, the output depends only on its bytes. */
  method SpliceAll(w: Writer, writes: seq<seq<byte>>) returns (ok: bool)
    requires w.Valid() && w.input == [] && w.buf == [] && !w.half
    modifies w, w.dst
    ensures ok ==> w.dst.bytes == w.origin + Flat(Splice(Join(writes)))
    ensures !ok ==> w.dst.bytes <= w.origin + Flat(Splice(Join(writes)))
  {
    hide Flat, Splice, Join, Output, Shims, ModeAfter, Next, Before;
    assert Join<byte>([]) == [] by { NothingJoined(); }
    for k := 0 to |writes|
      invariant w.Valid() && w.input == Join(writes[..k])
      invariant !w.half && |w.buf| < 188
    {
      assert writes[..k + 1] == writes[..k] + [writes[k]];
      JoinSnoc(writes[..k], writes[k]);
      ok := w.Write(writes[k]);
      if !ok {
        JoinConcat(writes[..k + 1], writes[k + 1..]);
        assert writes == writes[..k + 1] + writes[k + 1..];
        WrittenIsPrefix(w, Join(writes[k + 1..]));
        return;
      }
    }
    assert writes[..|writes|] == writes;
    WrittenIsPrefix(w, []);
    assert w.input + [] == w.input;
    ok := w.FlushRemainder();
  }

  lemma NothingJoined()
    ensures Join<byte>([]) == []
  {
  }
}
