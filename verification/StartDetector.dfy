/** internal/tuner/gateway_stream_helpers.go:130-250: has a stream started well enough to be handed on? */
module StartDetector {
  import opened Bytes
  import opened TsPacket

  // ---- reference definitions ---------------------------------------------

  /** An H.264 IDR slice in Annex B form starts at i: 00 00 01 and a byte whose low five bits are 5. */
  predicate IdrAt(s: seq<byte>, i: nat)
    requires i + 4 <= |s|
  {
    s[i] == 0 && s[i + 1] == 0 && s[i + 2] == 1 && s[i + 3] & 0x1F == 5
  }

  ghost predicate HasIdr(s: seq<byte>) {
    exists i :: 0 <= i <= |s| - 4 && IdrAt(s, i)
  }

  predicate AacAt(s: seq<byte>, j: nat)
    requires j + 2 <= |s|
  {
    s[j] == 0xFF && s[j + 1] & 0xF0 == 0xF0
  }

  ghost predicate HasAac(s: seq<byte>) {
    exists j :: 0 <= j <= |s| - 2 && AacAt(s, j)
  }

  /** All payloads of some packets, end to end, whatever their PIDs. */
  function Payloads(ps: seq<Packet>): seq<byte> {
    if ps == [] then [] else Payloads(ps[..|ps| - 1]) + Payload(ps[|ps| - 1])
  }

  ghost predicate SomeAac(ps: seq<Packet>) {
    exists k :: 0 <= k < |ps| && HasAac(Payload(ps[k]))
  }

  function Last4(s: seq<byte>): seq<byte> {
    if |s| <= 4 then s else s[|s| - 4..]
  }

  /** The detector is content after these packets, and the last of them let it notice. */
  ghost predicate Ready(ps: seq<Packet>) {
    |ps| >= 8 && HasIdr(Payloads(ps)) && SomeAac(ps) && Payload(ps[|ps| - 1]) != []
  }

  /** Where the packets of the greedy scan start. */
  function Offsets(buf: seq<byte>, off: nat): seq<nat>
    requires off <= |buf|
    decreases |buf| - off
  {
    if |buf| - off < 188 then []
    else if buf[off] == SYNC then [off] + Offsets(buf, off + 188)
    else Offsets(buf, off + 1)
  }

  /** Three sync bytes a packet apart. */
  predicate Aligned(buf: seq<byte>, o: nat) {
    o + 376 < |buf| && buf[o] == SYNC && buf[o + 188] == SYNC && buf[o + 376] == SYNC
  }

  ghost predicate IsFirstAligned(buf: seq<byte>, os: seq<nat>, a: int) {
    if a == -1 then forall k :: 0 <= k < |os| ==> !Aligned(buf, os[k])
    else exists k :: 0 <= k < |os| && a == os[k] && Aligned(buf, os[k]) && forall j :: 0 <= j < k ==> !Aligned(buf, os[j])
  }

  // ---- one payload -------------------------------------------------------

  method ContainsIdr(buf: seq<byte>) returns (found: bool)
    ensures found <==> HasIdr(buf)
  {
    if |buf| < 4 { return false; }
    var i := 0;
    while i < |buf| - 3
      invariant 0 <= i <= |buf| - 3
      invariant forall k :: 0 <= k < i ==> !IdrAt(buf, k)
    {
      if i + 4 <= |buf| && buf[i] == 0 && buf[i + 1] == 0 && buf[i + 2] == 1 {
        if buf[i + 3] & 0x1F == 5 {
          assert IdrAt(buf, i);
          return true;
        }
        i := i + 1;
        continue;
      }
      if i + 5 <= |buf| && buf[i] == 0 && buf[i + 1] == 0 && buf[i + 2] == 0 && buf[i + 3] == 1 {
        if buf[i + 4] & 0x1F == 5 {
          assert IdrAt(buf, i + 1);
          return true;
        }
      }
      i := i + 1;
    }
    return false;
  }

  /** The longer start code is never needed: whenever it is met with an IDR byte, the short one follows it. */
  lemma {:induction false} LongStartCodeAddsNothing(s: seq<byte>, i: nat)
    requires i + 5 <= |s|
    requires s[i] == 0 && s[i + 1] == 0 && s[i + 2] == 0 && s[i + 3] == 1 && s[i + 4] & 0x1F == 5
    ensures HasIdr(s[i + 1..])
  {
    assert IdrAt(s[i + 1..], 0);
  }

  method ContainsAac(payload: seq<byte>) returns (found: bool)
    ensures found <==> HasAac(payload)
  {
    for j := 0 to if |payload| == 0 then 0 else |payload| - 1
      invariant forall k :: 0 <= k < j ==> !AacAt(payload, k)
    {
      if payload[j] == 0xFF && payload[j + 1] & 0xF0 == 0xF0 {
        assert AacAt(payload, j);
        return true;
      }
    }
    return false;
  }

  /** An IDR slice in a + p is in a, in p, or across the seam, where four bytes of a are enough. */
  lemma {:induction false} IdrAcrossSeam(a: seq<byte>, p: seq<byte>)
    ensures HasIdr(a + p) <==> HasIdr(a) || HasIdr(p) || HasIdr(Last4(a) + p)
  {
    hide IdrAt, HasIdr;
    var c := Last4(a);
    var d := |a| - |c|;
    assert a + p == a[..d] + (c + p);
    IdrInside([], a, p);
    IdrInside(a, p, []);
    IdrInside(a[..d], c + p, []);
    assert [] + a + p == a + p && a + p + [] == a + p && a[..d] + (c + p) + [] == a + p;
    if HasIdr(a + p) {
      IdrSplit(a, p);
    }
  }

  lemma {:induction false} IdrInside(l: seq<byte>, s: seq<byte>, r: seq<byte>)
    ensures HasIdr(s) ==> HasIdr(l + s + r)
  {
    if HasIdr(s) {
      var i :| 0 <= i <= |s| - 4 && IdrAt(s, i);
      IdrMoves(s, i, l + s + r, |l| + i);
    }
  }

  lemma {:induction false} IdrSplit(a: seq<byte>, p: seq<byte>)
    requires HasIdr(a + p)
    ensures HasIdr(a) || HasIdr(Last4(a) + p)
  {
    hide IdrAt;
    var s, c := a + p, Last4(a) + p;
    var i :| 0 <= i <= |s| - 4 && IdrAt(s, i);
    var d := |s| - |c|;
    if i + 4 <= |a| {
      IdrMoves(s, i, a, i);
    } else {
      assert forall k :: d <= k < |s| ==> s[k] == c[k - d];
      IdrMoves(s, i, c, i - d);
    }
  }

  lemma {:induction false} IdrMoves(s: seq<byte>, i: nat, t: seq<byte>, j: nat)
    requires i + 4 <= |s| && j + 4 <= |t| && IdrAt(s, i)
    requires s[i] == t[j] && s[i + 1] == t[j + 1] && s[i + 2] == t[j + 2] && s[i + 3] == t[j + 3]
    ensures IdrAt(t, j) && HasIdr(t)
  {
    assert 0 <= j <= |t| - 4 && IdrAt(t, j);
  }

  /** The carry as the source updates it (gateway_stream_helpers.go:225-243). */
  method UpdateCarry(idrCarry: seq<byte>, payload: seq<byte>) returns (carry: seq<byte>)
    requires |idrCarry| <= 4 && payload != []
    ensures carry == Last4(idrCarry + payload)
  {
    carry := idrCarry;
    if |payload| >= 4 {
      carry := payload[|payload| - 4..];
    } else {
      var keep := |carry| + |payload|;
      if keep > 4 {
        var drop := keep - 4;
        if drop < |carry| {
          carry := carry[drop..];
        } else {
          carry := [];
        }
      }
      carry := carry + payload;
      if |carry| > 4 {
        assert false; // the source cuts to four bytes once more; there is never anything to cut
      }
    }
  }

  lemma {:induction false} Last4Concat(a: seq<byte>, p: seq<byte>)
    ensures Last4(Last4(a) + p) == Last4(a + p)
  {
    if |a| > 4 {
      assert a + p == a[..|a| - 4] + (Last4(a) + p);
    }
  }

  // ---- the scan ----------------------------------------------------------

  datatype Signals = Signals(tsLikePackets: nat, hasIdr: bool, hasAac: bool, alignedOffset: int)

  /** What the signals must say about the packets looked at. */
  ghost predicate Describes(st: Signals, buf: seq<byte>) {
    && st.tsLikePackets <= |Scan(buf)| == |Offsets(buf, 0)|
    && (st.hasIdr <==> HasIdr(Payloads(Scan(buf)[..st.tsLikePackets])))
    && (st.hasAac <==> SomeAac(Scan(buf)[..st.tsLikePackets]))
    && IsFirstAligned(buf, Offsets(buf, 0)[..st.tsLikePackets], st.alignedOffset)
  }

  lemma {:induction false} OffsetsMatchScan(buf: seq<byte>, off: nat)
    requires off <= |buf|
    ensures |Offsets(buf, off)| == |Scan(buf[off..])|
    decreases |buf| - off
  {
    if |buf| - off >= 188 {
      if buf[off] == SYNC {
        assert buf[off..][188..] == buf[off + 188..];
        OffsetsMatchScan(buf, off + 188);
      } else {
        assert buf[off..][1..] == buf[off + 1..];
        OffsetsMatchScan(buf, off + 1);
      }
    }
  }

  /** Three consecutive sync bytes a packet apart, counted as the source counts them. */
  method CheckAligned(buf: seq<byte>, off: nat) returns (ok: nat)
    requires off < |buf| && buf[off] == SYNC
    ensures ok >= 3 <==> Aligned(buf, off)
  {
    ok := 0;
    var k := off;
    while k < |buf| && ok < 4
      invariant k == off + 188 * ok && ok <= 4
      invariant ok >= 1 ==> buf[off] == SYNC
      invariant ok >= 2 ==> off + 188 < |buf| && buf[off + 188] == SYNC
      invariant ok >= 3 ==> off + 376 < |buf| && buf[off + 376] == SYNC
    {
      if buf[k] != SYNC {
        break;
      }
      ok := ok + 1;
      k := k + 188;
    }
  }

  /** The loop's view: n packets seen, the rest of the scan starts at off. */
  ghost predicate At(buf: seq<byte>, off: nat, n: nat) {
    && off <= |buf| && n <= |Scan(buf)| == |Offsets(buf, 0)|
    && Scan(buf) == Scan(buf)[..n] + Scan(buf[off..])
    && Offsets(buf, 0) == Offsets(buf, 0)[..n] + Offsets(buf, off)
  }

  lemma {:induction false} PacketHere(buf: seq<byte>, off: nat)
    requires off + 188 <= |buf| && buf[off] == SYNC
    ensures Scan(buf[off..]) == [buf[off..off + 188]] + Scan(buf[off + 188..])
    ensures Offsets(buf, off) == [off] + Offsets(buf, off + 188)
  {
    var s := buf[off..];
    assert s[..188] == buf[off..off + 188] && s[188..] == buf[off + 188..];
  }

  lemma {:induction false} NextPacket(buf: seq<byte>, off: nat, n: nat)
    requires At(buf, off, n) && off + 188 <= |buf| && buf[off] == SYNC
    ensures At(buf, off + 188, n + 1) && Scan(buf)[n] == buf[off..off + 188] && Offsets(buf, 0)[n] == off
    ensures Scan(buf)[..n + 1] == Scan(buf)[..n] + [buf[off..off + 188]]
    ensures Offsets(buf, 0)[..n + 1] == Offsets(buf, 0)[..n] + [off]
  {
    hide Scan, Offsets;
    PacketHere(buf, off);
    Splitting(Scan(buf), n, buf[off..off + 188], Scan(buf[off + 188..]));
    Splitting(Offsets(buf, 0), n, off, Offsets(buf, off + 188));
  }

  lemma {:induction false} Splitting<T>(all: seq<T>, n: nat, h: T, rest: seq<T>)
    requires n <= |all| && all == all[..n] + ([h] + rest)
    ensures n < |all| && all[n] == h && all[..n + 1] == all[..n] + [h] && all == all[..n + 1] + rest
  {
    assert all == (all[..n] + [h]) + rest;
  }

  lemma {:induction false} SkipOffsets(buf: seq<byte>, off: nat, n: nat)
    requires off + n <= |buf| && SYNC !in buf[off..off + n]
    ensures Offsets(buf, off) == Offsets(buf, off + n) && Scan(buf[off..]) == Scan(buf[off + n..])
    decreases n
  {
    if n > 0 {
      assert buf[off] in buf[off..off + n];
      assert buf[off + 1..off + 1 + (n - 1)] == buf[off..off + n][1..];
      assert buf[off..][1..] == buf[off + 1..];
      SkipOffsets(buf, off + 1, n - 1);
      ShortScan(buf, off);
    }
  }

  lemma {:induction false} ShortScan(buf: seq<byte>, off: nat)
    requires off < |buf| && buf[off] != SYNC
    ensures Offsets(buf, off) == Offsets(buf, off + 1) && Scan(buf[off..]) == Scan(buf[off + 1..])
  {
    assert buf[off..][1..] == buf[off + 1..];
  }

  lemma {:induction false} PayloadsSnoc(ps: seq<Packet>, p: Packet)
    ensures Payloads(ps + [p]) == Payloads(ps) + Payload(p)
    ensures SomeAac(ps + [p]) <==> SomeAac(ps) || HasAac(Payload(p))
  {
    hide Payload, HasAac;
    var all := ps + [p];
    assert all[..|ps|] == ps;
    if SomeAac(ps) {
      var k :| 0 <= k < |ps| && HasAac(Payload(ps[k]));
      assert all[k] == ps[k];
    }
    if HasAac(Payload(p)) {
      assert all[|ps|] == p;
    }
    if SomeAac(all) {
      var k :| 0 <= k < |all| && HasAac(Payload(all[k]));
      assert k < |ps| ==> all[k] == ps[k];
    }
  }

  lemma NoAacInNothing()
    ensures !HasAac([]) && !HasIdr([]) && !SomeAac([]) && Payloads([]) == []
  {
  }

  lemma {:induction false} AlignedSnoc(buf: seq<byte>, os: seq<nat>, o: nat, a: int)
    requires IsFirstAligned(buf, os, a)
    ensures IsFirstAligned(buf, os + [o], if a == -1 && Aligned(buf, o) then o else a)
  {
    hide Aligned;
    var all := os + [o];
    if a == -1 {
      if Aligned(buf, o) {
        assert all[|os|] == o && forall j :: 0 <= j < |os| ==> all[j] == os[j];
      }
    } else {
      var k :| 0 <= k < |os| && a == os[k] && Aligned(buf, os[k]) && forall j :: 0 <= j < k ==> !Aligned(buf, os[j]);
      assert all[k] == os[k] && forall j :: 0 <= j < k ==> all[j] == os[j];
    }
  }

  /** One payload's part of the scan: the IDR test with the carry, and the AAC test. */
  method LookAt(st: Signals, idrCarry: seq<byte>, payload: seq<byte>, ghost before: seq<byte>)
    returns (r: Signals, carry: seq<byte>)
    requires payload != [] && idrCarry == Last4(before) && (st.hasIdr <==> HasIdr(before))
    ensures carry == Last4(before + payload)
    ensures r.hasIdr <==> HasIdr(before + payload)
    ensures r.hasAac <==> st.hasAac || HasAac(payload)
    ensures r.tsLikePackets == st.tsLikePackets && r.alignedOffset == st.alignedOffset
  {
    hide HasIdr, HasAac;
    r := st;
    IdrAcrossSeam(before, payload);
    if !r.hasIdr {
      var found := ContainsIdr(payload);
      if found {
        r := r.(hasIdr := true);
      } else if |idrCarry| > 0 {
        found := ContainsIdr(idrCarry + payload);
        if found {
          r := r.(hasIdr := true);
        }
      } else {
        assert Last4(before) + payload == payload;
      }
    }
    if !r.hasAac {
      var found := ContainsAac(payload);
      if found {
        r := r.(hasAac := true);
      }
    }
    carry := UpdateCarry(idrCarry, payload);
    Last4Concat(before, payload);
  }

  /** The payload slice as the source finds it (gateway_stream_helpers.go:184-204). */
  method PayloadOf(p: Packet) returns (payload: seq<byte>)
    ensures payload == Payload(p)
  {
    hide Int;
    var afc := Afc(p);
    var i := 4;
    if afc == 0 || afc == 2 {
      return [];
    }
    if afc == 3 {
      var alen := Int(p[i]);
      i := i + 1;
      i := i + alen;
    }
    AfcRange(p);
    if i >= |p| {
      return [];
    }
    return p[i..];
  }

  lemma AfcRange(p: Packet)
    ensures Afc(p) == 0 || Afc(p) == 1 || Afc(p) == 2 || Afc(p) == 3
  {
  }

  /** One packet at off: everything the loop learns from it. */
  method TakePacket(buf: seq<byte>, off: nat, st: Signals, idrCarry: seq<byte>)
    returns (r: Signals, carry: seq<byte>, stop: bool)
    requires At(buf, off, st.tsLikePackets) && Describes(st, buf) && off + 188 <= |buf| && buf[off] == SYNC
    requires idrCarry == Last4(Payloads(Scan(buf)[..st.tsLikePackets]))
    ensures r.tsLikePackets == st.tsLikePackets + 1 && At(buf, off + 188, r.tsLikePackets) && Describes(r, buf)
    ensures carry == Last4(Payloads(Scan(buf)[..r.tsLikePackets]))
    ensures stop <==> Ready(Scan(buf)[..r.tsLikePackets])
  {
    hide HasIdr, SomeAac, IsFirstAligned, Payloads, Scan, Offsets, Payload, Aligned, HasAac, Last4;
    var n := st.tsLikePackets;
    var p: Packet := buf[off..off + 188];
    ghost var before, os := Scan(buf)[..n], Offsets(buf, 0)[..n];
    NextPacket(buf, off, n);
    PayloadsSnoc(before, p);
    AlignedSnoc(buf, os, off, st.alignedOffset);
    FirstAlignedRange(buf, os, st.alignedOffset);
    r, carry, stop := st.(tsLikePackets := n + 1), idrCarry, false;
    if r.alignedOffset < 0 {
      var ok := CheckAligned(buf, off);
      if ok >= 3 {
        r := r.(alignedOffset := off);
      }
    }
    var payload := PayloadOf(p);
    if payload == [] {
      NoAacInNothing();
      assert Payloads(before) + [] == Payloads(before);
      return;
    }
    var r', carry' := LookAt(r, carry, payload, Payloads(before));
    r, carry := r', carry';
    stop := r.hasIdr && r.hasAac && r.tsLikePackets >= 8;
  }

  lemma FirstAlignedRange(buf: seq<byte>, os: seq<nat>, a: int)
    requires IsFirstAligned(buf, os, a)
    ensures a >= -1
  {
  }

  /** The scan stops at the first packet at which it is content, or when no packet is left. */
  method LooksLikeGoodTsStart(buf: seq<byte>) returns (st: Signals)
    ensures Describes(st, buf)
    ensures var n := st.tsLikePackets;
            && (forall m :: 0 < m < n ==> !Ready(Scan(buf)[..m]))
            && (n == |Scan(buf)| || (n > 0 && Ready(Scan(buf)[..n])))
  {
    hide Payloads, Scan, Offsets, Last4, Describes, Ready;
    st := Signals(0, false, false, -1);
    var idrCarry: seq<byte> := [];
    var off := 0;
    StartOfScan(buf);
    while off + 188 <= |buf|
      invariant At(buf, off, st.tsLikePackets) && Describes(st, buf)
      invariant idrCarry == Last4(Payloads(Scan(buf)[..st.tsLikePackets]))
      invariant forall m :: 0 < m <= st.tsLikePackets ==> !Ready(Scan(buf)[..m])
      decreases |buf| - off
    {
      if buf[off] != SYNC {
        var n := IndexByte(buf[off + 1..], SYNC);
        if n < 0 {
          assert buf[off..] == [buf[off]] + buf[off + 1..];
          NoSync(buf[off..]);
          break;
        }
        assert buf[off..off + (n + 1)] == [buf[off]] + buf[off + 1..][..n];
        SkipOffsets(buf, off, n + 1);
        off := off + n + 1;
      } else {
        var r, carry, stop := TakePacket(buf, off, st, idrCarry);
        st, idrCarry := r, carry;
        if stop {
          return;
        }
        off := off + 188;
      }
    }
    EndOfScan(buf, off, st.tsLikePackets);
  }

  lemma {:induction false} StartOfScan(buf: seq<byte>)
    ensures At(buf, 0, 0) && Describes(Signals(0, false, false, -1), buf) && Last4(Payloads(Scan(buf)[..0])) == []
  {
    OffsetsMatchScan(buf, 0);
    NoAacInNothing();
    assert buf[0..] == buf;
  }

  lemma {:induction false} EndOfScan(buf: seq<byte>, off: nat, n: nat)
    requires At(buf, off, n) && (|buf| - off < 188 || Scan(buf[off..]) == [])
    ensures n == |Scan(buf)|
  {
    assert Scan(buf[off..]) == [];
  }
}
