/** MPEG-TS packets (ISO/IEC 13818-1, 2.4.3.2 to 2.4.3.5): header fields, and the resynchronising
    left-to-right scan that the inspector and the start detector both perform. */
module TsPacket {
  import opened Bytes

  const SYNC: byte := 0x47
  const NULL_PID: nat := 0x1FFF

  predicate IsPacket(p: seq<byte>) {
    |p| == 188 && p[0] == SYNC
  }

  type Packet = p: seq<byte> | IsPacket(p) witness seq(188, _ => 0x47)

  /** Thirteen bits over two bytes: the form of every PID. */
  function ThirteenBits(hi: byte, lo: byte): nat {
    Int(hi & 0x1F) * 256 + Int(lo)
  }

  function Pid(p: seq<byte>): nat
    requires |p| == 188
  {
    ThirteenBits(p[1], p[2])
  }

  predicate Pusi(p: seq<byte>)
    requires |p| == 188
  {
    Bit(p[1], 0x40)
  }

  function Afc(p: seq<byte>): byte
    requires |p| == 188
  {
    (p[3] >> 4) & 0x03
  }

  function Cc(p: seq<byte>): byte
    requires |p| == 188
  {
    p[3] & 0x0F
  }

  predicate HasPayload(p: seq<byte>)
    requires |p| == 188
  {
    Afc(p) == 1 || Afc(p) == 3
  }

  predicate HasAdaptation(p: seq<byte>)
    requires |p| == 188
  {
    Afc(p) == 2 || Afc(p) == 3
  }

  /** The adaptation field has flags only when it is non-empty and ends inside the packet. */
  predicate HasFlags(p: seq<byte>)
    requires |p| == 188
  {
    HasAdaptation(p) && 0 < Int(p[4]) && 5 + Int(p[4]) <= 188
  }

  /** Any of the bits of mask is set in b. */
  predicate Bit(b: byte, mask: byte) {
    b & mask != 0
  }

  predicate Discontinuity(p: seq<byte>)
    requires |p| == 188
  {
    HasFlags(p) && Bit(p[5], 0x80)
  }

  predicate HasPcr(p: seq<byte>)
    requires |p| == 188
  {
    HasFlags(p) && Bit(p[5], 0x10) && Int(p[4]) >= 7
  }

  function PayloadOffset(p: seq<byte>): nat
    requires |p| == 188
  {
    if HasAdaptation(p) then 5 + Int(p[4]) else 4
  }

  /** The payload bytes; empty when there are none. */
  function Payload(p: seq<byte>): seq<byte>
    requires |p| == 188
  {
    if HasPayload(p) && PayloadOffset(p) < 188 then p[PayloadOffset(p)..] else []
  }

  // ---- the scan ----------------------------------------------------------

  /** The packets of one greedy left-to-right scan: at a sync byte take 188 bytes, elsewhere skip one. */
  function Scan(s: seq<byte>): seq<Packet>
    decreases |s|
  {
    if |s| < 188 then []
    else if s[0] == SYNC then [s[..188]] + Scan(s[188..])
    else Scan(s[1..])
  }

  /** What the scan of s leaves over. */
  function Rest(s: seq<byte>): (r: seq<byte>)
    ensures |r| < 188
    decreases |s|
  {
    if |s| < 188 then s
    else if s[0] == SYNC then Rest(s[188..])
    else Rest(s[1..])
  }

  /** s from its first sync byte on. */
  function Strip(s: seq<byte>): seq<byte>
    decreases |s|
  {
    if s == [] || s[0] == SYNC then s else Strip(s[1..])
  }

  /** Scanning can stop anywhere and go on with what was left over. */
  lemma {:induction false} ScanConcat(a: seq<byte>, b: seq<byte>)
    ensures Scan(a + b) == Scan(a) + Scan(Rest(a) + b)
    ensures Rest(a + b) == Rest(Rest(a) + b)
    decreases |a|
  {
    if |a| < 188 {
      assert Scan(a) + Scan(Rest(a) + b) == Scan(a + b);
    } else if a[0] == SYNC {
      var h: Packet, t := a[..188], a[188..];
      assert (a + b)[..188] == h && (a + b)[188..] == t + b;
      ScanConcat(t, b);
      assert [h] + (Scan(t) + Scan(Rest(t) + b)) == ([h] + Scan(t)) + Scan(Rest(t) + b);
    } else {
      assert (a + b)[1..] == a[1..] + b;
      ScanConcat(a[1..], b);
    }
  }

  /** Bytes before the first sync byte do not matter. */
  lemma {:induction false} ScanStrip(s: seq<byte>)
    ensures Scan(Strip(s)) == Scan(s)
    ensures Strip(Rest(Strip(s))) == Strip(Rest(s))
    decreases |s|
  {
    if s != [] && s[0] != SYNC {
      ScanStrip(s[1..]);
      if |s| == 188 {
        assert Rest(s) == s[1..];
      }
    }
  }

  lemma {:induction false} StripConcat(a: seq<byte>, b: seq<byte>)
    ensures Strip(a + b) == if Strip(a) == [] then Strip(b) else Strip(a) + b
    decreases |a|
  {
    if a == [] {
      assert a + b == b;
    } else if a[0] != SYNC {
      assert (a + b)[1..] == a[1..] + b;
      StripConcat(a[1..], b);
    }
  }

  lemma {:induction false} StripSkips(s: seq<byte>, n: nat)
    requires n <= |s|
    requires SYNC !in s[..n]
    ensures Strip(s) == Strip(s[n..])
    decreases n
  {
    if n > 0 {
      assert s[..n][0] == s[0] && s[1..][..n - 1] == s[..n][1..] && s[1..][n - 1..] == s[n..];
      StripSkips(s[1..], n - 1);
    }
  }

  /** Two leftovers that agree from their first sync byte on scan alike whatever follows. */
  lemma {:induction false} ScanSameStrip(a: seq<byte>, c: seq<byte>, b: seq<byte>)
    requires Strip(a) == Strip(c)
    ensures Scan(a + b) == Scan(c + b)
    ensures Strip(Rest(a + b)) == Strip(Rest(c + b))
  {
    StripConcat(a, b);
    StripConcat(c, b);
    ScanStrip(a + b);
    ScanStrip(c + b);
  }

  /** Without a sync byte there is nothing to find. */
  lemma {:induction false} NoSync(s: seq<byte>)
    requires SYNC !in s
    ensures Scan(s) == [] && Strip(s) == Strip(Rest(s)) == []
    decreases |s|
  {
    if s != [] {
      assert s[0] in s;
      NoSync(s[1..]);
    }
  }

  /** Packets laid end to end scan to themselves. */
  lemma {:induction false} ScanAligned(ps: seq<Packet>, tail: seq<byte>)
    ensures Scan(Join(ps) + tail) == ps + Scan(tail) && |Join(ps)| == 188 * |ps|
    decreases |ps|
  {
    if ps == [] {
      assert Join(ps) + tail == tail;
    } else {
      var s := Join(ps) + tail;
      assert s == ps[0] + (Join(ps[1..]) + tail);
      assert s[..188] == ps[0] && s[188..] == Join(ps[1..]) + tail;
      ScanAligned(ps[1..], tail);
      assert [ps[0]] + (ps[1..] + Scan(tail)) == ps + Scan(tail);
    }
  }
}
