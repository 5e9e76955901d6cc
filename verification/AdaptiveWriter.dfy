/** The adaptive buffering writer of internal/tuner/gateway_stream_helpers.go:252-341. */
module AdaptiveWriter {
  import opened Bytes

  const MIN_SIZE: nat := 65536
  const MAX_SIZE: nat := 2097152
  const INITIAL_SIZE: nat := 1048576
  const SLOW_MS: nat := 100
  const FAST_MS: nat := 20
  const FAST_COUNT: nat := 3

  // ---- the client --------------------------------------------------------

  /** What one write call meets: it takes up to n bytes and reports success, or takes up to n and fails.
      Go's io.Writer contract excludes Takes(n) for an n below the length offered; the source copes with it. */
  datatype Reply = Takes(n: nat) | Fails(n: nat)

  /** A client that answers from a script and takes everything once the script is over. */
  class Client {
    var bytes: seq<byte>
    var script: seq<Reply>
    /** Bytes taken by failing calls: the writer does not know of them. */
    ghost var lost: nat

    constructor (script: seq<Reply>)
      ensures bytes == [] && this.script == script && lost == 0
    {
      bytes, this.script, lost := [], script, 0;
    }

    method Write(p: seq<byte>) returns (n: nat, ok: bool)
      modifies this
      ensures n <= |p| && bytes == old(bytes) + p[..n]
      ensures lost == old(lost) + if ok then 0 else n
      ensures old(script) == [] ==> ok && n == |p| && script == []
      ensures old(script) != [] ==> script == old(script)[1..]
      ensures old(script) != [] ==> n == Min(old(script)[0].n, |p|) && ok == old(script)[0].Takes?
    {
      if script == [] {
        n, ok := |p|, true;
      } else {
        n, ok := Min(script[0].n, |p|), script[0].Takes?;
        script := script[1..];
      }
      bytes := bytes + p[..n];
      if !ok {
        lost := lost + n;
      }
    }
  }

  // ---- the size policy ---------------------------------------------------

  datatype Policy = Policy(target: nat, fast: nat)

  predicate Sane(p: Policy) {
    p.target in {65536, 131072, 262144, 524288, 1048576, 2097152} && p.fast < FAST_COUNT
  }

  /** flushToClient's adjustment after a flush that took d milliseconds (gateway_stream_helpers.go:315-337). */
  function Adjust(p: Policy, d: nat): Policy {
    if d >= SLOW_MS then
      Policy(if p.target < MAX_SIZE then Min(p.target * 2, MAX_SIZE) else p.target, 0)
    else if d <= FAST_MS then
      if p.fast + 1 >= FAST_COUNT then Policy(if p.target > MIN_SIZE then Max(p.target / 2, MIN_SIZE) else p.target, 0)
      else p.(fast := p.fast + 1)
    else p.(fast := 0)
  }

  function AdjustAll(p: Policy, ds: seq<nat>): Policy {
    if ds == [] then p else Adjust(AdjustAll(p, ds[..|ds| - 1]), ds[|ds| - 1])
  }

  lemma AdjustSane(p: Policy, d: nat)
    requires Sane(p)
    ensures Sane(Adjust(p, d))
  {
  }

  /** Doublings left before the largest size, and the flushes of a fast run left before the smallest. */
  function Headroom(p: Policy): nat {
    if p.target == 65536 then 5 else if p.target == 131072 then 4 else if p.target == 262144 then 3
    else if p.target == 524288 then 2 else if p.target == 1048576 then 1 else 0
  }

  lemma SaneRange(p: Policy)
    requires Sane(p)
    ensures p.fast < 3 && 0 <= Headroom(p) <= 5
  {
  }

  lemma AdjustMoves(p: Policy, d: nat)
    requires Sane(p)
    ensures d >= SLOW_MS ==> Headroom(Adjust(p, d)) == Max(Headroom(p) - 1, 0)
    ensures d <= FAST_MS ==>
      Headroom(Adjust(p, d)) == Min(Headroom(p) + (p.fast + 1) / 3, 5) && Adjust(p, d).fast == (p.fast + 1) % 3
  {
  }

  /** Over any run of flushes the size stays sane; enough slow ones in a row end at the top, fast ones at the bottom. */
  lemma {:induction false} RunOfFlushes(p: Policy, ds: seq<nat>)
    requires Sane(p)
    ensures Sane(AdjustAll(p, ds))
    ensures (forall k :: 0 <= k < |ds| ==> ds[k] >= SLOW_MS) ==>
              Headroom(AdjustAll(p, ds)) == Max(Headroom(p) - |ds|, 0)
    ensures (forall k :: 0 <= k < |ds| ==> ds[k] <= FAST_MS) ==>
              Headroom(AdjustAll(p, ds)) == Min(Headroom(p) + (p.fast + |ds|) / 3, 5)
              && AdjustAll(p, ds).fast == (p.fast + |ds|) % 3
    decreases |ds|
  {
    hide Sane, Adjust, Headroom;
    SaneRange(p);
    if ds != [] {
      var init := ds[..|ds| - 1];
      RunOfFlushes(p, init);
      AdjustSane(AdjustAll(p, init), ds[|ds| - 1]);
      AdjustMoves(AdjustAll(p, init), ds[|ds| - 1]);
      assert (forall k :: 0 <= k < |ds| ==> ds[k] >= SLOW_MS) ==> forall k :: 0 <= k < |init| ==> init[k] >= SLOW_MS;
      assert (forall k :: 0 <= k < |ds| ==> ds[k] <= FAST_MS) ==> forall k :: 0 <= k < |init| ==> init[k] <= FAST_MS;
    }
  }

  /** How many fast flushes the run ends with. */
  function Streak(ds: seq<nat>): nat {
    if ds == [] || ds[|ds| - 1] > FAST_MS then 0 else Streak(ds[..|ds| - 1]) + 1
  }

  lemma {:induction false} AdjustExact(p: Policy, d: nat, streak: nat)
    requires Sane(p) && p.fast == streak % 3
    ensures var next := if d <= FAST_MS then streak + 1 else 0;
      && Sane(Adjust(p, d)) && Adjust(p, d).fast == next % 3
      && Adjust(p, d).target == if d >= SLOW_MS then Min(p.target * 2, MAX_SIZE)
                                else if next > 0 && next % 3 == 0 then Max(p.target / 2, MIN_SIZE)
                                else p.target
  {
    AdjustSane(p, d);
    assert (streak + 1) % 3 == (p.fast + 1) % 3;
  }

  /** Over any mix of flushes: a slow one doubles, every third fast one in a row halves, any other leaves the size. */
  lemma {:induction false} EachFlush(ds: seq<nat>, d: nat)
    ensures var p, q := AdjustAll(Policy(INITIAL_SIZE, 0), ds), AdjustAll(Policy(INITIAL_SIZE, 0), ds + [d]);
      && Sane(p) && p.fast == Streak(ds) % 3
      && q.target == if d >= SLOW_MS then Min(p.target * 2, MAX_SIZE)
                     else if Streak(ds + [d]) > 0 && Streak(ds + [d]) % 3 == 0 then Max(p.target / 2, MIN_SIZE)
                     else p.target
    decreases |ds|
  {
    hide Adjust, Sane;
    assert (ds + [d])[..|ds|] == ds;
    if ds == [] {
      StartSane();
    } else {
      var n := |ds| - 1;
      assert ds[..n] + [ds[n]] == ds;
      EachFlush(ds[..n], ds[n]);
      AdjustExact(AdjustAll(Policy(INITIAL_SIZE, 0), ds[..n]), ds[n], Streak(ds[..n]));
    }
    AdjustExact(AdjustAll(Policy(INITIAL_SIZE, 0), ds), d, Streak(ds));
  }

  lemma StartSane()
    ensures Sane(Policy(INITIAL_SIZE, 0))
  {
  }

  // ---- the writer --------------------------------------------------------

  class Writer {
    const w: Client
    var buf: seq<byte>
    var targetSize: nat
    var fastCount: nat
    /** How long each coming flush takes, in milliseconds. */
    var latencies: seq<nat>
    /** Every byte given to Write, the flushes timed so far, and what the client held at the start. */
    ghost var written: seq<byte>
    ghost var timed: seq<nat>
    ghost const origin: seq<byte>
    ghost const lostBefore: nat

    ghost predicate Valid()
      reads this, w
    {
      && Policy(targetSize, fastCount) == AdjustAll(Policy(INITIAL_SIZE, 0), timed)
      && Sane(Policy(targetSize, fastCount))
      && w.lost >= lostBefore
      && |w.bytes| + |buf| == |origin| + |written| + (w.lost - lostBefore)
      && (w.lost == lostBefore ==> w.bytes + buf == origin + written)
    }

    constructor (w: Client, latencies: seq<nat>)
      ensures Valid() && buf == [] && written == [] && this.w == w && origin == w.bytes && lostBefore == w.lost
    {
      this.w, this.latencies := w, latencies;
      buf, targetSize, fastCount, written, timed := [], INITIAL_SIZE, 0, [], [];
      origin, lostBefore := w.bytes, w.lost;
    }

    method Adapt(d: nat)
      requires Valid()
      modifies this`targetSize, this`fastCount, this`timed
      ensures Valid() && timed == old(timed) + [d]
    {
      hide Sane;
      AdjustSane(Policy(targetSize, fastCount), d);
      timed := timed + [d];
      assert timed[..|timed| - 1] == old(timed);
      if d >= SLOW_MS {
        if targetSize < MAX_SIZE {
          targetSize := targetSize * 2;
          if targetSize > MAX_SIZE {
            targetSize := MAX_SIZE;
          }
        }
        fastCount := 0;
      } else if d <= FAST_MS {
        fastCount := fastCount + 1;
        if fastCount >= FAST_COUNT {
          fastCount := 0;
          if targetSize > MIN_SIZE {
            targetSize := targetSize / 2;
            if targetSize < MIN_SIZE {
              targetSize := MIN_SIZE;
            }
          }
        }
      } else {
        fastCount := 0;
      }
    }

    /** The write calls of a flush (gateway_stream_helpers.go:303-314); `met` replies of the script are used up. */
    method Drain() returns (ok: bool, ghost met: nat)
      requires Valid()
      modifies this`buf, w
      ensures Valid()
      ensures met <= |old(w.script)| && w.script == old(w.script)[met..]
      ensures ok ==> w.lost == old(w.lost)
      ensures ok && buf != [] ==> met > 0 && old(w.script)[met - 1] == Takes(0)
      ensures !ok ==> met > 0 && old(w.script)[met - 1].Fails?
      ensures old(w.script) == [] ==> ok && buf == [] && w.bytes == old(w.bytes) + old(buf)
      ensures Refuses(old(buf), old(w.script)) ==> Refused(ok, old(buf), old(w.script), old(w.bytes), old(w.lost))
    {
      hide Sane, AdjustAll;
      met := 0;
      while |buf| > 0
        invariant Valid() && w.lost == old(w.lost)
        invariant met <= |old(w.script)| && w.script == old(w.script)[met..]
        invariant old(w.script) == [] ==> w.bytes + buf == old(w.bytes) + old(buf)
        invariant Refuses(old(buf), old(w.script)) ==> met == 0 && buf == old(buf) && w.bytes == old(w.bytes)
        decreases |buf|
      {
        met := if w.script == [] then met else met + 1;
        var n, accepted := w.Write(buf);
        if !accepted {
          return false, met;
        }
        if n <= 0 {
          return true, met;
        }
        assert buf == buf[..n] + buf[n..];
        buf := buf[n..];
      }
      return true, met;
    }

    /** The first write call of a flush fails. */
    predicate Refuses(buf: seq<byte>, script: seq<Reply>) {
      buf != [] && script != [] && script[0].Fails?
    }

    /** ... which leaves the buffer as it was, whatever the client has taken of it. */
    ghost predicate Refused(ok: bool, before: seq<byte>, script: seq<Reply>, bytes: seq<byte>, lost: nat)
      requires Refuses(before, script)
      reads this, w
    {
      var n := Min(script[0].n, |before|);
      !ok && buf == before && w.script == script[1..] && w.bytes == bytes + before[..n] && w.lost == lost + n
    }

    method FlushToClient() returns (ok: bool, ghost met: nat)
      requires Valid()
      modifies this`buf, this`targetSize, this`fastCount, this`timed, this`latencies, w
      ensures Valid()
      ensures met <= |old(w.script)| && w.script == old(w.script)[met..]
      ensures ok ==> w.lost == old(w.lost)
      ensures ok && buf != [] ==> met > 0 && old(w.script)[met - 1] == Takes(0)
      ensures !ok ==> met > 0 && old(w.script)[met - 1].Fails?
      ensures old(w.script) == [] ==> ok && buf == [] && w.bytes == old(w.bytes) + old(buf)
      ensures Refuses(old(buf), old(w.script)) ==> Refused(ok, old(buf), old(w.script), old(w.bytes), old(w.lost))
      ensures ok && old(buf) != [] ==>
        && timed == old(timed) + [if old(latencies) == [] then 0 else old(latencies)[0]]
        && latencies == if old(latencies) == [] then [] else old(latencies)[1..]
      ensures !ok || old(buf) == [] ==> timed == old(timed) && latencies == old(latencies)
    {
      hide Sane, AdjustAll;
      assert w.bytes + [] == w.bytes;
      if |buf| == 0 {
        return true, 0;
      }
      ok, met := Drain();
      if !ok {
        return;
      }
      var d := 0;
      if latencies != [] {
        d, latencies := latencies[0], latencies[1..];
      }
      Adapt(d);
    }

    method Write(p: seq<byte>) returns (ok: bool)
      requires Valid()
      modifies this, w
      ensures Valid() && written == old(written) + p
      ensures ok ==> |buf| < targetSize && w.lost == old(w.lost)
      ensures |old(buf)| + |p| < old(targetSize) ==>
        && ok && buf == old(buf) + p && w.script == old(w.script) && w.bytes == old(w.bytes) && timed == old(timed)
      ensures |old(buf)| + |p| >= old(targetSize) && old(w.script) == [] ==>
        && ok && buf == [] && w.bytes == old(w.bytes) + (old(buf) + p) && w.script == []
        && timed == old(timed) + [if old(latencies) == [] then 0 else old(latencies)[0]]
    {
      hide Sane, AdjustAll;
      assert w.bytes + (buf + p) == (w.bytes + buf) + p && origin + (written + p) == (origin + written) + p;
      buf := buf + p;
      written := written + p;
      assert Positive() by { SizesPositive(); }
      while |buf| >= targetSize
        invariant Valid() && written == old(written) + p && w.lost == old(w.lost)
        invariant |old(buf)| + |p| < old(targetSize) ==>
          && buf == old(buf) + p && targetSize == old(targetSize) && w.script == old(w.script)
          && w.bytes == old(w.bytes) && timed == old(timed)
        invariant |old(buf)| + |p| >= old(targetSize) && old(w.script) == [] ==>
          && w.script == []
          && if buf == old(buf) + p && timed == old(timed) then
               w.bytes == old(w.bytes) && latencies == old(latencies) && targetSize == old(targetSize)
             else
               && buf == [] && w.bytes == old(w.bytes) + (old(buf) + p)
               && timed == old(timed) + [if old(latencies) == [] then 0 else old(latencies)[0]]
        decreases |w.script|, |buf|
      {
        assert Positive() by { SizesPositive(); }
        ghost var met;
        ok, met := FlushToClient();
        if !ok { return; }
      }
      return true;
    }

    ghost predicate Positive()
      reads this
    {
      targetSize > 0
    }

    lemma SizesPositive()
      requires Sane(Policy(targetSize, fastCount))
      ensures Positive()
    {
    }

    method Flush() returns (ok: bool)
      requires Valid()
      modifies this`buf, this`targetSize, this`fastCount, this`timed, this`latencies, w
      ensures Valid()
      ensures old(w.script) == [] ==> ok && buf == [] && w.bytes == old(w.bytes) + old(buf)
      ensures Refuses(old(buf), old(w.script)) ==> Refused(ok, old(buf), old(w.script), old(w.bytes), old(w.lost))
      ensures ok && old(buf) != [] ==>
        && timed == old(timed) + [if old(latencies) == [] then 0 else old(latencies)[0]]
        && latencies == if old(latencies) == [] then [] else old(latencies)[1..]
      ensures !ok || old(buf) == [] ==> timed == old(timed) && latencies == old(latencies)
    {
      ghost var met;
      ok, met := FlushToClient();
    }
  }

  /** Nothing lost, doubled or reordered, exactly when no failing write call had taken bytes: what the client
      holds and what is buffered are together what was written. */
  lemma {:induction false} Conservation(a: Writer)
    requires a.Valid()
    ensures a.w.bytes + a.buf == a.origin + a.written <==> a.w.lost == a.lostBefore
  {
    assert |a.w.bytes + a.buf| == |a.w.bytes| + |a.buf|;
  }

  /** It happens: a client that takes the one byte of a write and then reports a failure is sent it again. */
  method TakenTwice(b: byte) returns (a: Writer)
    ensures a.Valid() && a.origin == [] && a.written == [b] && a.buf == [] && a.w.bytes == [b, b] && a.w.lost == 1
  {
    var w := new Client([Fails(1)]);
    a := new Writer(w, []);
    var ok := a.Write([b]);
    ok := a.Flush();
    ok := a.Flush();
  }
}
