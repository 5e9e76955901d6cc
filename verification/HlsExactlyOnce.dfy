/** What the relay's history means: each segment of a live playlist is fetched once. */
module HlsExactlyOnce {
  import opened Bytes
  import opened HlsRelay

  predicate Full(p: Pass) {
    p.reach == |p.lines|
  }

  // ---- any playlists -----------------------------------------------------

  /** After a pass through all its lines, `seen` is the segment set of the playlist. */
  lemma {:induction false} SeenIsPlaylist(passes: seq<Pass>, k: nat)
    requires WellFormed(passes) && k < |passes| && Full(passes[k])
    ensures SeenAfter(passes, k + 1) == Segs(passes[k].lines)
  {
    var lines := passes[k].lines;
    assert lines[..|lines|] == lines;
  }

  /** A pass attempts the segments it reaches that `seen` did not hold, each once. */
  lemma {:induction false} FreshMeans(lines: seq<Url>, seen: set<Url>)
    ensures forall u :: u in Fresh(lines, seen) <==> u in Segs(lines) && u !in seen
    ensures forall i, j :: 0 <= i < j < |Fresh(lines, seen)| ==> Fresh(lines, seen)[i] != Fresh(lines, seen)[j]
  {
    if lines != [] {
      var n := |lines| - 1;
      FreshMeans(lines[..n], seen);
      assert lines == lines[..n] + [lines[n]];
    }
  }

  /** After a full pass, the next full pass attempts exactly the segments newly listed: a segment that left the list
      and came back is fetched again. */
  lemma {:induction false} AttemptIff(passes: seq<Pass>, k: nat, u: Url)
    requires WellFormed(passes) && k < |passes| && Full(passes[k]) && (k > 0 ==> Full(passes[k - 1]))
    ensures u in AttemptsOf(passes, k) <==>
              u in Segs(passes[k].lines) && (k == 0 || u !in Segs(passes[k - 1].lines))
  {
    hide Segs, Fresh, MediaLines, Nested;
    if k > 0 {
      SeenIsPlaylist(passes, k - 1);
    }
    var lines := passes[k].lines;
    assert lines[..|lines|] == lines;
    FreshMeans(lines, Kept(passes, k));
  }

  lemma {:induction false} SeenWhileListed(passes: seq<Pass>, j: nat, k: nat, u: Url)
    requires WellFormed(passes) && j < k <= |passes| && u in SeenAfter(passes, j + 1)
    requires forall i :: j < i < k ==> u in Segs(passes[i].lines)
    ensures u in SeenAfter(passes, k)
  {
    if j + 1 < k {
      SeenWhileListed(passes, j, k - 1, u);
    }
  }

  /** Whatever became of its fetch, and whether passes were cut short or not, a segment is not attempted again as
      long as every playlist lists it. */
  lemma {:induction false} NotAgainWhileListed(passes: seq<Pass>, j: nat, k: nat, u: Url)
    requires WellFormed(passes) && j < k < |passes| && u in AttemptsOf(passes, j)
    requires forall i :: j < i <= k ==> u in Segs(passes[i].lines)
    ensures u !in AttemptsOf(passes, k)
  {
    FreshMeans(passes[j].lines[..passes[j].reach], Kept(passes, j));
    SeenWhileListed(passes, j, k, u);
    FreshMeans(passes[k].lines[..passes[k].reach], Kept(passes, k));
  }

  lemma {:induction false} SeenWasAttempted(passes: seq<Pass>, k: nat, u: Url)
    requires WellFormed(passes) && k <= |passes| && u in SeenAfter(passes, k)
    ensures u in Attempted(passes, k)
  {
    if u in Kept(passes, k - 1) {
      SeenWasAttempted(passes, k - 1, u);
    } else {
      FreshMeans(passes[k - 1].lines[..passes[k - 1].reach], Kept(passes, k - 1));
    }
  }

  /** After a full pass every listed segment has been attempted. */
  lemma {:induction false} NothingSkipped(passes: seq<Pass>, k: nat, u: Url)
    requires WellFormed(passes) && k < |passes| && Full(passes[k]) && u in Segs(passes[k].lines)
    ensures u in Attempted(passes, k + 1)
  {
    SeenIsPlaylist(passes, k);
    SeenWasAttempted(passes, k + 1, u);
  }

  lemma {:induction false} NothingFresh(lines: seq<Url>, seen: set<Url>)
    requires Segs(lines) <= seen
    ensures Fresh(lines, seen) == []
  {
    if lines != [] {
      var n := |lines| - 1;
      assert lines == lines[..n] + [lines[n]] && (Nested(lines[n]) || lines[n] in Segs(lines));
      assert Segs(lines[..n]) <= Segs(lines);
      NothingFresh(lines[..n], seen);
    }
  }

  /** A refresh that fails, and no nested playlist, makes the next pass attempt nothing. */
  lemma {:induction false} FailedRefreshAddsNone(rounds: seq<Round>, passes: seq<Pass>, last: Option<string>, k: nat)
    requires WellFormed(passes) && Chain(rounds, passes, last) && k + 1 < |passes|
    requires rounds[k].refresh.list.NotFetched? && forall u :: u in passes[k].lines ==> !Nested(u)
    ensures passes[k + 1].text == passes[k].text && AttemptsOf(passes, k + 1) == []
  {
    assert Moved(passes[k], rounds[k], passes[k + 1].text);
    SeenIsPlaylist(passes, k);
    var p := passes[k + 1];
    assert Segs(p.lines[..p.reach]) <= Segs(p.lines) == Kept(passes, k + 1);
    NothingFresh(p.lines[..p.reach], Kept(passes, k + 1));
  }

  // ---- a live playlist ---------------------------------------------------

  /** The master list of a live stream: distinct segments. */
  ghost predicate Master(master: seq<Url>) {
    && (forall i, j :: 0 <= i < j < |master| ==> master[i] != master[j])
    && (forall i :: 0 <= i < |master| ==> !Nested(master[i]))
  }

  datatype Window = Window(lo: nat, hi: nat)

  /** Each playlist is a window of the master list; the windows move forward and overlap or meet. */
  ghost predicate Windows(master: seq<Url>, ws: nat -> Window, passes: seq<Pass>) {
    && (forall k: nat :: k < |passes| ==> Shows(master, ws(k), passes[k].lines))
    && (forall k: nat :: 0 < k < |passes| ==> MovesOn(ws, k))
  }

  ghost predicate Shows(master: seq<Url>, w: Window, lines: seq<Url>) {
    w.lo <= w.hi <= |master| && lines == master[w.lo..w.hi]
  }

  ghost predicate MovesOn(ws: nat -> Window, k: nat)
    requires 0 < k
  {
    ws(k - 1).lo <= ws(k).lo <= ws(k - 1).hi <= ws(k).hi
  }

  lemma {:induction false} InWindow(master: seq<Url>, lo: nat, hi: nat, i: nat)
    requires Master(master) && lo <= hi <= |master| && i < |master|
    ensures master[i] in master[lo..hi] <==> lo <= i < hi
    ensures master[i] in Segs(master[lo..hi]) <==> lo <= i < hi
  {
    hide Nested;
    if lo <= i < hi {
      assert master[lo..hi][i - lo] == master[i];
    }
  }

  lemma NoneFresh(seen: set<Url>)
    ensures Fresh([], seen) == []
  {
  }

  /** What a pass over distinct segments attempts when the first f of them have been seen. */
  lemma {:induction false} FreshOfDistinct(w: seq<Url>, f: nat, seen: set<Url>)
    requires forall i :: 0 <= i < |w| ==> !Nested(w[i]) && (w[i] in seen <==> i < f)
    requires forall i, j :: 0 <= i < j < |w| ==> w[i] != w[j]
    ensures Fresh(w, seen) == if |w| <= f then [] else w[f..]
  {
    hide Nested, Fresh;
    if w == [] {
      NoneFresh(seen);
    } else {
      var n := |w| - 1;
      FreshOfDistinct(w[..n], f, seen);
      assert w[n] !in w[..n] && w[..n + 1] == w;
      FreshStep(w, seen, n);
      assert w == w[..n] + [w[n]];
      assert f <= n ==> w[f..] == w[..n][f..] + [w[n]];
      assert f == n ==> w[f..] == [w[n]];
    }
  }

  /** The members from a on and before b, if there are any. */
  function Stretch(master: seq<Url>, a: nat, b: nat): seq<Url>
    requires b <= |master|
  {
    if a < b then master[a..b] else []
  }

  /** A pass over part of a window, with the window before it (or a part of it no longer listed) seen. */
  lemma {:induction false} FreshOfWindow(master: seq<Url>, w: Window, reach: nat, front: nat, kept: set<Url>)
    requires Master(master) && w.lo <= w.hi <= |master| && reach <= w.hi - w.lo && w.lo <= front
    requires forall i :: w.lo <= i < w.hi ==> (master[i] in kept <==> i < front)
    ensures Fresh(master[w.lo..w.hi][..reach], kept) == Stretch(master, front, w.lo + reach)
  {
    hide Nested, Fresh;
    var l := master[w.lo..w.hi][..reach];
    assert forall i :: 0 <= i < reach ==> l[i] == master[w.lo + i];
    FreshOfDistinct(l, front - w.lo, kept);
    if front < w.lo + reach {
      assert l[front - w.lo..] == master[front..w.lo + reach];
    }
  }

  /** What is seen of a window after a full pass over the one before it: what they share. */
  lemma {:induction false} SharedOfWindows(master: seq<Url>, p: Window, w: Window)
    requires Master(master) && p.lo <= w.lo <= p.hi <= w.hi <= |master|
    ensures forall i :: w.lo <= i < w.hi ==>
              (master[i] in Segs(master[p.lo..p.hi]) * Segs(master[w.lo..w.hi]) <==> i < p.hi)
  {
    hide Nested, Master, Segs;
    forall i | w.lo <= i < w.hi
      ensures master[i] in Segs(master[p.lo..p.hi]) * Segs(master[w.lo..w.hi]) <==> i < p.hi
    {
      InWindow(master, p.lo, p.hi, i);
      InWindow(master, w.lo, w.hi, i);
    }
  }

  /** The part of a window that a pass attempts, when the pass before went through. */
  lemma {:induction false} AttemptsInWindow(master: seq<Url>, ws: nat -> Window, passes: seq<Pass>, k: nat)
    requires Master(master) && WellFormed(passes) && Windows(master, ws, passes) && k < |passes|
    requires k > 0 ==> Full(passes[k - 1])
    ensures ws(k).lo + passes[k].reach <= |master|
    ensures AttemptsOf(passes, k) ==
              Stretch(master, if k == 0 then ws(0).lo else ws(k - 1).hi, ws(k).lo + passes[k].reach)
  {
    hide Nested, Segs, Fresh, Stretch, Master, MediaLines;
    assert Shows(master, ws(k), passes[k].lines);
    var w, reach := ws(k), passes[k].reach;
    assert reach <= |passes[k].lines|;
    if k == 0 {
      FreshOfWindow(master, w, reach, w.lo, {});
      assert Kept(passes, 0) == {};
    } else {
      assert Shows(master, ws(k - 1), passes[k - 1].lines) && MovesOn(ws, k);
      SeenIsPlaylist(passes, k - 1);
      SharedOfWindows(master, ws(k - 1), w);
      FreshOfWindow(master, w, reach, ws(k - 1).hi, Kept(passes, k));
    }
  }

  lemma StretchConcat(master: seq<Url>, a: nat, b: nat, c: nat)
    requires a <= b && Max(b, c) <= |master|
    ensures Stretch(master, a, b) + Stretch(master, b, c) == Stretch(master, a, Max(b, c))
  {
  }

  /** Where n passes, all but the last of them full, have got to. */
  function Front(ws: nat -> Window, passes: seq<Pass>, n: nat): nat
    requires 0 < n <= |passes|
  {
    var last := ws(n - 1).lo + passes[n - 1].reach;
    if n == 1 then last else Max(ws(n - 2).hi, last)
  }

  lemma {:induction false} FrontInRange(master: seq<Url>, ws: nat -> Window, passes: seq<Pass>, n: nat)
    requires WellFormed(passes) && Windows(master, ws, passes) && 0 < n <= |passes|
    ensures ws(n - 1).lo <= Front(ws, passes, n) <= ws(n - 1).hi <= |master|
    ensures Full(passes[n - 1]) ==> Front(ws, passes, n) == ws(n - 1).hi
  {
    hide MediaLines;
    assert Shows(master, ws(n - 1), passes[n - 1].lines) && passes[n - 1].reach <= |passes[n - 1].lines|;
    if n > 1 {
      assert MovesOn(ws, n - 1);
    }
  }

  lemma {:induction false} FrontAhead(master: seq<Url>, ws: nat -> Window, passes: seq<Pass>, n: nat)
    requires WellFormed(passes) && Windows(master, ws, passes) && 0 < n <= |passes|
    ensures ws(0).lo <= ws(n - 1).lo
  {
    if n > 1 {
      FrontAhead(master, ws, passes, n - 1);
      assert MovesOn(ws, n - 1);
    }
  }

  /** On windows of a master list, the attempts of n passes, all but the last full, are the stretch from the first
      window's start to where the last pass got, in order, each once. */
  lemma {:induction false} AttemptsAreStretch(master: seq<Url>, ws: nat -> Window, passes: seq<Pass>, n: nat)
    requires Master(master) && WellFormed(passes) && Windows(master, ws, passes) && 0 < n <= |passes|
    requires forall k :: 0 <= k < n - 1 ==> Full(passes[k])
    ensures Front(ws, passes, n) <= |master|
    ensures Attempted(passes, n) == Stretch(master, ws(0).lo, Front(ws, passes, n))
  {
    hide Master, AttemptsOf, Stretch, WellFormed, Windows;
    AttemptsInWindow(master, ws, passes, n - 1);
    FrontInRange(master, ws, passes, n);
    if n == 1 {
      assert Attempted(passes, 0) == [];
      assert [] + AttemptsOf(passes, 0) == AttemptsOf(passes, 0);
    } else {
      AttemptsAreStretch(master, ws, passes, n - 1);
      FrontInRange(master, ws, passes, n - 1);
      FrontAhead(master, ws, passes, n - 1);
      StretchConcat(master, ws(0).lo, ws(n - 2).hi, ws(n - 1).lo + passes[n - 1].reach);
    }
  }

  /** Exactly once. Whenever the playlists the loop works on are forward-moving, overlapping windows of a master list
      (refreshed or, after a failed refresh, the same again), the segments attempted so far are a stretch of the
      master list, in order, each once; if the last pass went through, the stretch up to the last window's end. */
  lemma {:induction false} ExactlyOnce(master: seq<Url>, ws: nat -> Window, rounds: seq<Round>, passes: seq<Pass>,
                                       last: Option<string>)
    requires Master(master) && WellFormed(passes) && Windows(master, ws, passes) && passes != []
    requires Chain(rounds, passes, last)
    ensures Front(ws, passes, |passes|) <= |master|
    ensures Attempted(passes, |passes|) == Stretch(master, ws(0).lo, Front(ws, passes, |passes|))
    ensures last.Some? ==> Front(ws, passes, |passes|) == ws(|passes| - 1).hi
  {
    hide Attempted, Nested, Stretch, Master, WellFormed, Windows, Front, Chain;
    forall k | 0 <= k < |passes| && (k < |passes| - 1 || last.Some?)
      ensures Full(passes[k])
    {
      ChainLink(rounds, passes, last, k);
      NoneNested(master, ws, passes, k);
    }
    AttemptsAreStretch(master, ws, passes, |passes|);
    FrontInRange(master, ws, passes, |passes|);
  }

  lemma ChainLink(rounds: seq<Round>, passes: seq<Pass>, last: Option<string>, k: nat)
    requires Chain(rounds, passes, last) && k < |passes| && (k < |passes| - 1 || last.Some?)
    ensures k < |rounds|
    ensures Moved(passes[k], rounds[k], if k < |passes| - 1 then passes[k + 1].text else last.value)
  {
  }

  lemma {:induction false} NoneNested(master: seq<Url>, ws: nat -> Window, passes: seq<Pass>, k: nat)
    requires Master(master) && Windows(master, ws, passes) && k < |passes|
    ensures forall i :: 0 <= i < |passes[k].lines| ==> !Nested(passes[k].lines[i])
  {
    hide Nested;
    assert Shows(master, ws(k), passes[k].lines);
  }

  /** The loop itself, from its start. Whenever the playlists it worked on turn out to be forward-moving, overlapping
      windows of a master list, the segments it attempted are a stretch of that list from the first window's start, in
      order, each once, and up to the last window's end if the loop is still going. */
  method RunLive(relay: Relay, rounds: seq<Round>, ghost master: seq<Url>, ghost ws: nat -> Window)
      returns (end: Option<End>)
    requires relay.Valid() && relay.passes == []
    modifies relay
    ensures relay.Valid() && (end == None ==> |relay.passes| == |rounds|)
    ensures Master(master) && Windows(master, ws, relay.passes) && relay.passes != [] ==>
      var front := Front(ws, relay.passes, |relay.passes|);
      && front <= |master| && relay.attempts == Stretch(master, ws(0).lo, front)
      && (end == None ==> front == ws(|relay.passes| - 1).hi)
  {
    hide Master, Windows, Front, Stretch, Chain, Attempted, SeenAfter, Moved;
    end := relay.Run(rounds);
    if Master(master) && Windows(master, ws, relay.passes) && relay.passes != [] {
      ExactlyOnce(master, ws, rounds, relay.passes, if end == None then Some(relay.playlist) else None);
    }
  }
}
