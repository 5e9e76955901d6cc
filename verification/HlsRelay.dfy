/** internal/tuner/gateway_relay.go:537-690 and gateway_hls.go:153-164: relaying a live HLS playlist, one pass over
    its segments after another. */
module HlsRelay {
  import opened Bytes
  import opened Text

  type Url = string

  // ---- the playlist ------------------------------------------------------

  const SCAN_LIMIT: nat := 64 * 1024

  predicate IsMedia(line: string) {
    line != "" && line[0] != '#'
  }

  function MediaOf(lines: seq<string>): seq<Url> {
    if lines == [] then []
    else
      var line := Trim(lines[|lines| - 1]);
      MediaOf(lines[..|lines| - 1]) + if IsMedia(line) then [line] else []
  }

  function MediaLines(body: string): seq<Url> {
    MediaOf(Lines(body, SCAN_LIMIT))
  }

  method HlsMediaLines(body: string) returns (out: seq<Url>)
    ensures out == MediaLines(body)
  {
    var lines := Lines(body, SCAN_LIMIT);
    out := [];
    for i := 0 to |lines|
      invariant out == MediaOf(lines[..i])
    {
      assert lines[..i + 1][..i] == lines[..i];
      var line := Trim(lines[i]);
      if IsMedia(line) {
        out := out + [line];
      }
    }
    assert lines[..|lines|] == lines;
  }

  /** What the media lines are: exactly the lines that are neither blank nor comments, trimmed. */
  lemma {:induction false} MediaMeans(lines: seq<string>, u: Url)
    ensures u in MediaOf(lines) <==>
              u != "" && u[0] != '#' && exists i :: 0 <= i < |lines| && Trim(lines[i]) == u
  {
    hide Trim;
    if lines != [] {
      var n := |lines| - 1;
      MediaMeans(lines[..n], u);
      assert lines == lines[..n] + [lines[n]];
    }
  }

  predicate Nested(u: Url) {
    HasSuffixFold(u, ".m3u8")
  }

  /** The segments listed in some media lines. */
  function Segs(lines: seq<Url>): set<Url> {
    set u | u in lines && !Nested(u)
  }

  // ---- the world ---------------------------------------------------------

  datatype Error = NoMediaLines | Stalled | CfBlocked | Upstream

  /** Fetching and forwarding one segment: n bytes, refused, client gone, or failed. */
  datatype SegmentReply = Sent(n: nat) | CfBlock | Gone(n: nat) | Broken

  datatype ListReply = Fetched(body: string, url: Url) | NotFetched

  /** What a line of the playlist meets: the reply to its fetch, whether the normaliser has started the response by
      then, whether the client's context is done, and the time. */
  datatype Reply = Reply(segment: SegmentReply, list: ListReply, started: bool, cancelled: bool, now: int)

  /** What one iteration of the loop meets. */
  datatype Round = Round(done: bool, line: nat -> Reply, checked: Reply, refresh: Reply)

  /** A pass over the media lines of a playlist; it got as far as `reach` lines. */
  datatype Pass = Pass(text: string, lines: seq<Url>, reach: nat)

  datatype End = Quiet | Failed(error: Error)

  datatype Visit = Proceed | Switch | Finish(end: End)

  // ---- what a sequence of passes amounts to ------------------------------

  /** The segments of the lines not yet seen, each at its first place. */
  function Fresh(lines: seq<Url>, seen: set<Url>): seq<Url> {
    if lines == [] then []
    else
      var n := |lines| - 1;
      Fresh(lines[..n], seen)
      + if Nested(lines[n]) || lines[n] in seen || lines[n] in lines[..n] then [] else [lines[n]]
  }

  predicate WellFormed(passes: seq<Pass>) {
    forall i :: 0 <= i < |passes| ==>
      passes[i].reach <= |passes[i].lines| && passes[i].lines == MediaLines(passes[i].text)
  }

  /** What `seen` holds when the k-th pass begins, after its pruning. */
  function Kept(passes: seq<Pass>, k: nat): set<Url>
    requires WellFormed(passes) && k < |passes|
    decreases k, 1
  {
    SeenAfter(passes, k) * Segs(passes[k].lines)
  }

  function SeenAfter(passes: seq<Pass>, k: nat): set<Url>
    requires WellFormed(passes) && k <= |passes|
    decreases k, 0
  {
    if k == 0 then {} else Kept(passes, k - 1) + Segs(passes[k - 1].lines[..passes[k - 1].reach])
  }

  /** The attempts of the k-th pass. */
  function AttemptsOf(passes: seq<Pass>, k: nat): seq<Url>
    requires WellFormed(passes) && k < |passes|
  {
    Fresh(passes[k].lines[..passes[k].reach], Kept(passes, k))
  }

  function Attempted(passes: seq<Pass>, k: nat): seq<Url>
    requires WellFormed(passes) && k <= |passes|
  {
    if k == 0 then [] else Attempted(passes, k - 1) + AttemptsOf(passes, k - 1)
  }

  lemma {:induction false} FreshStep(lines: seq<Url>, seen: set<Url>, i: nat)
    requires i < |lines|
    ensures Fresh(lines[..i + 1], seen) == Fresh(lines[..i], seen)
              + if Nested(lines[i]) || lines[i] in seen || lines[i] in lines[..i] then [] else [lines[i]]
    ensures Segs(lines[..i + 1]) == Segs(lines[..i]) + if Nested(lines[i]) then {} else {lines[i]}
  {
    assert lines[..i + 1][..i] == lines[..i];
    assert lines[..i + 1] == lines[..i] + [lines[i]];
  }

  lemma NothingYet(lines: seq<Url>, seen: set<Url>)
    ensures Segs(lines[..0]) == {} && Fresh(lines[..0], seen) == []
  {
  }

  lemma SegsIff(lines: seq<Url>, u: Url)
    ensures u in Segs(lines) <==> u in lines && !Nested(u)
  {
  }

  /** Only the passes before k matter. */
  lemma {:induction false} HistoryPrefix(a: seq<Pass>, b: seq<Pass>, k: nat)
    requires WellFormed(a) && WellFormed(b) && k <= |a| && k <= |b| && a[..k] == b[..k]
    ensures SeenAfter(a, k) == SeenAfter(b, k) && Attempted(a, k) == Attempted(b, k)
  {
    if k > 0 {
      assert a[k - 1] == a[..k][k - 1] == b[..k][k - 1] == b[k - 1];
      assert a[..k - 1] == a[..k][..k - 1] == b[..k][..k - 1] == b[..k - 1];
      HistoryPrefix(a, b, k - 1);
    }
  }

  lemma {:induction false} HistoryNext(before: seq<Pass>, p: Pass)
    requires WellFormed(before) && p.reach <= |p.lines| && p.lines == MediaLines(p.text)
    ensures var after, n := before + [p], |before|;
      && WellFormed(after)
      && var kept := SeenAfter(before, n) * Segs(p.lines);
         && SeenAfter(after, n + 1) == kept + Segs(p.lines[..p.reach])
         && Attempted(after, n + 1) == Attempted(before, n) + Fresh(p.lines[..p.reach], kept)
  {
    hide Segs, Fresh, MediaLines;
    assert (before + [p])[..|before|] == before == before[..|before|];
    HistoryPrefix(before, before + [p], |before|);
  }

  /** What becomes of the walk at a segment, for a client with a response or without one. */
  function VisitOf(r: Reply, client: bool): Visit {
    match r.segment
    case Sent(_) => Proceed
    case CfBlock => Finish(Failed(CfBlocked))
    case Gone(_) => Finish(Quiet)
    case Broken => if !client then Finish(Failed(Upstream)) else if r.cancelled then Finish(Quiet) else Proceed
  }

  // ---- when the loop goes on ---------------------------------------------

  const STALL: int := 12

  /** What an iteration starts from; `seen` is what the pruning leaves of it. */
  datatype Standing = Standing(text: string, url: Url, seen: set<Url>, headerSent: bool, normalized: bool,
                               lastProgress: int)

  /** Line i is fetched: a segment not seen before this pass nor earlier in it. */
  ghost predicate Tries(b: Standing, i: nat) {
    var lines := MediaLines(b.text);
    i < |lines| && !Nested(lines[i]) && lines[i] !in b.seen && lines[i] !in lines[..i]
  }

  /** Line i turns the loop to another playlist. */
  ghost predicate Turns(b: Standing, line: nat -> Reply, i: nat) {
    i < |MediaLines(b.text)| && Nested(MediaLines(b.text)[i]) && line(i).list.Fetched?
  }

  /** Line i brings bytes. */
  ghost predicate Delivers(b: Standing, line: nat -> Reply, i: nat) {
    Tries(b, i) && line(i).segment.Sent? && line(i).segment.n > 0
  }

  /** The response goes out with line i, if it has not before. */
  ghost predicate Starts(b: Standing, line: nat -> Reply, i: nat) {
    Tries(b, i) && line(i).segment.Sent? && (!b.normalized || line(i).started)
  }

  ghost predicate Started(b: Standing, line: nat -> Reply, n: nat) {
    b.headerSent || exists i :: 0 <= i < n && Starts(b, line, i)
  }

  /** The client has a response, n lines into the pass, when the normaliser answers as in r. */
  ghost predicate Client(b: Standing, line: nat -> Reply, n: nat, r: Reply) {
    Started(b, line, n) || (b.normalized && r.started)
  }

  /** Line i ends the loop: blocked by the provider, refused by the client, or failed with no response begun or nobody
      left to read it. */
  ghost predicate EndsAt(b: Standing, line: nat -> Reply, i: nat) {
    var lines, r := MediaLines(b.text), line(i);
    && i < |lines|
    && if Nested(lines[i]) then r.list.NotFetched? && !Client(b, line, i, r)
       else Tries(b, i) && (r.segment.CfBlock? || r.segment.Gone?
                            || (r.segment.Broken? && (!Client(b, line, i, r) || r.cancelled)))
  }

  ghost function EndOf(b: Standing, line: nat -> Reply, i: nat): End {
    var lines, r := MediaLines(b.text), line(i);
    if i < |lines| && Tries(b, i) && r.segment.CfBlock? then Failed(CfBlocked)
    else if i < |lines| && Tries(b, i) && (r.segment.Gone? || Client(b, line, i, r)) then Quiet
    else Failed(Upstream)
  }

  /** When bytes last came, n lines into the pass. */
  ghost function Latest(b: Standing, line: nat -> Reply, n: nat): int {
    if n == 0 then b.lastProgress
    else if Delivers(b, line, n - 1) then line(n - 1).now
    else Latest(b, line, n - 1)
  }

  ghost predicate Progressed(b: Standing, line: nat -> Reply, n: nat) {
    exists i :: 0 <= i < n && (Delivers(b, line, i) || Turns(b, line, i))
  }

  /** The pass gets n lines far: through all of them, or to the first that ends the loop or turns it elsewhere. */
  ghost predicate GetsTo(b: Standing, line: nat -> Reply, n: nat) {
    && n <= |MediaLines(b.text)|
    && (forall i :: 0 <= i < n - 1 ==> !EndsAt(b, line, i) && !Turns(b, line, i))
    && (n < |MediaLines(b.text)| ==> n > 0 && (EndsAt(b, line, n - 1) || Turns(b, line, n - 1)))
  }

  ghost function Reached(b: Standing, line: nat -> Reply, from: nat): (n: nat)
    requires from <= |MediaLines(b.text)|
    requires forall i :: 0 <= i < from ==> !EndsAt(b, line, i) && !Turns(b, line, i)
    ensures GetsTo(b, line, n)
    decreases |MediaLines(b.text)| - from
  {
    if from == |MediaLines(b.text)| then from
    else if EndsAt(b, line, from) || Turns(b, line, from) then from + 1
    else Reached(b, line, from + 1)
  }

  lemma {:induction false} OneReach(b: Standing, line: nat -> Reply, n: nat)
    requires GetsTo(b, line, n)
    ensures n == Reached(b, line, 0)
  {
    hide EndsAt, Turns, MediaLines;
    var m := Reached(b, line, 0);
  }

  /** The round comes as far as the refresh: the context is alive, no line ended the walk, a playlist with nothing to
      play finds the response begun, and one that brought nothing finds the time not over. */
  ghost predicate ComesToRefresh(b: Standing, round: Round) {
    var n, listed := Reached(b, round.line, 0), MediaLines(b.text) != [];
    && !round.done && !Ended(b, round)
    && (listed || Client(b, round.line, n, round.checked))
    && (Progressed(b, round.line, n) || round.checked.now - Latest(b, round.line, n) <= STALL)
  }

  ghost predicate Ended(b: Standing, round: Round) {
    var n := Reached(b, round.line, 0);
    n > 0 && EndsAt(b, round.line, n - 1)
  }

  /** ... and a refresh that fails finds the response begun, the client there and the time not over. */
  ghost predicate GoesOn(b: Standing, round: Round) {
    var n, r := Reached(b, round.line, 0), round.refresh;
    && ComesToRefresh(b, round)
    && (r.list.NotFetched? ==>
          Client(b, round.line, n, r) && !r.cancelled && r.now - Latest(b, round.line, n) <= STALL)
  }

  /** Whichever playlist the round came by last, with what it has shown and when. */
  ghost function NextStanding(b: Standing, round: Round): Standing {
    var n := Reached(b, round.line, 0);
    var turned := if n > 0 && Turns(b, round.line, n - 1) then round.line(n - 1).list else Fetched(b.text, b.url);
    var last := if round.refresh.list.Fetched? then round.refresh.list else turned;
    Standing(last.body, last.url,
             (b.seen + Segs(MediaLines(b.text)[..n])) * Segs(MediaLines(last.body)),
             Started(b, round.line, n), b.normalized, Latest(b, round.line, n))
  }

  ghost predicate AllGoOn(b: Standing, rounds: seq<Round>)
    decreases |rounds|
  {
    rounds == [] || (GoesOn(b, rounds[0]) && AllGoOn(NextStanding(b, rounds[0]), rounds[1..]))
  }

  /** What a walk comes to. */
  ghost predicate Walked(b: Standing, line: nat -> Reply, v: Visit, progress: bool, n: nat, after: Standing) {
    && n == Reached(b, line, 0)
    && WalkedSoFar(b, line, v, progress, n, after.text, after.url, after.headerSent, after.lastProgress)
    && (v == Proceed ==> n == |MediaLines(b.text)|)
    && after.normalized == b.normalized
  }

  ghost predicate WalkedSoFar(b: Standing, line: nat -> Reply, v: Visit, progress: bool, n: nat, text: string, url: Url,
                              headerSent: bool, lastProgress: int)
  {
    && (forall i :: 0 <= i < n && (v == Proceed || i < n - 1) ==> !EndsAt(b, line, i) && !Turns(b, line, i))
    && (v != Proceed ==> n > 0)
    && (v == Switch ==> Turns(b, line, n - 1) && line(n - 1).list == Fetched(text, url))
    && (v != Switch ==> text == b.text && url == b.url)
    && (v.Finish? ==> EndsAt(b, line, n - 1) && v.end == EndOf(b, line, n - 1))
    && headerSent == Started(b, line, n) && lastProgress == Latest(b, line, n)
    && progress == Progressed(b, line, n)
  }

  lemma {:induction false} AtNested(b: Standing, line: nat -> Reply, progress: bool, n: nat, headerSent: bool,
                                    lastProgress: int, v: Visit, text: string, url: Url)
    requires WalkedSoFar(b, line, Proceed, progress, n, b.text, b.url, headerSent, lastProgress)
    requires n < |MediaLines(b.text)| && Nested(MediaLines(b.text)[n])
    requires var r := line(n);
      if r.list.Fetched? then v == Switch && text == r.list.body && url == r.list.url
      else
        && text == b.text && url == b.url
        && v == if headerSent || (b.normalized && r.started) then Proceed else Finish(Failed(Upstream))
    ensures WalkedSoFar(b, line, v, progress || v == Switch, n + 1, text, url, headerSent, lastProgress)
  {
    hide MediaLines, Nested;
    StartedNext(b, line, n);
    ProgressedNext(b, line, n);
  }

  lemma {:induction false} AtSeen(b: Standing, line: nat -> Reply, progress: bool, n: nat, headerSent: bool,
                                  lastProgress: int)
    requires WalkedSoFar(b, line, Proceed, progress, n, b.text, b.url, headerSent, lastProgress)
    requires n < |MediaLines(b.text)| && !Nested(MediaLines(b.text)[n]) && !Tries(b, n)
    ensures WalkedSoFar(b, line, Proceed, progress, n + 1, b.text, b.url, headerSent, lastProgress)
  {
    hide MediaLines, Nested;
    StartedNext(b, line, n);
    ProgressedNext(b, line, n);
  }

  lemma {:induction false} AtSegment(b: Standing, line: nat -> Reply, progress: bool, n: nat, headerSent: bool,
                                     lastProgress: int, v: Visit)
    requires WalkedSoFar(b, line, Proceed, progress, n, b.text, b.url, headerSent, lastProgress)
    requires n < |MediaLines(b.text)| && Tries(b, n)
    requires v == VisitOf(line(n), headerSent || (b.normalized && line(n).started))
    ensures var r, sent := line(n), line(n).segment.Sent?;
            WalkedSoFar(b, line, v, progress || (sent && r.segment.n > 0), n + 1, b.text, b.url,
                        headerSent || (sent && (!b.normalized || r.started)),
                        if sent && r.segment.n > 0 then r.now else lastProgress)
  {
    hide MediaLines, Nested;
    StartedNext(b, line, n);
    ProgressedNext(b, line, n);
  }

  lemma StillThere(b: Standing, line: nat -> Reply, progress: bool, n: nat, text: string, url: Url, headerSent: bool,
                   lastProgress: int)
    requires WalkedSoFar(b, line, Proceed, progress, n, text, url, headerSent, lastProgress)
    ensures text == b.text && url == b.url
  {
  }

  lemma WalkBegins(b: Standing, line: nat -> Reply)
    ensures WalkedSoFar(b, line, Proceed, false, 0, b.text, b.url, b.headerSent, b.lastProgress)
  {
  }

  lemma WalkEnds(b: Standing, line: nat -> Reply, v: Visit, progress: bool, n: nat, after: Standing)
    requires n <= |MediaLines(b.text)| && (v == Proceed ==> n == |MediaLines(b.text)|)
    requires WalkedSoFar(b, line, v, progress, n, after.text, after.url, after.headerSent, after.lastProgress)
    requires after.normalized == b.normalized
    ensures Walked(b, line, v, progress, n, after)
  {
    hide MediaLines, EndsAt, Turns, Reached;
    OneReach(b, line, n);
  }

  lemma WalkMoves(b: Standing, round: Round, v: Visit, progress: bool, pass: Pass, after: Standing)
    requires Walked(b, round.line, v, progress, pass.reach, after) && !v.Finish?
    requires pass.text == b.text && pass.lines == MediaLines(b.text) && pass.reach <= |pass.lines|
    ensures Moved(pass, round, if round.refresh.list.Fetched? then round.refresh.list.body else after.text)
  {
    hide MediaLines, Nested, Started, Latest, Progressed, Reached;
    assert v == Proceed && pass.reach > 0 ==> !Turns(b, round.line, pass.reach - 1);
  }

  lemma StartedNext(b: Standing, line: nat -> Reply, n: nat)
    ensures Started(b, line, n + 1) <==> Started(b, line, n) || Starts(b, line, n)
  {
    hide Starts;
  }

  lemma ProgressedNext(b: Standing, line: nat -> Reply, n: nat)
    ensures Progressed(b, line, n + 1) <==> Progressed(b, line, n) || Delivers(b, line, n) || Turns(b, line, n)
  {
    hide Delivers, Turns;
  }

  /** There is nothing to play and no response to keep open. */
  ghost predicate FindsNothing(b: Standing, round: Round) {
    !round.done && MediaLines(b.text) == [] && !Client(b, round.line, 0, round.checked)
  }

  /** Nothing has come for more than 12 s: of an empty playlist, though the response has begun, or of one with segments,
      none of which began it. */
  ghost predicate Stalls(b: Standing, round: Round) {
    var n := Reached(b, round.line, 0);
    && !round.done && !Ended(b, round) && !Progressed(b, round.line, n)
    && round.checked.now - Latest(b, round.line, n) > STALL
    && (MediaLines(b.text) == [] <==> Client(b, round.line, n, round.checked))
  }

  ghost predicate MeetsBlock(b: Standing, round: Round) {
    var n := Reached(b, round.line, 0);
    !round.done && Ended(b, round) && Tries(b, n - 1) && round.line(n - 1).segment.CfBlock?
  }

  /** A line or the refresh fails with no response begun, or the refresh more than 12 s after the last bytes. */
  ghost predicate Fails(b: Standing, round: Round) {
    var n, r := Reached(b, round.line, 0), round.refresh;
    if Ended(b, round) then !round.done && EndOf(b, round.line, n - 1) == Failed(Upstream)
    else
      && ComesToRefresh(b, round) && r.list.NotFetched?
      && (!Client(b, round.line, n, r) || (!r.cancelled && r.now - Latest(b, round.line, n) > STALL))
  }

  class Relay {
    /** is ffmpeg between the segments and the client? */
    const normalized: bool
    var playlist: string
    var url: Url
    var seen: set<Url>
    var headerSent: bool
    var sentBytes: nat
    var sentSegments: nat
    var lastProgress: int
    /** the segment fetches so far, in order */
    ghost var attempts: seq<Url>
    ghost var passes: seq<Pass>

    ghost predicate Valid()
      reads this
    {
      && WellFormed(passes)
      && seen == SeenAfter(passes, |passes|)
      && attempts == Attempted(passes, |passes|)
    }

    constructor (playlist: string, url: Url, responseStarted: bool, normalized: bool, now: int)
      ensures Valid() && passes == [] && attempts == [] && this.playlist == playlist && this.url == url
    {
      this.playlist, this.url, this.normalized := playlist, url, normalized;
      seen, attempts, passes := {}, [], [];
      headerSent, sentBytes, sentSegments, lastProgress := responseStarted, 0, 0, now;
    }

    /** What the next iteration starts from. */
    ghost function Stand(): Standing
      reads this
    {
      Standing(playlist, url, seen * Segs(MediaLines(playlist)), headerSent, normalized, lastProgress)
    }

    predicate ClientStarted(r: Reply)
      reads this
    {
      headerSent || (normalized && r.started)
    }

    /** A line that names another playlist (gateway_relay.go:569-584). */
    method Follow(r: Reply) returns (v: Visit)
      modifies this`playlist, this`url
      ensures r.list.Fetched? ==> v == Switch && playlist == r.list.body && url == r.list.url
      ensures !r.list.Fetched? ==>
        && playlist == old(playlist) && url == old(url)
        && v == if ClientStarted(r) then Proceed else Finish(Failed(Upstream))
    {
      if r.list.NotFetched? {
        return if ClientStarted(r) then Proceed else Finish(Failed(Upstream));
      }
      playlist, url := r.list.body, r.list.url;
      return Switch;
    }

    /** A segment not seen before (gateway_relay.go:588-653): it counts as seen whatever becomes of it. */
    method Attempt(u: Url, r: Reply) returns (v: Visit, progress: bool)
      modifies this`seen, this`attempts, this`headerSent, this`sentBytes, this`sentSegments, this`lastProgress
      ensures seen == old(seen) + {u} && attempts == old(attempts) + [u]
      ensures v == VisitOf(r, old(ClientStarted(r)))
      ensures progress <==> r.segment.Sent? && r.segment.n > 0
      ensures sentBytes == old(sentBytes) + if r.segment.Sent? || r.segment.Gone? then r.segment.n else 0
      ensures sentSegments == old(sentSegments) + if progress then 1 else 0
      ensures lastProgress == if progress then r.now else old(lastProgress)
      ensures headerSent == (old(headerSent) || (r.segment.Sent? && (!normalized || r.started)))
    {
      seen, attempts := seen + {u}, attempts + [u];
      match r.segment {
        case CfBlock =>
          return Finish(Failed(CfBlocked)), false;
        case Gone(n) =>
          sentBytes := sentBytes + n;
          return Finish(Quiet), false;
        case Broken =>
          v := if !ClientStarted(r) then Finish(Failed(Upstream)) else if r.cancelled then Finish(Quiet) else Proceed;
          return v, false;
        case Sent(n) =>
          headerSent := headerSent || !normalized || r.started;
          if n > 0 {
            sentBytes, sentSegments, lastProgress := sentBytes + n, sentSegments + 1, r.now;
          }
          return Proceed, n > 0;
      }
    }

    /** The lines one by one (gateway_relay.go:567-657). */
    method Walk(lines: seq<Url>, replies: nat -> Reply) returns (v: Visit, progress: bool, reach: nat)
      requires lines == MediaLines(playlist) && seen <= Segs(lines)
      modifies this
      ensures passes == old(passes) && reach <= |lines|
      ensures seen == old(seen) + Segs(lines[..reach])
      ensures attempts == old(attempts) + Fresh(lines[..reach], old(seen))
      ensures Walked(old(Stand()), replies, v, progress, reach, Stand())
      ensures sentSegments >= old(sentSegments) && (progress <==> v == Switch || sentSegments > old(sentSegments))
    {
      hide Segs, Fresh, MediaLines, WalkedSoFar, Walked, Nested, Reached;
      ghost var b := Stand();
      v, progress, reach := Proceed, false, 0;
      WalkBegins(b, replies);
      NothingYet(lines, seen);
      while reach < |lines| && v == Proceed
        invariant reach <= |lines| && passes == old(passes)
        invariant seen == old(seen) + Segs(lines[..reach])
        invariant attempts == old(attempts) + Fresh(lines[..reach], old(seen))
        invariant sentSegments >= old(sentSegments) && (progress <==> v == Switch || sentSegments > old(sentSegments))
        invariant WalkedSoFar(b, replies, v, progress, reach, playlist, url, headerSent, lastProgress)
      {
        FreshStep(lines, old(seen), reach);
        SegsIff(lines[..reach], lines[reach]);
        var u := lines[reach];
        StillThere(b, replies, progress, reach, playlist, url, headerSent, lastProgress);
        ghost var h, l, g := headerSent, lastProgress, progress;
        if Nested(u) {
          v := Follow(replies(reach));
          AtNested(b, replies, g, reach, h, l, v, playlist, url);
          progress := progress || v == Switch;
        } else if u !in seen {
          assert Tries(b, reach);
          var p;
          v, p := Attempt(u, replies(reach));
          AtSegment(b, replies, g, reach, h, l, v);
          progress := progress || p;
        } else {
          assert !Tries(b, reach);
          AtSeen(b, replies, g, reach, h, l);
        }
        reach := reach + 1;
      }
      WalkEnds(b, replies, v, progress, reach, Stand());
    }

    /** One pass over the playlist (gateway_relay.go:546-557, 567-657): first `seen` forgets what is not listed. */
    method OnePass(replies: nat -> Reply) returns (v: Visit, progress: bool, lines: seq<Url>)
      requires Valid()
      modifies this
      ensures Valid() && lines == MediaLines(old(playlist))
      ensures |passes| == |old(passes)| + 1 && passes[..|old(passes)|] == old(passes)
      ensures var p := passes[|old(passes)|];
        && p.text == old(playlist) && p.lines == lines && p.reach <= |lines|
        && Walked(old(Stand()), replies, v, progress, p.reach, Stand())
        && seen == old(Stand()).seen + Segs(lines[..p.reach])
      ensures sentSegments >= old(sentSegments) && (progress <==> v == Switch || sentSegments > old(sentSegments))
    {
      hide Segs, Fresh, Walked, MediaLines, SeenAfter, Attempted, WellFormed;
      lines := HlsMediaLines(playlist);
      ghost var before := passes;
      seen := seen * Segs(lines);
      assert Stand() == old(Stand());
      var text, reach := playlist, 0;
      v, progress, reach := Walk(lines, replies);
      HistoryNext(before, Pass(text, lines, reach));
      passes := before + [Pass(text, lines, reach)];
    }

    /** One iteration of the loop (gateway_relay.go:538-689). None: the loop goes on. */
    method Iterate(round: Round) returns (end: Option<End>)
      requires Valid()
      modifies this
      ensures Valid()
      ensures round.done ==> end == Some(Quiet) && passes == old(passes)
      ensures !round.done ==>
        && |passes| == |old(passes)| + 1 && passes[..|old(passes)|] == old(passes)
        && passes[|old(passes)|].text == old(playlist)
      ensures end == None ==> !round.done && Moved(passes[|old(passes)|], round, playlist)
      ensures end == None <==> GoesOn(old(Stand()), round)
      ensures end == None ==> Stand() == NextStanding(old(Stand()), round)
      ensures end == Some(Failed(NoMediaLines)) <==> FindsNothing(old(Stand()), round)
      ensures end == Some(Failed(Stalled)) ==> sentSegments == old(sentSegments)
      ensures end == Some(Failed(Stalled)) <==> Stalls(old(Stand()), round)
      ensures end == Some(Failed(CfBlocked)) <==> MeetsBlock(old(Stand()), round)
      ensures end == Some(Failed(Upstream)) <==> Fails(old(Stand()), round)
    {
      hide Segs, Fresh, MediaLines, SeenAfter, Attempted, Moved, Reached;
      if round.done {
        return Some(Quiet);
      }
      ghost var b := Stand();
      var v, progress, lines := OnePass(round.line);
      if v.Finish? {
        return Some(v.end);
      }
      WalkMoves(b, round, v, progress, passes[|passes| - 1], Stand());
      var quiet := round.checked.now - lastProgress > STALL;
      if lines == [] {
        if !ClientStarted(round.checked) {
          return Some(Failed(NoMediaLines));
        }
        if quiet {
          return Some(Failed(Stalled));
        }
      } else if !progress && quiet {
        return Some(if ClientStarted(round.checked) then Quiet else Failed(Stalled));
      }
      var r := round.refresh;
      if r.list.NotFetched? {
        if !ClientStarted(r) {
          return Some(Failed(Upstream));
        }
        if r.cancelled {
          return Some(Quiet);
        }
        return if r.now - lastProgress > STALL then Some(Failed(Upstream)) else None;
      }
      playlist, url := r.list.body, r.list.url;
      return None;
    }

    /** The loop, as far as the rounds go. */
    method Run(rounds: seq<Round>) returns (end: Option<End>)
      requires Valid() && passes == []
      modifies this
      ensures Valid()
      ensures end == None <==> AllGoOn(old(Stand()), rounds)
      ensures end == None ==> |passes| == |rounds|
      ensures passes != [] ==> passes[0].text == old(playlist)
      ensures Chain(rounds, passes, if end == None then Some(playlist) else None)
    {
      end := None;
      hide Moved, GoesOn, NextStanding, FindsNothing, Stalls, MeetsBlock, Fails, WellFormed;
      for i := 0 to |rounds|
        invariant Valid() && end == None
        invariant |passes| == i
        invariant if i == 0 then playlist == old(playlist) else passes[0].text == old(playlist)
        invariant Chain(rounds, passes, Some(playlist))
        invariant AllGoOn(old(Stand()), rounds) <==> AllGoOn(Stand(), rounds[i..])
      {
        assert rounds[i..][1..] == rounds[i + 1..] && rounds[i..][0] == rounds[i];
        ghost var before, text := passes, playlist;
        hide Valid;
        end := Iterate(rounds[i]);
        if |passes| == i + 1 {
          ChainNext(rounds, before, text, passes, playlist);
        }
        if end.Some? {
          return;
        }
      }
    }
  }

  /** The playlist text after a round that did not end the loop: the refreshed one; if the refresh failed, the one a
      nested line led to, or the same as before. */
  predicate Moved(pass: Pass, round: Round, after: string) {
    && pass.reach <= |pass.lines|
    && var turned := 0 < pass.reach && Nested(pass.lines[pass.reach - 1]) && round.line(pass.reach - 1).list.Fetched?;
       && (pass.reach == |pass.lines| || turned)
       && (if round.refresh.list.Fetched? then after == round.refresh.list.body
           else if turned then after == round.line(pass.reach - 1).list.body
           else after == pass.text)
  }

  /** Each pass runs on the text the round before it left, and so on to the text that comes last. */
  predicate Chain(rounds: seq<Round>, passes: seq<Pass>, last: Option<string>) {
    && |passes| <= |rounds|
    && (forall i :: 0 <= i < |passes| - 1 ==> Moved(passes[i], rounds[i], passes[i + 1].text))
    && (last.Some? && passes != [] ==> Moved(passes[|passes| - 1], rounds[|passes| - 1], last.value))
  }

  lemma {:induction false} ChainNext(rounds: seq<Round>, before: seq<Pass>, text: string, passes: seq<Pass>,
                                     after: string)
    requires Chain(rounds, before, Some(text)) && |passes| == |before| + 1 <= |rounds| && passes[..|before|] == before
    requires passes[|before|].text == text
    ensures Chain(rounds, passes, None)
    ensures Moved(passes[|before|], rounds[|before|], after) ==> Chain(rounds, passes, Some(after))
  {
    hide Moved;
    forall i | 0 <= i < |before|
      ensures Moved(passes[i], rounds[i], passes[i + 1].text)
    {
      assert passes[i] == passes[..|before|][i] == before[i];
      if i + 1 < |before| {
        assert passes[i + 1] == passes[..|before|][i + 1] == before[i + 1];
      }
    }
  }
}
