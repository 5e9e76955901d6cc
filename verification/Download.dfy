/** internal/materializer/download.go: fetching a file in ranges, or whole. */
module Download {
  import opened Bytes

  const CHUNK: nat := 1024 * 1024

  /** The answer to one GET: was the server reached, the status, what io.Copy stored, and whether it ended well. */
  datatype Reply = Reply(reached: bool, status: nat, body: seq<byte>, copied: bool)

  /** The answer to HEAD. */
  datatype Head = Head(reached: bool, length: int, acceptRanges: bool)

  datatype Request = Range(start: nat, end: nat) | Whole

  datatype Error = BadScheme | NoDir | NoHead | NotCreated | Unreached | Status(code: nat) | CopyFailed

  /** The server: its answer to the k-th GET of a download. */
  type Server = (nat, Request) -> Reply

  /** The file at destPath; None when there is none. */
  class Dest {
    var content: Option<seq<byte>>

    constructor (before: Option<seq<byte>>)
      ensures content == before
    {
      content := before;
    }
  }

  // ---- the range loop ----------------------------------------------------

  /** What a run of the range loop stored, piece by piece, for which requests, and its error. */
  datatype Fetched = Fetched(pieces: seq<seq<byte>>, requests: seq<Request>, error: Option<Error>)

  /** download.go:57-60. */
  function NextRange(off: nat, total: int): (q: Request)
    requires off < total
    ensures q.Range? && q.start == off <= q.end < total
    ensures q.end - q.start + 1 <= CHUNK
    ensures q.end - q.start + 1 == CHUNK || q.end == total - 1
  {
    Range(off, if off + CHUNK - 1 >= total then total - 1 else off + CHUNK - 1)
  }

  /** The error a reply ends the download with, if any. */
  function ReplyError(r: Reply, partialOk: bool): Option<Error> {
    if !r.reached then Some(Unreached)
    else if r.status != 200 && !(partialOk && r.status == 206) then Some(Status(r.status))
    else if !r.copied then Some(CopyFailed)
    else None
  }

  /** The bytes a reply leaves in the file. */
  function Stored(r: Reply, partialOk: bool): seq<byte> {
    if r.reached && (r.status == 200 || (partialOk && r.status == 206)) then r.body else []
  }

  /** The loop from request k, offset off (download.go:55-80). */
  function FetchFrom(serve: Server, k: nat, off: nat, total: int): Fetched
    decreases total - off
  {
    if off >= total then Fetched([], [], None)
    else
      var q := NextRange(off, total);
      var r := serve(k, q);
      var body := Stored(r, true);
      if ReplyError(r, true).Some? || body == [] then Fetched([body], [q], ReplyError(r, true))
      else
        var rest := FetchFrom(serve, k + 1, off + |body|, total);
        Fetched([body] + rest.pieces, [q] + rest.requests, rest.error)
  }

  /** One request and its copy to the file (download.go:61-75, and 89-104 with partialOk false). */
  method Fetch(r: Reply, partialOk: bool, dest: Dest) returns (error: Option<Error>, n: nat)
    requires dest.content.Some?
    modifies dest
    ensures error == ReplyError(r, partialOk) && n == |Stored(r, partialOk)|
    ensures dest.content == Some(old(dest.content).value + Stored(r, partialOk))
  {
    assert dest.content.value + [] == dest.content.value;
    if !r.reached {
      return Some(Unreached), 0;
    }
    if r.status != 200 && (!partialOk || r.status != 206) {
      return Some(Status(r.status)), 0;
    }
    dest.content := Some(dest.content.value + r.body);
    return if r.copied then None else Some(CopyFailed), |r.body|;
  }

  /** The whole run, after the part of it that is done. */
  ghost predicate Continues(all: Fetched, pieces: seq<seq<byte>>, requests: seq<Request>, rest: Fetched) {
    all == Fetched(pieces + rest.pieces, requests + rest.requests, rest.error)
  }

  lemma {:induction false} FetchStep(serve: Server, k: nat, off: nat, total: int, all: Fetched, ps: seq<seq<byte>>,
                                     qs: seq<Request>)
    requires off < total && Continues(all, ps, qs, FetchFrom(serve, k, off, total))
    ensures var q := NextRange(off, total);
      var p, e := Stored(serve(k, q), true), ReplyError(serve(k, q), true);
      if e.Some? || p == [] then all == Fetched(ps + [p], qs + [q], e)
      else Continues(all, ps + [p], qs + [q], FetchFrom(serve, k + 1, off + |p|, total))
  {
    var q := NextRange(off, total);
    var p := Stored(serve(k, q), true);
    var rest := FetchFrom(serve, k + 1, off + |p|, total);
    assert (ps + [p]) + rest.pieces == ps + ([p] + rest.pieces);
    assert (qs + [q]) + rest.requests == qs + ([q] + rest.requests);
  }

  lemma {:induction false} FetchEnds(serve: Server, k: nat, off: nat, total: int, all: Fetched, ps: seq<seq<byte>>,
                                     qs: seq<Request>)
    requires Continues(all, ps, qs, FetchFrom(serve, k, off, total))
    ensures off >= total ==> all == Fetched(ps, qs, None)
  {
    assert ps + [] == ps && qs + [] == qs;
  }

  method DownloadRange(serve: Server, dest: Dest, created: bool, total: int)
      returns (error: Option<Error>, ghost requests: seq<Request>)
    modifies dest
    ensures !created ==> error == Some(NotCreated) && dest.content == old(dest.content) && requests == []
    ensures created ==>
      && dest.content == Some(Join(FetchFrom(serve, 0, 0, total).pieces))
      && error == FetchFrom(serve, 0, 0, total).error
      && requests == FetchFrom(serve, 0, 0, total).requests
  {
    requests := [];
    if !created {
      return Some(NotCreated), [];
    }
    dest.content := Some([]);
    var off, k := 0, 0;
    ghost var all := FetchFrom(serve, 0, 0, total);
    ghost var pieces: seq<seq<byte>> := [];
    hide FetchFrom, Stored, ReplyError;
    while off < total
      invariant dest.content == Some(Join(pieces))
      invariant Continues(all, pieces, requests, FetchFrom(serve, k, off, total))
      decreases total - off
    {
      var q := NextRange(off, total);
      ghost var p := Stored(serve(k, q), true);
      var n;
      FetchStep(serve, k, off, total, all, pieces, requests);
      error, n := Fetch(serve(k, q), true, dest);
      JoinSnoc(pieces, p);
      requests, pieces := requests + [q], pieces + [p];
      if error.Some? || n == 0 {
        return error, requests;
      }
      off, k := off + n, k + 1;
    }
    FetchEnds(serve, k, off, total, all, pieces, requests);
    return None, requests;
  }

  /** download.go:88-105: the status is looked at before the file is created. */
  method DownloadFull(serve: Server, dest: Dest, created: bool) returns (error: Option<Error>)
    modifies dest
    ensures var r := serve(0, Whole);
            && (!r.reached || r.status != 200 ==> error == ReplyError(r, false) && dest.content == old(dest.content))
            && (r.reached && r.status == 200 && !created ==>
                  error == Some(NotCreated) && dest.content == old(dest.content))
            && (r.reached && r.status == 200 && created ==>
                  error == ReplyError(r, false) && dest.content == Some(r.body))
  {
    var r := serve(0, Whole);
    if !r.reached {
      return Some(Unreached);
    }
    if r.status != 200 {
      return Some(Status(r.status));
    }
    if !created {
      return Some(NotCreated);
    }
    dest.content := Some([]);
    var n;
    error, n := Fetch(r, false, dest);
    assert [] + r.body == r.body;
  }

  /** download.go:20-46. */
  method DownloadToFile(httpUrl: bool, dirMade: bool, head: Head, serve: Server, dest: Dest, created: bool)
      returns (error: Option<Error>, ghost requests: seq<Request>)
    modifies dest
    ensures requests == [] && error.Some? ==> dest.content == old(dest.content)
    ensures error == None ==>
      && created
      && dest.content == Some(if head.acceptRanges && head.length > 0
                              then Join(FetchFrom(serve, 0, 0, head.length).pieces) else serve(0, Whole).body)
      && (if head.acceptRanges && head.length > 0 then FetchFrom(serve, 0, 0, head.length).error == None
          else ReplyError(serve(0, Whole), false) == None)
    ensures dest.content == old(dest.content)
         || dest.content == Some(Join(FetchFrom(serve, 0, 0, head.length).pieces))
         || dest.content == Some(serve(0, Whole).body)
    ensures error == None <==>
      && httpUrl && dirMade && head.reached && created
      && (if head.acceptRanges && head.length > 0 then FetchFrom(serve, 0, 0, head.length).error == None
          else ReplyError(serve(0, Whole), false) == None)
  {
    requests := [];
    if !httpUrl {
      return Some(BadScheme), [];
    }
    if !dirMade {
      return Some(NoDir), [];
    }
    if !head.reached {
      return Some(NoHead), [];
    }
    if head.acceptRanges && head.length > 0 {
      error, requests := DownloadRange(serve, dest, created, head.length);
    } else {
      error := DownloadFull(serve, dest, created);
      requests := [Whole];
    }
  }

  // ---- what the loop asks for and gets -----------------------------------

  /** One piece per request. */
  lemma {:induction false} PiecePerRequest(serve: Server, k: nat, off: nat, total: int)
    ensures var f := FetchFrom(serve, k, off, total);
      |f.requests| == |f.pieces| && (off < total ==> f.requests != [])
    decreases total - off
  {
    if off < total {
      var body := Stored(serve(k, NextRange(off, total)), true);
      if body != [] {
        PiecePerRequest(serve, k + 1, off + |body|, total);
      }
    }
  }

  lemma FetchMore(serve: Server, k: nat, off: nat, total: int, i: nat)
    requires 0 < i < |FetchFrom(serve, k, off, total).requests|
    ensures off < total
    ensures var f, body := FetchFrom(serve, k, off, total), Stored(serve(k, NextRange(off, total)), true);
      var rest := FetchFrom(serve, k + 1, off + |body|, total);
      f.pieces == [body] + rest.pieces && f.requests[1..] == rest.requests && body != []
  {
  }

  /** The ranges asked for are contiguous: each begins where the bytes stored so far end, is at most 1 MiB long and
      stays within the announced size. Every request but the last got something. */
  lemma {:induction false} RangesContiguous(serve: Server, k: nat, off: nat, total: int, i: nat)
    requires i < |FetchFrom(serve, k, off, total).requests|
    ensures var f := FetchFrom(serve, k, off, total);
      && i < |f.pieces|
      && f.requests[i].Range? && f.requests[i].start == off + |Join(f.pieces[..i])| <= f.requests[i].end < total
      && f.requests[i].end - f.requests[i].start + 1 <= CHUNK
      && f.pieces[i] == Stored(serve(k + i, f.requests[i]), true)
      && (i + 1 < |f.requests| ==> f.pieces[i] != [])
    decreases i
  {
    hide FetchFrom, Stored, ReplyError, NextRange;
    if i == 0 {
      FetchFirst(serve, k, off, total);
    } else {
      FetchMore(serve, k, off, total, i);
      var f, body := FetchFrom(serve, k, off, total), Stored(serve(k, NextRange(off, total)), true);
      var rest := FetchFrom(serve, k + 1, off + |body|, total);
      RangesContiguous(serve, k + 1, off + |body|, total, i - 1);
      assert f.requests[i] == rest.requests[i - 1];
      assert f.pieces[..i] == [body] + rest.pieces[..i - 1];
    }
  }

  lemma FetchFirst(serve: Server, k: nat, off: nat, total: int)
    requires FetchFrom(serve, k, off, total).requests != []
    ensures off < total
    ensures var f := FetchFrom(serve, k, off, total);
      && f.requests[0] == NextRange(off, total) && f.pieces != [] && f.pieces[..0] == []
      && f.pieces[0] == Stored(serve(k, NextRange(off, total)), true)
      && (1 < |f.requests| ==> f.pieces[0] != [])
  {
  }

  /** The server answers a GET for a range with bytes of the resource from its start on (a server that ignores the
      range and sends the whole file when asked for its first part is one), and a plain GET from 0 on. */
  ghost predicate Honest(serve: Server, resource: seq<byte>) {
    && (forall k: nat, lo: nat, hi: nat :: serve(k, Range(lo, hi)).reached && lo <= |resource| ==>
          serve(k, Range(lo, hi)).body <= resource[lo..])
    && (forall k: nat :: serve(k, Whole).reached ==> serve(k, Whole).body <= resource)
  }

  lemma {:induction false} PrefixConcat(a: seq<byte>, b: seq<byte>, r: seq<byte>)
    requires a <= r && b <= r[|a|..]
    ensures a + b <= r
  {
    assert r == a + r[|a|..];
  }

  /** Whatever goes wrong on the way, after every piece the file holds a prefix of the resource. */
  lemma {:induction false} AlwaysAPrefix(serve: Server, k: nat, off: nat, total: int, resource: seq<byte>, n: nat)
    requires Honest(serve, resource) && off <= |resource| && n <= |FetchFrom(serve, k, off, total).pieces|
    ensures Join(FetchFrom(serve, k, off, total).pieces[..n]) <= resource[off..]
    decreases n
  {
    if n > 0 {
      var f := FetchFrom(serve, k, off, total);
      var body := Stored(serve(k, NextRange(off, total)), true);
      var rest := FetchFrom(serve, k + 1, off + |body|, total);
      assert body <= resource[off..];
      assert f.pieces[0] == body && (f.pieces[1..] == [] || f.pieces[1..] == rest.pieces);
      hide FetchFrom, Stored, Honest, NextRange, ReplyError;
      assert f.pieces[..n][1..] == f.pieces[1..][..n - 1];
      if f.pieces[1..] == [] {
        assert Join(f.pieces[..n]) == body + [];
      } else {
        AlwaysAPrefix(serve, k + 1, off + |body|, total, resource, n - 1);
        assert resource[off..][|body|..] == resource[off + |body|..];
        PrefixConcat(body, Join(rest.pieces[..n - 1]), resource[off..]);
      }
    }
  }

  /** What the writer of the single-flight protocol may assume of its next piece. */
  lemma {:induction false} PieceKeepsPrefix(serve: Server, total: int, resource: seq<byte>, i: nat)
    requires Honest(serve, resource) && i < |FetchFrom(serve, 0, 0, total).pieces|
    ensures var f := FetchFrom(serve, 0, 0, total);
            Join(f.pieces[..i]) + f.pieces[i] <= resource
  {
    var f := FetchFrom(serve, 0, 0, total);
    AlwaysAPrefix(serve, 0, 0, total, resource, i + 1);
    JoinSnoc(f.pieces[..i], f.pieces[i]);
    assert f.pieces[..i + 1] == f.pieces[..i] + [f.pieces[i]];
  }

  /** A range download that reports no error has stored at least the announced size exactly when its last reply
      was not empty: an empty reply ends the loop and looks like success. */
  lemma {:induction false} CompleteIff(serve: Server, k: nat, off: nat, total: int)
    requires off < total && FetchFrom(serve, k, off, total).error == None
    ensures var f := FetchFrom(serve, k, off, total);
      && f.pieces != []
      && (off + |Join(f.pieces)| >= total <==> f.pieces[|f.pieces| - 1] != [])
    decreases total - off
  {
    var f := FetchFrom(serve, k, off, total);
    var body := Stored(serve(k, NextRange(off, total)), true);
    if body != [] {
      var rest := FetchFrom(serve, k + 1, off + |body|, total);
      assert f.pieces[1..] == rest.pieces;
      if off + |body| < total {
        CompleteIff(serve, k + 1, off + |body|, total);
      } else {
        assert f.pieces == [body] && Join(f.pieces) == body + Join([]);
      }
    } else {
      assert f.pieces == [[]] && Join(f.pieces) == [] + Join([]);
    }
  }

  /** With an honest server and the right size, the file of an error-free range download is the resource exactly
      when no reply was empty. */
  lemma {:induction false} WholeResource(serve: Server, resource: seq<byte>)
    requires Honest(serve, resource) && resource != []
    requires FetchFrom(serve, 0, 0, |resource|).error == None
    ensures var f := FetchFrom(serve, 0, 0, |resource|);
      Join(f.pieces) == resource <==> forall i :: 0 <= i < |f.pieces| ==> f.pieces[i] != []
  {
    hide *;
    var f := FetchFrom(serve, 0, 0, |resource|);
    CompleteIff(serve, 0, 0, |resource|);
    forall i | 0 <= i < |f.pieces| - 1
      ensures f.pieces[i] != []
    {
      PiecePerRequest(serve, 0, 0, |resource|);
      RangesContiguous(serve, 0, 0, |resource|, i);
    }
    AlwaysAPrefix(serve, 0, 0, |resource|, resource, |f.pieces|);
    assert f.pieces[..|f.pieces|] == f.pieces && resource[0..] == resource;
    PrefixLength(Join(f.pieces), resource);
  }

  lemma PrefixLength(a: seq<byte>, r: seq<byte>)
    requires a <= r
    ensures |a| >= |r| <==> a == r
  {
  }

  /** A reply that went well: 200 or 206, copied to its end. */
  predicate Well(r: Reply) {
    r.reached && (r.status == 200 || r.status == 206) && r.copied
  }

  function Fault(r: Reply): Error {
    if !r.reached then Unreached else if r.status != 200 && r.status != 206 then Status(r.status) else CopyFailed
  }

  lemma WellOrFault(r: Reply)
    ensures ReplyError(r, true) == if Well(r) then None else Some(Fault(r))
  {
  }

  lemma FetchUnfold(serve: Server, k: nat, off: nat, total: int)
    requires off < total
    ensures var q := NextRange(off, total);
      var body, e := Stored(serve(k, q), true), ReplyError(serve(k, q), true);
      var rest := FetchFrom(serve, k + 1, off + |body|, total);
      FetchFrom(serve, k, off, total) == if e.Some? || body == [] then Fetched([body], [q], e)
                                         else Fetched([body] + rest.pieces, [q] + rest.requests, rest.error)
  {
  }

  lemma NothingLeft(serve: Server, k: nat, off: nat, total: int)
    requires off >= total
    ensures FetchFrom(serve, k, off, total) == Fetched([], [], None)
  {
  }

  /** Only the last reply of a range download can have gone wrong, and its fault is the download's error. */
  lemma {:induction false} ErrorIsLast(serve: Server, k: nat, off: nat, total: int)
    ensures var f := FetchFrom(serve, k, off, total);
      var n := |f.requests|;
      && (off < total <==> n > 0)
      && (forall i :: 0 <= i < n - 1 ==> Well(serve(k + i, f.requests[i])))
      && f.error == if n > 0 && !Well(serve(k + n - 1, f.requests[n - 1]))
                    then Some(Fault(serve(k + n - 1, f.requests[n - 1]))) else None
    decreases total - off
  {
    hide FetchFrom, Stored, ReplyError, Well, Fault, NextRange;
    if off >= total {
      NothingLeft(serve, k, off, total);
    } else {
      var f, q := FetchFrom(serve, k, off, total), NextRange(off, total);
      var body := Stored(serve(k, q), true);
      FetchUnfold(serve, k, off, total);
      WellOrFault(serve(k, q));
      if Well(serve(k, q)) && body != [] {
        var rest := FetchFrom(serve, k + 1, off + |body|, total);
        ErrorIsLast(serve, k + 1, off + |body|, total);
        forall i | 0 <= i < |f.requests| - 1
          ensures Well(serve(k + i, f.requests[i]))
        {
          if i > 0 {
            assert f.requests[i] == rest.requests[i - 1] && Well(serve(k + 1 + (i - 1), rest.requests[i - 1]));
          }
        }
      }
    }
  }

  /** A server that answers every range asked for with some of its bytes delivers the whole resource. */
  lemma {:induction false} GoodServerDelivers(serve: Server, resource: seq<byte>, k: nat, off: nat)
    requires off <= |resource|
    requires forall i: nat, lo: nat, hi: nat :: lo <= hi < |resource| ==>
               var r := serve(i, Range(lo, hi)); Well(r) && r.body != [] && r.body <= resource[lo..]
    ensures var f := FetchFrom(serve, k, off, |resource|);
            f.error == None && Join(f.pieces) == resource[off..]
    decreases |resource| - off
  {
    if off < |resource| {
      var q := NextRange(off, |resource|);
      var body := serve(k, q).body;
      assert Well(serve(k, q)) && body != [] && body <= resource[off..];
      GoodServerDelivers(serve, resource, k + 1, off + |body|);
      assert resource[off..] == body + resource[off + |body|..];
    }
  }

  /** The bytes stand in the resource at this offset. */
  predicate StandsAt(bytes: seq<byte>, resource: seq<byte>, off: nat) {
    off + |bytes| <= |resource| && resource[off..off + |bytes|] == bytes
  }

  lemma {:induction false} JoinIsPrefixIff(ps: seq<seq<byte>>, resource: seq<byte>)
    ensures Join(ps) <= resource <==>
              forall i :: 0 <= i < |ps| ==> ps[i] == [] || StandsAt(ps[i], resource, |Join(ps[..i])|)
  {
    if ps != [] {
      var n := |ps| - 1;
      var init, last := ps[..n], ps[n];
      assert ps == init + [last];
      JoinSnoc(init, last);
      JoinIsPrefixIff(init, resource);
      assert forall i :: 0 <= i < n ==> ps[i] == init[i] && ps[..i] == init[..i];
      ConcatIsPrefixIff(Join(init), last, resource);
    }
  }

  lemma {:induction false} ConcatIsPrefixIff(a: seq<byte>, b: seq<byte>, r: seq<byte>)
    ensures a + b <= r <==> a <= r && (b == [] || StandsAt(b, r, |a|))
  {
    if a + b <= r {
      assert a == (a + b)[..|a|] == r[..|a|];
      assert b == (a + b)[|a|..] == r[|a|..|a| + |b|];
    }
    if b == [] {
      assert a + b == a;
    }
    if a <= r && StandsAt(b, r, |a|) {
      assert a + b == r[..|a|] + r[|a|..|a| + |b|] == r[..|a| + |b|];
    }
  }

  /** With any server at all: the file of a range download is a prefix of the resource exactly when every reply that
      brought bytes brought those that stand where its request starts. */
  lemma {:induction false} PrefixIff(serve: Server, total: int, resource: seq<byte>)
    ensures var f := FetchFrom(serve, 0, 0, total);
      && |f.pieces| == |f.requests|
      && (forall i :: 0 <= i < |f.requests| ==> f.requests[i].Range?)
      && (Join(f.pieces) <= resource <==>
            forall i :: 0 <= i < |f.pieces| ==>
              f.pieces[i] == [] || StandsAt(f.pieces[i], resource, f.requests[i].start))
  {
    hide *;
    var f := FetchFrom(serve, 0, 0, total);
    PiecePerRequest(serve, 0, 0, total);
    JoinIsPrefixIff(f.pieces, resource);
    forall i | 0 <= i < |f.requests|
      ensures f.requests[i].Range? && f.requests[i].start == |Join(f.pieces[..i])|
    {
      RangesContiguous(serve, 0, 0, total, i);
    }
  }

  /** A server that cuts its first reply short and ignores the range of the second: the file is no prefix of the
      resource, and there is no error. */
  lemma {:induction false} WholeFileMidway(a: byte, b: byte)
    requires a != b
    ensures var serve := (k: nat, q: Request) => if k == 0 then Reply(true, 206, [a], true)
                                                 else Reply(true, 200, [a, b], true);
      var f := FetchFrom(serve, 0, 0, 2);
      f.error == None && Join(f.pieces) == [a, a, b]
  {
    var serve := (k: nat, q: Request) => if k == 0 then Reply(true, 206, [a], true)
                                         else Reply(true, 200, [a, b], true);
    assert FetchFrom(serve, 2, 3, 2).pieces == [];
    assert FetchFrom(serve, 1, 1, 2).pieces == [[a, b]];
    assert FetchFrom(serve, 0, 0, 2).pieces == [[a], [a, b]];
    assert Join([[a], [a, b]]) == [a] + Join([[a, b]]) && Join([[a, b]]) == [a, b] + Join<byte>([]);
  }

  /** It happens: a server whose first reply is empty leaves an empty file and no error, whatever size was announced. */
  lemma {:induction false} EmptyReplyEnds(total: int)
    requires total > 0
    ensures var f := FetchFrom((k: nat, q: Request) => Reply(true, 206, [], true), 0, 0, total);
      f.error == None && Join(f.pieces) == []
  {
    assert FetchFrom((k: nat, q: Request) => Reply(true, 206, [], true), 0, 0, total).pieces == [[]];
    assert Join<byte>([[]]) == [] + Join([]);
  }
}
