/** The range loop inside the single-flight protocol: what a thread writes between os.Create and the end of its download
    is what internal/materializer/download.go fetches. */
module DownloadRun {
  import opened Bytes
  import opened SingleFlight
  import opened SingleFlightRuns
  import Download

  /** Thread t writes the file ino from moment i to moment j, having stored nothing at i. */
  ghost predicate Writes(ss: seq<State>, t: Tid, i: nat, j: nat, ino: Ino) {
    && i <= j < |ss|
    && (forall k :: i <= k <= j ==> WritesAt(ss[k], t, ino))
    && ss[i].threads[t].pc.off == 0
  }

  ghost predicate WritesAt(s: State, t: Tid, ino: Ino) {
    t in s.threads && s.threads[t].pc.Writing? && s.threads[t].pc.typ != Hls && s.threads[t].pc.ino == ino
  }

  /** The pieces t stores in the moves from i to j. */
  function PiecesOf(ms: seq<Move>, t: Tid, i: nat, j: nat): seq<seq<byte>>
    requires i <= j <= |ms|
    decreases j
  {
    if i == j then [] else PiecesOf(ms, t, i, j - 1) + if ms[j - 1].t == t then [ms[j - 1].ch.data] else []
  }

  /** Nobody but its writer changes a file that is being written. */
  lemma {:induction false} OthersKeepFile(cfg: Config, s: State, m: Move, r: State, t: Tid, ino: Ino)
    requires Inv(cfg, s) && Follows(cfg, s, m, r) && WritesAt(s, t, ino) && m.t != t
    ensures ino in s.nodes && ino in r.nodes && r.nodes[ino].bytes == s.nodes[ino].bytes
    ensures t in r.threads && r.threads[t] == s.threads[t]
  {
    hide Next, Locks, Unlocks, Holds, Registered, Owns, Waits, ChanOf, LockInv, OwnerInv, FlightInv, WaitInv,
      ClosingInv, PrefixInv, PromiseInv, WriteAt, Answers, NextPartial;
    var pc := s.threads[m.t].pc;
    PcKinds(pc);
    assert WriterOk(s, s.threads[t].asset, s.threads[t].pc);
    if pc.Creating? || HasFile(pc) {
      OneWriter(s, m.t, t);
      assert HasFile(pc) ==> WriterOk(s, s.threads[m.t].asset, pc);
    }
  }

  lemma {:induction false} OwnPiece(cfg: Config, s: State, m: Move, r: State, ino: Ino)
    requires Inv(cfg, s) && Follows(cfg, s, m, r) && WritesAt(s, m.t, ino) && WritesAt(r, m.t, ino)
    ensures r.threads[m.t].pc.off == s.threads[m.t].pc.off + |m.ch.data|
    ensures ino in s.nodes && ino in r.nodes && r.nodes[ino].bytes == s.nodes[ino].bytes + m.ch.data
  {
    hide Next, Locks, Unlocks, ProtocolInv, PrefixInv, PromiseInv, Answers, NextPartial;
    assert WriterOk(s, s.threads[m.t].asset, s.threads[m.t].pc);
    NextFiles(cfg.variant, ViewOf(s, s.threads[m.t].asset), s.threads[m.t].pc, m.ch);
  }

  /** At every moment of a download, whatever the other threads do, the offset its thread asks from is what it has
      stored, and the file holds exactly that. */
  lemma {:induction false} FileHoldsPieces(cfg: Config, ss: seq<State>, ms: seq<Move>, t: Tid, i: nat, j: nat, ino: Ino)
    requires Run(cfg, ss, ms) && Writes(ss, t, i, j, ino)
    ensures ino in ss[j].nodes && ss[j].nodes[ino].bytes == Join(PiecesOf(ms, t, i, j))
    ensures ss[j].threads[t].pc.off == |Join(PiecesOf(ms, t, i, j))|
    decreases j
  {
    hide Inv, Step, Enabled, Init;
    RunInv(cfg, ss, ms, j);
    assert WritesAt(ss[j], t, ino);
    if i == j {
      StartsEmpty(cfg, ss[i], t, ino);
    } else {
      FileHoldsPieces(cfg, ss, ms, t, i, j - 1, ino);
      RunInv(cfg, ss, ms, j - 1);
      var m := ms[j - 1];
      assert Follows(cfg, ss[j - 1], m, ss[j]) && WritesAt(ss[j - 1], t, ino);
      if m.t == t {
        OwnPiece(cfg, ss[j - 1], m, ss[j], ino);
        JoinSnoc(PiecesOf(ms, t, i, j - 1), m.ch.data);
      } else {
        OthersKeepFile(cfg, ss[j - 1], m, ss[j], t, ino);
        assert PiecesOf(ms, t, i, j - 1) + [] == PiecesOf(ms, t, i, j - 1);
      }
    }
  }

  lemma {:induction false} StartsEmpty(cfg: Config, s: State, t: Tid, ino: Ino)
    requires Inv(cfg, s) && WritesAt(s, t, ino) && s.threads[t].pc.off == 0
    ensures ino in s.nodes && s.nodes[ino].bytes == []
  {
    hide ProtocolInv, PathInv, PrefixInv, PromiseInv;
    assert WriterOk(s, s.threads[t].asset, s.threads[t].pc);
  }

  /** The range loop of an honest server can always go on in the protocol: when a thread has stored its first n pieces,
      it asks from where they end, and the step that stores the next piece is enabled. */
  lemma {:induction false} NextPieceEnabled(cfg: Config, ss: seq<State>, ms: seq<Move>, t: Tid, i: nat, j: nat,
                                            ino: Ino, serve: Download.Server, total: int, ch: Choice)
    requires Run(cfg, ss, ms) && Writes(ss, t, i, j, ino)
    requires ss[j].threads[t].asset in cfg.resource
    requires Download.Honest(serve, cfg.resource[ss[j].threads[t].asset])
    requires var f, n := Download.FetchFrom(serve, 0, 0, total), |PiecesOf(ms, t, i, j)|;
      n < |f.pieces| && PiecesOf(ms, t, i, j) == f.pieces[..n] && ch.ok && ch.more && ch.data == f.pieces[n]
    ensures Enabled(cfg, ss[j], t, ch)
    ensures var f, n := Download.FetchFrom(serve, 0, 0, total), |PiecesOf(ms, t, i, j)|;
      n < |f.requests| && f.requests[n].Range? && f.requests[n].start == ss[j].threads[t].pc.off
  {
    assert |ss| == |ms| + 1;
    hide Run, Download.FetchFrom, Download.Honest, Download.Stored;
    FileHoldsPieces(cfg, ss, ms, t, i, j, ino);
    var resource := cfg.resource[ss[j].threads[t].asset];
    var f, n := Download.FetchFrom(serve, 0, 0, total), |PiecesOf(ms, t, i, j)|;
    Download.PieceKeepsPrefix(serve, total, resource, n);
    Download.PiecePerRequest(serve, 0, 0, total);
    Download.RangesContiguous(serve, 0, 0, total, n);
    PrefixRest(Join(f.pieces[..n]), f.pieces[n], resource);
    assert WritesAt(ss[j], t, ino);
  }

  lemma {:induction false} PrefixRest(a: seq<byte>, b: seq<byte>, r: seq<byte>)
    requires a + b <= r
    ensures Answers(b, r, |a|)
  {
    assert r[|a|..][..|b|] == (a + b)[|a|..];
  }
}
