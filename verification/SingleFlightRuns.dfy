/** Whole runs of the single-flight protocol: every interleaving of any number of threads, from any leftover files. */
module SingleFlightRuns {
  import opened Bytes
  import opened SingleFlight

  datatype Move = Move(t: Tid, ch: Choice)

  /** Nobody has started; the directory may hold files of an earlier process. */
  ghost predicate Init(cfg: Config, s: State) {
    && (forall t :: t in s.threads ==> s.threads[t].pc == Entry)
    && s.mu == None && s.inFlight == map[] && s.lastErr == map[] && s.maker == map[] && s.closed == {} && !s.panicked
    && PathInv(s)
    && (forall i :: i in s.nodes && s.nodes[i].asset in cfg.resource ==>
          s.nodes[i].bytes <= cfg.resource[s.nodes[i].asset])
  }

  ghost predicate Run(cfg: Config, ss: seq<State>, ms: seq<Move>) {
    && |ss| == |ms| + 1
    && Init(cfg, ss[0])
    && forall i :: 0 <= i < |ms| ==> Follows(cfg, ss[i], ms[i], ss[i + 1])
  }

  ghost predicate Follows(cfg: Config, s: State, m: Move, r: State) {
    Enabled(cfg, s, m.t, m.ch) && r == Step(cfg, s, m.t, m.ch)
  }

  lemma {:induction false} InvParts(cfg: Config, s: State)
    requires Inv(cfg, s)
    ensures ProtocolInv(s) && OwnerInv(s) && PathInv(s)
  {
    hide LockInv, OwnerInv, FlightInv, WaitInv, ClosingInv, PathInv, WriterInv, PrefixInv, PromiseInv;
  }

  lemma {:induction false} RunInv(cfg: Config, ss: seq<State>, ms: seq<Move>, i: nat)
    requires Run(cfg, ss, ms) && i < |ss|
    ensures Inv(cfg, ss[i])
  {
    hide Enabled, Step;
    if i > 0 {
      hide Inv;
      RunInv(cfg, ss, ms, i - 1);
      assert Follows(cfg, ss[i - 1], ms[i - 1], ss[i]);
      InvStep(cfg, ss[i - 1], ms[i - 1].t, ms[i - 1].ch);
    }
  }

  // ---- safety ------------------------------------------------------------

  /** At every moment of every run: no channel is closed twice; an asset is in inFlight exactly while a thread is
      registered for it; two threads never work on one asset; whoever waits on an open channel has a live owner. */
  lemma {:induction false} SafetyOverRuns(cfg: Config, ss: seq<State>, ms: seq<Move>, i: nat)
    requires Run(cfg, ss, ms) && i < |ss|
    ensures var s := ss[i];
            && !s.panicked
            && (forall a :: a in s.inFlight <==>
                  exists t :: t in s.threads && s.threads[t].asset == a && Registered(s.threads[t].pc))
            && (forall t, u ::
                  t in s.threads && u in s.threads && Owns(s.threads[t].pc) && Owns(s.threads[u].pc)
                  && s.threads[t].asset == s.threads[u].asset
                  ==> t == u)
            && (forall t ::
                  t in s.threads && Waits(s.threads[t].pc) && s.threads[t].pc.c !in s.closed
                  ==> exists o :: o in s.threads && s.threads[o].asset == s.threads[t].asset
                        && Owns(s.threads[o].pc) && ChanOf(s.threads[o].pc) == s.threads[t].pc.c)
  {
    RunInv(cfg, ss, ms, i);
    var s := ss[i];
    hide Run, Inv, FileInv, Registered, LockInv, Owns;
    InvParts(cfg, s);
    forall a ensures a in s.inFlight <==>
        exists t :: t in s.threads && s.threads[t].asset == a && Registered(s.threads[t].pc) {
      if a in s.inFlight {
        var t := s.maker[s.inFlight[a]];
        assert t in s.threads && s.threads[t].asset == a && Registered(s.threads[t].pc);
      }
    }
    forall t, u | t in s.threads && u in s.threads && Owns(s.threads[t].pc) && Owns(s.threads[u].pc)
        && s.threads[t].asset == s.threads[u].asset
      ensures t == u {
      OneOwner(s, t, u);
    }
    forall t | t in s.threads && Waits(s.threads[t].pc) && s.threads[t].pc.c !in s.closed
      ensures exists o :: o in s.threads && s.threads[o].asset == s.threads[t].asset
                && Owns(s.threads[o].pc) && ChanOf(s.threads[o].pc) == s.threads[t].pc.c {
      PcKinds(s.threads[t].pc);
      assert LiveChan(s, ChanOf(s.threads[t].pc), s.threads[t].asset);
      var o := s.maker[s.threads[t].pc.c];
      assert o in s.threads && Owns(s.threads[o].pc);
    }
  }

  lemma {:induction false} ClosedGrows(cfg: Config, ss: seq<State>, ms: seq<Move>, i: nat, j: nat)
    requires Run(cfg, ss, ms) && i <= j < |ss|
    ensures ss[i].closed <= ss[j].closed
  {
    hide Next, NextPartial, NextNodes, Enabled, Init;
    if i < j {
      ClosedGrows(cfg, ss, ms, i, j - 1);
      assert Follows(cfg, ss[j - 1], ms[j - 1], ss[j]);
    }
  }

  ghost predicate Closes(ss: seq<State>, ms: seq<Move>, i: nat, c: Chan)
    requires i < |ms| < |ss|
  {
    ms[i].t in ss[i].threads && ss[i].threads[ms[i].t].pc.Closing? && ss[i].threads[ms[i].t].pc.c == c
  }

  /** Over a whole run each done channel is closed at most once. */
  lemma {:induction false} ClosedOnce(cfg: Config, ss: seq<State>, ms: seq<Move>, i: nat, j: nat, c: Chan)
    requires Run(cfg, ss, ms) && i < |ms| && j < |ms| && Closes(ss, ms, i, c) && Closes(ss, ms, j, c)
    ensures i == j
  {
    hide Next, NextPartial, NextNodes, Enabled, Init, Inv;
    var lo, hi := Min(i, j), Max(i, j);
    if lo < hi {
      assert Follows(cfg, ss[lo], ms[lo], ss[lo + 1]);
      assert c in ss[lo + 1].closed;
      ClosedGrows(cfg, ss, ms, lo + 1, hi);
      RunInv(cfg, ss, ms, hi);
      InvParts(cfg, ss[hi]);
      PcKinds(ss[hi].threads[ms[hi].t].pc);
    }
  }

  // ---- the files ---------------------------------------------------------

  /** A step that changes a final path is the rename, by the owner, of the partial it has finished; the file
      renamed was not at any final path before. */
  lemma {:induction false} FinalChanges(cfg: Config, s: State, m: Move, r: State, a: Asset)
    requires Inv(cfg, s) && Follows(cfg, s, m, r) && Get(s.final, a) != Get(r.final, a)
    ensures var th := s.threads[m.t];
            && th.asset == a && th.pc.Renaming? && Registered(th.pc)
            && a in s.partial && s.partial[a] == th.pc.ino
            && s.nodes[th.pc.ino].finished && !s.nodes[th.pc.ino].published
            && a !in r.partial && a in r.final && r.final[a] == th.pc.ino && r.nodes[th.pc.ino].published
  {
    hide Next, Locks, Unlocks, LockInv, OwnerInv, FlightInv, WaitInv, ClosingInv, PrefixInv, PromiseInv;
  }

  /** Nothing is ever written to a file that has been renamed to its final path. */
  lemma {:induction false} PublishedStays(cfg: Config, s: State, m: Move, r: State, i: Ino)
    requires Inv(cfg, s) && Follows(cfg, s, m, r) && i in s.nodes && s.nodes[i].published && s.nodes[i].finished
    ensures i in r.nodes && r.nodes[i].bytes == s.nodes[i].bytes && r.nodes[i].published && r.nodes[i].finished
  {
    hide Next, Locks, Unlocks, LockInv, OwnerInv, FlightInv, WaitInv, ClosingInv, PrefixInv, PromiseInv;
  }

  lemma {:induction false} PublishedForever(cfg: Config, ss: seq<State>, ms: seq<Move>, i: nat, j: nat, a: Asset)
    requires Run(cfg, ss, ms) && i <= j < |ss| && a in ss[i].final
    ensures a in ss[j].final
    ensures var n := ss[i].final[a];
            n in ss[i].nodes && n in ss[j].nodes && ss[j].nodes[n].bytes == ss[i].nodes[n].bytes
            && ss[j].nodes[n].published && ss[j].nodes[n].finished
  {
    hide Inv, FileInv, Next, NextPartial, NextNodes, Enabled, Init;
    RunInv(cfg, ss, ms, i);
    InvParts(cfg, ss[i]);
    if i < j {
      PublishedForever(cfg, ss, ms, i, j - 1, a);
      RunInv(cfg, ss, ms, j - 1);
      assert Follows(cfg, ss[j - 1], ms[j - 1], ss[j]);
      PublishedStays(cfg, ss[j - 1], ms[j - 1], ss[j], ss[i].final[a]);
    }
  }

  /** Whoever is given the path finds there, now and ever after, a finished download of its own asset; if the asset
      is a plain upstream file, the bytes are a prefix of it. */
  lemma {:induction false} PathIsGood(cfg: Config, ss: seq<State>, ms: seq<Move>, i: nat, j: nat, t: Tid)
    requires Run(cfg, ss, ms) && i <= j < |ss|
    requires t in ss[i].threads && ss[i].threads[t].pc == Returned(Path)
    ensures var a, s := ss[i].threads[t].asset, ss[j];
            && a in s.final && s.final[a] in s.nodes && s.nodes[s.final[a]].finished && s.nodes[s.final[a]].asset == a
            && (a in cfg.resource ==> s.nodes[s.final[a]].bytes <= cfg.resource[a])
  {
    hide Run, ProtocolInv, Init;
    RunInv(cfg, ss, ms, i);
    RunInv(cfg, ss, ms, j);
    PublishedForever(cfg, ss, ms, i, j, ss[i].threads[t].asset);
  }

  // ---- progress ----------------------------------------------------------

  lemma {:induction false} FreshKey<T>(m: map<nat, T>) returns (k: nat)
    ensures k !in m
  {
    k := Above(m.Keys);
  }

  lemma {:induction false} Above(s: set<nat>) returns (k: nat)
    ensures forall n :: n in s ==> n < k
  {
    if s == {} {
      k := 0;
    } else {
      var x :| x in s;
      var rest := Above(s - {x});
      k := Max(rest, x + 1);
      forall n | n in s ensures n < k {
        assert n == x || n in s - {x};
      }
    }
  }

  lemma BusyKinds(pc: Pc)
    ensures Holds(pc) ==> !Locks(pc) && !pc.Waiting? && !pc.Returned?
    ensures Owns(pc) ==> !pc.Waiting? && !pc.Returned?
  {
  }

  /** Can t move with no help from its context: not by a cancelled wait? */
  predicate Ready(s: State, t: Tid) {
    && t in s.threads && !s.threads[t].pc.Returned?
    && (Locks(s.threads[t].pc) ==> s.mu == None)
    && (s.threads[t].pc.Waiting? ==> s.threads[t].pc.c in s.closed)
  }

  lemma {:induction false} ReadyMoves(cfg: Config, s: State, t: Tid) returns (ch: Choice)
    requires Inv(cfg, s) && Ready(s, t)
    ensures ch.ok && Enabled(cfg, s, t, ch)
  {
    hide Locks, ProtocolInv, PathInv, PrefixInv, PromiseInv;
    var c := FreshKey(s.maker);
    var i := FreshKey(s.nodes);
    ch := Choice(true, Direct, "", [], false, i, c);
  }

  /** No deadlock: while a thread has not returned, some thread can move without anybody cancelling a wait. */
  lemma {:induction false} NoDeadlock(cfg: Config, ss: seq<State>, ms: seq<Move>, i: nat, t: Tid)
      returns (u: Tid, ch: Choice)
    requires Run(cfg, ss, ms) && i < |ss| && t in ss[i].threads && !ss[i].threads[t].pc.Returned?
    ensures ch.ok && Enabled(cfg, ss[i], u, ch)
  {
    var s := ss[i];
    RunInv(cfg, ss, ms, i);
    hide Run, Inv, FileInv, Enabled, Holds, Locks, Owns, ChanOf, OwnerInv, FlightInv, ClosingInv;
    InvParts(cfg, s);
    var pc := s.threads[t].pc;
    if s.mu.Some? {
      u := s.mu.value;
    } else if pc.Waiting? && pc.c !in s.closed {
      PcKinds(pc);
      assert LiveChan(s, ChanOf(pc), s.threads[t].asset);
      u := s.maker[pc.c];
    } else {
      u := t;
    }
    BusyKinds(s.threads[u].pc);
    ch := ReadyMoves(cfg, s, u);
  }

  /** How many steps lie ahead of a thread at most, apart from the pieces of its download. */
  function Rank(pc: Pc): nat {
    match pc
    case Entry => 19
    case Probing => 18
    case Locking(_) => 17
    case Deciding(_) => 16
    case UnlockingToOwn(_, _) => 15
    case MakingDir(_, _) => 14
    case Creating(_, _) => 13
    case Writing(_, _, _, _) => 12
    case Renaming(_, _) => 11
    case Removing(_, _, _) => 10
    case LockingToNote(_, _) => 9
    case Noting(_, _) => 8
    case UnlockingNoted(_, _) => 7
    case LockingToClean(_, _) => 6
    case Deleting(_, _) => 5
    case Closing(_, _) => 4
    case UnlockingClean(_) => 3
    case UnlockingToWait(_) => 6
    case Waiting(_) => 5
    case LockingForError => 4
    case ReadingError => 3
    case UnlockingError(_) => 2
    case StatAgain(_) => 1
    case Returned(_) => 0
  }

  /** A step that stores one more piece of a download. */
  predicate Piece(pc: Pc, ch: Choice) {
    pc.Writing? && ch.ok && ch.more
  }

  lemma RankOfEntry()
    ensures Rank(Entry) == 19
  {
  }

  lemma NextRank(variant: Variant, v: View, pc: Pc, ch: Choice)
    requires !pc.Returned? && !Piece(pc, ch)
    ensures Rank(Next(variant, v, pc, ch)) < Rank(pc)
  {
  }

  lemma PieceStays(variant: Variant, v: View, pc: Pc, ch: Choice)
    requires Piece(pc, ch)
    ensures Rank(Next(variant, v, pc, ch)) == Rank(pc)
  {
  }

  /** The steps of t among the first n moves, pieces left out. */
  ghost function StepsOf(ss: seq<State>, ms: seq<Move>, t: Tid, n: nat): nat
    requires n <= |ms| < |ss|
  {
    if n == 0 then 0
    else
      StepsOf(ss, ms, t, n - 1)
      + if ms[n - 1].t == t && t in ss[n - 1].threads && !Piece(ss[n - 1].threads[t].pc, ms[n - 1].ch) then 1 else 0
  }

  /** In every run every thread takes at most 19 steps besides the pieces of its download. With NoDeadlock: when
      no more pieces come, all threads return, in whatever order they are scheduled. */
  lemma {:induction false} EveryThreadReturns(cfg: Config, ss: seq<State>, ms: seq<Move>, t: Tid, n: nat)
    requires Run(cfg, ss, ms) && n <= |ms| && t in ss[0].threads
    ensures t in ss[n].threads && StepsOf(ss, ms, t, n) + Rank(ss[n].threads[t].pc) <= 19
  {
    hide Next, Rank, Piece, NextPartial, NextNodes;
    if n == 0 {
      RankOfEntry();
    } else {
      hide Init;
      EveryThreadReturns(cfg, ss, ms, t, n - 1);
      var s, m := ss[n - 1], ms[n - 1];
      assert Follows(cfg, s, m, ss[n]);
      if m.t == t {
        var pc, v := s.threads[t].pc, ViewOf(s, s.threads[t].asset);
        if Piece(pc, m.ch) {
          PieceStays(cfg.variant, v, pc, m.ch);
        } else {
          NextRank(cfg.variant, v, pc, m.ch);
        }
      }
    }
  }
}
