/** What a call of Materialize returns (internal/materializer/cache.go:26-115, directfile.go:21-80): the owner, whoever
    waited for it, and everybody else. */
module Outcomes {
  import opened Bytes
  import opened SingleFlight
  import opened SingleFlightRuns
  import opened SecondDownload

  // ---- every thread ------------------------------------------------------

  /** What an answer from outside decides for good, if anything. */
  function Verdict(variant: Variant, v: View, pc: Pc, ch: Choice): Option<Outcome> {
    // no URL; the file is there
    if pc.Entry? && !ch.ok then Some(NotReady)
    else if pc.Entry? && v.hasFinal then Some(Path)
    // no answer to the probe; not a plain file
    else if pc.Probing? && !ch.ok then Some(Failed(ch.error))
    else if pc.Probing? && variant == DirectVariant && ch.typ != Direct then Some(NotReady)
    // the context ends before the channel is closed
    else if pc.Waiting? && !ch.ok then Some(Cancelled)
    // the second look: the file is there; if not, the error noted; if none, not ready
    else if pc.StatAgain? && v.hasFinal then Some(Path)
    else if pc.StatAgain? && pc.last.Some? then Some(Failed(pc.last.value))
    else if pc.StatAgain? then Some(NotReady)
    // the download
    else if (pc.MakingDir? || pc.Creating? || pc.Writing? || pc.Renaming?) && !ch.ok then Some(Failed(ch.error))
    else if pc.MakingDir? && pc.typ == Unsupported then Some(NotReady)
    else if pc.Renaming? then Some(Path)
    else None
  }

  /** The outcome a thread is bound for: all that is left is to remove the partial, note the error and clean up. */
  function Bound(pc: Pc): Option<Outcome> {
    match pc
    case Removing(_, e, _) => Some(Failed(e))
    case LockingToNote(_, e) => Some(Failed(e))
    case Noting(_, e) => Some(Failed(e))
    case UnlockingNoted(_, e) => Some(Failed(e))
    case _ => Settled(pc)
  }

  lemma NextBound(variant: Variant, v: View, pc: Pc, ch: Choice)
    ensures Bound(Next(variant, v, pc, ch)) == if Bound(pc).Some? then Bound(pc) else Verdict(variant, v, pc, ch)
  {
  }

  /** Move k decides for thread t that it returns r. */
  ghost predicate Decides(cfg: Config, ss: seq<State>, ms: seq<Move>, t: Tid, k: nat, r: Outcome)
    requires k < |ms| < |ss|
  {
    && ms[k].t == t && t in ss[k].threads
    && Bound(ss[k].threads[t].pc) == None
    && Verdict(cfg.variant, ViewOf(ss[k], ss[k].threads[t].asset), ss[k].threads[t].pc, ms[k].ch) == Some(r)
  }

  /** Whatever a thread returns in a run, one of its own moves has decided it. */
  lemma {:induction false} ReturnIsDecided(cfg: Config, ss: seq<State>, ms: seq<Move>, t: Tid, j: nat, r: Outcome)
      returns (k: nat)
    requires Run(cfg, ss, ms) && j <= |ms| && t in ss[j].threads && Bound(ss[j].threads[t].pc) == Some(r)
    ensures k < j && Decides(cfg, ss, ms, t, k, r)
    decreases j
  {
    hide Next, NextPartial, NextNodes, Verdict, ViewOf;
    if j == 0 {
      StartsAtEntry(cfg, ss[0], t);
      assert false;
    } else {
      hide Init;
      var s, m := ss[j - 1], ms[j - 1];
      assert Follows(cfg, s, m, ss[j]);
      if m.t == t && Bound(s.threads[t].pc) == None {
        NextBound(cfg.variant, ViewOf(s, s.threads[t].asset), s.threads[t].pc, m.ch);
        k := j - 1;
      } else {
        if m.t == t {
          NextBound(cfg.variant, ViewOf(s, s.threads[t].asset), s.threads[t].pc, m.ch);
        }
        k := ReturnIsDecided(cfg, ss, ms, t, j - 1, r);
      }
    }
  }

  /** ... and what is decided is what the thread returns, whatever happens between. */
  lemma {:induction false} DecidedIsReturned(cfg: Config, ss: seq<State>, ms: seq<Move>, t: Tid, k: nat, j: nat,
                                             r: Outcome)
    requires Run(cfg, ss, ms) && k < j <= |ms| && Decides(cfg, ss, ms, t, k, r)
    ensures t in ss[j].threads && Bound(ss[j].threads[t].pc) == Some(r)
    ensures ss[j].threads[t].pc.Returned? ==> ss[j].threads[t].pc == Returned(r)
    decreases j
  {
    hide Next, NextPartial, NextNodes, Verdict, ViewOf, Init;
    var s, m := ss[j - 1], ms[j - 1];
    assert Follows(cfg, s, m, ss[j]);
    if j - 1 > k {
      DecidedIsReturned(cfg, ss, ms, t, k, j - 1, r);
    }
    if m.t == t {
      NextBound(cfg.variant, ViewOf(s, s.threads[t].asset), s.threads[t].pc, m.ch);
    }
  }

  // ---- the errors noted --------------------------------------------------

  /** Move p notes error e for asset a. */
  ghost predicate Notes(ss: seq<State>, ms: seq<Move>, a: Asset, p: nat, e: Error)
    requires p < |ms| < |ss|
  {
    var t := ms[p].t;
    t in ss[p].threads && ss[p].threads[t].asset == a && ss[p].threads[t].pc.Noting? && ss[p].threads[t].pc.error == e
  }

  /** The noted error of an asset is the one noted last; nothing else touches it. */
  lemma {:induction false} ErrorIsLastNoted(cfg: Config, ss: seq<State>, ms: seq<Move>, a: Asset, i: nat)
    requires Run(cfg, ss, ms) && i <= |ms|
    ensures match Get(ss[i].lastErr, a)
            case None => forall p, e :: 0 <= p < i ==> !Notes(ss, ms, a, p, e)
            case Some(e) => exists p :: 0 <= p < i && Notes(ss, ms, a, p, e)
                              && forall q, f :: p < q < i ==> !Notes(ss, ms, a, q, f)
    decreases i
  {
    hide Next, NextPartial, NextNodes;
    if i > 0 {
      hide Init;
      ErrorIsLastNoted(cfg, ss, ms, a, i - 1);
      var s, m := ss[i - 1], ms[i - 1];
      assert Follows(cfg, s, m, ss[i]);
      if s.threads[m.t].asset == a && s.threads[m.t].pc.Noting? {
        assert Notes(ss, ms, a, i - 1, s.threads[m.t].pc.error);
      }
    }
  }

  /** Notes a thread on its way to noting e: for the cache, after its download failed. */
  predicate WillNote(pc: Pc, e: Error) {
    || (pc.Removing? && pc.noted && pc.error == e) || (pc.LockingToNote? && pc.error == e)
    || (pc.Noting? && pc.error == e)
  }

  lemma NextNotes(variant: Variant, v: View, pc: Pc, ch: Choice, e: Error)
    ensures WillNote(Next(variant, v, pc, ch), e) <==>
              || (variant == CacheVariant && (pc.Creating? || pc.Writing?) && !ch.ok && ch.error == e)
              || (WillNote(pc, e) && !pc.Noting?)
  {
  }

  /** An error is noted only by the cache, and only one that a download of the thread's own failed with. */
  lemma {:induction false} NotedFailed(cfg: Config, ss: seq<State>, ms: seq<Move>, t: Tid, j: nat, e: Error)
      returns (k: nat)
    requires Run(cfg, ss, ms) && j <= |ms| && t in ss[j].threads && WillNote(ss[j].threads[t].pc, e)
    ensures cfg.variant == CacheVariant && k < j && ms[k].t == t && t in ss[k].threads
    ensures (ss[k].threads[t].pc.Creating? || ss[k].threads[t].pc.Writing?) && !ms[k].ch.ok && ms[k].ch.error == e
    decreases j
  {
    hide Next, NextPartial, NextNodes;
    if j == 0 {
      StartsAtEntry(cfg, ss[0], t);
      assert false;
    } else {
      hide Init;
      var s, m := ss[j - 1], ms[j - 1];
      assert Follows(cfg, s, m, ss[j]);
      if m.t == t {
        NextNotes(cfg.variant, ViewOf(s, s.threads[t].asset), s.threads[t].pc, m.ch, e);
      }
      if m.t == t && !WillNote(s.threads[t].pc, e) {
        k := j - 1;
      } else {
        k := NotedFailed(cfg, ss, ms, t, j - 1, e);
      }
    }
  }

  // ---- who waited --------------------------------------------------------

  /** Move k wakes t: its channel is closed, and its context has not ended. */
  ghost predicate Wakes(ss: seq<State>, ms: seq<Move>, t: Tid, k: nat)
    requires k < |ms| < |ss|
  {
    ms[k].t == t && t in ss[k].threads && ss[k].threads[t].pc.Waiting? && ms[k].ch.ok
  }

  /** Move i reads the noted error for t. */
  ghost predicate ReadsError(ss: seq<State>, ms: seq<Move>, t: Tid, i: nat)
    requires i < |ms| < |ss|
  {
    ms[i].t == t && t in ss[i].threads && ss[i].threads[t].pc.ReadingError?
  }

  /** Between waking and returning; `last` is what has been read of the noted error. */
  predicate Awake(pc: Pc) {
    pc.LockingForError? || pc.ReadingError? || pc.UnlockingError? || pc.StatAgain?
  }

  predicate HasRead(pc: Pc) {
    pc.UnlockingError? || pc.StatAgain?
  }

  lemma NextAwake(variant: Variant, v: View, pc: Pc, ch: Choice)
    ensures var q := Next(variant, v, pc, ch);
      && (pc.Waiting? && ch.ok ==> Awake(q) && (HasRead(q) ==> variant == DirectVariant && q.last == None)
                                   && (variant == DirectVariant ==> HasRead(q)))
      && (Awake(pc) ==> if pc.StatAgain? then q.Returned? else Awake(q))
      && (HasRead(pc) && !pc.StatAgain? ==> HasRead(q) && q.last == pc.last)
      && (Awake(pc) && !HasRead(pc) && HasRead(q) ==> pc.ReadingError? && q.last == v.lastErr)
  {
  }

  lemma {:induction false} Woken(cfg: Config, ss: seq<State>, ms: seq<Move>, t: Tid, k: nat, j: nat) returns (i: nat)
    requires Run(cfg, ss, ms) && k < j <= |ms| && Wakes(ss, ms, t, k)
    requires t in ss[j].threads && !ss[j].threads[t].pc.Returned?
    ensures Awake(ss[j].threads[t].pc) && ss[j].threads[t].asset == ss[k].threads[t].asset
    ensures HasRead(ss[j].threads[t].pc) ==>
      if cfg.variant == DirectVariant then
        ss[j].threads[t].pc.last == None
      else
        && k < i < j && ReadsError(ss, ms, t, i)
        && ss[j].threads[t].pc.last == Get(ss[i].lastErr, ss[k].threads[t].asset)
    ensures cfg.variant == DirectVariant ==> HasRead(ss[j].threads[t].pc)
    decreases j
  {
    hide Next, NextPartial, NextNodes, Init, Awake, HasRead;
    var s, m := ss[j - 1], ms[j - 1];
    assert Follows(cfg, s, m, ss[j]);
    i := k;
    if j - 1 > k {
      i := Woken(cfg, ss, ms, t, k, j - 1);
    }
    if m.t == t {
      NextAwake(cfg.variant, ViewOf(s, s.threads[t].asset), s.threads[t].pc, m.ch);
      if j - 1 > k && !HasRead(s.threads[t].pc) {
        i := j - 1;
      }
    }
  }

  /** A thread that waited, uncancelled, and returns at move j returns the path exactly when there is a non-empty final
      file at that moment; otherwise the error noted for its asset, as the cache reads it under the lock after waking;
      otherwise, and always for the direct variant, that the asset is not ready. */
  lemma {:induction false} WaiterIsGiven(cfg: Config, ss: seq<State>, ms: seq<Move>, t: Tid, k: nat, j: nat)
      returns (i: nat)
    requires Run(cfg, ss, ms) && k < j < |ms| && Wakes(ss, ms, t, k) && ms[j].t == t
    requires t in ss[j].threads && !ss[j].threads[t].pc.Returned?
    requires t in ss[j + 1].threads && ss[j + 1].threads[t].pc.Returned?
    ensures ss[k].threads[t].pc.c in ss[k].closed
    ensures cfg.variant == CacheVariant ==> k < i < j && ReadsError(ss, ms, t, i)
    ensures var a := ss[k].threads[t].asset;
      var noted := if cfg.variant == CacheVariant then Get(ss[i].lastErr, a) else None;
      ss[j + 1].threads[t].pc == Returned(if HasFinal(ss[j], a) then Path
                                          else if noted.Some? then Failed(noted.value) else NotReady)
  {
    i := Woken(cfg, ss, ms, t, k, j);
    hide NextPartial, NextNodes, Init, HasFinal;
    assert Follows(cfg, ss[k], ms[k], ss[k + 1]);
    assert Follows(cfg, ss[j], ms[j], ss[j + 1]);
  }

  // ---- ... for a download that went well ----------------------------------

  /** Move q puts an empty file at the final path of a. */
  ghost predicate Empties(ss: seq<State>, ms: seq<Move>, a: Asset, q: nat)
    requires q < |ms| < |ss|
  {
    var t := ms[q].t;
    t in ss[q].threads && ss[q].threads[t].pc.Renaming? && Renames(ss, ms, a, ss[q].threads[t].pc.c, [], q)
  }

  lemma {:induction false} FinalAfter(cfg: Config, s: State, m: Move, r: State, a: Asset)
    requires Inv(cfg, s) && Follows(cfg, s, m, r) && HasFinal(s, a)
    ensures var t := m.t;
      HasFinal(r, a)
      || (t in s.threads && s.threads[t].asset == a && s.threads[t].pc.Renaming? && m.ch.ok
      && s.threads[t].pc.ino in s.nodes && s.nodes[s.threads[t].pc.ino].bytes == [])
  {
    hide Next, ProtocolInv, PrefixInv, PromiseInv, WriteAt, Answers;
    assert FinalOk(s, a);
  }

  /** A non-empty final file is there for good, unless an empty one is put in its place. */
  lemma {:induction false} FinalStays(cfg: Config, ss: seq<State>, ms: seq<Move>, a: Asset, i: nat, j: nat)
    requires Run(cfg, ss, ms) && i <= j <= |ms| && HasFinal(ss[i], a)
    requires forall q :: i <= q < j ==> !Empties(ss, ms, a, q)
    ensures HasFinal(ss[j], a)
    decreases j
  {
    hide Inv, Step, Enabled, Init, HasFinal;
    if i < j {
      FinalStays(cfg, ss, ms, a, i, j - 1);
      RunInv(cfg, ss, ms, j - 1);
      assert Follows(cfg, ss[j - 1], ms[j - 1], ss[j]);
      assert !Empties(ss, ms, a, j - 1);
      FinalAfter(cfg, ss[j - 1], ms[j - 1], ss[j], a);
    }
  }

  lemma {:induction false} PublishedIsFinal(cfg: Config, ss: seq<State>, ms: seq<Move>, a: Asset, c: Chan,
                                            data: seq<byte>, p: nat)
    requires Run(cfg, ss, ms) && p < |ms| && Renames(ss, ms, a, c, data, p) && data != []
    ensures HasFinal(ss[p + 1], a) && c !in ss[p].closed
  {
    RunInv(cfg, ss, ms, p);
    InvParts(cfg, ss[p]);
    hide Inv, Next, Init, ProtocolInv, PathInv;
    assert Follows(cfg, ss[p], ms[p], ss[p + 1]);
  }

  /** If the owner of the channel a thread waited on has published a non-empty file, the thread is given the path, unless
      an empty file has been put in its place before the thread looks. */
  lemma {:induction false} WaiterIsServed(cfg: Config, ss: seq<State>, ms: seq<Move>, t: Tid, k: nat, j: nat, p: nat,
                                           data: seq<byte>)
    requires Run(cfg, ss, ms) && k < j < |ms| && Wakes(ss, ms, t, k) && ms[j].t == t
    requires t in ss[j].threads && !ss[j].threads[t].pc.Returned?
    requires t in ss[j + 1].threads && ss[j + 1].threads[t].pc.Returned?
    requires p < |ms| && data != []
    requires Renames(ss, ms, ss[k].threads[t].asset, ss[k].threads[t].pc.c, data, p)
    ensures p < k
    ensures (forall q :: p < q < j ==> !Empties(ss, ms, ss[k].threads[t].asset, q)) ==>
              ss[j + 1].threads[t].pc == Returned(Path)
  {
    assert |ss| == |ms| + 1;
    hide Run, HasFinal, Renames;
    var a, c := ss[k].threads[t].asset, ss[k].threads[t].pc.c;
    var i := WaiterIsGiven(cfg, ss, ms, t, k, j);
    PublishedIsFinal(cfg, ss, ms, a, c, data, p);
    if k <= p {
      ClosedGrows(cfg, ss, ms, k, p);
      assert false;
    }
    if forall q :: p < q < j ==> !Empties(ss, ms, a, q) {
      FinalStays(cfg, ss, ms, a, p + 1, j);
    }
  }

  // ---- an empty file over a full one --------------------------------------

  /** A thread at the free lock whose asset is in flight waits for the channel it finds. */
  lemma {:induction false} ComesToWait(cfg: Config, ss: seq<State>, ms: seq<Move>, t: Tid)
      returns (ss': seq<State>, ms': seq<Move>)
    requires Run(cfg, ss, ms)
    requires var s := ss[|ms|];
      t in s.threads && s.threads[t].pc.Locking? && s.mu == None && s.threads[t].asset in s.inFlight
    ensures Run(cfg, ss', ms') && |ss'| == |ms'| + 1 && ss <= ss' && ms <= ms'
    ensures var s, r := ss[|ms|], ss'[|ms'|];
      && Only(s, r, t) && r.threads[t].pc == Waiting(s.inFlight[s.threads[t].asset]) && SameFiles(s, r) && r.mu == None
  {
    assert |ss| == |ms| + 1;
    hide Run;
    var c := FreshKey(ss[|ms|].maker);
    var m := Move(t, Well(ss[|ms|], [], false, 0, c));
    ss', ms' := Extend(cfg, ss, ms, m);
    ss', ms' := Extend(cfg, ss', ms', m);
    ss', ms' := Extend(cfg, ss', ms', m);
  }

  /** A thread whose channel is closed comes to its second look. */
  lemma {:induction false} ComesToLook(cfg: Config, ss: seq<State>, ms: seq<Move>, t: Tid)
      returns (ss': seq<State>, ms': seq<Move>)
    requires Run(cfg, ss, ms)
    requires var s := ss[|ms|];
      t in s.threads && s.threads[t].pc.Waiting? && s.mu == None && s.threads[t].pc.c in s.closed
    ensures Run(cfg, ss', ms') && |ss'| == |ms'| + 1 && ss <= ss' && ms <= ms'
    ensures |ms| < |ms'| && Wakes(ss', ms', t, |ms|)
    ensures var s, r := ss[|ms|], ss'[|ms'|];
      && Only(s, r, t) && r.threads[t].pc.StatAgain? && SameFiles(s, r) && r.mu == None && r.inFlight == s.inFlight
  {
    assert |ss| == |ms| + 1;
    hide Run;
    var m := Move(t, Well(ss[|ms|], [], false, 0, 0));
    ss', ms' := Extend(cfg, ss, ms, m);
    if cfg.variant == CacheVariant {
      ss', ms' := ReadsNoted(cfg, ss', ms', t);
    }
  }

  lemma {:induction false} ReadsNoted(cfg: Config, ss: seq<State>, ms: seq<Move>, t: Tid)
      returns (ss': seq<State>, ms': seq<Move>)
    requires Run(cfg, ss, ms)
    requires var s := ss[|ms|]; t in s.threads && s.threads[t].pc.LockingForError? && s.mu == None
    ensures Run(cfg, ss', ms') && |ss'| == |ms'| + 1 && ss <= ss' && ms <= ms'
    ensures var s, r := ss[|ms|], ss'[|ms'|];
      && Only(s, r, t) && r.threads[t].pc.StatAgain? && SameFiles(s, r) && r.mu == None && r.inFlight == s.inFlight
  {
    assert |ss| == |ms| + 1;
    hide Run;
    var m := Move(t, Well(ss[|ms|], [], false, 0, 0));
    ss', ms' := Extend(cfg, ss, ms, m);
    ss', ms' := Extend(cfg, ss', ms', m);
    ss', ms' := Extend(cfg, ss', ms', m);
  }

  /** The second look, with no non-empty file there. */
  lemma {:induction false} LooksInVain(cfg: Config, ss: seq<State>, ms: seq<Move>, t: Tid)
      returns (ss': seq<State>, ms': seq<Move>)
    requires Run(cfg, ss, ms)
    requires var s := ss[|ms|];
      t in s.threads && s.threads[t].pc.StatAgain? && !HasFinal(s, s.threads[t].asset)
    ensures Run(cfg, ss', ms') && |ss'| == |ms'| + 1 && ss <= ss' && ms <= ms' && |ms'| == |ms| + 1
    ensures t in ss'[|ms'|].threads && ss'[|ms'|].threads[t].pc.Returned? && ss'[|ms'|].threads[t].pc.r != Path
    ensures ms'[|ms|].t == t
  {
    assert |ss| == |ms| + 1;
    hide Run;
    ss', ms' := Extend(cfg, ss, ms, Move(t, Well(ss[|ms|], [], false, 0, 0)));
  }

  lemma {:induction false} InFlightOfOwner(cfg: Config, ss: seq<State>, ms: seq<Move>, o: Tid)
    requires Run(cfg, ss, ms) && o in ss[|ms|].threads && ss[|ms|].threads[o].pc.Creating?
    ensures var s := ss[|ms|];
      s.threads[o].asset in s.inFlight && s.inFlight[s.threads[o].asset] == s.threads[o].pc.c
  {
    RunInv(cfg, ss, ms, |ms|);
    InvParts(cfg, ss[|ms|]);
  }

  function ThreeThreads(a: Asset): State {
    State(map[0 := Thread(a, Entry), 1 := Thread(a, Entry), 2 := Thread(a, Entry)], None, map[], map[], map[], {}, false,
          map[], map[], map[])
  }

  lemma {:induction false} ThreeStart(cfg: Config, a: Asset)
    ensures Run(cfg, [ThreeThreads(a)], [])
  {
  }

  /** Three threads at the free lock: 0 downloads data, 1 waits for it, 2 stays where it is. */
  lemma {:induction false} OneWaits(cfg: Config, ss: seq<State>, ms: seq<Move>, a: Asset, data: seq<byte>)
      returns (ss': seq<State>, ms': seq<Move>, p: nat)
    requires Run(cfg, ss, ms) && data != [] && (a in cfg.resource ==> data <= cfg.resource[a])
    requires var s := ss[|ms|];
      && s.mu == None && a !in s.inFlight && a !in s.partial
      && forall t :: 0 <= t <= 2 ==> t in s.threads && s.threads[t] == Thread(a, Locking(Direct))
    ensures Run(cfg, ss', ms') && |ss'| == |ms'| + 1 && ss <= ss' && ms <= ms' && p < |ms'|
    ensures var r := ss'[|ms'|];
      && 1 in r.threads && r.threads[1].asset == a && r.threads[1].pc.Waiting? && r.threads[1].pc.c in r.closed
      && Renames(ss', ms', a, r.threads[1].pc.c, data, p)
      && 2 in r.threads && r.threads[2] == Thread(a, Locking(Direct))
      && r.mu == None && a !in r.inFlight && a !in r.partial
  {
    hide Run, Renames;
    ss', ms' := ComesToCreate(cfg, ss, ms, 0);
    InFlightOfOwner(cfg, ss', ms', 0);
    ss', ms' := ComesToWait(cfg, ss', ms', 1);
    ss', ms' := Stores(cfg, ss', ms', 0, data);
    ss', ms' := Publishes(cfg, ss', ms', 0, data);
    p := |ms'| - 1;
    var c := ss'[|ms'|].threads[0].pc.c;
    ghost var was, wasMs := ss', ms';
    ss', ms' := CleansUp(cfg, ss', ms', 0);
    RenamesStays(was, wasMs, ss', ms', a, c, data, p);
  }

  lemma {:induction false} RenamesStays(ss: seq<State>, ms: seq<Move>, ss': seq<State>, ms': seq<Move>, a: Asset,
                                        c: Chan, data: seq<byte>, p: nat)
    requires p < |ms| < |ss| && |ms'| < |ss'| && ss <= ss' && ms <= ms' && Renames(ss, ms, a, c, data, p)
    ensures Renames(ss', ms', a, c, data, p)
  {
  }

  lemma {:induction false} WakesStays(ss: seq<State>, ms: seq<Move>, ss': seq<State>, ms': seq<Move>, t: Tid, k: nat)
    requires k < |ms| < |ss| && |ms'| < |ss'| && ss <= ss' && ms <= ms' && Wakes(ss, ms, t, k)
    ensures Wakes(ss', ms', t, k) && t in ss'[k].threads && ss'[k].threads[t] == ss[k].threads[t]
  {
  }

  /** Thread 2 puts an empty file in the place of the final one before thread 1 looks. */
  lemma {:induction false} OneLooksLate(cfg: Config, ss: seq<State>, ms: seq<Move>, a: Asset)
      returns (ss': seq<State>, ms': seq<Move>, j: nat)
    requires Run(cfg, ss, ms)
    requires var s := ss[|ms|];
      && 1 in s.threads && s.threads[1].asset == a && s.threads[1].pc.Waiting? && s.threads[1].pc.c in s.closed
      && 2 in s.threads && s.threads[2] == Thread(a, Locking(Direct))
      && s.mu == None && a !in s.inFlight && a !in s.partial
    ensures Run(cfg, ss', ms') && |ss'| == |ms'| + 1 && ss <= ss' && ms <= ms' && |ms| < j < |ms'|
    ensures Wakes(ss', ms', 1, |ms|) && ms'[j].t == 1
    ensures 1 in ss'[j + 1].threads && ss'[j + 1].threads[1].pc.Returned? && ss'[j + 1].threads[1].pc.r != Path
  {
    hide Run, Wakes;
    ss', ms' := ComesToLook(cfg, ss, ms, 1);
    ghost var was, wasMs := ss', ms';
    ss', ms' := DownloadsAll(cfg, ss', ms', 2, []);
    j := |ms'|;
    ss', ms' := LooksInVain(cfg, ss', ms', 1);
    WakesStays(was, wasMs, ss', ms', 1, |ms|);
  }

  /** The exception happens: a run in which thread 1 waits for thread 0, which publishes data; before thread 1 looks,
      thread 2, which had looked before, downloads the asset again, gets nothing, and puts an empty file in its place; so
      thread 1 is not given the path. */
  lemma {:induction false} EmptyFileOver(cfg: Config, a: Asset, data: seq<byte>)
      returns (ss: seq<State>, ms: seq<Move>, k: nat, j: nat, p: nat)
    requires data != [] && (a in cfg.resource ==> data <= cfg.resource[a])
    ensures Run(cfg, ss, ms) && |ss| == |ms| + 1 && p < k < j < |ms| && Wakes(ss, ms, 1, k) && ms[j].t == 1
    ensures Renames(ss, ms, ss[k].threads[1].asset, ss[k].threads[1].pc.c, data, p)
    ensures 1 in ss[j + 1].threads && ss[j + 1].threads[1].pc.Returned? && ss[j + 1].threads[1].pc.r != Path
  {
    hide Run, Renames, Looks;
    ThreeStart(cfg, a);
    ss, ms := ComesToLock(cfg, [ThreeThreads(a)], [], 2);
    ss, ms := ComesToLock(cfg, ss, ms, 1);
    ss, ms := ComesToLock(cfg, ss, ms, 0);
    ss, ms, p := OneWaits(cfg, ss, ms, a, data);
    k := |ms|;
    ghost var was, wasMs, c := ss, ms, ss[k].threads[1].pc.c;
    ss, ms, j := OneLooksLate(cfg, ss, ms, a);
    RenamesStays(was, wasMs, ss, ms, a, c, data, p);
  }
}
