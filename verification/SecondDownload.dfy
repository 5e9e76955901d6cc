/** One download at a time, not one: when exactly a thread of the single-flight protocol downloads, and two runs in
    which a published asset is downloaded again. */
module SecondDownload {
  import opened Bytes
  import opened SingleFlight
  import opened SingleFlightRuns

  // ---- the exact condition -----------------------------------------------

  /** Move i is the first step of t: its look at the final path. */
  ghost predicate Looks(ss: seq<State>, ms: seq<Move>, t: Tid, i: nat)
    requires i < |ms| < |ss|
  {
    ms[i].t == t && t in ss[i].threads && ss[i].threads[t].pc == Entry
  }

  /** Move j registers t. */
  ghost predicate Registers(ss: seq<State>, ms: seq<Move>, t: Tid, j: nat)
    requires j < |ms| && |ss| == |ms| + 1
  {
    && ms[j].t == t && t in ss[j].threads && t in ss[j + 1].threads
    && !Registered(ss[j].threads[t].pc) && Registered(ss[j + 1].threads[t].pc)
  }

  /** Does this program counter come after a look that found nothing? */
  predicate Past(pc: Pc) {
    !pc.Entry? && !pc.Returned?
  }

  lemma NextPast(variant: Variant, v: View, pc: Pc, ch: Choice)
    ensures pc.Entry? && Past(Next(variant, v, pc, ch)) ==> !v.hasFinal && ch.ok
    ensures pc.Entry? && ch.ok && v.hasFinal ==> Next(variant, v, pc, ch) == Returned(Path)
    ensures Registered(pc) || pc.Deciding? ==> Past(pc)
    ensures !Next(variant, v, pc, ch).Entry?
  {
  }

  lemma {:induction false} LookedBefore(cfg: Config, ss: seq<State>, ms: seq<Move>, t: Tid, j: nat) returns (i: nat)
    requires Run(cfg, ss, ms) && j <= |ms| && t in ss[j].threads && Past(ss[j].threads[t].pc)
    ensures i < j && Looks(ss, ms, t, i) && ms[i].ch.ok && ss[i].threads[t].asset == ss[j].threads[t].asset
    ensures !HasFinal(ss[i], ss[i].threads[t].asset)
    decreases j
  {
    hide Init, Next, NextPartial, NextNodes, HasFinal;
    if j == 0 {
      StartsAtEntry(cfg, ss[0], t);
      assert false;
    } else {
      var s, m := ss[j - 1], ms[j - 1];
      assert Follows(cfg, s, m, ss[j]);
      if m.t == t {
        NextPast(cfg.variant, ViewOf(s, s.threads[t].asset), s.threads[t].pc, m.ch);
      }
      if m.t == t && s.threads[t].pc.Entry? {
        i := j - 1;
      } else {
        i := LookedBefore(cfg, ss, ms, t, j - 1);
      }
    }
  }

  lemma StartsAtEntry(cfg: Config, s: State, t: Tid)
    requires Init(cfg, s) && t in s.threads
    ensures s.threads[t].pc.Entry?
  {
  }

  /** A thread whose look finds a non-empty final file is given the path at once, and stays there. */
  lemma {:induction false} FoundIsDone(cfg: Config, ss: seq<State>, ms: seq<Move>, t: Tid, i: nat, j: nat)
    requires Run(cfg, ss, ms) && i < j <= |ms| && Looks(ss, ms, t, i) && ms[i].ch.ok
    requires HasFinal(ss[i], ss[i].threads[t].asset)
    ensures t in ss[j].threads && ss[j].threads[t].pc == Returned(Path)
    decreases j
  {
    hide Init, Next, NextPartial, NextNodes, HasFinal;
    var s, m := ss[j - 1], ms[j - 1];
    assert Follows(cfg, s, m, ss[j]);
    if j == i + 1 {
      NextPast(cfg.variant, ViewOf(s, s.threads[t].asset), s.threads[t].pc, m.ch);
    } else {
      FoundIsDone(cfg, ss, ms, t, i, j - 1);
    }
  }

  /** When a thread registers, in every run: at its turn under the lock, exactly when no download of its asset is in
      flight; and it gets that far only if its own look found no non-empty final file. What has been published since the
      look plays no part. */
  lemma {:induction false} RegistersIff(cfg: Config, ss: seq<State>, ms: seq<Move>, t: Tid, j: nat)
    requires Run(cfg, ss, ms) && j < |ms| && ms[j].t == t
    ensures t in ss[j].threads
    ensures Registers(ss, ms, t, j) <==> ss[j].threads[t].pc.Deciding? && ss[j].threads[t].asset !in ss[j].inFlight
    ensures Registers(ss, ms, t, j) ==>
      exists i :: 0 <= i < j && Looks(ss, ms, t, i) && !HasFinal(ss[i], ss[i].threads[t].asset)
  {
    hide Init, Next, NextPartial, NextNodes, HasFinal, Registered;
    var s, m := ss[j], ms[j];
    assert Follows(cfg, s, m, ss[j + 1]);
    var pc := s.threads[t].pc;
    NextFacts(cfg.variant, ViewOf(s, s.threads[t].asset), pc, m.ch);
    PcKinds(pc);
    if Registers(ss, ms, t, j) {
      NextPast(cfg.variant, ViewOf(s, s.threads[t].asset), pc, m.ch);
      var i := LookedBefore(cfg, ss, ms, t, j);
      assert Looks(ss, ms, t, i);
    }
  }

  /** Conversely, a thread waiting for the free lock registers in its next two steps if nothing is in flight. */
  lemma {:induction false} LateComer(cfg: Config, ss: seq<State>, ms: seq<Move>, t: Tid)
      returns (ss': seq<State>, ms': seq<Move>)
    requires Run(cfg, ss, ms)
    requires var s := ss[|ms|];
      t in s.threads && s.threads[t].pc.Locking? && s.mu == None && s.threads[t].asset !in s.inFlight
    ensures Run(cfg, ss', ms') && |ss'| == |ms'| + 1 && |ms'| == |ms| + 2 && ss <= ss' && ms <= ms'
    ensures Registers(ss', ms', t, |ms| + 1)
    ensures SameFiles(ss[|ms|], ss'[|ms| + 1]) && Only(ss[|ms|], ss'[|ms| + 1], t)
  {
    var c := FreshKey(ss[|ms|].maker);
    var ch := Choice(true, Direct, "", [], false, 0, c);
    ss', ms' := Extend(cfg, ss, ms, Move(t, ch));
    ss', ms' := Extend(cfg, ss', ms', Move(t, ch));
  }

  lemma {:induction false} Extend(cfg: Config, ss: seq<State>, ms: seq<Move>, m: Move)
      returns (ss': seq<State>, ms': seq<Move>)
    requires Run(cfg, ss, ms) && Enabled(cfg, ss[|ms|], m.t, m.ch)
    ensures Run(cfg, ss', ms') && |ss'| == |ms'| + 1 && ms' == ms + [m] && ss' == ss + [Step(cfg, ss[|ms|], m.t, m.ch)]
  {
    hide Enabled, Step, Init;
    ss', ms' := ss + [Step(cfg, ss[|ms|], m.t, m.ch)], ms + [m];
    forall i | 0 <= i < |ms'|
      ensures Follows(cfg, ss'[i], ms'[i], ss'[i + 1])
    {
      if i < |ms| {
        assert Follows(cfg, ss[i], ms[i], ss[i + 1]);
      }
    }
  }

  // ---- two runs ----------------------------------------------------------

  /** From s to r only thread t has moved. */
  ghost predicate Only(s: State, r: State, t: Tid) {
    && t in s.threads && t in r.threads && r.threads[t].asset == s.threads[t].asset
    && forall u :: u in s.threads && u != t ==> u in r.threads && r.threads[u] == s.threads[u]
  }

  ghost predicate SameFiles(s: State, r: State) {
    r.partial == s.partial && r.final == s.final && r.nodes == s.nodes
  }

  /** An answer that lets a step go well. */
  function Well(s: State, data: seq<byte>, more: bool, ino: Ino, c: Chan): Choice {
    Choice(true, Direct, "", data, more, ino, c)
  }

  /** A thread that finds no final file, and whose probe goes well, comes to the lock. */
  lemma {:induction false} ComesToLock(cfg: Config, ss: seq<State>, ms: seq<Move>, t: Tid)
      returns (ss': seq<State>, ms': seq<Move>)
    requires Run(cfg, ss, ms) && t in ss[|ms|].threads && ss[|ms|].threads[t].pc == Entry
    requires !HasFinal(ss[|ms|], ss[|ms|].threads[t].asset)
    ensures Run(cfg, ss', ms') && |ss'| == |ms'| + 1 && ss <= ss' && ms <= ms'
    ensures |ms| < |ms'| && Looks(ss', ms', t, |ms|)
    ensures var s, r := ss[|ms|], ss'[|ms'|];
      && Only(s, r, t) && r.threads[t].pc == Locking(Direct) && SameFiles(s, r)
      && r.mu == s.mu && r.inFlight == s.inFlight && r.closed == s.closed && r.maker == s.maker
  {
    var m := Move(t, Well(ss[|ms|], [], false, 0, 0));
    ss', ms' := Extend(cfg, ss, ms, m);
    ss', ms' := Extend(cfg, ss', ms', m);
  }

  /** ... registers, if it is free and nothing is in flight, and goes on to create the file. */
  lemma {:induction false} ComesToCreate(cfg: Config, ss: seq<State>, ms: seq<Move>, t: Tid)
      returns (ss': seq<State>, ms': seq<Move>)
    requires Run(cfg, ss, ms)
    requires var s := ss[|ms|];
      t in s.threads && s.threads[t].pc == Locking(Direct) && s.mu == None && s.threads[t].asset !in s.inFlight
    ensures Run(cfg, ss', ms') && |ss'| == |ms'| + 1 && ss <= ss' && ms <= ms'
    ensures var s, r := ss[|ms|], ss'[|ms'|];
      && Only(s, r, t) && r.threads[t].pc.Creating? && r.threads[t].pc.typ == Direct && SameFiles(s, r) && r.mu == None
  {
    assert |ss| == |ms| + 1;
    hide Run;
    var c := FreshKey(ss[|ms|].maker);
    var m := Move(t, Well(ss[|ms|], [], false, 0, c));
    ss', ms' := Extend(cfg, ss, ms, m);
    ss', ms' := Extend(cfg, ss', ms', m);
    ss', ms' := UnlocksToOwn(cfg, ss', ms', t);
  }

  lemma {:induction false} UnlocksToOwn(cfg: Config, ss: seq<State>, ms: seq<Move>, t: Tid)
      returns (ss': seq<State>, ms': seq<Move>)
    requires Run(cfg, ss, ms)
    requires var s := ss[|ms|]; t in s.threads && s.threads[t].pc.UnlockingToOwn? && s.threads[t].pc.typ == Direct
    ensures Run(cfg, ss', ms') && |ss'| == |ms'| + 1 && ss <= ss' && ms <= ms'
    ensures var s, r := ss[|ms|], ss'[|ms'|];
      && Only(s, r, t) && r.threads[t].pc.Creating? && r.threads[t].pc.typ == Direct && SameFiles(s, r) && r.mu == None
  {
    assert |ss| == |ms| + 1;
    hide Run;
    var m := Move(t, Well(ss[|ms|], [], false, 0, 0));
    ss', ms' := Extend(cfg, ss, ms, m);
    if cfg.variant == CacheVariant {
      ss', ms' := Extend(cfg, ss', ms', m);
    }
  }

  /** ... creates the file and stores data in it, none if there is none. */
  lemma {:induction false} Stores(cfg: Config, ss: seq<State>, ms: seq<Move>, t: Tid, data: seq<byte>)
      returns (ss': seq<State>, ms': seq<Move>)
    requires Run(cfg, ss, ms)
    requires var s := ss[|ms|]; t in s.threads && s.threads[t].pc.Creating? && s.threads[t].pc.typ == Direct
    requires var s, a := ss[|ms|], ss[|ms|].threads[t].asset;
      a !in s.partial && (a in cfg.resource ==> data <= cfg.resource[a])
    ensures Run(cfg, ss', ms') && |ss'| == |ms'| + 1 && ss <= ss' && ms <= ms'
    ensures var s, r, a := ss[|ms|], ss'[|ms'|], ss[|ms|].threads[t].asset;
      && Only(s, r, t) && r.threads[t].pc.Writing? && r.mu == s.mu && r.threads[t].pc.ino in r.nodes
      && r.threads[t].pc.c == s.threads[t].pc.c
      && r.nodes[r.threads[t].pc.ino] == Node(a, data, false, false)
  {
    assert |ss| == |ms| + 1;
    hide Run;
    var ino := FreshKey(ss[|ms|].nodes);
    ss', ms' := Extend(cfg, ss, ms, Move(t, Well(ss[|ms|], [], false, ino, 0)));
    if data != [] {
      ss', ms' := Extend(cfg, ss', ms', Move(t, Well(ss[|ms|], data, true, 0, 0)));
    }
  }

  /** Move p renames a partial with these bytes, for the owner of channel c. */
  ghost predicate Renames(ss: seq<State>, ms: seq<Move>, a: Asset, c: Chan, data: seq<byte>, p: nat)
    requires p < |ms| < |ss|
  {
    var o := ms[p].t;
    && o in ss[p].threads && ss[p].threads[o].asset == a && ss[p].threads[o].pc.Renaming? && ms[p].ch.ok
    && ss[p].threads[o].pc.c == c
    && ss[p].threads[o].pc.ino in ss[p].nodes && ss[p].nodes[ss[p].threads[o].pc.ino].bytes == data
  }

  /** ... ends its download and publishes the file. */
  lemma {:induction false} Publishes(cfg: Config, ss: seq<State>, ms: seq<Move>, t: Tid, data: seq<byte>)
      returns (ss': seq<State>, ms': seq<Move>)
    requires Run(cfg, ss, ms)
    requires var s := ss[|ms|];
      && t in s.threads && s.threads[t].pc.Writing? && s.threads[t].pc.ino in s.nodes
      && s.nodes[s.threads[t].pc.ino] == Node(s.threads[t].asset, data, false, false)
    ensures Run(cfg, ss', ms') && |ss'| == |ms'| + 1 && ss <= ss' && ms <= ms'
    ensures var s, r, a := ss[|ms|], ss'[|ms'|], ss[|ms|].threads[t].asset;
      && Only(s, r, t) && r.threads[t].pc == LockingToClean(s.threads[t].pc.c, Path) && r.mu == s.mu
      && a in r.final && r.final[a] in r.nodes && r.nodes[r.final[a]] == Node(a, data, true, true) && a !in r.partial
    ensures |ms| < |ms'| && Renames(ss', ms', ss[|ms|].threads[t].asset, ss[|ms|].threads[t].pc.c, data, |ms'| - 1)
  {
    assert |ss| == |ms| + 1;
    hide Run;
    var m := Move(t, Well(ss[|ms|], [], false, 0, 0));
    ss', ms' := Extend(cfg, ss, ms, m);
    ss', ms' := Extend(cfg, ss', ms', m);
  }

  /** ... cleans up. */
  lemma {:induction false} CleansUp(cfg: Config, ss: seq<State>, ms: seq<Move>, t: Tid)
      returns (ss': seq<State>, ms': seq<Move>)
    requires Run(cfg, ss, ms)
    requires var s := ss[|ms|]; t in s.threads && s.threads[t].pc.LockingToClean? && s.mu == None
    ensures Run(cfg, ss', ms') && |ss'| == |ms'| + 1 && ss <= ss' && ms <= ms'
    ensures var s, r := ss[|ms|], ss'[|ms'|];
      && Only(s, r, t) && r.threads[t].pc == Returned(s.threads[t].pc.r) && SameFiles(s, r) && r.mu == None
      && s.threads[t].asset !in r.inFlight && s.threads[t].pc.c in r.closed
  {
    assert |ss| == |ms| + 1;
    hide Run, ViewOf;
    var m := Move(t, Well(ss[|ms|], [], false, 0, 0));
    ss', ms' := Extend(cfg, ss, ms, m);
    ss', ms' := Extend(cfg, ss', ms', m);
    ss', ms' := Leaves(cfg, ss', ms', t);
  }

  lemma {:induction false} Leaves(cfg: Config, ss: seq<State>, ms: seq<Move>, t: Tid)
      returns (ss': seq<State>, ms': seq<Move>)
    requires Run(cfg, ss, ms)
    requires var s := ss[|ms|]; t in s.threads && s.threads[t].pc.Closing?
    ensures Run(cfg, ss', ms') && |ss'| == |ms'| + 1 && ss <= ss' && ms <= ms'
    ensures var s, r := ss[|ms|], ss'[|ms'|];
      && Only(s, r, t) && r.threads[t].pc == Returned(s.threads[t].pc.r) && SameFiles(s, r) && r.mu == None
      && r.inFlight == s.inFlight && s.threads[t].pc.c in r.closed
  {
    assert |ss| == |ms| + 1;
    hide Run, ViewOf;
    var m := Move(t, Well(ss[|ms|], [], false, 0, 0));
    ss', ms' := Extend(cfg, ss, ms, m);
    ss', ms' := Extend(cfg, ss', ms', m);
  }

  /** Thread t downloads data from the lock to its return. */
  lemma {:induction false} DownloadsAll(cfg: Config, ss: seq<State>, ms: seq<Move>, t: Tid, data: seq<byte>)
      returns (ss': seq<State>, ms': seq<Move>)
    requires Run(cfg, ss, ms)
    requires var s := ss[|ms|];
      t in s.threads && s.threads[t].pc == Locking(Direct) && s.mu == None && s.threads[t].asset !in s.inFlight
    requires var s, a := ss[|ms|], ss[|ms|].threads[t].asset;
      a !in s.partial && (a in cfg.resource ==> data <= cfg.resource[a])
    ensures Run(cfg, ss', ms') && |ss'| == |ms'| + 1 && ss <= ss' && ms <= ms'
    ensures var s, r, a := ss[|ms|], ss'[|ms'|], ss[|ms|].threads[t].asset;
      && Only(s, r, t) && r.threads[t].pc == Returned(Path) && r.mu == None && a !in r.inFlight
      && a in r.final && r.final[a] in r.nodes && r.nodes[r.final[a]] == Node(a, data, true, true)
  {
    assert |ss| == |ms| + 1;
    hide Run;
    ss', ms' := ComesToCreate(cfg, ss, ms, t);
    ss', ms' := Stores(cfg, ss', ms', t, data);
    ss', ms' := Publishes(cfg, ss', ms', t, data);
    ss', ms' := CleansUp(cfg, ss', ms', t);
  }

  /** Two threads and an empty directory. */
  function TwoThreads(a: Asset): State {
    State(map[0 := Thread(a, Entry), 1 := Thread(a, Entry)], None, map[], map[], map[], {}, false, map[], map[], map[])
  }

  lemma {:induction false} StartOfRun(cfg: Config, a: Asset)
    ensures Run(cfg, [TwoThreads(a)], [])
  {
  }

  /** A stat before, a lock after: for any asset and any data, a run in which thread 1 registers for an asset that
      thread 0 has downloaded and published, non-empty, since thread 1 looked. */
  lemma {:induction false} StatBeforeLock(cfg: Config, a: Asset, data: seq<byte>)
      returns (ss: seq<State>, ms: seq<Move>, j: nat)
    requires data != [] && (a in cfg.resource ==> data <= cfg.resource[a])
    ensures Run(cfg, ss, ms) && j < |ms| && Registers(ss, ms, 1, j)
    ensures HasFinal(ss[j], a) && ss[j].nodes[ss[j].final[a]] == Node(a, data, true, true)
    ensures 0 in ss[j].threads && ss[j].threads[0] == Thread(a, Returned(Path)) && ss[j].threads[1].asset == a
  {
    hide Run, Registers, Looks;
    StartOfRun(cfg, a);
    ss, ms := ComesToLock(cfg, [TwoThreads(a)], [], 1);
    ss, ms := ComesToLock(cfg, ss, ms, 0);
    ss, ms := DownloadsAll(cfg, ss, ms, 0, data);
    j := |ms| + 1;
    ss, ms := LateComer(cfg, ss, ms, 1);
  }

  /** An empty file is no file: a run in which thread 1 looks after thread 0 has published what it downloaded, namely
      nothing, and registers all the same. */
  lemma {:induction false} EmptyFileAgain(cfg: Config, a: Asset)
      returns (ss: seq<State>, ms: seq<Move>, k: nat, j: nat)
    ensures Run(cfg, ss, ms) && k < j < |ms| && Looks(ss, ms, 1, k) && Registers(ss, ms, 1, j)
    ensures a in ss[k].final && ss[k].final[a] in ss[k].nodes
    ensures ss[k].nodes[ss[k].final[a]] == Node(a, [], true, true) && ss[k].threads[1].asset == a
  {
    hide Run, Registers;
    StartOfRun(cfg, a);
    ss, ms := ComesToLock(cfg, [TwoThreads(a)], [], 0);
    ss, ms := DownloadsAll(cfg, ss, ms, 0, []);
    k := |ms|;
    ss, ms := ComesToLock(cfg, ss, ms, 1);
    j := |ms| + 1;
    ss, ms := LateComer(cfg, ss, ms, 1);
  }
}
