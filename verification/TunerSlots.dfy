/** internal/tuner/gateway.go:144-168 and gateway_policy.go:14-46: how many streams may run at once. The mutex makes
    the three critical sections below the only steps; requests interleave in any way. */
module TunerSlots {
  type Request = nat

  /** What a gateway has in its locked fields, and the requests that hold a slot. */
  datatype Slots = Slots(inUse: int, learned: int, ghost active: set<Request>)

  /** Acquire: a request asks for a slot. Learn: a response names a concurrency limit (0 if it names none).
      Release: a request that holds a slot ends. */
  datatype Event = Acquire(r: Request) | Learn(limit: int) | Release(r: Request)

  function Configured(tunerCount: int): (limit: int)
    ensures limit > 0 && (tunerCount > 0 ==> limit == tunerCount)
  {
    if tunerCount <= 0 then 2 else tunerCount
  }

  function Effective(tunerCount: int, learned: int): (limit: int)
    ensures limit <= Configured(tunerCount) && (learned > 0 ==> limit <= learned)
    ensures limit == Configured(tunerCount) || (limit == learned && learned > 0)
  {
    if 0 < learned < Configured(tunerCount) then learned else Configured(tunerCount)
  }

  /** Would a request get a slot now? */
  predicate Grants(tunerCount: int, inUse: int, learned: int) {
    inUse < Effective(tunerCount, learned)
  }

  function NextLearned(tunerCount: int, learned: int, limit: int): int {
    if limit <= 0 || limit > Configured(tunerCount) || (learned != 0 && learned <= limit) then learned else limit
  }

  ghost predicate Enabled(s: Slots, e: Event) {
    match e
    case Acquire(r) => r !in s.active
    case Learn(_) => true
    case Release(r) => r in s.active
  }

  ghost function Step(tunerCount: int, s: Slots, e: Event): Slots {
    match e
    case Acquire(r) =>
      if Grants(tunerCount, s.inUse, s.learned) then s.(inUse := s.inUse + 1, active := s.active + {r}) else s
    case Learn(limit) => s.(learned := NextLearned(tunerCount, s.learned, limit))
    case Release(r) => s.(inUse := s.inUse - 1, active := s.active - {r})
  }

  class Gateway {
    const tunerCount: int
    var inUse: int
    var learnedUpstreamLimit: int
    ghost var active: set<Request>

    ghost function State(): Slots
      reads this
    {
      Slots(inUse, learnedUpstreamLimit, active)
    }

    constructor (tunerCount: int)
      ensures this.tunerCount == tunerCount && State() == Slots(0, 0, {})
    {
      this.tunerCount := tunerCount;
      inUse, learnedUpstreamLimit, active := 0, 0, {};
    }

    method ConfiguredTunerLimit() returns (limit: int)
      ensures limit == Configured(tunerCount)
    {
      limit := tunerCount;
      if limit <= 0 {
        limit := 2;
      }
    }

    method EffectiveTunerLimit() returns (limit: int)
      ensures limit == Effective(tunerCount, learnedUpstreamLimit)
    {
      limit := ConfiguredTunerLimit();
      if learnedUpstreamLimit > 0 && learnedUpstreamLimit < limit {
        limit := learnedUpstreamLimit;
      }
    }

    /** gateway.go:144-155. */
    method TryAcquire(ghost r: Request) returns (ok: bool)
      modifies this
      ensures State() == Step(tunerCount, old(State()), Acquire(r))
      ensures ok <==> old(inUse) < Effective(tunerCount, old(learnedUpstreamLimit))
    {
      var limit := EffectiveTunerLimit();
      if inUse >= limit {
        return false;
      }
      inUse, active := inUse + 1, active + {r};
      return true;
    }

    /** gateway_policy.go:22-38, given the limit read from the response; 0 when nothing was learned. */
    method LearnUpstreamConcurrencyLimit(learned: int) returns (r: int)
      modifies this
      ensures State() == Step(tunerCount, old(State()), Learn(learned))
      ensures r == if learnedUpstreamLimit != old(learnedUpstreamLimit) then learned else 0
    {
      if learned <= 0 {
        return 0;
      }
      var configured := ConfiguredTunerLimit();
      if learned > configured {
        return 0;
      }
      if learnedUpstreamLimit != 0 && learnedUpstreamLimit <= learned {
        return 0;
      }
      learnedUpstreamLimit := learned;
      return learned;
    }

    /** gateway.go:163-166. */
    method GiveBack(ghost r: Request)
      modifies this
      ensures State() == Step(tunerCount, old(State()), Release(r))
    {
      inUse, active := inUse - 1, active - {r};
    }
  }

  // ---- whole runs --------------------------------------------------------

  ghost predicate Inv(tunerCount: int, s: Slots) {
    && s.inUse == |s.active| <= Configured(tunerCount)
    && (s.learned == 0 || 1 <= s.learned <= Configured(tunerCount))
  }

  ghost predicate Run(tunerCount: int, ss: seq<Slots>, es: seq<Event>) {
    && |ss| == |es| + 1 && ss[0] == Slots(0, 0, {})
    && forall i :: 0 <= i < |es| ==> Follows(tunerCount, ss[i], es[i], ss[i + 1])
  }

  ghost predicate Follows(tunerCount: int, s: Slots, e: Event, t: Slots) {
    Enabled(s, e) && t == Step(tunerCount, s, e)
  }

  /** At every moment the slots in use are the requests that hold one, never more than configured, and a learned limit
      lies between 1 and the configured one. */
  lemma {:induction false} RunInv(tunerCount: int, ss: seq<Slots>, es: seq<Event>, i: nat)
    requires Run(tunerCount, ss, es) && i < |ss|
    ensures Inv(tunerCount, ss[i])
  {
    if i > 0 {
      RunInv(tunerCount, ss, es, i - 1);
      var s, e := ss[i - 1], es[i - 1];
      assert Follows(tunerCount, s, e, ss[i]);
      if e.Release? {
        assert |s.active - {e.r}| == |s.active| - 1;
      }
    }
  }

  /** The event names a limit within the configured one. */
  predicate Names(tunerCount: int, e: Event) {
    e.Learn? && 0 < e.limit <= Configured(tunerCount)
  }

  /** What has been learned is the smallest limit named so far, nothing before the first. */
  lemma {:induction false} LearnedIsSmallest(tunerCount: int, ss: seq<Slots>, es: seq<Event>, i: nat)
    requires Run(tunerCount, ss, es) && i < |ss|
    ensures ss[i].learned != 0 ==>
              exists k :: 0 <= k < i && Names(tunerCount, es[k]) && es[k].limit == ss[i].learned
    ensures forall k :: 0 <= k < i && Names(tunerCount, es[k]) ==> ss[i].learned != 0 && ss[i].learned <= es[k].limit
  {
    if i > 0 {
      LearnedIsSmallest(tunerCount, ss, es, i - 1);
      RunInv(tunerCount, ss, es, i - 1);
      assert Follows(tunerCount, ss[i - 1], es[i - 1], ss[i]);
    }
  }

  /** Once learned, a limit only shrinks, and so does the limit in force. */
  lemma {:induction false} LimitShrinks(tunerCount: int, ss: seq<Slots>, es: seq<Event>, i: nat, j: nat)
    requires Run(tunerCount, ss, es) && i <= j < |ss|
    ensures ss[i].learned != 0 ==> 0 < ss[j].learned <= ss[i].learned
    ensures Effective(tunerCount, ss[j].learned) <= Effective(tunerCount, ss[i].learned)
  {
    RunInv(tunerCount, ss, es, i);
    if i < j {
      LimitShrinks(tunerCount, ss, es, i, j - 1);
      RunInv(tunerCount, ss, es, j - 1);
      assert Follows(tunerCount, ss[j - 1], es[j - 1], ss[j]);
    }
  }

  ghost predicate Granted(tunerCount: int, ss: seq<Slots>, es: seq<Event>, i: nat)
    requires i < |es| < |ss|
  {
    es[i].Acquire? && ss[i + 1].active != ss[i].active
  }

  /** Grants and releases among the steps i..j. */
  ghost function GrantsIn(tunerCount: int, ss: seq<Slots>, es: seq<Event>, i: nat, j: nat): nat
    requires i <= j <= |es| < |ss|
    decreases j
  {
    if i == j then 0
    else GrantsIn(tunerCount, ss, es, i, j - 1) + if Granted(tunerCount, ss, es, j - 1) then 1 else 0
  }

  ghost function ReleasesIn(es: seq<Event>, i: nat, j: nat): nat
    requires i <= j <= |es|
    decreases j
  {
    if i == j then 0 else ReleasesIn(es, i, j - 1) + if es[j - 1].Release? then 1 else 0
  }

  lemma {:induction false} Balance(tunerCount: int, ss: seq<Slots>, es: seq<Event>, i: nat, j: nat)
    requires Run(tunerCount, ss, es) && i <= j <= |es|
    ensures ss[j].inUse == ss[i].inUse + GrantsIn(tunerCount, ss, es, i, j) - ReleasesIn(es, i, j)
    decreases j
  {
    if i < j {
      Balance(tunerCount, ss, es, i, j - 1);
      var s, e := ss[j - 1], es[j - 1];
      assert Follows(tunerCount, s, e, ss[j]);
      assert e.Acquire? && Grants(tunerCount, s.inUse, s.learned) ==> e.r in ss[j].active;
    }
  }

  /** A request is granted exactly when fewer slots are in use than the limit in force at that moment allows. */
  lemma {:induction false} GrantIff(tunerCount: int, ss: seq<Slots>, es: seq<Event>, i: nat)
    requires Run(tunerCount, ss, es) && i < |es| && es[i].Acquire?
    ensures Granted(tunerCount, ss, es, i) <==> |ss[i].active| < Effective(tunerCount, ss[i].learned)
  {
    RunInv(tunerCount, ss, es, i);
    assert Follows(tunerCount, ss[i], es[i], ss[i + 1]);
    assert Grants(tunerCount, ss[i].inUse, ss[i].learned) ==> es[i].r in ss[i + 1].active;
  }

  /** After the limit has shrunk to i's, nothing is granted until the releases since then have brought the slots in
      use below it. */
  lemma {:induction false} NoGrantUntilReleased(tunerCount: int, ss: seq<Slots>, es: seq<Event>, i: nat, j: nat)
    requires Run(tunerCount, ss, es) && i <= j < |es| && Granted(tunerCount, ss, es, j)
    ensures ss[i].inUse + GrantsIn(tunerCount, ss, es, i, j) - ReleasesIn(es, i, j)
              < Effective(tunerCount, ss[i].learned)
  {
    GrantIff(tunerCount, ss, es, j);
    RunInv(tunerCount, ss, es, j);
    Balance(tunerCount, ss, es, i, j);
    LimitShrinks(tunerCount, ss, es, i, j);
  }
}
