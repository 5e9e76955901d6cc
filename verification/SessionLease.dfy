/** The idle and lease record that plex_session_reaper.go and ghost_hunter.go keep for each Plex session, and what
    it says about the observations it was built from. */
module SessionLease {
  import opened Bytes

  /** Nanoseconds. */
  type Time = int

  const THROTTLE: Time := 10_000_000_000

  /** One session as Plex lists it: the parts that matter here. */
  datatype Row = Row(liveKey: string, transcodeId: string, transcodeTs: string, maxOffset: real, playerState: string)

  datatype Config = Config(idle: Time, renew: Time, hard: Time)

  datatype Lease = Lease(firstSeen: Time, lastActivity: Time, lastRenew: Time, lastMax: real, lastTs: string,
                         lastStop: Option<Time>)

  datatype Obs = Obs(now: Time, row: Row)

  /** The observations of one session, since it appeared. */
  type Trail = seq<Obs>

  /** What a session is told apart by: its transcode, or else its live key; a row without either is no session. */
  function KeyOf(row: Row): (key: string)
    ensures row.transcodeId != "" ==> key == row.transcodeId
    ensures key == "" <==> row.transcodeId == "" && row.liveKey == ""
  {
    if row.transcodeId != "" then row.transcodeId else row.liveKey
  }

  // ---- the record --------------------------------------------------------

  function NewLease(row: Row, now: Time): Lease {
    Lease(now, now, now, row.maxOffset, row.transcodeTs, None)
  }

  predicate SawActivity(l: Lease, row: Row) {
    row.maxOffset > l.lastMax + 0.25 || (row.transcodeTs != "" && row.transcodeTs != l.lastTs)
  }

  /** plex_session_reaper.go:261-277, ghost_hunter.go:157-173. */
  function Touch(l: Lease, row: Row, now: Time): Lease {
    var active := SawActivity(l, row);
    l.(lastActivity := if active then now else l.lastActivity,
       lastRenew := if active then now else l.lastRenew,
       lastMax := if row.maxOffset > l.lastMax then row.maxOffset else l.lastMax,
       lastTs := if row.transcodeTs != "" then row.transcodeTs else l.lastTs)
  }

  predicate IdleReady(cfg: Config, l: Lease, now: Time) {
    cfg.idle > 0 && now - l.lastActivity >= cfg.idle
  }

  predicate RenewReady(cfg: Config, l: Lease, now: Time) {
    cfg.renew > 0 && now - l.lastRenew >= cfg.renew
  }

  predicate HardReady(cfg: Config, l: Lease, now: Time) {
    cfg.hard > 0 && now - l.firstSeen >= cfg.hard
  }

  predicate Ready(cfg: Config, l: Lease, now: Time) {
    IdleReady(cfg, l, now) || RenewReady(cfg, l, now) || HardReady(cfg, l, now)
  }

  predicate Attempts(cfg: Config, l: Lease, now: Time) {
    Ready(cfg, l, now) && (l.lastStop.Some? ==> now - l.lastStop.value >= THROTTLE)
  }

  /** The reaper's record at observation n of a trail, before it decides. */
  function Seen(cfg: Config, t: Trail, n: nat): Lease
    requires n < |t|
    decreases n, 0
  {
    Touch(if n == 0 then NewLease(t[0].row, t[0].now) else After(cfg, t, n - 1), t[n].row, t[n].now)
  }

  /** Does observation n bring a stop attempt? */
  predicate Due(cfg: Config, t: Trail, n: nat)
    requires n < |t|
    decreases n, 1
  {
    Attempts(cfg, Seen(cfg, t, n), t[n].now)
  }

  /** ... and the record after it. */
  function After(cfg: Config, t: Trail, n: nat): Lease
    requires n < |t|
    decreases n, 2
  {
    if Due(cfg, t, n) then Seen(cfg, t, n).(lastStop := Some(t[n].now)) else Seen(cfg, t, n)
  }

  /** What comes later changes nothing. */
  lemma {:induction false} OnlyThePast(cfg: Config, t: Trail, u: Trail, n: nat)
    requires n < |t| && t <= u
    ensures Seen(cfg, t, n) == Seen(cfg, u, n) && After(cfg, t, n) == After(cfg, u, n)
    ensures Due(cfg, t, n) == Due(cfg, u, n)
  {
    if n > 0 {
      OnlyThePast(cfg, t, u, n - 1);
    }
  }

  // ---- what the record means ---------------------------------------------

  predicate Ordered(t: Trail) {
    forall i, j :: 0 <= i <= j < |t| ==> t[i].now <= t[j].now
  }

  /** The furthest offset up to observation n, and the latest time stamp. */
  function Peak(t: Trail, n: nat): real
    requires n < |t|
  {
    if n == 0 || t[n].row.maxOffset > Peak(t, n - 1) then t[n].row.maxOffset else Peak(t, n - 1)
  }

  function Stamp(t: Trail, n: nat): string
    requires n < |t|
  {
    if n == 0 || t[n].row.transcodeTs != "" then t[n].row.transcodeTs else Stamp(t, n - 1)
  }

  /** Observation n moves: a quarter second further than ever before, or a new time stamp. */
  predicate Moves(t: Trail, n: nat)
    requires 0 < n < |t|
  {
    t[n].row.maxOffset > Peak(t, n - 1) + 0.25
    || (t[n].row.transcodeTs != "" && t[n].row.transcodeTs != Stamp(t, n - 1))
  }

  /** The last observation up to n that moves; the first one counts as a move. */
  function LastMove(t: Trail, n: nat): (m: nat)
    requires n < |t|
    ensures m <= n && (m == 0 || Moves(t, m))
    ensures forall k :: m < k <= n ==> !Moves(t, k)
  {
    if n == 0 || Moves(t, n) then n else LastMove(t, n - 1)
  }

  /** The record says when the session appeared, when it last moved, how far it got and its latest stamp; the
      renewal lease never runs apart from the activity. */
  lemma {:induction false} LeaseMeans(cfg: Config, t: Trail, n: nat)
    requires n < |t|
    ensures var l := Seen(cfg, t, n);
      && l.firstSeen == t[0].now
      && l.lastActivity == l.lastRenew == t[LastMove(t, n)].now
      && l.lastMax == Peak(t, n) && l.lastTs == Stamp(t, n)
    ensures After(cfg, t, n).(lastStop := None) == Seen(cfg, t, n).(lastStop := None)
  {
    hide Attempts;
    if n > 0 {
      LeaseMeans(cfg, t, n - 1);
    }
  }

  lemma {:induction false} LeaseInOrder(cfg: Config, t: Trail, n: nat)
    requires n < |t| && Ordered(t)
    ensures var l := After(cfg, t, n);
      l.lastActivity == l.lastRenew && l.firstSeen <= l.lastActivity <= t[n].now
  {
    hide Attempts;
    LeaseMeans(cfg, t, n);
  }

  // ---- the attempts ------------------------------------------------------

  /** s is the time of the last attempt among the first n observations. */
  ghost predicate LastStopIs(cfg: Config, t: Trail, n: nat, s: Option<Time>)
    requires n <= |t|
  {
    match s
    case None => forall i :: 0 <= i < n ==> !Due(cfg, t, i)
    case Some(at) =>
      exists i :: 0 <= i < n && Due(cfg, t, i) && t[i].now == at && forall k :: i < k < n ==> !Due(cfg, t, k)
  }

  lemma {:induction false} StopMeans(cfg: Config, t: Trail, n: nat)
    requires n < |t|
    ensures LastStopIs(cfg, t, n, Seen(cfg, t, n).lastStop)
    ensures LastStopIs(cfg, t, n + 1, After(cfg, t, n).lastStop)
  {
    hide Due, SawActivity;
    if n > 0 {
      StopMeans(cfg, t, n - 1);
    }
  }

  /** The reaper attempts a stop exactly when the session is ready and no attempt was made within the last 10
      seconds. */
  lemma {:induction false} DueIff(cfg: Config, t: Trail, n: nat)
    requires n < |t| && Ordered(t)
    ensures Due(cfg, t, n) <==>
              && Ready(cfg, Seen(cfg, t, n), t[n].now)
              && forall i :: 0 <= i < n && Due(cfg, t, i) ==> t[n].now - t[i].now >= THROTTLE
  {
    StopMeans(cfg, t, n);
    assert Due(cfg, t, n) <==> Attempts(cfg, Seen(cfg, t, n), t[n].now);
    hide Ready, Seen, Due;
  }

  /** Attempts on one session are at least 10 seconds apart. */
  lemma {:induction false} AttemptsApart(cfg: Config, t: Trail, i: nat, j: nat)
    requires Ordered(t) && i < j < |t| && Due(cfg, t, i) && Due(cfg, t, j)
    ensures t[j].now - t[i].now >= THROTTLE
  {
    hide Due;
    DueIff(cfg, t, j);
  }

  /** The smaller positive threshold of the two that activity resets. */
  function Threshold(cfg: Config): Option<Time> {
    if cfg.idle > 0 && (cfg.renew <= 0 || cfg.idle <= cfg.renew) then Some(cfg.idle)
    else if cfg.renew > 0 then Some(cfg.renew)
    else None
  }

  /** Ready is a matter of two times: since the last move, and since the session appeared. */
  lemma {:induction false} ReadyIff(cfg: Config, t: Trail, n: nat)
    requires n < |t|
    ensures Ready(cfg, Seen(cfg, t, n), t[n].now) <==>
              (Threshold(cfg).Some? && t[n].now - t[LastMove(t, n)].now >= Threshold(cfg).value)
              || (cfg.hard > 0 && t[n].now - t[0].now >= cfg.hard)
  {
    LeaseMeans(cfg, t, n);
    hide Seen, LastMove;
  }

  /** No attempt comes before the session has been still for the threshold, unless the hard lease is over. */
  lemma {:induction false} NeverEarly(cfg: Config, t: Trail, n: nat)
    requires n < |t| && Due(cfg, t, n)
    ensures (Threshold(cfg).Some? && t[n].now - t[LastMove(t, n)].now >= Threshold(cfg).value)
         || (cfg.hard > 0 && t[n].now - t[0].now >= cfg.hard)
  {
    hide Ready;
    ReadyIff(cfg, t, n);
  }

  /** The session has been seen by time x and has not moved since. */
  ghost predicate StillSince(t: Trail, x: Time) {
    && t != [] && t[0].now <= x
    && forall k :: 0 < k < |t| && t[k].now > x ==> !Moves(t, k)
  }

  lemma {:induction false} MovedBy(t: Trail, n: nat, x: Time)
    requires n < |t| && StillSince(t, x)
    ensures t[LastMove(t, n)].now <= x
  {
    hide Moves;
  }

  /** With a threshold of 10 seconds or more, a session that has been still since x has an attempt after x, by the time
      it has been watched for the threshold: the throttle cannot be in the way. */
  lemma {:induction false} AttemptInTime(cfg: Config, t: Trail, x: Time) returns (k: nat)
    requires Ordered(t) && StillSince(t, x)
    requires Threshold(cfg).Some? && Threshold(cfg).value >= THROTTLE
    requires t[|t| - 1].now - x >= Threshold(cfg).value
    ensures k < |t| && Due(cfg, t, k) && x < t[k].now
  {
    assert t != [];
    hide Due, Ready, Seen, LastMove, Threshold, StillSince;
    var n := |t| - 1;
    MovedBy(t, n, x);
    ReadyIff(cfg, t, n);
    DueIff(cfg, t, n);
    if i :| 0 <= i < n && Due(cfg, t, i) && t[n].now - t[i].now < THROTTLE {
      k := i;
    } else {
      k := n;
    }
  }

  /** Some attempt falls after lo and not after hi. */
  ghost predicate DueWithin(cfg: Config, t: Trail, lo: Time, hi: Time) {
    exists k :: 0 <= k < |t| && Due(cfg, t, k) && lo < t[k].now <= hi
  }

  /** For any threshold, and whatever the hard lease: at any time at which a still session is overdue it has had an
      attempt since x exactly when none was made in the 10 seconds before that time and up to x. */
  lemma {:induction false} AttemptInTimeIff(cfg: Config, t: Trail, x: Time)
    requires Ordered(t) && StillSince(t, x) && Threshold(cfg).Some?
    requires t[|t| - 1].now - x >= Threshold(cfg).value
    ensures var end := t[|t| - 1].now;
      DueWithin(cfg, t, x, end) <==> !DueWithin(cfg, t, end - THROTTLE, x)
  {
    assert t != [];
    hide Due, Ready, Seen, Threshold, LastMove, StillSince;
    var n := |t| - 1;
    var end := t[n].now;
    MovedBy(t, n, x);
    ReadyIff(cfg, t, n);
    DueIff(cfg, t, n);
    ThresholdPositive(cfg);
    if DueWithin(cfg, t, x, end) && DueWithin(cfg, t, end - THROTTLE, x) {
      var k :| 0 <= k < |t| && Due(cfg, t, k) && x < t[k].now <= end;
      var j :| 0 <= j < |t| && Due(cfg, t, j) && end - THROTTLE < t[j].now <= x;
      DueIff(cfg, t, k);
      assert false;
    }
    if !DueWithin(cfg, t, end - THROTTLE, x) {
      if i :| 0 <= i < n && Due(cfg, t, i) && end - t[i].now < THROTTLE {
        assert x < t[i].now <= end;
      } else {
        assert Due(cfg, t, n);
      }
    }
  }

  lemma ThresholdPositive(cfg: Config)
    ensures Threshold(cfg).Some? ==> Threshold(cfg).value > 0
  {
  }

  /** With a threshold of one second: attempted when still for a second, moved a second later, and no attempt although
      still for two seconds again, for the last one was less than 10 seconds ago. */
  lemma {:induction false} ThrottleDelays()
    ensures var t := Throttled();
      && Due(SHORT, t, 1) && Ordered(t) && StillSince(t, 2 * SECOND)
      && t[4].now - 2 * SECOND == Threshold(SHORT).value + SECOND
      && !DueWithin(SHORT, t, 2 * SECOND, t[4].now)
  {
    var t := Throttled();
    assert Peak(t, 0) == 0.0 && Peak(t, 1) == 0.0 && Peak(t, 2) == 1.0 && Peak(t, 3) == 1.0;
    assert !Moves(t, 1) && Moves(t, 2) && !Moves(t, 3) && !Moves(t, 4);
    assert LastMove(t, 0) == 0 && LastMove(t, 1) == 0;
    ReadyIff(SHORT, t, 0);
    DueIff(SHORT, t, 0);
    ReadyIff(SHORT, t, 1);
    DueIff(SHORT, t, 1);
    AttemptInTimeIff(SHORT, t, 2 * SECOND);
  }

  const SECOND: Time := 1_000_000_000

  /** An idle threshold of one second, nothing else. */
  const SHORT: Config := Config(SECOND, 0, 0)

  function PlayingAt(offset: real): Row {
    Row("", "k", "", offset, "playing")
  }

  /** Seen every second, moved once, at the third observation. */
  function Throttled(): Trail {
    [Obs(0, PlayingAt(0.0)), Obs(SECOND, PlayingAt(0.0)), Obs(2 * SECOND, PlayingAt(1.0)),
     Obs(3 * SECOND, PlayingAt(1.0)), Obs(4 * SECOND, PlayingAt(1.0))]
  }
}
