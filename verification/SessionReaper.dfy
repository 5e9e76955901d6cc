/** internal/tuner/plex_session_reaper.go:232-322: the reaper's map of session records over any sequence of scans. */
module SessionReaper {
  import opened Bytes
  import opened SessionLease

  /** One poll of Plex: the live sessions it listed, or None when the request failed. */
  datatype Scan = Scan(rows: Option<seq<Row>>, now: Time)

  /** The decision to stop a session; Plex is asked only if the session has a transcode. */
  datatype Attempt = Attempt(key: string, at: Time, transcodeId: string)

  /** The rows of one key, in order; rows without any key belong to none. */
  function Mine(rows: seq<Row>, now: Time, key: string): Trail {
    if rows == [] then []
    else
      var n := |rows| - 1;
      Mine(rows[..n], now, key) + if key != "" && KeyOf(rows[n]) == key then [Obs(now, rows[n])] else []
  }

  /** What has been observed of a session since it was last absent from a successful scan. */
  function TrailOf(scans: seq<Scan>, key: string): Trail {
    if scans == [] then []
    else
      var n := |scans| - 1;
      match scans[n].rows
      case None => TrailOf(scans[..n], key)
      case Some(rows) =>
        var mine := Mine(rows, scans[n].now, key);
        if mine == [] then [] else TrailOf(scans[..n], key) + mine
  }

  function Record(cfg: Config, t: Trail): Option<Lease> {
    if t == [] then None else Some(After(cfg, t, |t| - 1))
  }

  function Lookup(states: map<string, Lease>, key: string): Option<Lease> {
    if key in states then Some(states[key]) else None
  }

  /** The attempts of one scan. */
  function DueRows(cfg: Config, before: seq<Scan>, rows: seq<Row>, now: Time): seq<Attempt> {
    if rows == [] then []
    else
      var n := |rows| - 1;
      var key := KeyOf(rows[n]);
      var t := TrailOf(before, key) + Mine(rows, now, key);
      DueRows(cfg, before, rows[..n], now)
      + if key != "" && |t| > 0 && Due(cfg, t, |t| - 1) then [Attempt(key, now, rows[n].transcodeId)] else []
  }

  function ScanAttempts(cfg: Config, before: seq<Scan>, scan: Scan): seq<Attempt> {
    if scan.rows.Some? then DueRows(cfg, before, scan.rows.value, scan.now) else []
  }

  function AllAttempts(cfg: Config, scans: seq<Scan>): seq<Attempt> {
    if scans == [] then []
    else
      var n := |scans| - 1;
      AllAttempts(cfg, scans[..n]) + ScanAttempts(cfg, scans[..n], scans[n])
  }

  lemma AfterIs(cfg: Config, t: Trail, n: nat)
    requires n < |t|
    ensures After(cfg, t, n) ==
              if Due(cfg, t, n) then Seen(cfg, t, n).(lastStop := Some(t[n].now)) else Seen(cfg, t, n)
  {
  }

  lemma RecordedIff(cfg: Config, t: Trail)
    ensures Record(cfg, t).Some? <==> t != []
  {
  }

  /** The record after one more observation. */
  lemma {:induction false} RecordNext(cfg: Config, t: Trail, o: Obs)
    ensures var base := if t == [] then NewLease(o.row, o.now) else Record(cfg, t).value;
      var l := Touch(base, o.row, o.now);
      var due := Attempts(cfg, l, o.now);
      && Record(cfg, t + [o]) == Some(if due then l.(lastStop := Some(o.now)) else l)
      && Due(cfg, t + [o], |t|) == due
  {
    hide Attempts, Touch, After, NewLease;
    var u := t + [o];
    assert u[|t|] == o;
    if t != [] {
      OnlyThePast(cfg, t, u, |t| - 1);
    }
    AfterIs(cfg, u, |t|);
  }

  lemma {:induction false} MineStep(rows: seq<Row>, now: Time, i: nat, key: string)
    requires i < |rows|
    ensures Mine(rows[..i + 1], now, key) ==
              Mine(rows[..i], now, key) + if key != "" && KeyOf(rows[i]) == key then [Obs(now, rows[i])] else []
  {
    assert rows[..i + 1][..i] == rows[..i];
  }

  /** Every session's record is the one its own trail gives. */
  ghost predicate Refines(cfg: Config, states: map<string, Lease>, before: seq<Scan>, rows: seq<Row>, now: Time) {
    forall key :: Lookup(states, key) == Record(cfg, TrailOf(before, key) + Mine(rows, now, key))
  }

  class Reaper {
    const cfg: Config
    var states: map<string, Lease>
    /** the scans so far, and the attempts they brought */
    ghost var scans: seq<Scan>
    ghost var attempts: seq<Attempt>

    ghost predicate Valid()
      reads this
    {
      && (forall key :: Lookup(states, key) == Record(cfg, TrailOf(scans, key)))
      && attempts == AllAttempts(cfg, scans)
    }

    constructor (cfg: Config)
      ensures Valid() && this.cfg == cfg && states == map[] && scans == []
    {
      this.cfg := cfg;
      states, scans, attempts := map[], [], [];
    }

    /** One row with a key (plex_session_reaper.go:249-313). */
    method TakeRow(key: string, row: Row, now: Time)
      requires key == KeyOf(row) && key != ""
      modifies this`states, this`attempts
      ensures var base := if key in old(states) then old(states)[key] else NewLease(row, now);
        var l := Touch(base, row, now);
        var due := Attempts(cfg, l, now);
        && states == old(states)[key := if due then l.(lastStop := Some(now)) else l]
        && (due ==> attempts == old(attempts) + [Attempt(key, now, row.transcodeId)])
        && (!due ==> attempts == old(attempts))
    {
      hide SawActivity, KeyOf;
      if key !in states {
        states := states[key := NewLease(row, now)];
      }
      var l := states[key];
      var sawActivity := SawActivity(l, row);
      if sawActivity {
        l := l.(lastActivity := now, lastRenew := now);
      }
      if row.maxOffset > l.lastMax {
        l := l.(lastMax := row.maxOffset);
      }
      if row.transcodeTs != "" {
        l := l.(lastTs := row.transcodeTs);
      }
      states := states[key := l];
      if IdleReady(cfg, l, now) || RenewReady(cfg, l, now) || HardReady(cfg, l, now) {
        if l.lastStop.Some? && now - l.lastStop.value < THROTTLE {
          return;
        }
        states := states[key := l.(lastStop := Some(now))];
        attempts := attempts + [Attempt(key, now, row.transcodeId)];
      }
    }

    /** All rows of a listing (plex_session_reaper.go:240-314). */
    method TakeRows(rows: seq<Row>, now: Time) returns (active: set<string>)
      requires forall key :: Lookup(states, key) == Record(cfg, TrailOf(scans, key))
      modifies this`states, this`attempts
      ensures Refines(cfg, states, scans, rows, now)
      ensures attempts == old(attempts) + DueRows(cfg, scans, rows, now)
      ensures active == KeysOf(rows)
    {
      hide *;
      active := {};
      Start(cfg, states, scans, now);
      for i := 0 to |rows|
        invariant Refines(cfg, states, scans, rows[..i], now)
        invariant active == KeysOf(rows[..i])
        invariant attempts == old(attempts) + DueRows(cfg, scans, rows[..i], now)
      {
        var key := KeyOf(rows[i]);
        RowStep(cfg, states, scans, rows, now, i);
        KeysSnoc(rows, i);
        if key != "" {
          active := active + {key};
          TakeRow(key, rows[i], now);
        }
      }
      assert rows[..|rows|] == rows;
    }

    /** One scan. A failed listing changes nothing; after a successful one the tracked keys are those listed. */
    method ScanAndReap(scan: Scan)
      requires Valid()
      modifies this
      ensures Valid() && scans == old(scans) + [scan]
      ensures attempts == old(attempts) + ScanAttempts(cfg, old(scans), scan)
      ensures scan.rows.None? ==> states == old(states)
      ensures scan.rows.Some? ==> states.Keys == KeysOf(scan.rows.value)
    {
      hide Record, DueRows, KeysOf;
      ghost var before := scans;
      assert (before + [scan])[..|before|] == before;
      if scan.rows.Some? {
        var active := TakeRows(scan.rows.value, scan.now);
        Prune(cfg, states, before, scan.rows.value, scan.now);
        states := map k | k in states && k in active :: states[k];
      }
      scans := before + [scan];
    }
  }

  function KeysOf(rows: seq<Row>): set<string> {
    set r | r in rows && KeyOf(r) != "" :: KeyOf(r)
  }

  lemma {:induction false} KeysSnoc(rows: seq<Row>, i: nat)
    requires i < |rows|
    ensures KeysOf(rows[..i + 1]) == KeysOf(rows[..i]) + if KeyOf(rows[i]) == "" then {} else {KeyOf(rows[i])}
  {
    hide KeyOf;
    assert rows[..i + 1] == rows[..i] + [rows[i]];
  }

  lemma {:induction false} Start(cfg: Config, states: map<string, Lease>, before: seq<Scan>, now: Time)
    requires forall key :: Lookup(states, key) == Record(cfg, TrailOf(before, key))
    ensures Refines(cfg, states, before, [], now)
    ensures KeysOf([]) == {} && DueRows(cfg, before, [], now) == []
  {
    hide Record;
    forall key
      ensures TrailOf(before, key) + Mine([], now, key) == TrailOf(before, key)
    {
    }
  }

  /** What TakeRow does to the map, and to the attempts, is what the row adds to its session's trail. */
  lemma {:induction false} RowStep(cfg: Config, states: map<string, Lease>, before: seq<Scan>, rows: seq<Row>,
                                   now: Time, i: nat)
    requires i < |rows| && Refines(cfg, states, before, rows[..i], now)
    ensures var row, key := rows[i], KeyOf(rows[i]);
      var base := if key in states then states[key] else NewLease(row, now);
      var l := Touch(base, row, now);
      var due := Attempts(cfg, l, now);
      var next := if due then l.(lastStop := Some(now)) else l;
      && Refines(cfg, if key == "" then states else states[key := next], before, rows[..i + 1], now)
      && DueRows(cfg, before, rows[..i + 1], now) == DueRows(cfg, before, rows[..i], now)
           + if key != "" && due then [Attempt(key, now, row.transcodeId)] else []
  {
    hide Touch, Attempts, Due, NewLease, KeyOf, Record, TrailOf, Mine;
    var row, key := rows[i], KeyOf(rows[i]);
    var t := TrailOf(before, key) + Mine(rows[..i], now, key);
    assert rows[..i + 1][..i] == rows[..i];
    assert Lookup(states, key) == Record(cfg, t);
    RecordedIff(cfg, t);
    RecordNext(cfg, t, Obs(now, row));
    forall k {
      MineStep(rows, now, i, k);
    }
    if key != "" {
      assert t + [Obs(now, row)] == TrailOf(before, key) + Mine(rows[..i + 1], now, key);
    }
    forall k | k != key || key == ""
      ensures Mine(rows[..i + 1], now, k) == Mine(rows[..i], now, k)
    {
      MineStep(rows, now, i, k);
    }
  }

  lemma {:induction false} MineIff(rows: seq<Row>, now: Time, key: string)
    ensures Mine(rows, now, key) != [] <==> key != "" && exists r :: r in rows && KeyOf(r) == key
  {
    hide KeyOf;
    if rows != [] {
      var n := |rows| - 1;
      assert rows == rows[..n] + [rows[n]];
      MineIff(rows[..n], now, key);
    }
  }

  lemma {:induction false} Prune(cfg: Config, states: map<string, Lease>, before: seq<Scan>, rows: seq<Row>, now: Time)
    requires Refines(cfg, states, before, rows, now)
    ensures var kept := map k | k in states && k in KeysOf(rows) :: states[k];
      && kept.Keys == KeysOf(rows)
      && forall key :: Lookup(kept, key) == Record(cfg, TrailOf(before + [Scan(Some(rows), now)], key))
  {
    hide KeyOf, After;
    assert (before + [Scan(Some(rows), now)])[..|before|] == before;
    forall key
      ensures key in KeysOf(rows) <==> Mine(rows, now, key) != []
      ensures key in KeysOf(rows) ==> key in states
    {
      MineIff(rows, now, key);
      assert Lookup(states, key) == Record(cfg, TrailOf(before, key) + Mine(rows, now, key));
    }
  }

  // ---- whole runs --------------------------------------------------------

  ghost predicate Chronological(scans: seq<Scan>) {
    forall i, j :: 0 <= i <= j < |scans| ==> scans[i].now <= scans[j].now
  }

  lemma {:induction false} MineNow(rows: seq<Row>, now: Time, key: string)
    ensures forall i :: 0 <= i < |Mine(rows, now, key)| ==> Mine(rows, now, key)[i].now == now
  {
    if rows != [] {
      MineNow(rows[..|rows| - 1], now, key);
    }
  }

  lemma {:induction false} TrailOrdered(scans: seq<Scan>, key: string)
    requires Chronological(scans)
    ensures Ordered(TrailOf(scans, key))
    ensures forall i :: 0 <= i < |TrailOf(scans, key)| ==> TrailOf(scans, key)[i].now <= scans[|scans| - 1].now
  {
    if scans != [] {
      var n := |scans| - 1;
      TrailOrdered(scans[..n], key);
      hide Mine;
      if scans[n].rows.Some? {
        MineNow(scans[n].rows.value, scans[n].now, key);
      }
    }
  }

  /** At every moment of a run, for every tracked session: activity and renewal agree, and lie between the
      session's first scan and the latest one. */
  lemma {:induction false} RecordsInOrder(cfg: Config, scans: seq<Scan>, key: string)
    requires Chronological(scans) && TrailOf(scans, key) != []
    ensures var l := Record(cfg, TrailOf(scans, key)).value;
      && l.lastActivity == l.lastRenew
      && l.firstSeen <= l.lastActivity <= scans[|scans| - 1].now
  {
    TrailOrdered(scans, key);
    LeaseInOrder(cfg, TrailOf(scans, key), |TrailOf(scans, key)| - 1);
  }

  /** An attempt of a scan is a due observation among those the scan adds to the session's trail. */
  lemma {:induction false} AttemptMeans(cfg: Config, before: seq<Scan>, rows: seq<Row>, now: Time, a: Attempt)
      returns (n: nat)
    requires a in DueRows(cfg, before, rows, now)
    ensures var t := TrailOf(before, a.key) + Mine(rows, now, a.key);
      && |TrailOf(before, a.key)| <= n < |t| && Due(cfg, t, n) && t[n].now == now == a.at
      && Mine(rows, now, a.key) != []
  {
    hide Due, TrailOf, KeyOf;
    var m := |rows| - 1;
    var t := TrailOf(before, a.key) + Mine(rows, now, a.key);
    var u := TrailOf(before, a.key) + Mine(rows[..m], now, a.key);
    assert u <= t;
    if a in DueRows(cfg, before, rows[..m], now) {
      n := AttemptMeans(cfg, before, rows[..m], now, a);
      OnlyThePast(cfg, u, t, n);
    } else {
      n := |t| - 1;
      MineNow(rows, now, a.key);
    }
  }

  ghost predicate Listed(scan: Scan, key: string) {
    scan.rows.Some? ==> Mine(scan.rows.value, scan.now, key) != []
  }

  lemma {:induction false} TrailGrows(scans: seq<Scan>, i: nat, j: nat, key: string)
    requires i <= j <= |scans| && forall m :: i <= m < j ==> Listed(scans[m], key)
    ensures TrailOf(scans[..i], key) <= TrailOf(scans[..j], key)
  {
    hide Mine;
    if i < j {
      TrailGrows(scans, i, j - 1, key);
      assert scans[..j][..j - 1] == scans[..j - 1] && scans[..j][j - 1] == scans[j - 1];
    }
  }

  /** Over a whole run: two attempts on a session that was listed by every successful scan in between are at least
      10 seconds apart. */
  lemma {:induction false} AttemptsApartOverRuns(cfg: Config, scans: seq<Scan>, i: nat, j: nat, a: Attempt, b: Attempt)
    requires Chronological(scans) && i < j < |scans| && a.key == b.key
    requires a in ScanAttempts(cfg, scans[..i], scans[i]) && b in ScanAttempts(cfg, scans[..j], scans[j])
    requires forall m :: i < m < j ==> Listed(scans[m], a.key)
    ensures b.at - a.at >= THROTTLE
  {
    hide Due, Ordered, Mine, TrailOf;
    var key := a.key;
    var n := AttemptMeans(cfg, scans[..i], scans[i].rows.value, scans[i].now, a);
    var k := AttemptMeans(cfg, scans[..j], scans[j].rows.value, scans[j].now, b);
    TrailAt(scans, i, key);
    TrailAt(scans, j, key);
    TrailGrows(scans, i + 1, j, key);
    var t, u := TrailOf(scans[..i + 1], key), TrailOf(scans[..j + 1], key);
    assert t <= u;
    OnlyThePast(cfg, t, u, n);
    TrailOrdered(scans[..j + 1], key);
    AttemptsApart(cfg, u, n, k);
  }

  lemma {:induction false} TrailAt(scans: seq<Scan>, i: nat, key: string)
    requires i < |scans| && scans[i].rows.Some? && Mine(scans[i].rows.value, scans[i].now, key) != []
    ensures TrailOf(scans[..i + 1], key) ==
              TrailOf(scans[..i], key) + Mine(scans[i].rows.value, scans[i].now, key)
  {
    hide Mine;
    assert scans[..i + 1][..i] == scans[..i];
  }

  /** A session that a scan has attempted is not due at a later row of that scan. */
  lemma {:induction false} NotTwice(cfg: Config, before: seq<Scan>, rows: seq<Row>, now: Time, m: nat, a: Attempt)
    requires Chronological(before) && forall i :: 0 <= i < |before| ==> before[i].now <= now
    requires |rows| == m + 1 && a in DueRows(cfg, before, rows[..m], now)
    requires a.key != "" && KeyOf(rows[m]) == a.key
    ensures var t := TrailOf(before, a.key) + Mine(rows, now, a.key); |t| > 0 && !Due(cfg, t, |t| - 1)
  {
    hide Due, Ordered, TrailOf, KeyOf, Mine, DueRows, Chronological;
    var key := a.key;
    var u, t := TrailOf(before, key) + Mine(rows[..m], now, key), TrailOf(before, key) + Mine(rows, now, key);
    var n := AttemptMeans(cfg, before, rows[..m], now, a);
    MineStep(rows, now, m, key);
    assert rows[..m + 1] == rows;
    assert t == u + [Obs(now, rows[m])];
    OnlyThePast(cfg, u, t, n);
    SameScanOrdered(before, rows, now, key);
    if Due(cfg, t, |t| - 1) {
      AttemptsApart(cfg, t, n, |t| - 1);
      assert false;
    }
  }

  /** One scan never attempts the same session twice, however often Plex lists it. */
  lemma {:induction false} OncePerScan(cfg: Config, before: seq<Scan>, rows: seq<Row>, now: Time, i: nat, j: nat)
    requires Chronological(before) && forall i :: 0 <= i < |before| ==> before[i].now <= now
    requires i < j < |DueRows(cfg, before, rows, now)|
    ensures var d := DueRows(cfg, before, rows, now); d[i].key != d[j].key
  {
    hide Due, TrailOf, KeyOf, Mine, Chronological;
    var m := |rows| - 1;
    var e := DueRows(cfg, before, rows[..m], now);
    if j < |e| {
      OncePerScan(cfg, before, rows[..m], now, i, j);
    } else if e[i].key == KeyOf(rows[m]) && e[i].key != "" {
      NotTwice(cfg, before, rows, now, m, e[i]);
    }
  }

  lemma {:induction false} SameScanOrdered(before: seq<Scan>, rows: seq<Row>, now: Time, key: string)
    requires Chronological(before) && forall i :: 0 <= i < |before| ==> before[i].now <= now
    ensures Ordered(TrailOf(before, key) + Mine(rows, now, key))
  {
    hide Mine;
    assert before == [] ==> TrailOf(before, key) == [];
    TrailOrdered(before, key);
    hide TrailOf;
    MineNow(rows, now, key);
  }

  // ---- a still session is attempted --------------------------------------

  lemma {:induction false} AttemptsConcat(cfg: Config, before: seq<Scan>, scan: Scan)
    ensures AllAttempts(cfg, before + [scan]) == AllAttempts(cfg, before) + ScanAttempts(cfg, before, scan)
  {
    assert (before + [scan])[..|before|] == before;
  }

  /** The other way round from AttemptMeans: a due observation that a scan adds is an attempt of that scan. */
  lemma {:induction false} DueIsAttempted(cfg: Config, before: seq<Scan>, rows: seq<Row>, now: Time, key: string,
                                          n: nat)
      returns (a: Attempt)
    requires var t := TrailOf(before, key) + Mine(rows, now, key);
      |TrailOf(before, key)| <= n < |t| && Due(cfg, t, n)
    ensures a in DueRows(cfg, before, rows, now) && a.key == key && a.at == now
  {
    hide Due, TrailOf, KeyOf;
    var m := |rows| - 1;
    var t := TrailOf(before, key) + Mine(rows, now, key);
    var u := TrailOf(before, key) + Mine(rows[..m], now, key);
    assert u <= t;
    if n < |u| {
      OnlyThePast(cfg, u, t, n);
      a := DueIsAttempted(cfg, before, rows[..m], now, key, n);
    } else {
      a := Attempt(key, now, rows[m].transcodeId);
    }
  }

  /** Over a run: every due observation of a tracked session's trail is among the attempts. */
  lemma {:induction false} DueIsInRun(cfg: Config, scans: seq<Scan>, key: string, n: nat) returns (a: Attempt)
    requires n < |TrailOf(scans, key)| && Due(cfg, TrailOf(scans, key), n)
    ensures a in AllAttempts(cfg, scans) && a.key == key && a.at == TrailOf(scans, key)[n].now
  {
    hide Due, Mine, DueRows;
    var m := |scans| - 1;
    var t, u := TrailOf(scans, key), TrailOf(scans[..m], key);
    if n < |u| {
      assert u <= t;
      OnlyThePast(cfg, u, t, n);
      a := DueIsInRun(cfg, scans[..m], key, n);
    } else {
      var rows, now := scans[m].rows.value, scans[m].now;
      MineNow(rows, now, key);
      a := DueIsAttempted(cfg, scans[..m], rows, now, key, n);
    }
  }

  /** From scan i on, every scan succeeds, lists the session and comes at most `gap` after the one before. */
  ghost predicate Watched(scans: seq<Scan>, key: string, i: nat, gap: Time) {
    && i < |scans|
    && (forall j :: i <= j < |scans| ==> scans[j].rows.Some? && Listed(scans[j], key))
    && (forall j :: i < j < |scans| ==> Gap(scans, j) <= gap)
  }

  function Gap(scans: seq<Scan>, j: nat): Time
    requires 0 < j < |scans|
  {
    scans[j].now - scans[j - 1].now
  }

  /** Scans that go on meet any time at most one gap late. */
  lemma {:induction false} FirstScanAt(scans: seq<Scan>, i: nat, y: Time, gap: Time) returns (d: nat)
    requires i < |scans| && scans[i].now < y <= scans[|scans| - 1].now
    requires forall j :: i < j < |scans| ==> Gap(scans, j) <= gap
    ensures i < d < |scans| && y <= scans[d].now <= y + gap && scans[d - 1].now < y
    decreases |scans| - i
  {
    if scans[i + 1].now >= y {
      d := i + 1;
      assert Gap(scans, d) <= gap;
    } else {
      d := FirstScanAt(scans, i + 1, y, gap);
    }
  }

  /** The trail of a session at a scan that lists it ends at that scan. */
  lemma {:induction false} TrailEnds(scans: seq<Scan>, key: string, d: nat)
    requires d < |scans| && scans[d].rows.Some? && Listed(scans[d], key)
    ensures var t := TrailOf(scans[..d + 1], key); t != [] && t[|t| - 1].now == scans[d].now
  {
    hide Mine;
    TrailAt(scans, d, key);
    MineNow(scans[d].rows.value, scans[d].now, key);
  }

  lemma {:induction false} StillEarlier(t: Trail, u: Trail, x: Time)
    requires t <= u && t != [] && StillSince(u, x)
    ensures StillSince(t, x)
  {
    hide Moves;
    forall k | 0 < k < |t| && t[k].now > x
      ensures !Moves(t, k)
    {
      MovesPast(t, u, k);
    }
  }

  lemma {:induction false} MovesPast(t: Trail, u: Trail, k: nat)
    requires 0 < k < |t| && t <= u
    ensures Moves(t, k) == Moves(u, k)
  {
    PeakPast(t, u, k - 1);
  }

  lemma {:induction false} PeakPast(t: Trail, u: Trail, k: nat)
    requires k < |t| && t <= u
    ensures Peak(t, k) == Peak(u, k) && Stamp(t, k) == Stamp(u, k)
  {
    if k > 0 {
      PeakPast(t, u, k - 1);
    }
  }

  lemma {:induction false} AttemptsGrow(cfg: Config, scans: seq<Scan>, d: nat)
    requires d <= |scans|
    ensures AllAttempts(cfg, scans[..d]) <= AllAttempts(cfg, scans)
    decreases |scans| - d
  {
    hide ScanAttempts;
    if d == |scans| {
      assert scans[..d] == scans;
    } else {
      AttemptsGrow(cfg, scans, d + 1);
      assert scans[..d + 1] == scans[..d] + [scans[d]];
      AttemptsConcat(cfg, scans[..d], scans[d]);
    }
  }

  /** Liveness over whole runs. While scans succeed, list the session and come with gaps of at most `gap`: if it has not
      moved since x, a run that goes on for the threshold (of at least 10 seconds) after x has attempted to stop it
      after x, within the threshold and one gap. */
  lemma {:induction false} StillIsAttempted(cfg: Config, scans: seq<Scan>, key: string, i: nat, gap: Time, x: Time)
      returns (a: Attempt)
    requires Chronological(scans) && Watched(scans, key, i, gap) && scans[i].now <= x
    requires StillSince(TrailOf(scans, key), x)
    requires Threshold(cfg).Some? && Threshold(cfg).value >= THROTTLE
    requires x + Threshold(cfg).value <= scans[|scans| - 1].now
    ensures a in AllAttempts(cfg, scans) && a.key == key && x < a.at <= x + Threshold(cfg).value + gap
  {
    hide Due, Mine, TrailOf, StillSince, Threshold, Moves, Ordered, AllAttempts;
    var d := FirstScanAt(scans, i, x + Threshold(cfg).value, gap);
    var t := TrailOf(scans[..d + 1], key);
    TrailEnds(scans, key, d);
    TrailGrows(scans, d + 1, |scans|, key);
    assert scans[..|scans|] == scans;
    StillEarlier(t, TrailOf(scans, key), x);
    TrailOrdered(scans[..d + 1], key);
    var k := AttemptInTime(cfg, t, x);
    a := DueIsInRun(cfg, scans[..d + 1], key, k);
    AttemptsGrow(cfg, scans, d + 1);
    OrderedEnd(t, k);
  }

  lemma {:induction false} OrderedEnd(t: Trail, k: nat)
    requires Ordered(t) && k < |t|
    ensures t[k].now <= t[|t| - 1].now
  {
  }

  /** The session was attempted at some scan from i on, after lo and not after hi. */
  ghost predicate AttemptedWithin(cfg: Config, scans: seq<Scan>, key: string, i: nat, lo: Time, hi: Time) {
    exists j, a :: i <= j < |scans| && a in ScanAttempts(cfg, scans[..j], scans[j]) && a.key == key && lo < a.at <= hi
  }

  /** A due observation of a session that appeared at scan i or later is an attempt of one of the scans since. */
  lemma {:induction false} DueAtScan(cfg: Config, scans: seq<Scan>, key: string, i: nat, n: nat)
      returns (j: nat, a: Attempt)
    requires i <= |scans| && TrailOf(scans[..i], key) == []
    requires n < |TrailOf(scans, key)| && Due(cfg, TrailOf(scans, key), n)
    ensures i <= j < |scans| && a in ScanAttempts(cfg, scans[..j], scans[j])
    ensures a.key == key && a.at == TrailOf(scans, key)[n].now
  {
    hide Due, Mine, DueRows;
    assert scans[..|scans|] == scans;
    var m := |scans| - 1;
    var t, u := TrailOf(scans, key), TrailOf(scans[..m], key);
    if n < |u| {
      assert u <= t && scans[..m][..i] == scans[..i];
      OnlyThePast(cfg, u, t, n);
      j, a := DueAtScan(cfg, scans[..m], key, i, n);
      assert scans[..m][..j] == scans[..j];
    } else {
      var rows, now := scans[m].rows.value, scans[m].now;
      MineNow(rows, now, key);
      a := DueIsAttempted(cfg, scans[..m], rows, now, key, n);
      j := m;
    }
  }

  /** ... and conversely. */
  lemma {:induction false} AttemptedIsDue(cfg: Config, scans: seq<Scan>, key: string, j: nat, a: Attempt)
      returns (n: nat)
    requires j < |scans| && a in ScanAttempts(cfg, scans[..j], scans[j]) && a.key == key
    requires forall m :: j <= m < |scans| ==> Listed(scans[m], key)
    ensures n < |TrailOf(scans, key)| && Due(cfg, TrailOf(scans, key), n) && TrailOf(scans, key)[n].now == a.at
  {
    hide Due, Mine, TrailOf;
    n := AttemptMeans(cfg, scans[..j], scans[j].rows.value, scans[j].now, a);
    TrailAt(scans, j, key);
    TrailGrows(scans, j + 1, |scans|, key);
    assert scans[..|scans|] == scans;
    OnlyThePast(cfg, TrailOf(scans[..j + 1], key), TrailOf(scans, key), n);
  }

  /** The attempts of the scans that list a session, from the one where it appeared, are its due observations. */
  lemma {:induction false} AttemptedIffDue(cfg: Config, scans: seq<Scan>, key: string, i: nat, lo: Time, hi: Time)
    requires i <= |scans| && TrailOf(scans[..i], key) == []
    requires forall m :: i <= m < |scans| ==> Listed(scans[m], key)
    ensures AttemptedWithin(cfg, scans, key, i, lo, hi) <==> DueWithin(cfg, TrailOf(scans, key), lo, hi)
  {
    hide Due, ScanAttempts, TrailOf, Listed;
    if AttemptedWithin(cfg, scans, key, i, lo, hi) {
      var j, a :| i <= j < |scans| && a in ScanAttempts(cfg, scans[..j], scans[j]) && a.key == key && lo < a.at <= hi;
      var n := AttemptedIsDue(cfg, scans, key, j, a);
    }
    if DueWithin(cfg, TrailOf(scans, key), lo, hi) {
      var n :| 0 <= n < |TrailOf(scans, key)| && Due(cfg, TrailOf(scans, key), n)
        && lo < TrailOf(scans, key)[n].now <= hi;
      var j, a := DueAtScan(cfg, scans, key, i, n);
    }
  }

  /** The throttle over whole runs. For a session listed by every scan since it appeared at scan i and still since x, and
      any scan d at which it is overdue, whatever the threshold and the hard lease: it has been attempted after x, by
      scan d, exactly when no attempt was made in the 10 seconds before scan d and up to x. */
  lemma {:induction false} StillIsAttemptedIff(cfg: Config, scans: seq<Scan>, key: string, i: nat, gap: Time, x: Time,
                                               d: nat)
    requires Chronological(scans) && Watched(scans, key, i, gap) && TrailOf(scans[..i], key) == []
    requires StillSince(TrailOf(scans, key), x) && Threshold(cfg).Some?
    requires i < d < |scans| && x + Threshold(cfg).value <= scans[d].now
    ensures AttemptedWithin(cfg, scans[..d + 1], key, i, x, scans[d].now) <==>
              !AttemptedWithin(cfg, scans[..d + 1], key, i, scans[d].now - THROTTLE, x)
  {
    hide Due, Mine, TrailOf, Threshold, Moves, Ordered, ScanAttempts, AttemptedWithin, DueWithin, StillSince;
    var run := scans[..d + 1];
    var t := TrailOf(run, key);
    TrailEnds(scans, key, d);
    TrailGrows(scans, d + 1, |scans|, key);
    assert scans[..|scans|] == scans;
    StillEarlier(t, TrailOf(scans, key), x);
    TrailOrdered(run, key);
    AttemptInTimeIff(cfg, t, x);
    assert run[..i] == scans[..i];
    AttemptedIffDue(cfg, run, key, i, x, scans[d].now);
    AttemptedIffDue(cfg, run, key, i, scans[d].now - THROTTLE, x);
  }

  /** The last scan not after y. */
  lemma {:induction false} LastScanBy(scans: seq<Scan>, i: nat, y: Time) returns (d: nat)
    requires i < |scans| && scans[i].now <= y
    ensures i <= d < |scans| && scans[d].now <= y && forall j :: d < j < |scans| ==> y < scans[j].now
    decreases |scans|
  {
    var m := |scans| - 1;
    if scans[m].now <= y {
      d := m;
    } else {
      d := LastScanBy(scans[..m], i, y);
    }
  }

  /** Attempts later than hi do not count. */
  lemma {:induction false} WithinPrefix(cfg: Config, scans: seq<Scan>, key: string, i: nat, d: nat, lo: Time, hi: Time)
    requires d < |scans| && forall j :: d < j < |scans| ==> hi < scans[j].now
    ensures AttemptedWithin(cfg, scans, key, i, lo, hi) <==> AttemptedWithin(cfg, scans[..d + 1], key, i, lo, hi)
  {
    hide DueRows;
    var run := scans[..d + 1];
    assert forall j :: 0 <= j <= d ==> run[..j] == scans[..j] && run[j] == scans[j];
    if AttemptedWithin(cfg, scans, key, i, lo, hi) {
      var j, a :| i <= j < |scans| && a in ScanAttempts(cfg, scans[..j], scans[j]) && a.key == key && lo < a.at <= hi;
      AttemptsNow(cfg, scans[..j], scans[j], a);
      assert a in ScanAttempts(cfg, run[..j], run[j]);
    }
    if AttemptedWithin(cfg, run, key, i, lo, hi) {
      var j, a :| i <= j < |run| && a in ScanAttempts(cfg, run[..j], run[j]) && a.key == key && lo < a.at <= hi;
      assert a in ScanAttempts(cfg, scans[..j], scans[j]);
    }
  }

  lemma {:induction false} AttemptsNow(cfg: Config, before: seq<Scan>, scan: Scan, a: Attempt)
    requires a in ScanAttempts(cfg, before, scan)
    ensures a.at == scan.now
  {
    hide DueRows, Due, TrailOf, Mine;
    var n := AttemptMeans(cfg, before, scan.rows.value, scan.now, a);
  }

  /** In time, exactly: with gaps of at most `gap`, a session still since x is attempted after x and within the threshold
      and one gap if and only if no attempt was made in the 10 seconds before the last scan within that deadline and up
      to x. */
  lemma {:induction false} InTimeIff(cfg: Config, scans: seq<Scan>, key: string, i: nat, gap: Time, x: Time)
      returns (d: nat)
    requires Chronological(scans) && Watched(scans, key, i, gap) && TrailOf(scans[..i], key) == []
    requires StillSince(TrailOf(scans, key), x)
    requires Threshold(cfg).Some? && x + Threshold(cfg).value <= scans[|scans| - 1].now
    ensures var deadline := x + Threshold(cfg).value + gap;
      && i < d < |scans| && x + Threshold(cfg).value <= scans[d].now <= deadline
      && (forall j :: d < j < |scans| ==> deadline < scans[j].now)
      && (AttemptedWithin(cfg, scans, key, i, x, deadline) <==>
            !AttemptedWithin(cfg, scans, key, i, scans[d].now - THROTTLE, x))
  {
    hide Due, Mine, TrailOf, Threshold, Moves, Ordered, ScanAttempts, AttemptedWithin, DueWithin, StillSince;
    ThresholdPositive(cfg);
    AppearedAt(scans, key, i);
    TrailGrows(scans, i + 1, |scans|, key);
    assert scans[..|scans|] == scans;
    StillSinceFirst(TrailOf(scans, key), x);
    var deadline := x + Threshold(cfg).value + gap;
    var first := FirstScanAt(scans, i, x + Threshold(cfg).value, gap);
    d := LastScanBy(scans, first, deadline);
    StillIsAttemptedIff(cfg, scans, key, i, gap, x, d);
    WithinPrefix(cfg, scans, key, i, d, x, deadline);
    WithinPrefix(cfg, scans, key, i, d, scans[d].now - THROTTLE, x);
    WithinEnd(cfg, scans[..d + 1], key, i, x, deadline);
  }

  lemma StillSinceFirst(t: Trail, x: Time)
    requires StillSince(t, x)
    ensures t != [] && t[0].now <= x
  {
  }

  /** A trail begins with the scan at which the session appeared. */
  lemma {:induction false} AppearedAt(scans: seq<Scan>, key: string, i: nat)
    requires i < |scans| && scans[i].rows.Some? && Listed(scans[i], key) && TrailOf(scans[..i], key) == []
    ensures var t := TrailOf(scans[..i + 1], key); t != [] && t[0].now == scans[i].now
  {
    hide Mine;
    TrailAt(scans, i, key);
    MineNow(scans[i].rows.value, scans[i].now, key);
  }

  /** No attempt is later than the last scan. */
  lemma {:induction false} WithinEnd(cfg: Config, run: seq<Scan>, key: string, i: nat, lo: Time, hi: Time)
    requires Chronological(run) && run != [] && run[|run| - 1].now <= hi
    ensures AttemptedWithin(cfg, run, key, i, lo, hi) <==> AttemptedWithin(cfg, run, key, i, lo, run[|run| - 1].now)
  {
    hide ScanAttempts;
    forall j, a | i <= j < |run| && a in ScanAttempts(cfg, run[..j], run[j])
      ensures a.at <= run[|run| - 1].now
    {
      AttemptsNow(cfg, run[..j], run[j], a);
    }
  }

  // ---- a session that is not attempted in time ---------------------------

  function OneRow(o: Obs): Scan {
    Scan(Some([o.row]), o.now)
  }

  /** The scans that make a trail, one row each. */
  function ScansFrom(t: Trail): seq<Scan> {
    seq(|t|, k requires 0 <= k < |t| => OneRow(t[k]))
  }

  lemma {:induction false} TrailOfScans(t: Trail, key: string)
    requires key != "" && forall k :: 0 <= k < |t| ==> KeyOf(t[k].row) == key
    ensures TrailOf(ScansFrom(t), key) == t
    ensures forall k :: 0 <= k < |t| ==> Listed(ScansFrom(t)[k], key)
  {
    hide KeyOf;
    forall k | 0 <= k < |t|
      ensures Mine([t[k].row], t[k].now, key) == [t[k]]
    {
      assert [t[k].row][..0] == [];
    }
    if t != [] {
      var n := |t| - 1;
      TrailOfScans(t[..n], key);
      assert ScansFrom(t)[..n] == ScansFrom(t[..n]);
      assert t == t[..n] + [t[n]];
    }
  }

  /** A run with scans every second and a threshold of one second in which a session, moved at 2 s and still since, is
      not attempted by 4 s, the threshold and one gap after its move. */
  lemma {:induction false} ThrottleMissesDeadline()
    ensures var scans, key, x := ScansFrom(Throttled()), "k", 2 * SECOND;
      && Chronological(scans) && Watched(scans, key, 0, SECOND) && StillSince(TrailOf(scans, key), x)
      && scans[|scans| - 1].now == x + Threshold(SHORT).value + SECOND
      && !AttemptedWithin(SHORT, scans, key, 0, x, x + Threshold(SHORT).value + SECOND)
  {
    hide Due, StillSince, DueWithin, Ordered, TrailOf, AttemptedWithin, Mine;
    ThrottleDelays();
    var t := Throttled();
    TrailOfScans(t, "k");
    assert ScansFrom(t)[..0] == [];
    NoScansNoTrail("k");
    AttemptedIffDue(SHORT, ScansFrom(t), "k", 0, 2 * SECOND, 4 * SECOND);
  }

  lemma NoScansNoTrail(key: string)
    ensures TrailOf([], key) == []
  {
  }
}
