/** internal/tuner/ghost_hunter.go:99-273: a second copy of the reaper's bookkeeping, observed for a while and then
    reported. */
module GhostHunter {
  import opened Bytes
  import opened SessionLease
  import opened SessionReaper

  /** One turn of the observation loop: the listing, the time elapsed when the window is checked, and whether the
      context ends the wait. */
  datatype Round = Round(scan: Scan, elapsed: Time, cancelled: bool)

  datatype Item = Item(key: string, row: Row, idle: bool, renew: bool, hard: bool, stopped: bool)

  datatype Outcome = Observed | ListingFailed | Cancelled | StillObserving

  predicate Stale(i: Item) {
    i.idle || i.renew || i.hard
  }

  /** The hunter's record of a trail: the reaper's, which it never lets stop anything. */
  function Noted(t: Trail, n: nat): Lease
    requires n < |t|
  {
    if n == 0 then NewLease(t[0].row, t[0].now) else Touch(Noted(t, n - 1), t[n].row, t[n].now)
  }

  function NoteOf(t: Trail): Option<Lease> {
    if t == [] then None else Some(Noted(t, |t| - 1))
  }

  function LastRow(t: Trail): Option<Row> {
    if t == [] then None else Some(t[|t| - 1].row)
  }

  function LookupRow(rows: map<string, Row>, key: string): Option<Row> {
    if key in rows then Some(rows[key]) else None
  }

  function ScansOf(rounds: seq<Round>): seq<Scan> {
    if rounds == [] then [] else ScansOf(rounds[..|rounds| - 1]) + [rounds[|rounds| - 1].scan]
  }

  /** The line of the report for a session that has been observed so. */
  function ItemOf(cfg: Config, key: string, t: Trail, now: Time, stop: bool): Item
    requires t != []
  {
    var l, row := Noted(t, |t| - 1), t[|t| - 1].row;
    var stale := Ready(cfg, l, now);
    Item(key, row, IdleReady(cfg, l, now), RenewReady(cfg, l, now), HardReady(cfg, l, now),
         stop && stale && row.transcodeId != "")
  }

  /** The records and the last rows are those of every session's trail. */
  ghost predicate Keeps(states: map<string, Lease>, last: map<string, Row>, before: seq<Scan>, rows: seq<Row>,
                        now: Time) {
    forall key ::
      var t := TrailOf(before, key) + Mine(rows, now, key);
      Lookup(states, key) == NoteOf(t) && LookupRow(last, key) == LastRow(t)
  }

  lemma NotedIff(t: Trail)
    ensures NoteOf(t).Some? <==> t != []
  {
  }

  lemma {:induction false} NoteNext(t: Trail, o: Obs)
    ensures NoteOf(t + [o]) == Some(if t == [] then NewLease(o.row, o.now) else Touch(NoteOf(t).value, o.row, o.now))
    ensures LastRow(t + [o]) == Some(o.row)
  {
    hide Touch, NewLease;
    if t != [] {
      NotedPast(t, t + [o], |t| - 1);
    }
  }

  lemma {:induction false} NotedPast(t: Trail, u: Trail, n: nat)
    requires n < |t| && t <= u
    ensures Noted(t, n) == Noted(u, n)
  {
    if n > 0 {
      NotedPast(t, u, n - 1);
    }
  }

  lemma {:induction false} NoteStep(states: map<string, Lease>, last: map<string, Row>, before: seq<Scan>,
                                    rows: seq<Row>, now: Time,
                 i: nat)
    requires i < |rows| && Keeps(states, last, before, rows[..i], now)
    ensures var row, key := rows[i], KeyOf(rows[i]);
      var next := if key in states then Touch(states[key], row, now) else NewLease(row, now);
      Keeps(if key == "" then states else states[key := next], if key == "" then last else last[key := row],
            before, rows[..i + 1], now)
  {
    hide Touch, NewLease, KeyOf, NoteOf, LastRow, TrailOf, Mine;
    var row, key := rows[i], KeyOf(rows[i]);
    var t := TrailOf(before, key) + Mine(rows[..i], now, key);
    assert Lookup(states, key) == NoteOf(t);
    NotedIff(t);
    NoteNext(t, Obs(now, row));
    if key != "" {
      MineStep(rows, now, i, key);
      assert t + [Obs(now, row)] == TrailOf(before, key) + Mine(rows[..i + 1], now, key);
    }
    forall k | k != key || key == ""
      ensures Mine(rows[..i + 1], now, k) == Mine(rows[..i], now, k)
    {
      MineStep(rows, now, i, k);
    }
  }

  lemma {:induction false} NoteStart(states: map<string, Lease>, last: map<string, Row>, before: seq<Scan>, now: Time)
    requires Matches(states, last, before)
    ensures Keeps(states, last, before, [], now) && KeysOf([]) == {}
  {
    hide NoteOf, LastRow;
    forall key
      ensures TrailOf(before, key) + Mine([], now, key) == TrailOf(before, key)
    {
    }
  }

  ghost predicate Matches(states: map<string, Lease>, last: map<string, Row>, scans: seq<Scan>) {
    forall key ::
      Lookup(states, key) == NoteOf(TrailOf(scans, key)) && LookupRow(last, key) == LastRow(TrailOf(scans, key))
  }

  lemma {:induction false} NotePrune(states: map<string, Lease>, last: map<string, Row>, before: seq<Scan>,
                                     rows: seq<Row>, now: Time)
    requires Keeps(states, last, before, rows, now)
    ensures Matches(map k | k in states && k in KeysOf(rows) :: states[k],
                    map k | k in last && (k in KeysOf(rows) || k !in states) :: last[k],
                    before + [Scan(Some(rows), now)])
  {
    hide KeyOf, Noted;
    assert (before + [Scan(Some(rows), now)])[..|before|] == before;
    forall key
      ensures key in KeysOf(rows) <==> Mine(rows, now, key) != []
    {
      MineIff(rows, now, key);
    }
  }

  /** The observation window is over when this round checks it; a window of 0 or less is over at once. */
  predicate Over(observe: Time, round: Round) {
    observe <= 0 || round.elapsed >= observe
  }

  predicate GoesOn(observe: Time, round: Round) {
    round.scan.rows.Some? && !Over(observe, round) && !round.cancelled
  }

  /** How the observation ends is up to the first round that does not go on. */
  predicate Ends(observe: Time, rounds: seq<Round>, outcome: Outcome, seen: nat) {
    && seen <= |rounds|
    && (forall i :: 0 <= i < seen - 1 ==> GoesOn(observe, rounds[i]))
    && match outcome {
         case Observed => seen > 0 && rounds[seen - 1].scan.rows.Some? && Over(observe, rounds[seen - 1])
         case Cancelled =>
           && seen > 0 && rounds[seen - 1].scan.rows.Some?
           && !Over(observe, rounds[seen - 1]) && rounds[seen - 1].cancelled
         case ListingFailed =>
           && seen < |rounds| && rounds[seen].scan.rows.None?
           && forall i :: 0 <= i < seen ==> GoesOn(observe, rounds[i])
         case StillObserving => seen == |rounds| && forall i :: 0 <= i < seen ==> GoesOn(observe, rounds[i])
       }
  }

  class Hunter {
    const cfg: Config
    var states: map<string, Lease>
    var rowsByKey: map<string, Row>

    constructor (cfg: Config)
      ensures this.cfg == cfg && states == map[] && rowsByKey == map[]
    {
      this.cfg, states, rowsByKey := cfg, map[], map[];
    }

    /** One row with a key (ghost_hunter.go:143-173). */
    method TakeRow(key: string, row: Row, now: Time)
      modifies this`states, this`rowsByKey
      ensures rowsByKey == old(rowsByKey)[key := row]
      ensures states == old(states)[key := if key in old(states) then Touch(old(states)[key], row, now)
                                           else NewLease(row, now)]
    {
      hide SawActivity;
      rowsByKey := rowsByKey[key := row];
      if key !in states {
        states := states[key := NewLease(row, now)];
        return;
      }
      var l := states[key];
      var sawActivity := SawActivity(l, row);
      if sawActivity {
        l := l.(lastActivity := now, lastRenew := now);
      }
      if row.maxOffset > l.lastMax {
        l := l.(lastMax := row.maxOffset);
      }
      if row.transcodeTs != "" {
        l := l.(lastTs := row.transcodeTs);
      }
      states := states[key := l];
    }

    /** One listing (ghost_hunter.go:133-180). */
    method TakeListing(rows: seq<Row>, now: Time, ghost before: seq<Scan>)
      requires Matches(states, rowsByKey, before)
      modifies this`states, this`rowsByKey
      ensures Matches(states, rowsByKey, before + [Scan(Some(rows), now)])
    {
      hide *;
      var active: set<string> := {};
      NoteStart(states, rowsByKey, before, now);
      for i := 0 to |rows|
        invariant Keeps(states, rowsByKey, before, rows[..i], now)
        invariant active == KeysOf(rows[..i])
      {
        var key := KeyOf(rows[i]);
        NoteStep(states, rowsByKey, before, rows, now, i);
        KeysSnoc(rows, i);
        if key != "" {
          active := active + {key};
          TakeRow(key, rows[i], now);
        }
      }
      assert rows[..|rows|] == rows;
      NotePrune(states, rowsByKey, before, rows, now);
      rowsByKey := map k | k in rowsByKey && (k in active || k !in states) :: rowsByKey[k];
      states := map k | k in states && k in active :: states[k];
    }

    /** The observation loop (ghost_hunter.go:122-190). */
    method Watch(observe: Time, rounds: seq<Round>) returns (outcome: Outcome, now: Time, ghost seen: nat)
      requires states == map[] && rowsByKey == map[]
      modifies this`states, this`rowsByKey
      ensures seen <= |rounds|
      ensures outcome == Observed ==>
        && 0 < seen && Matches(states, rowsByKey, ScansOf(rounds[..seen])) && now == rounds[seen - 1].scan.now
      ensures Ends(observe, rounds, outcome, seen)
    {
      hide TrailOf, NoteOf, LastRow;
      var window := if observe < 0 then 0 else observe;
      seen, now := 0, 0;
      NothingYet();
      for i := 0 to |rounds|
        invariant seen == i
        invariant Matches(states, rowsByKey, ScansOf(rounds[..i]))
        invariant forall k :: 0 <= k < i ==> GoesOn(observe, rounds[k])
      {
        hide Matches;
        var round := rounds[i];
        if round.scan.rows.None? {
          return ListingFailed, now, i;
        }
        now := round.scan.now;
        assert rounds[..i + 1][..i] == rounds[..i];
        TakeListing(round.scan.rows.value, now, ScansOf(rounds[..i]));
        seen := i + 1;
        if window == 0 || round.elapsed >= window {
          return Observed, now, i + 1;
        }
        if round.cancelled {
          return Cancelled, now, i + 1;
        }
      }
      return StillObserving, now, seen;
    }

    /** The sessions of the report, in no particular order (ghost_hunter.go:191-247). */
    method Report(now: Time, stop: bool, ghost scans: seq<Scan>) returns (items: seq<Item>, stale: nat)
      requires Matches(states, rowsByKey, scans)
      ensures Lines(cfg, scans, now, stop, items, rowsByKey.Keys)
      ensures forall key :: key in rowsByKey <==> TrailOf(scans, key) != []
      ensures stale == Count(items)
    {
      hide TrailOf, Noted, IdleReady, RenewReady, HardReady, Lines, ItemOf;
      items, stale := [], 0;
      var keys := rowsByKey.Keys;
      ghost var done: set<string> := {};
      NoLines(cfg, scans, now, stop);
      while keys != {}
        invariant done + keys == rowsByKey.Keys && done !! keys
        invariant Lines(cfg, scans, now, stop, items, done)
        invariant stale == Count(items)
        decreases keys
      {
        var key :| key in keys;
        ghost var t := TrailOf(scans, key);
        assert LookupRow(rowsByKey, key) == LastRow(t) && Lookup(states, key) == NoteOf(t);
        var l, row := states[key], rowsByKey[key];
        var idle, renew, hard := IdleReady(cfg, l, now), RenewReady(cfg, l, now), HardReady(cfg, l, now);
        var item := Item(key, row, idle, renew, hard, stop && (idle || renew || hard) && row.transcodeId != "");
        ItemIs(cfg, key, t, now, stop);
        LinesNext(cfg, scans, now, stop, items, done, key);
        keys, done := keys - {key}, done + {key};
        if Stale(item) {
          stale := stale + 1;
        }
        assert (items + [item])[..|items|] == items;
        items := items + [item];
      }
      assert done == rowsByKey.Keys;
      forall key
        ensures key in rowsByKey <==> TrailOf(scans, key) != []
      {
        assert LookupRow(rowsByKey, key) == LastRow(TrailOf(scans, key));
      }
    }

    /** ghost_hunter.go:122-248. */
    method Observe(observe: Time, stop: bool, rounds: seq<Round>)
        returns (outcome: Outcome, items: seq<Item>, stale: nat, ghost seen: nat)
      requires states == map[] && rowsByKey == map[]
      modifies this`states, this`rowsByKey
      ensures seen <= |rounds|
      ensures outcome == Observed ==>
        0 < seen && Reported(cfg, ScansOf(rounds[..seen]), rounds[seen - 1].scan.now, stop, items)
      ensures Ends(observe, rounds, outcome, seen)
      ensures outcome == Observed ==> stale == Count(items)
      ensures outcome != Observed ==> items == []
    {
      hide Matches, TrailOf, NoteOf, LastRow, Lines;
      var now;
      items, stale := [], 0;
      outcome, now, seen := Watch(observe, rounds);
      if outcome == Observed {
        items, stale := Report(now, stop, ScansOf(rounds[..seen]));
      }
    }
  }

  lemma NothingYet()
    ensures Matches(map[], map[], ScansOf([]))
  {
  }

  function Count(items: seq<Item>): nat {
    if items == [] then 0
    else Count(items[..|items| - 1]) + if Stale(items[|items| - 1]) then 1 else 0
  }

  /** One line for each key in `done`, and that line is the one its trail gives. */
  ghost predicate Lines(cfg: Config, scans: seq<Scan>, now: Time, stop: bool, items: seq<Item>, done: set<string>) {
    && (forall i, j :: 0 <= i < j < |items| ==> items[i].key != items[j].key)
    && (forall i :: 0 <= i < |items| ==>
          && items[i].key in done && TrailOf(scans, items[i].key) != []
          && items[i] == ItemOf(cfg, items[i].key, TrailOf(scans, items[i].key), now, stop))
    && (forall key :: key in done ==> exists i :: 0 <= i < |items| && items[i].key == key)
  }

  /** The report has exactly one line for each session still listed. */
  ghost predicate Reported(cfg: Config, scans: seq<Scan>, now: Time, stop: bool, items: seq<Item>) {
    exists done :: Lines(cfg, scans, now, stop, items, done)
      && forall key :: key in done <==> TrailOf(scans, key) != []
  }

  lemma NoLines(cfg: Config, scans: seq<Scan>, now: Time, stop: bool)
    ensures Lines(cfg, scans, now, stop, [], {})
  {
  }

  lemma ItemIs(cfg: Config, key: string, t: Trail, now: Time, stop: bool)
    requires t != []
    ensures var l, row := NoteOf(t).value, LastRow(t).value;
      var idle, renew, hard := IdleReady(cfg, l, now), RenewReady(cfg, l, now), HardReady(cfg, l, now);
      ItemOf(cfg, key, t, now, stop) ==
        Item(key, row, idle, renew, hard, stop && (idle || renew || hard) && row.transcodeId != "")
  {
  }

  lemma {:induction false} LinesNext(cfg: Config, scans: seq<Scan>, now: Time, stop: bool, items: seq<Item>,
                                     done: set<string>,
                  key: string)
    requires Lines(cfg, scans, now, stop, items, done) && key !in done && TrailOf(scans, key) != []
    ensures Lines(cfg, scans, now, stop, items + [ItemOf(cfg, key, TrailOf(scans, key), now, stop)], done + {key})
  {
    hide TrailOf, Noted, IdleReady, RenewReady, HardReady, Ready;
    var item := ItemOf(cfg, key, TrailOf(scans, key), now, stop);
    var next := items + [item];
    assert next[|items|] == item && item.key == key;
    hide ItemOf;
    assert forall i :: 0 <= i < |items| ==> next[i] == items[i];
    forall k | k in done + {key}
      ensures exists i :: 0 <= i < |next| && next[i].key == k
    {
      if k != key {
        var i :| 0 <= i < |items| && items[i].key == k;
        assert next[i].key == k;
      }
    }
  }

  // ---- the hunter refines the reaper -------------------------------------

  /** The two copies keep the same record, up to the stop times only the reaper has. */
  lemma {:induction false} SameRecord(cfg: Config, t: Trail, n: nat)
    requires n < |t|
    ensures Noted(t, n) == Seen(cfg, t, n).(lastStop := None)
  {
    hide Attempts;
    if n > 0 {
      SameRecord(cfg, t, n - 1);
      LeaseMeans(cfg, t, n - 1);
    }
  }

  /** ... so a run of rounds ends in one way. */
  lemma {:induction false} OneEnd(observe: Time, rounds: seq<Round>, a: Outcome, m: nat, b: Outcome, n: nat)
    requires Ends(observe, rounds, a, m) && Ends(observe, rounds, b, n)
    ensures a == b && m == n
  {
    hide Over;
  }

  /** A session is reported stale exactly when a reaper that made the same scans finds it ready for a stop at the
      last one; it makes the attempt unless it made one less than 10 seconds ago. */
  lemma {:induction false} StaleIffReady(cfg: Config, scans: seq<Scan>, key: string, stop: bool)
    requires Chronological(scans) && scans != [] && scans[|scans| - 1].rows.Some? && TrailOf(scans, key) != []
    ensures var t, now := TrailOf(scans, key), scans[|scans| - 1].now;
      var n, item := |t| - 1, ItemOf(cfg, key, t, now, stop);
      && t[n].now == now && item.key == key && item.row == t[n].row
      && (item.stopped <==> stop && Ready(cfg, Seen(cfg, t, n), now) && t[n].row.transcodeId != "")
      && (Stale(item) <==> Ready(cfg, Seen(cfg, t, n), now))
      && item.idle == IdleReady(cfg, Seen(cfg, t, n), now)
      && item.renew == RenewReady(cfg, Seen(cfg, t, n), now)
      && item.hard == HardReady(cfg, Seen(cfg, t, n), now)
      && (Due(cfg, t, n) <==>
            Stale(item) && forall i :: 0 <= i < n && Due(cfg, t, i) ==> now - t[i].now >= THROTTLE)
  {
    var t, n := TrailOf(scans, key), |TrailOf(scans, key)| - 1;
    var m := |scans| - 1;
    hide Noted, Due, Seen, Mine;
    MineNow(scans[m].rows.value, scans[m].now, key);
    SameRecord(cfg, t, n);
    TrailOrdered(scans, key);
    DueIff(cfg, t, n);
  }
}
