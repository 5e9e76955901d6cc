/** cmd/iptv-tunerr/cmd_catalog.go:437-498 and internal/tuner/guide_health.go:92-141: several XMLTV sources, one after
    the other, for repairing the catalog and for reporting on it. */
module EpgLayers {
  import opened Bytes
  import opened Text
  import opened EpgLink

  /** The match of the first source, in order, that has one. */
  ghost function Decide(w: Words, sources: seq<seq<Xmltv>>, aliases: Aliases, ch: Live): Option<Row> {
    if sources == [] then None
    else if MatchOf(w, sources[0], aliases, ch).found.Some? then Some(MatchOf(w, sources[0], aliases, ch))
    else Decide(w, sources[1..], aliases, ch)
  }

  lemma {:induction false} DecideSnoc(w: Words, sources: seq<seq<Xmltv>>, k: nat, aliases: Aliases, ch: Live)
    requires k < |sources|
    ensures Decide(w, sources[..k + 1], aliases, ch) ==
              if Decide(w, sources[..k], aliases, ch).Some? then Decide(w, sources[..k], aliases, ch)
              else if MatchOf(w, sources[k], aliases, ch).found.Some? then Some(MatchOf(w, sources[k], aliases, ch))
              else None
    decreases k
  {
    hide MatchOf;
    if k > 0 {
      DecideSnoc(w, sources[1..], k - 1, aliases, ch);
      assert sources[..k + 1][1..] == sources[1..][..k] && sources[..k][1..] == sources[1..][..k - 1];
    }
  }

  lemma {:induction false} DecidedStays(w: Words, sources: seq<seq<Xmltv>>, k: nat, aliases: Aliases, ch: Live)
    requires k <= |sources| && Decide(w, sources[..k], aliases, ch).Some?
    ensures Decide(w, sources, aliases, ch) == Decide(w, sources[..k], aliases, ch)
    decreases |sources| - k
  {
    if k == |sources| {
      assert sources[..k] == sources;
    } else {
      DecideSnoc(w, sources, k, aliases, ch);
      DecidedStays(w, sources, k + 1, aliases, ch);
    }
  }

  /** Source k is the first with a match for the channel. */
  ghost predicate FirstWith(w: Words, sources: seq<seq<Xmltv>>, aliases: Aliases, ch: Live, k: nat) {
    && k < |sources| && MatchOf(w, sources[k], aliases, ch).found.Some?
    && forall j :: 0 <= j < k ==> MatchOf(w, sources[j], aliases, ch).found.None?
  }

  lemma {:induction false} FirstSourceDecides(w: Words, sources: seq<seq<Xmltv>>, aliases: Aliases, ch: Live)
    ensures match Decide(w, sources, aliases, ch)
            case Some(row) =>
              exists k: nat :: FirstWith(w, sources, aliases, ch, k) && row == MatchOf(w, sources[k], aliases, ch)
            case None => forall k :: 0 <= k < |sources| ==> MatchOf(w, sources[k], aliases, ch).found.None?
    decreases |sources|
  {
    hide MatchOf;
    if sources != [] {
      if MatchOf(w, sources[0], aliases, ch).found.Some? {
        assert FirstWith(w, sources, aliases, ch, 0);
      } else {
        FirstSourceDecides(w, sources[1..], aliases, ch);
        if Decide(w, sources[1..], aliases, ch).Some? {
          var k: nat :| FirstWith(w, sources[1..], aliases, ch, k)
                   && Decide(w, sources, aliases, ch) == Some(MatchOf(w, sources[1..][k], aliases, ch));
          assert forall j :: 0 < j <= k + 1 ==> sources[j] == sources[1..][j - 1];
          assert FirstWith(w, sources, aliases, ch, k + 1);
        } else {
          assert forall j :: 0 < j < |sources| ==> sources[j] == sources[1..][j - 1];
        }
      }
    }
  }

  // ---- candidates --------------------------------------------------------

  function Candidates(live: seq<Live>, protected: set<string>): seq<Live> {
    if live == [] then []
    else
      var n := |live| - 1;
      Candidates(live[..n], protected) + if live[n].channelId in protected then [] else [live[n]]
  }

  method UnresolvedLiveChannels(live: seq<Live>, protected: set<string>) returns (out: seq<Live>)
    ensures out == Candidates(live, protected)
  {
    out := [];
    for i := 0 to |live|
      invariant out == Candidates(live[..i], protected)
    {
      assert live[..i + 1][..i] == live[..i];
      if live[i].channelId in protected {
        continue;
      }
      out := out + [live[i]];
    }
    assert live[..|live|] == live;
  }

  lemma CandidatesSnoc(live: seq<Live>, protected: set<string>)
    requires live != []
    ensures var n := |live| - 1;
      Candidates(live, protected) ==
        Candidates(live[..n], protected) + if live[n].channelId in protected then [] else [live[n]]
  {
  }

  /** Each unprotected channel meets its own row among those of the candidates; a protected one meets none. */
  lemma {:induction false} CandidateRow(w: Words, xmltv: seq<Xmltv>, aliases: Aliases, live: seq<Live>,
                                        protected: set<string>, i: nat)
    requires UniqueIds(live) && i < |live|
    ensures RowFor(Rows(w, xmltv, aliases, Candidates(live, protected)), live[i].channelId) ==
              if live[i].channelId in protected then None else Some(MatchOf(w, xmltv, aliases, live[i]))
  {
    hide MatchOf, Candidates;
    var n := |live| - 1;
    var id := live[i].channelId;
    var cs, init := Candidates(live, protected), Candidates(live[..n], protected);
    CandidatesSnoc(live, protected);
    RowsSnoc(w, xmltv, aliases, init, live[n]);
    if i < n {
      CandidateRow(w, xmltv, aliases, live[..n], protected, i);
    } else if id in protected {
      NoRow(w, xmltv, aliases, live[..n], protected, id);
    }
  }

  lemma {:induction false} RowsSnoc(w: Words, xmltv: seq<Xmltv>, aliases: Aliases, cs: seq<Live>, ch: Live)
    ensures cs + [] == cs
    ensures forall id :: RowFor(Rows(w, xmltv, aliases, cs + [ch]), id) ==
              if ch.channelId == id then Some(MatchOf(w, xmltv, aliases, ch))
              else RowFor(Rows(w, xmltv, aliases, cs), id)
  {
    var rows := Rows(w, xmltv, aliases, cs + [ch]);
    assert rows[..|cs|] == Rows(w, xmltv, aliases, cs);
    assert rows[|cs|].channelId == ch.channelId;
  }

  lemma {:induction false} NoRow(w: Words, xmltv: seq<Xmltv>, aliases: Aliases, live: seq<Live>,
                                 protected: set<string>, id: string)
    requires forall i :: 0 <= i < |live| ==> live[i].channelId != id || id in protected
    ensures RowFor(Rows(w, xmltv, aliases, Candidates(live, protected)), id) == None
  {
    hide MatchOf;
    if live != [] {
      var n := |live| - 1;
      NoRow(w, xmltv, aliases, live[..n], protected, id);
      RowsSnoc(w, xmltv, aliases, Candidates(live[..n], protected), live[n]);
    }
  }

  function MatchedOf(rows: seq<Row>): set<string> {
    if rows == [] then {}
    else
      var row := rows[|rows| - 1];
      MatchedOf(rows[..|rows| - 1]) + if row.found.Some? then {row.channelId} else {}
  }

  lemma {:induction false} MatchedSnoc(w: Words, xmltv: seq<Xmltv>, aliases: Aliases, cs: seq<Live>, ch: Live)
    ensures MatchedOf(Rows(w, xmltv, aliases, cs + [ch])) ==
              MatchedOf(Rows(w, xmltv, aliases, cs))
              + if MatchOf(w, xmltv, aliases, ch).found.Some? then {ch.channelId} else {}
  {
    hide MatchOf;
    var rows := Rows(w, xmltv, aliases, cs + [ch]);
    assert rows[..|cs|] == Rows(w, xmltv, aliases, cs);
  }

  lemma {:induction false} MatchedIds(w: Words, xmltv: seq<Xmltv>, aliases: Aliases, live: seq<Live>,
                                      protected: set<string>, i: nat)
    requires UniqueIds(live) && i < |live|
    ensures live[i].channelId in MatchedOf(Rows(w, xmltv, aliases, Candidates(live, protected))) <==>
              live[i].channelId !in protected && MatchOf(w, xmltv, aliases, live[i]).found.Some?
  {
    hide MatchOf, MatchedOf;
    var n := |live| - 1;
    var init := Candidates(live[..n], protected);
    assert init + [] == init;
    MatchedSnoc(w, xmltv, aliases, init, live[n]);
    if i < n {
      MatchedIds(w, xmltv, aliases, live[..n], protected, i);
    } else {
      NotMatched(w, xmltv, aliases, live[..n], protected, live[i].channelId);
    }
  }

  lemma {:induction false} NotMatched(w: Words, xmltv: seq<Xmltv>, aliases: Aliases, live: seq<Live>,
                                      protected: set<string>, id: string)
    requires forall i :: 0 <= i < |live| ==> live[i].channelId != id
    ensures id !in MatchedOf(Rows(w, xmltv, aliases, Candidates(live, protected)))
  {
    hide MatchOf;
    if live != [] {
      var init := Candidates(live[..|live| - 1], protected);
      assert init + [] == init;
      NotMatched(w, xmltv, aliases, live[..|live| - 1], protected, id);
      MatchedSnoc(w, xmltv, aliases, init, live[|live| - 1]);
    }
  }

  lemma {:induction false} NoneLeft(live: seq<Live>, protected: set<string>)
    requires Candidates(live, protected) == []
    ensures forall i :: 0 <= i < |live| ==> live[i].channelId in protected
  {
    if live != [] {
      NoneLeft(live[..|live| - 1], protected);
    }
  }

  lemma {:induction false} NoSuchCandidate(live: seq<Live>, protected: set<string>, id: string)
    requires forall i :: 0 <= i < |live| ==> live[i].channelId != id
    ensures forall ch :: ch in Candidates(live, protected) ==> ch.channelId != id
  {
    if live != [] {
      NoSuchCandidate(live[..|live| - 1], protected, id);
    }
  }

  // ---- the catalog -------------------------------------------------------

  /** Where every channel stands after the first k sources. */
  ghost predicate Layered(w: Words, sources: seq<seq<Xmltv>>, aliases: Aliases, was: seq<Live>, live: seq<Live>,
                          protected: set<string>, k: nat)
    requires k <= |sources|
  {
    && |live| == |was|
    && forall i :: 0 <= i < |was| ==> LayeredAt(w, sources, aliases, was[i], live[i], protected, k)
  }

  ghost predicate LayeredAt(w: Words, sources: seq<seq<Xmltv>>, aliases: Aliases, was: Live, now: Live,
                            protected: set<string>, k: nat)
    requires k <= |sources|
  {
    && now == RepairOne(was, Decide(w, sources[..k], aliases, was))
    && (was.channelId in protected <==> Decide(w, sources[..k], aliases, was).Some?)
  }

  lemma {:induction false} LayerStep(w: Words, sources: seq<seq<Xmltv>>, aliases: Aliases, was: seq<Live>,
                                     live: seq<Live>,
                  protected: set<string>, k: nat)
    requires UniqueIds(was) && k < |sources| && Layered(w, sources, aliases, was, live, protected, k)
    ensures var rows := Rows(w, sources[k], aliases, Candidates(live, protected));
      Layered(w, sources, aliases, was, RepairAll(live, rows), protected + MatchedOf(rows), k + 1)
  {
    hide MatchOf, Decide, Candidates, RowFor, MatchedOf;
    var rows := Rows(w, sources[k], aliases, Candidates(live, protected));
    SameIds(w, sources, aliases, was, live, protected, k);
    forall i | 0 <= i < |was|
      ensures LayeredAt(w, sources, aliases, was[i], RepairAll(live, rows)[i], protected + MatchedOf(rows), k + 1)
    {
      assert LayeredAt(w, sources, aliases, was[i], live[i], protected, k);
      DecideSnoc(w, sources, k, aliases, was[i]);
      CandidateRow(w, sources[k], aliases, live, protected, i);
      MatchedIds(w, sources[k], aliases, live, protected, i);
    }
  }

  lemma {:induction false} SameIds(w: Words, sources: seq<seq<Xmltv>>, aliases: Aliases, was: seq<Live>,
                                   live: seq<Live>,
                protected: set<string>, k: nat)
    requires UniqueIds(was) && k <= |sources| && Layered(w, sources, aliases, was, live, protected, k)
    ensures UniqueIds(live) && forall i :: 0 <= i < |was| ==> live[i].channelId == was[i].channelId
  {
    hide Decide, ChangeOf;
    forall i | 0 <= i < |was|
      ensures live[i].channelId == was[i].channelId
    {
      assert LayeredAt(w, sources, aliases, was[i], live[i], protected, k);
    }
  }

  /** When nobody is left to match, the sources not looked at could not change anything. */
  lemma {:induction false} LayersDone(w: Words, sources: seq<seq<Xmltv>>, aliases: Aliases, was: seq<Live>,
                                      live: seq<Live>,
                   protected: set<string>, k: nat)
    requires UniqueIds(was) && k <= |sources| && Layered(w, sources, aliases, was, live, protected, k)
    requires k == |sources| || Candidates(live, protected) == []
    ensures forall i :: 0 <= i < |was| ==> live[i] == RepairOne(was[i], Decide(w, sources, aliases, was[i]))
  {
    hide Decide, RepairOne;
    SameIds(w, sources, aliases, was, live, protected, k);
    if k < |sources| {
      NoneLeft(live, protected);
    }
    forall i | 0 <= i < |was|
      ensures live[i] == RepairOne(was[i], Decide(w, sources, aliases, was[i]))
    {
      assert LayeredAt(w, sources, aliases, was[i], live[i], protected, k);
      if k == |sources| {
        assert sources[..k] == sources;
      } else {
        assert live[i].channelId in protected;
        DecidedStays(w, sources, k, aliases, was[i]);
      }
    }
  }

  method ProtectMatched(rows: seq<Row>, before: set<string>) returns (protected: set<string>)
    ensures protected == before + MatchedOf(rows)
  {
    protected := before;
    for i := 0 to |rows|
      invariant protected == before + MatchedOf(rows[..i])
    {
      assert rows[..i + 1][..i] == rows[..i];
      if rows[i].found.Some? {
        protected := protected + {rows[i].channelId};
      }
    }
    assert rows[..|rows|] == rows;
  }

  /** cmd_catalog.go:482-497. With unique channel ids the first matching source decides each channel. */
  method ApplyRuntimeRepairs(w: Words, live: array<Live>, sources: seq<seq<Xmltv>>, aliases: Aliases)
    modifies live
    ensures UniqueIds(old(live[..])) ==>
      forall i :: 0 <= i < live.Length ==>
        live[i] == RepairOne(old(live[i]), Decide(w, sources, aliases, old(live[i])))
  {
    hide *;
    ghost var was := live[..];
    var protected: set<string> := {};
    LayersStart(w, sources, aliases, was);
    ghost var seen := 0;
    for k := 0 to |sources|
      invariant live[..] == live[..live.Length]
      invariant UniqueIds(was) ==> Layered(w, sources, aliases, was, live[..], protected, k)
    {
      var candidates := UnresolvedLiveChannels(live[..], protected);
      if |candidates| == 0 {
        if UniqueIds(was) {
          LayersDone(w, sources, aliases, was, live[..], protected, k);
        }
        return;
      }
      var rows, _ := MatchLiveChannels(w, candidates, sources[k], aliases);
      if UniqueIds(was) {
        LayerStep(w, sources, aliases, was, live[..], protected, k);
      }
      var _ := ApplyDeterministicRepairs(live, rows);
      protected := ProtectMatched(rows, protected);
    }
    if UniqueIds(was) {
      LayersDone(w, sources, aliases, was, live[..], protected, |sources|);
    }
  }

  lemma LayersStart(w: Words, sources: seq<seq<Xmltv>>, aliases: Aliases, was: seq<Live>)
    ensures Layered(w, sources, aliases, was, was, {}, 0)
  {
  }

  // ---- the health report -------------------------------------------------

  /** The report's line for a channel: the deciding match, or what the first source says of it. */
  ghost function ReportRow(w: Words, sources: seq<seq<Xmltv>>, aliases: Aliases, ch: Live): Row {
    if sources == [] then Row(ch.channelId, None, NoSource)
    else if Decide(w, sources, aliases, ch).Some? then Decide(w, sources, aliases, ch).value
    else MatchOf(w, sources[0], aliases, ch)
  }

  function Get<T>(m: map<string, T>, k: string): Option<T> {
    if k in m then Some(m[k]) else None
  }

  /** A row already there gives way only to a match (guide_health.go:111-113). */
  function Merge(had: Option<Row>, row: Option<Row>): Option<Row> {
    if row.Some? && (had.None? || (had.value.found.None? && row.value.found.Some?)) then row else had
  }

  ghost predicate DistinctRows(rows: seq<Row>) {
    forall i, j :: 0 <= i < j < |rows| ==> rows[i].channelId != rows[j].channelId
  }

  /** Every row is kept under its own id. */
  ghost predicate OwnIds(rows: map<string, Row>) {
    forall id :: id in rows ==> rows[id].channelId == id
  }

  method MergeRows(rows: seq<Row>, before: map<string, Row>) returns (byChannelId: map<string, Row>)
    ensures DistinctRows(rows) ==> forall id :: Get(byChannelId, id) == Merge(Get(before, id), RowFor(rows, id))
    ensures OwnIds(before) ==> OwnIds(byChannelId)
  {
    byChannelId := before;
    for i := 0 to |rows|
      invariant DistinctRows(rows) ==>
        forall id :: Get(byChannelId, id) == Merge(Get(before, id), RowFor(rows[..i], id))
      invariant OwnIds(before) ==> OwnIds(byChannelId)
    {
      var row := rows[i];
      assert rows[..i + 1][..i] == rows[..i];
      if DistinctRows(rows) {
        NoRowYet(rows, i);
      }
      if row.channelId !in byChannelId || (byChannelId[row.channelId].found.None? && row.found.Some?) {
        byChannelId := byChannelId[row.channelId := row];
      }
    }
    assert rows[..|rows|] == rows;
  }

  lemma {:induction false} NoRowYet(rows: seq<Row>, i: nat)
    requires i < |rows| && forall k :: 0 <= k < i ==> rows[k].channelId != rows[i].channelId
    ensures RowFor(rows[..i], rows[i].channelId) == None
  {
    NoRowFor(rows[..i], rows[i].channelId);
  }

  lemma {:induction false} NoRowFor(rows: seq<Row>, id: string)
    requires forall k :: 0 <= k < |rows| ==> rows[k].channelId != id
    ensures RowFor(rows, id) == None
  {
    if rows != [] {
      NoRowFor(rows[..|rows| - 1], id);
    }
  }

  ghost predicate Reporting(w: Words, sources: seq<seq<Xmltv>>, aliases: Aliases, channels: seq<Live>,
                            protected: set<string>, rows: map<string, Row>, k: nat)
    requires k <= |sources|
  {
    forall i :: 0 <= i < |channels| ==> ReportingAt(w, sources, aliases, channels[i], protected, rows, k)
  }

  ghost predicate ReportingAt(w: Words, sources: seq<seq<Xmltv>>, aliases: Aliases, ch: Live, protected: set<string>,
                              rows: map<string, Row>, k: nat)
    requires k <= |sources|
  {
    && (ch.channelId in protected <==> Decide(w, sources[..k], aliases, ch).Some?)
    && Get(rows, ch.channelId) == (if k == 0 then None else Some(ReportRow(w, sources[..k], aliases, ch)))
  }

  lemma {:induction false} ReportStep(w: Words, sources: seq<seq<Xmltv>>, aliases: Aliases, channels: seq<Live>,
                                      protected: set<string>,
                   rows: map<string, Row>, next: map<string, Row>, k: nat)
    requires UniqueIds(channels) && k < |sources| && Reporting(w, sources, aliases, channels, protected, rows, k)
    requires var added := Rows(w, sources[k], aliases, Candidates(channels, protected));
      forall id :: Get(next, id) == Merge(Get(rows, id), RowFor(added, id))
    ensures var added := Rows(w, sources[k], aliases, Candidates(channels, protected));
      Reporting(w, sources, aliases, channels, protected + MatchedOf(added), next, k + 1)
  {
    hide MatchOf, Candidates, RowFor, MatchedOf;
    var added := Rows(w, sources[k], aliases, Candidates(channels, protected));
    forall i | 0 <= i < |channels|
      ensures ReportingAt(w, sources, aliases, channels[i], protected + MatchedOf(added), next, k + 1)
    {
      var ch := channels[i];
      assert ReportingAt(w, sources, aliases, ch, protected, rows, k);
      DecideSnoc(w, sources, k, aliases, ch);
      CandidateRow(w, sources[k], aliases, channels, protected, i);
      MatchedIds(w, sources[k], aliases, channels, protected, i);
      hide Decide;
      assert k > 0 ==> sources[..k + 1][0] == sources[..k][0];
      assert Get(next, ch.channelId) == Merge(Get(rows, ch.channelId), RowFor(added, ch.channelId));
    }
  }

  lemma {:induction false} ReportDone(w: Words, sources: seq<seq<Xmltv>>, aliases: Aliases, channels: seq<Live>,
                                      protected: set<string>,
                   rows: map<string, Row>, k: nat)
    requires 0 < k <= |sources| && Reporting(w, sources, aliases, channels, protected, rows, k)
    requires k == |sources| || Candidates(channels, protected) == []
    ensures forall i :: 0 <= i < |channels| ==>
              Get(rows, channels[i].channelId) == Some(ReportRow(w, sources, aliases, channels[i]))
  {
    hide Decide, MatchOf;
    if k < |sources| {
      NoneLeft(channels, protected);
    }
    forall i | 0 <= i < |channels|
      ensures Get(rows, channels[i].channelId) == Some(ReportRow(w, sources, aliases, channels[i]))
    {
      assert ReportingAt(w, sources, aliases, channels[i], protected, rows, k);
      if k == |sources| {
        assert sources[..k] == sources;
      } else {
        assert channels[i].channelId in protected;
        DecidedStays(w, sources, k, aliases, channels[i]);
      }
    }
  }

  lemma ReportStart(w: Words, sources: seq<seq<Xmltv>>, aliases: Aliases, channels: seq<Live>)
    ensures Reporting(w, sources, aliases, channels, {}, map[], 0) && OwnIds(map[])
    ensures channels != [] ==> Candidates(channels, {}) != []
  {
  }

  /** The rows of candidates have distinct ids. */
  lemma {:induction false} RowsDistinct(w: Words, xmltv: seq<Xmltv>, aliases: Aliases, live: seq<Live>,
                                        protected: set<string>)
    requires UniqueIds(live)
    ensures UniqueIds(Candidates(live, protected))
    ensures var rows := Rows(w, xmltv, aliases, Candidates(live, protected));
      DistinctRows(rows)
  {
    hide MatchOf;
    if live != [] {
      var n := |live| - 1;
      RowsDistinct(w, xmltv, aliases, live[..n], protected);
      NoSuchCandidate(live[..n], protected, live[n].channelId);
    }
  }

  /** guide_health.go:78-134: one row for each channel, in order, under its own id; with unique channel ids it is the
      first matching source's, or the first source's. */
  method BuildMatchReport(w: Words, channels: seq<Live>, sources: seq<seq<Xmltv>>, aliases: Aliases)
      returns (rows: seq<Row>, matched: nat)
    ensures |rows| == |channels| && matched == Count(rows)
    ensures forall i :: 0 <= i < |rows| ==> rows[i].channelId == channels[i].channelId
    ensures UniqueIds(channels) ==>
      forall i :: 0 <= i < |rows| ==> rows[i] == ReportRow(w, sources, aliases, channels[i])
  {
    hide *;
    if |sources| == 0 {
      rows := NoSourceRows(w, channels, sources, aliases);
      matched := 0;
    } else {
      var byChannelId := LayerReports(w, channels, sources, aliases);
      rows, matched := CollectRows(w, channels, sources, aliases, byChannelId);
    }
  }

  /** guide_health.go:78-91. */
  method NoSourceRows(w: Words, channels: seq<Live>, sources: seq<seq<Xmltv>>, aliases: Aliases)
      returns (rows: seq<Row>)
    requires sources == []
    ensures |rows| == |channels| && Count(rows) == 0
    ensures forall i :: 0 <= i < |rows| ==>
      rows[i].channelId == channels[i].channelId && rows[i] == ReportRow(w, sources, aliases, channels[i])
  {
    rows := [];
    for i := 0 to |channels|
      invariant |rows| == i && Count(rows) == 0
      invariant forall k :: 0 <= k < i ==> rows[k] == Row(channels[k].channelId, None, NoSource)
    {
      assert (rows + [Row(channels[i].channelId, None, NoSource)])[..i] == rows;
      rows := rows + [Row(channels[i].channelId, None, NoSource)];
    }
  }

  /** guide_health.go:116-133: a channel without a row gets one that says so; with sources there is none. */
  method CollectRows(w: Words, channels: seq<Live>, sources: seq<seq<Xmltv>>, aliases: Aliases,
                     byChannelId: map<string, Row>)
      returns (rows: seq<Row>, matched: nat)
    requires OwnIds(byChannelId)
    requires UniqueIds(channels) ==> forall i :: 0 <= i < |channels| ==>
      Get(byChannelId, channels[i].channelId) == Some(ReportRow(w, sources, aliases, channels[i]))
    ensures |rows| == |channels| && matched == Count(rows)
    ensures forall i :: 0 <= i < |rows| ==> rows[i].channelId == channels[i].channelId
    ensures UniqueIds(channels) ==>
      forall i :: 0 <= i < |rows| ==> rows[i] == ReportRow(w, sources, aliases, channels[i])
  {
    hide ReportRow, UniqueIds;
    rows, matched := [], 0;
    for i := 0 to |channels|
      invariant |rows| == i && matched == Count(rows)
      invariant forall k :: 0 <= k < i ==> rows[k].channelId == channels[k].channelId
      invariant UniqueIds(channels) ==>
        forall k :: 0 <= k < i ==> rows[k] == ReportRow(w, sources, aliases, channels[k])
    {
      var id := channels[i].channelId;
      assert UniqueIds(channels) ==> Get(byChannelId, id) == Some(ReportRow(w, sources, aliases, channels[i]));
      var row := if id in byChannelId then byChannelId[id] else Row(id, None, NoMatch);
      if row.found.Some? {
        matched := matched + 1;
      }
      assert (rows + [row])[..i] == rows;
      rows := rows + [row];
    }
  }

  method LayerReports(w: Words, channels: seq<Live>, sources: seq<seq<Xmltv>>, aliases: Aliases)
      returns (byChannelId: map<string, Row>)
    requires sources != []
    ensures OwnIds(byChannelId)
    ensures UniqueIds(channels) ==> forall i :: 0 <= i < |channels| ==>
      Get(byChannelId, channels[i].channelId) == Some(ReportRow(w, sources, aliases, channels[i]))
  {
    hide *;
    byChannelId := map[];
    var protected: set<string> := {};
    ReportStart(w, sources, aliases, channels);
    for k := 0 to |sources|
      invariant UniqueIds(channels) ==> Reporting(w, sources, aliases, channels, protected, byChannelId, k)
      invariant OwnIds(byChannelId)
      invariant k == 0 ==> protected == {}
    {
      var candidates := UnresolvedLiveChannels(channels, protected);
      if |candidates| == 0 {
        if k > 0 && UniqueIds(channels) {
          ReportDone(w, sources, aliases, channels, protected, byChannelId, k);
        }
        return;
      }
      var rows, _ := MatchLiveChannels(w, candidates, sources[k], aliases);
      ghost var before := byChannelId;
      byChannelId := MergeRows(rows, byChannelId);
      if UniqueIds(channels) {
        RowsDistinct(w, sources[k], aliases, channels, protected);
        ReportStep(w, sources, aliases, channels, protected, before, byChannelId, k);
      }
      protected := ProtectMatched(rows, protected);
    }
    if UniqueIds(channels) {
      ReportDone(w, sources, aliases, channels, protected, byChannelId, |sources|);
    }
  }

  // ---- the two agree -----------------------------------------------------

  /** What the repair of the catalog makes of a channel is what the matched rows of the report on the same channels
      say; channels the report calls unmatched are left alone. */
  lemma {:induction false} RepairFollowsReport(w: Words, sources: seq<seq<Xmltv>>, aliases: Aliases, ch: Live)
    ensures var row := ReportRow(w, sources, aliases, ch);
      && (row.found.Some? <==> Decide(w, sources, aliases, ch).Some?)
      && RepairOne(ch, Decide(w, sources, aliases, ch)) == RepairOne(ch, Some(row))
  {
    hide MatchOf;
    Unmatched(w, sources, aliases, ch);
  }

  lemma {:induction false} Unmatched(w: Words, sources: seq<seq<Xmltv>>, aliases: Aliases, ch: Live)
    ensures Decide(w, sources, aliases, ch).Some? ==> Decide(w, sources, aliases, ch).value.found.Some?
  {
    hide MatchOf;
    if sources != [] {
      Unmatched(w, sources[1..], aliases, ch);
    }
  }

  lemma NoRowNoChange(ch: Live)
    ensures RepairOne(ch, None) == ch
  {
  }

  /** The report on the repaired catalog matches the same channels as the repair did, with the same ids up to case and
      blanks. */
  lemma {:induction false} ReportAfterRepair(w: Words, sources: seq<seq<Xmltv>>, aliases: Aliases, ch: Live)
    ensures var before := Decide(w, sources, aliases, ch);
      var after := Decide(w, sources, aliases, RepairOne(ch, before));
      && (before.Some? <==> after.Some?)
      && (before.Some? ==>
            && before.value.found.Some? && after.value.found.Some?
            && Key(w, after.value.found.value.id) == Key(w, before.value.found.value.id))
  {
    hide MatchOf, RepairOne, Key;
    Unmatched(w, sources, aliases, ch);
    var before := Decide(w, sources, aliases, ch);
    if before.Some? {
      MatchedAgain(w, sources, aliases, ch, RepairOne(ch, before), before.value);
    } else {
      NoRowNoChange(ch);
    }
  }

  lemma {:induction false} MatchedAgain(w: Words, sources: seq<seq<Xmltv>>, aliases: Aliases, ch: Live, c1: Live,
                                        row: Row)
    requires Decide(w, sources, aliases, ch) == Some(row) && row.found.Some? && c1 == RepairOne(ch, Some(row))
    ensures var after := Decide(w, sources, aliases, c1);
      after.Some? && after.value.found.Some? && Key(w, after.value.found.value.id) == Key(w, row.found.value.id)
  {
    hide RepairOne, Key, MatchOf;
    SourceAgain(w, sources[0], aliases, ch, c1, row);
    if MatchOf(w, sources[0], aliases, ch).found.None? && MatchOf(w, sources[0], aliases, c1).found.None? {
      MatchedAgain(w, sources[1..], aliases, ch, c1, row);
    }
  }

  /** One source, before and after the channel has been given the id of a row from this source or a later one. */
  lemma {:induction false} SourceAgain(w: Words, xmltv: seq<Xmltv>, aliases: Aliases, ch: Live, c1: Live, row: Row)
    requires row.found.Some? && c1 == RepairOne(ch, Some(row))
    requires MatchOf(w, xmltv, aliases, ch).found.None? || MatchOf(w, xmltv, aliases, ch) == row
    ensures var again := MatchOf(w, xmltv, aliases, c1).found;
      && (MatchOf(w, xmltv, aliases, ch) == row ==> again.Some?)
      && (again.Some? ==> Key(w, again.value.id) == Key(w, row.found.value.id))
  {
    hide Indexed, Carriers, Trim;
    var id := row.found.value.id;
    TrimTwice(id);
    TrimTwice(ch.tvgId);
    assert c1 == ch || c1 == ch.(tvgId := Trim(id), epgLinked := true);
    hide RepairOne, ChangeOf;
    if IdAt(w, xmltv, Key(w, c1.tvgId)).Some? {
      IdAtKey(w, xmltv, Key(w, c1.tvgId));
    }
    if IdAt(w, xmltv, Key(w, ch.tvgId)).Some? {
      IdAtKey(w, xmltv, Key(w, ch.tvgId));
    }
  }

  // ---- when the two agree to the letter ----------------------------------

  /** How the first source that has this id, up to case and blanks, spells it; sources after the one that decides the
      channel are not looked at. */
  ghost function FirstSpelling(w: Words, sources: seq<seq<Xmltv>>, aliases: Aliases, ch: Live, key: string):
      Option<string>
  {
    if sources == [] then None
    else if IdAt(w, sources[0], key).Some? then IdAt(w, sources[0], key)
    else if MatchOf(w, sources[0], aliases, ch).found.Some? then None
    else FirstSpelling(w, sources[1..], aliases, ch, key)
  }

  /** The id the report finds for a channel the repair has changed: the first spelling of the repaired one. */
  lemma {:induction false} SpelledAgain(w: Words, sources: seq<seq<Xmltv>>, aliases: Aliases, ch: Live, c1: Live,
                                        row: Row)
    requires Decide(w, sources, aliases, ch) == Some(row) && row.found.Some?
    requires c1 == RepairOne(ch, Some(row)) && c1 != ch
    ensures var after := Decide(w, sources, aliases, c1);
      var spelling := FirstSpelling(w, sources, aliases, ch, Key(w, row.found.value.id));
      && after.Some? && after.value.found.Some?
      && after.value.found.value.id == if spelling.Some? then spelling.value else row.found.value.id
  {
    hide RepairOne, Key, MatchOf;
    SpelledBySource(w, sources[0], aliases, ch, c1, row);
    if MatchOf(w, sources[0], aliases, ch).found.None? && MatchOf(w, sources[0], aliases, c1).found.None? {
      SpelledAgain(w, sources[1..], aliases, ch, c1, row);
    }
  }

  lemma {:induction false} SpelledBySource(w: Words, xmltv: seq<Xmltv>, aliases: Aliases, ch: Live, c1: Live, row: Row)
    requires row.found.Some? && c1 == RepairOne(ch, Some(row)) && c1 != ch
    requires MatchOf(w, xmltv, aliases, ch).found.None? || MatchOf(w, xmltv, aliases, ch) == row
    ensures var again, at := MatchOf(w, xmltv, aliases, c1).found, IdAt(w, xmltv, Key(w, row.found.value.id));
      && (at.Some? ==> again.Some? && again.value.id == at.value)
      && (at.None? ==> again == MatchOf(w, xmltv, aliases, ch).found)
  {
    hide Indexed, Carriers, Trim;
    TrimTwice(row.found.value.id);
    assert c1 == ch.(tvgId := Trim(row.found.value.id), epgLinked := true);
    hide RepairOne, ChangeOf;
    if IdAt(w, xmltv, Key(w, ch.tvgId)).Some? {
      IdAtKey(w, xmltv, Key(w, ch.tvgId));
    }
  }

  /** The report on the repaired catalog finds the very id that the repair found exactly when the repair changed nothing,
      or the first source with that id, up to case and blanks, spells it so, or none that is looked at has it. */
  lemma {:induction false} ReportSameIdIff(w: Words, sources: seq<seq<Xmltv>>, aliases: Aliases, ch: Live)
    requires Decide(w, sources, aliases, ch).Some?
    ensures var before := Decide(w, sources, aliases, ch);
      var after := Decide(w, sources, aliases, RepairOne(ch, before));
      && before.value.found.Some? && after.Some? && after.value.found.Some?
      && var id := before.value.found.value.id;
         var spelling := FirstSpelling(w, sources, aliases, ch, Key(w, id));
         after.value.found.value.id == id <==>
           RepairOne(ch, before) == ch || spelling == None || spelling == Some(id)
  {
    hide MatchOf, RepairOne, Key, FirstSpelling;
    Unmatched(w, sources, aliases, ch);
    var before := Decide(w, sources, aliases, ch);
    if RepairOne(ch, before) != ch {
      SpelledAgain(w, sources, aliases, ch, RepairOne(ch, before), before.value);
    }
  }

  /** They can differ: the name belongs to "A" in the second source, and the first source has the id as "a". */
  lemma {:induction false} ReportSpellsOtherwise()
    ensures var w := Words((s: string) => if s == "A" then "a" else s, (s: string) => s);
      var sources := [[Xmltv("a", [])], [Xmltv("A", ["n"])]];
      var ch := Live("1", "n", "", false);
      var before := Decide(w, sources, map[], ch);
      var after := Decide(w, sources, map[], RepairOne(ch, before));
      && before == Some(Row("1", Some(Match("A", NameExact)), Matched))
      && after == Some(Row("1", Some(Match("a", TvgIdExact)), Matched))
  {
    hide Trim, Indexed, Carriers, Carries;
    var w := Words((s: string) => if s == "A" then "a" else s, (s: string) => s);
    var first, second := [Xmltv("a", [])], [Xmltv("A", ["n"])];
    var sources := [first, second];
    var ch := Live("1", "n", "", false);
    TrimKeeps("A");
    TrimKeeps("a");
    TrimKeeps("");
    CarriersOfN(w);
    assert sources[1..] == [second] && first[..0] == [] && second[..0] == [];
    assert MatchOf(w, first, map[], ch).found == None;
    assert MatchOf(w, second, map[], ch) == Row("1", Some(Match("A", NameExact)), Matched);
    assert Decide(w, sources, map[], ch) == Decide(w, [second], map[], ch);
    assert IdAt(w, first, "a") == Some("a");
  }

  lemma {:induction false} CarriersOfN(w: Words)
    requires forall s :: w.normalize(s) == s
    ensures Indexed(Carriers(w, [Xmltv("a", [])], "n")) == None
    ensures Indexed(Carriers(w, [Xmltv("A", ["n"])], "n")) == Some("A")
  {
    assert "n" in NamesOf(Xmltv("A", ["n"]));
    assert Carriers(w, [Xmltv("A", ["n"])], "n") == {"A"};
    assert exists id :: {"A"} == {id};
    var id :| {"A"} == {id};
    assert "A" in {id};
  }
}
