/** internal/epglink/epglink.go:163-242, 307-343: matching live channels with XMLTV channels, and repairing their
    guide ids. */
module EpgLink {
  import opened Bytes
  import opened Text

  datatype Live = Live(channelId: string, guideName: string, tvgId: string, epgLinked: bool)

  datatype Xmltv = Xmltv(id: string, names: seq<string>)

  /** Normalized channel name -> XMLTV id. */
  type Aliases = map<string, string>

  /** strings.ToLower, and NormalizeName: any functions at all. */
  datatype Words = Words(lower: string -> string, normalize: string -> string)

  datatype Method = TvgIdExact | AliasExact | NameExact

  datatype Match = Match(id: string, how: Method)

  datatype Reason = Matched | Ambiguous | NoMatch | NoSource

  datatype Row = Row(channelId: string, found: Option<Match>, reason: Reason)

  function Key(w: Words, id: string): string {
    w.lower(Trim(id))
  }

  lemma {:induction false} TrimTwice(s: string)
    ensures Trim(Trim(s)) == Trim(s)
  {
    hide TrimLeft, TrimRight, IsSpace;
    assert Trimmed(Trim(s)) by {
      TrimEnds(s);
    }
    TrimKeeps(Trim(s));
  }

  lemma TrimEnds(s: string)
    ensures Trimmed(Trim(s))
  {
  }

  // ---- the index ---------------------------------------------------------

  function NamesOf(ch: Xmltv): seq<string> {
    [ch.id] + ch.names
  }

  predicate Carries(w: Words, ch: Xmltv, name: string) {
    name != "" && exists n :: n in NamesOf(ch) && w.normalize(n) == name
  }

  /** The distinct ids that carry a normalized name. */
  function Carriers(w: Words, xmltv: seq<Xmltv>, name: string): set<string> {
    set ch | ch in xmltv && Carries(w, ch, name) :: ch.id
  }

  /** What the name index holds: one id if one distinct id carries the name, the empty string if more do. */
  ghost function Indexed(ids: set<string>): Option<string> {
    if ids == {} then None
    else if exists id :: ids == {id} then
      var id :| ids == {id};
      Some(id)
    else Some("")
  }

  function Get(m: map<string, string>, k: string): Option<string> {
    if k in m then Some(m[k]) else None
  }

  /** The id index: of several ids that differ only in case or blanks, the last. */
  function IdAt(w: Words, xmltv: seq<Xmltv>, key: string): Option<string> {
    if xmltv == [] || key == "" then None
    else
      var n := |xmltv| - 1;
      if Key(w, xmltv[n].id) == key then Some(xmltv[n].id) else IdAt(w, xmltv[..n], key)
  }

  /** Adding one more carrier to the index (epglink.go:178-182). */
  lemma {:induction false} IndexedAdd(ids: set<string>, id: string)
    ensures Indexed(ids + {id}) == match Indexed(ids) case None => Some(id)
                                                      case Some(x) => if x != id then Some("") else Some(id)
  {
    if ids == {} {
      assert ids + {id} == {id};
    } else if other :| other in ids && other != id {
      assert other in ids + {id} && id in ids + {id};
      assert !exists x :: ids + {id} == {x};
      if exists x :: ids == {x} {
        var x :| ids == {x};
        assert Indexed(ids) == Some(x) && x == other;
      }
      if id == "" && Indexed(ids) == Some("") {
        assert Indexed(ids + {id}) == Some("");
      }
    } else {
      assert ids == {id} == ids + {id};
    }
  }

  /** The names of a channel seen so far, in an index being built. */
  ghost predicate IndexInv(w: Words, index: map<string, string>, xmltv: seq<Xmltv>, i: nat, names: seq<string>)
    requires i < |xmltv|
  {
    forall name :: Get(index, name) ==
      Indexed(Carriers(w, xmltv[..i], name)
              + if name != "" && exists n :: n in names && w.normalize(n) == name then {xmltv[i].id} else {})
  }

  lemma {:induction false} IndexName(w: Words, index: map<string, string>, xmltv: seq<Xmltv>, i: nat,
                                     names: seq<string>, k: nat)
    requires i < |xmltv| && k < |names| && IndexInv(w, index, xmltv, i, names[..k])
    ensures var nk, id := w.normalize(names[k]), xmltv[i].id;
      IndexInv(w, if nk == "" then index else index[nk := if nk in index && index[nk] != id then "" else id],
               xmltv, i, names[..k + 1])
  {
    hide Carriers, Indexed;
    var nk, id := w.normalize(names[k]), xmltv[i].id;
    var next := if nk == "" then index else index[nk := if nk in index && index[nk] != id then "" else id];
    assert names[..k + 1] == names[..k] + [names[k]];
    forall name
      ensures Get(next, name) == Indexed(Carriers(w, xmltv[..i], name)
        + if name != "" && exists n :: n in names[..k + 1] && w.normalize(n) == name then {id} else {})
    {
      var had := name != "" && exists n :: n in names[..k] && w.normalize(n) == name;
      var has := name != "" && exists n :: n in names[..k + 1] && w.normalize(n) == name;
      assert has <==> had || (nk == name && name != "") by {
        if nk == name && name != "" {
          assert names[k] in names[..k + 1];
        }
      }
      var ids := Carriers(w, xmltv[..i], name) + if had then {id} else {};
      assert Get(index, name) == Indexed(ids);
      IndexedAdd(ids, id);
      assert ids + {id} == Carriers(w, xmltv[..i], name) + {id};
    }
  }

  lemma {:induction false} IndexChannel(w: Words, index: map<string, string>, xmltv: seq<Xmltv>, i: nat)
    requires i < |xmltv|
    ensures NamesInv(w, index, xmltv[..i]) <==> IndexInv(w, index, xmltv, i, [])
    ensures IndexInv(w, index, xmltv, i, NamesOf(xmltv[i])) ==> NamesInv(w, index, xmltv[..i + 1])
  {
    hide Indexed, NamesOf;
    assert xmltv[..i + 1] == xmltv[..i] + [xmltv[i]];
    forall name
      ensures Carriers(w, xmltv[..i + 1], name) ==
                Carriers(w, xmltv[..i], name) + if Carries(w, xmltv[i], name) then {xmltv[i].id} else {}
      ensures Carriers(w, xmltv[..i], name) + {} == Carriers(w, xmltv[..i], name)
    {
    }
  }

  ghost predicate IdsInv(w: Words, byId: map<string, string>, xmltv: seq<Xmltv>) {
    forall key :: Get(byId, key) == IdAt(w, xmltv, key)
  }

  ghost predicate NamesInv(w: Words, nameToId: map<string, string>, xmltv: seq<Xmltv>) {
    forall name :: Get(nameToId, name) == Indexed(Carriers(w, xmltv, name))
  }

  lemma {:induction false} IndexId(w: Words, byId: map<string, string>, xmltv: seq<Xmltv>, i: nat)
    requires i < |xmltv| && IdsInv(w, byId, xmltv[..i])
    ensures var key := Key(w, xmltv[i].id);
            IdsInv(w, if key != "" then byId[key := xmltv[i].id] else byId, xmltv[..i + 1])
  {
    hide Key;
    assert xmltv[..i + 1][..i] == xmltv[..i] && xmltv[..i + 1][i] == xmltv[i];
    var at := Key(w, xmltv[i].id);
    var next := if at != "" then byId[at := xmltv[i].id] else byId;
    forall key
      ensures Get(next, key) == IdAt(w, xmltv[..i + 1], key)
    {
      assert Get(byId, key) == IdAt(w, xmltv[..i], key);
    }
  }

  lemma NothingIndexed(w: Words)
    ensures IdsInv(w, map[], []) && NamesInv(w, map[], [])
  {
  }

  method BuildIndex(w: Words, xmltv: seq<Xmltv>) returns (byId: map<string, string>, nameToId: map<string, string>)
    ensures IdsInv(w, byId, xmltv) && NamesInv(w, nameToId, xmltv)
  {
    hide *;
    byId, nameToId := map[], map[];
    NothingIndexed(w);
    for i := 0 to |xmltv|
      invariant IdsInv(w, byId, xmltv[..i]) && NamesInv(w, nameToId, xmltv[..i])
    {
      var ch := xmltv[i];
      IndexId(w, byId, xmltv, i);
      if Key(w, ch.id) != "" {
        byId := byId[Key(w, ch.id) := ch.id];
      }
      IndexChannel(w, nameToId, xmltv, i);
      nameToId := IndexNames(w, nameToId, xmltv, i, ch);
      IndexChannel(w, nameToId, xmltv, i);
    }
    assert xmltv[..|xmltv|] == xmltv;
  }

  method IndexNames(w: Words, index: map<string, string>, ghost xmltv: seq<Xmltv>, ghost i: nat, ch: Xmltv)
      returns (nameToId: map<string, string>)
    requires i < |xmltv| && ch == xmltv[i] && IndexInv(w, index, xmltv, i, [])
    ensures IndexInv(w, nameToId, xmltv, i, NamesOf(ch))
  {
    hide IndexInv;
    nameToId := index;
    var names := NamesOf(ch);
    for k := 0 to |names|
      invariant IndexInv(w, nameToId, xmltv, i, names[..k])
    {
      IndexName(w, nameToId, xmltv, i, names, k);
      var nk := w.normalize(names[k]);
      if nk == "" {
        continue;
      }
      if nk in nameToId && nameToId[nk] != ch.id {
        nameToId := nameToId[nk := ""];
        continue;
      }
      nameToId := nameToId[nk := ch.id];
    }
    assert names[..|names|] == names;
  }

  /** The name index maps a name to a (non-empty) id exactly when that is the one distinct id that carries it; what
      order the channels come in does not matter. */
  lemma {:induction false} NameIndexIff(w: Words, xmltv: seq<Xmltv>, name: string, id: string)
    requires id != ""
    ensures Indexed(Carriers(w, xmltv, name)) == Some(id) <==>
              (exists ch :: ch in xmltv && ch.id == id && Carries(w, ch, name))
              && forall ch :: ch in xmltv && Carries(w, ch, name) ==> ch.id == id
    ensures forall other: seq<Xmltv> :: multiset(other) == multiset(xmltv) ==>
              Indexed(Carriers(w, other, name)) == Indexed(Carriers(w, xmltv, name))
  {
    var ids := Carriers(w, xmltv, name);
    if Indexed(ids) == Some(id) {
      assert ids == {id};
      assert id in ids;
      forall ch | ch in xmltv && Carries(w, ch, name)
        ensures ch.id == id
      {
        assert ch.id in ids;
      }
    } else if forall ch :: ch in xmltv && Carries(w, ch, name) ==> ch.id == id {
      assert ids <= {id};
      assert id in ids ==> ids == {id};
    }
    forall other: seq<Xmltv> | multiset(other) == multiset(xmltv)
      ensures Carriers(w, other, name) == ids
    {
      forall ch
        ensures ch in other <==> ch in xmltv
      {
        assert ch in multiset(other) <==> ch in multiset(xmltv);
      }
    }
  }

  // ---- matching ----------------------------------------------------------

  /** The match of one channel: by its own id, then by alias, then by unique name (epglink.go:191-224). */
  ghost function MatchOf(w: Words, xmltv: seq<Xmltv>, aliases: Aliases, ch: Live): (r: Row)
    ensures r.channelId == ch.channelId && (r.reason == Matched <==> r.found.Some?)
  {
    var byId := if Key(w, ch.tvgId) != "" then IdAt(w, xmltv, Key(w, ch.tvgId)) else None;
    var name := w.normalize(ch.guideName);
    var alias := if name != "" && name in aliases && aliases[name] != "" then Some(aliases[name]) else None;
    var indexed := if name != "" then Indexed(Carriers(w, xmltv, name)) else None;
    if byId.Some? then Row(ch.channelId, Some(Match(byId.value, TvgIdExact)), Matched)
    else if alias.Some? then Row(ch.channelId, Some(Match(alias.value, AliasExact)), Matched)
    else if indexed.Some? && indexed.value != "" then Row(ch.channelId, Some(Match(indexed.value, NameExact)), Matched)
    else Row(ch.channelId, None, if indexed.Some? then Ambiguous else NoMatch)
  }

  ghost function Rows(w: Words, xmltv: seq<Xmltv>, aliases: Aliases, live: seq<Live>): (rows: seq<Row>)
    ensures |rows| == |live| && forall i :: 0 <= i < |rows| ==> rows[i] == MatchOf(w, xmltv, aliases, live[i])
  {
    seq(|live|, i requires 0 <= i < |live| => MatchOf(w, xmltv, aliases, live[i]))
  }

  /** Some XMLTV channel has the channel's own guide id, but for case and blanks around it. */
  ghost predicate OwnIdIn(w: Words, xmltv: seq<Xmltv>, ch: Live) {
    Key(w, ch.tvgId) != "" && exists x :: x in xmltv && Key(w, x.id) == Key(w, ch.tvgId)
  }

  /** The last of them has this id. */
  ghost predicate LastWithKey(w: Words, xmltv: seq<Xmltv>, key: string, id: string) {
    exists k :: 0 <= k < |xmltv| && xmltv[k].id == id && Key(w, id) == key
                && forall j :: k < j < |xmltv| ==> Key(w, xmltv[j].id) != key
  }

  predicate AliasFor(w: Words, aliases: Aliases, ch: Live) {
    var name := w.normalize(ch.guideName);
    name != "" && name in aliases && aliases[name] != ""
  }

  /** Channels with this one id, and no others, carry the name. */
  ghost predicate SoleCarrier(w: Words, xmltv: seq<Xmltv>, name: string, id: string) {
    && id != "" && (exists x :: x in xmltv && x.id == id && Carries(w, x, name))
    && forall x :: x in xmltv && Carries(w, x, name) ==> x.id == id
  }

  ghost predicate Carried(w: Words, xmltv: seq<Xmltv>, name: string) {
    exists x :: x in xmltv && Carries(w, x, name)
  }

  /** Channels with two different ids carry the name, or one whose id is empty. */
  ghost predicate Disputed(w: Words, xmltv: seq<Xmltv>, name: string) {
    exists x, y :: x in xmltv && y in xmltv && Carries(w, x, name) && Carries(w, y, name)
                   && (x.id != y.id || x.id == "")
  }

  /** The tiers in their order: a channel's own id before any alias, an alias before any name, a name only if one id
      carries it. */
  ghost predicate Tiered(w: Words, xmltv: seq<Xmltv>, aliases: Aliases, ch: Live, row: Row) {
    var name, own, alias := w.normalize(ch.guideName), OwnIdIn(w, xmltv, ch), AliasFor(w, aliases, ch);
    && row.channelId == ch.channelId && (row.reason == Matched <==> row.found.Some?)
    && (own ==> row.found.Some? && row.found.value.how == TvgIdExact
                && LastWithKey(w, xmltv, Key(w, ch.tvgId), row.found.value.id))
    && (!own && alias ==> row.found == Some(Match(aliases[name], AliasExact)))
    && (!own && !alias ==>
          && (forall id :: row.found == Some(Match(id, NameExact)) <==> SoleCarrier(w, xmltv, name, id))
          && (row.found.Some? ==> row.found.value.how == NameExact)
          && (row.reason == Ambiguous <==> Disputed(w, xmltv, name))
          && (row.reason == NoMatch <==> !Carried(w, xmltv, name)))
  }

  lemma {:induction false} IdAtLast(w: Words, xmltv: seq<Xmltv>, key: string)
    requires key != ""
    ensures match IdAt(w, xmltv, key)
            case Some(id) => LastWithKey(w, xmltv, key, id)
            case None => forall x :: x in xmltv ==> Key(w, x.id) != key
  {
    hide Key;
    if xmltv != [] {
      var n := |xmltv| - 1;
      if Key(w, xmltv[n].id) != key {
        IdAtLast(w, xmltv[..n], key);
        assert xmltv == xmltv[..n] + [xmltv[n]];
      }
    }
  }

  lemma {:induction false} IndexedMeans(w: Words, xmltv: seq<Xmltv>, name: string)
    ensures var at := Indexed(Carriers(w, xmltv, name));
      && (at == None <==> !Carried(w, xmltv, name))
      && (at == Some("") <==> Disputed(w, xmltv, name))
      && forall id :: id != "" ==> (at == Some(id) <==> SoleCarrier(w, xmltv, name, id))
  {
    hide Carries;
    var ids := Carriers(w, xmltv, name);
    assert ids == {} <==> !Carried(w, xmltv, name) by {
      if x :| x in xmltv && Carries(w, x, name) {
        assert x.id in ids;
      }
    }
    forall id | id != ""
      ensures Indexed(ids) == Some(id) <==> SoleCarrier(w, xmltv, name, id)
    {
      NameIndexIff(w, xmltv, name, id);
    }
    if Disputed(w, xmltv, name) {
      var x, y :| x in xmltv && y in xmltv && Carries(w, x, name) && Carries(w, y, name)
                  && (x.id != y.id || x.id == "");
      assert x.id in ids && y.id in ids;
    } else if Carried(w, xmltv, name) {
      var x :| x in xmltv && Carries(w, x, name);
      assert x.id != "";
      assert SoleCarrier(w, xmltv, name, x.id);
    }
  }

  lemma {:induction false} MatchIsTiered(w: Words, xmltv: seq<Xmltv>, aliases: Aliases, ch: Live)
    ensures Tiered(w, xmltv, aliases, ch, MatchOf(w, xmltv, aliases, ch))
  {
    hide IdAt, Indexed, Carriers, Key, LastWithKey, SoleCarrier, Disputed, Carried;
    var name := w.normalize(ch.guideName);
    if Key(w, ch.tvgId) != "" {
      IdAtLast(w, xmltv, Key(w, ch.tvgId));
      LastIsIn(w, xmltv, Key(w, ch.tvgId));
    }
    IndexedMeans(w, xmltv, name);
    if name == "" {
      NoName(w, xmltv);
    }
    EmptyIsNone(w, xmltv, name);
  }

  lemma LastIsIn(w: Words, xmltv: seq<Xmltv>, key: string)
    ensures forall id :: LastWithKey(w, xmltv, key, id) ==> exists x :: x in xmltv && Key(w, x.id) == key
  {
  }

  lemma NoName(w: Words, xmltv: seq<Xmltv>)
    ensures !Carried(w, xmltv, "") && !Disputed(w, xmltv, "") && forall id :: !SoleCarrier(w, xmltv, "", id)
  {
  }

  lemma EmptyIsNone(w: Words, xmltv: seq<Xmltv>, name: string)
    ensures !SoleCarrier(w, xmltv, name, "")
  {
  }

  function Count(rows: seq<Row>): nat {
    if rows == [] then 0 else Count(rows[..|rows| - 1]) + if rows[|rows| - 1].found.Some? then 1 else 0
  }

  method MatchLiveChannels(w: Words, live: seq<Live>, xmltv: seq<Xmltv>, aliases: Aliases)
      returns (rows: seq<Row>, matched: nat)
    ensures rows == Rows(w, xmltv, aliases, live)
    ensures forall i :: 0 <= i < |rows| ==> Tiered(w, xmltv, aliases, live[i], rows[i])
    ensures matched == Count(rows) <= |live|
  {
    hide IdAt, Indexed, Carriers, Key, Tiered;
    var byId, nameToId := BuildIndex(w, xmltv);
    rows, matched := [], 0;
    for i := 0 to |live|
      invariant |rows| == i && forall k :: 0 <= k < i ==> rows[k] == MatchOf(w, xmltv, aliases, live[k])
      invariant forall k :: 0 <= k < i ==> Tiered(w, xmltv, aliases, live[k], rows[k])
      invariant matched == Count(rows) <= i
    {
      var row := MatchOne(w, byId, nameToId, aliases, live[i], xmltv);
      if row.found.Some? {
        matched := matched + 1;
      }
      MatchIsTiered(w, xmltv, aliases, live[i]);
      assert (rows + [row])[..i] == rows;
      rows := rows + [row];
    }
  }

  method MatchOne(w: Words, byId: map<string, string>, nameToId: map<string, string>, aliases: Aliases, ch: Live,
                  ghost xmltv: seq<Xmltv>)
      returns (row: Row)
    requires IdsInv(w, byId, xmltv) && NamesInv(w, nameToId, xmltv)
    ensures row == MatchOf(w, xmltv, aliases, ch)
  {
    hide IdAt, Indexed, Carriers, Key;
    var name := w.normalize(ch.guideName);
    assert Get(nameToId, name) == Indexed(Carriers(w, xmltv, name));
    row := Row(ch.channelId, None, NoMatch);
    var tid := Key(w, ch.tvgId);
    assert Get(byId, tid) == IdAt(w, xmltv, tid);
    if tid != "" && tid in byId {
      row := row.(found := Some(Match(byId[tid], TvgIdExact)), reason := Matched);
    }
    if row.found.None? && name != "" && name in aliases && aliases[name] != "" {
      row := row.(found := Some(Match(aliases[name], AliasExact)), reason := Matched);
    }
    if row.found.None? && name != "" && name in nameToId {
      if nameToId[name] != "" {
        row := row.(found := Some(Match(nameToId[name], NameExact)), reason := Matched);
      } else {
        row := row.(reason := Ambiguous);
      }
    }
  }

  // ---- repairing ---------------------------------------------------------

  datatype Change = Skipped | AlreadyLinked | Repaired | Applied

  /** What a row does to its channel (epglink.go:322-341). */
  function ChangeOf(ch: Live, row: Option<Row>): Change {
    if row.None? || row.value.found.None? || Trim(row.value.found.value.id) == "" then Skipped
    else
      var current, target := Trim(ch.tvgId), Trim(row.value.found.value.id);
      if current == target then AlreadyLinked else if current != "" then Repaired else Applied
  }

  function RepairOne(ch: Live, row: Option<Row>): Live {
    if ChangeOf(ch, row).Repaired? || ChangeOf(ch, row).Applied? then
      ch.(tvgId := Trim(row.value.found.value.id), epgLinked := true)
    else ch
  }

  /** The last row of a channel id: what the source's map of rows holds. */
  function RowFor(rows: seq<Row>, id: string): Option<Row> {
    if rows == [] then None
    else if rows[|rows| - 1].channelId == id then Some(rows[|rows| - 1])
    else RowFor(rows[..|rows| - 1], id)
  }

  function CountChanges(live: seq<Live>, rows: seq<Row>, c: Change): nat {
    if live == [] then 0
    else
      var n := |live| - 1;
      CountChanges(live[..n], rows, c) + if ChangeOf(live[n], RowFor(rows, live[n].channelId)) == c then 1 else 0
  }

  function RepairAll(live: seq<Live>, rows: seq<Row>): (r: seq<Live>)
    ensures |r| == |live| && forall i :: 0 <= i < |r| ==> r[i] == RepairOne(live[i], RowFor(rows, live[i].channelId))
  {
    seq(|live|, i requires 0 <= i < |live| => RepairOne(live[i], RowFor(rows, live[i].channelId)))
  }

  /** A repair touches the guide id and the link flag alone: a channel whose row names an id ends with that id, linked
      if that is a change; every other channel stays as it is. */
  lemma {:induction false} RepairMeans(ch: Live, row: Option<Row>)
    ensures var named := row.Some? && row.value.found.Some? && Trim(row.value.found.value.id) != "";
      && (RepairOne(ch, row) != ch <==> named && Trim(ch.tvgId) != Trim(row.value.found.value.id))
      && (named ==> Trim(RepairOne(ch, row).tvgId) == Trim(row.value.found.value.id))
      && (RepairOne(ch, row) != ch ==> RepairOne(ch, row).epgLinked)
      && RepairOne(ch, row).(tvgId := ch.tvgId, epgLinked := ch.epgLinked) == ch
  {
    if row.Some? && row.value.found.Some? {
      TrimTwice(row.value.found.value.id);
    }
  }

  datatype Tally = Tally(applied: nat, alreadyLinked: nat, repaired: nat)

  /** One channel and its row (epglink.go:322-341). */
  method RepairChannel(ch: Live, row: Row) returns (repaired: Live, change: Change)
    ensures repaired == RepairOne(ch, Some(row)) && change == ChangeOf(ch, Some(row))
  {
    hide Trim;
    if row.found.None? || Trim(row.found.value.id) == "" {
      return ch, Skipped;
    }
    var current, target := Trim(ch.tvgId), Trim(row.found.value.id);
    if current == target && current != "" {
      return ch, AlreadyLinked;
    }
    change := if current != "" && current != target then Repaired else Applied;
    repaired := ch.(tvgId := target, epgLinked := true);
  }

  lemma {:induction false} CountSnoc(live: seq<Live>, rows: seq<Row>, i: nat)
    requires i < |live|
    ensures forall c :: CountChanges(live[..i + 1], rows, c) ==
              CountChanges(live[..i], rows, c) + if ChangeOf(live[i], RowFor(rows, live[i].channelId)) == c then 1 else 0
  {
    hide ChangeOf, RowFor;
    assert live[..i + 1][..i] == live[..i];
  }

  lemma NothingFor(ch: Live)
    ensures RepairOne(ch, None) == ch && ChangeOf(ch, None) == Skipped
  {
  }

  method ApplyDeterministicRepairs(live: array<Live>, rows: seq<Row>) returns (res: Tally)
    modifies live
    ensures live[..] == RepairAll(old(live[..]), rows)
    ensures res.applied == CountChanges(old(live[..]), rows, Applied)
    ensures res.repaired == CountChanges(old(live[..]), rows, Repaired)
    ensures res.alreadyLinked == CountChanges(old(live[..]), rows, AlreadyLinked)
  {
    hide RepairOne, ChangeOf, RowFor;
    res := Tally(0, 0, 0);
    var byChannelId := RowsByChannel(rows);
    ghost var was := live[..];
    for i := 0 to live.Length
      invariant forall k :: 0 <= k < i ==> live[k] == RepairOne(was[k], RowFor(rows, was[k].channelId))
      invariant forall k :: i <= k < live.Length ==> live[k] == was[k]
      invariant res.applied == CountChanges(was[..i], rows, Applied)
      invariant res.repaired == CountChanges(was[..i], rows, Repaired)
      invariant res.alreadyLinked == CountChanges(was[..i], rows, AlreadyLinked)
    {
      hide CountChanges;
      CountSnoc(was, rows, i);
      var ch, change := live[i], Skipped;
      NothingFor(ch);
      assert (if ch.channelId in byChannelId then Some(byChannelId[ch.channelId]) else None)
          == RowFor(rows, ch.channelId);
      if ch.channelId in byChannelId {
        live[i], change := RepairChannel(ch, byChannelId[ch.channelId]);
      }
      match change {
        case Skipped =>
        case AlreadyLinked => res := res.(alreadyLinked := res.alreadyLinked + 1);
        case Repaired => res := res.(repaired := res.repaired + 1);
        case Applied => res := res.(applied := res.applied + 1);
      }
    }
    assert was[..live.Length] == was;
  }

  method RowsByChannel(rows: seq<Row>) returns (m: map<string, Row>)
    ensures forall id :: (if id in m then Some(m[id]) else None) == RowFor(rows, id)
  {
    m := map[];
    for i := 0 to |rows|
      invariant forall id :: (if id in m then Some(m[id]) else None) == RowFor(rows[..i], id)
    {
      assert rows[..i + 1][..i] == rows[..i];
      m := m[rows[i].channelId := rows[i]];
    }
    assert rows[..|rows|] == rows;
  }

  // ---- repeating match and repair ----------------------------------------

  predicate UniqueIds(live: seq<Live>) {
    forall i, j :: 0 <= i < j < |live| ==> live[i].channelId != live[j].channelId
  }

  /** With unique channel ids every channel meets its own row. */
  lemma {:induction false} OwnRow(w: Words, xmltv: seq<Xmltv>, aliases: Aliases, live: seq<Live>, i: nat)
    requires UniqueIds(live) && i < |live|
    ensures RowFor(Rows(w, xmltv, aliases, live), live[i].channelId) == Some(MatchOf(w, xmltv, aliases, live[i]))
  {
    hide Indexed, IdAt, MatchOf;
    var n := |live| - 1;
    if i < n {
      OwnRow(w, xmltv, aliases, live[..n], i);
      assert Rows(w, xmltv, aliases, live)[..n] == Rows(w, xmltv, aliases, live[..n]);
    }
  }

  ghost function Round(w: Words, xmltv: seq<Xmltv>, aliases: Aliases, live: seq<Live>): seq<Live> {
    RepairAll(live, Rows(w, xmltv, aliases, live))
  }

  ghost function RoundOne(w: Words, xmltv: seq<Xmltv>, aliases: Aliases, ch: Live): Live {
    RepairOne(ch, Some(MatchOf(w, xmltv, aliases, ch)))
  }

  lemma {:induction false} IdAtKey(w: Words, xmltv: seq<Xmltv>, key: string)
    requires IdAt(w, xmltv, key).Some?
    ensures Key(w, IdAt(w, xmltv, key).value) == key
  {
    hide Key;
    if Key(w, xmltv[|xmltv| - 1].id) != key {
      IdAtKey(w, xmltv[..|xmltv| - 1], key);
    }
  }

  /** One channel: the third round changes nothing. */
  lemma {:induction false} ChannelSettles(w: Words, xmltv: seq<Xmltv>, aliases: Aliases, ch: Live)
    ensures var c1 := RoundOne(w, xmltv, aliases, ch);
      var c2 := RoundOne(w, xmltv, aliases, c1);
      var change := ChangeOf(c2, Some(MatchOf(w, xmltv, aliases, c2)));
      change.Skipped? || change.AlreadyLinked?
  {
    hide IdAt, Indexed, Carriers, Trim;
    var c1 := RoundOne(w, xmltv, aliases, ch);
    var c2 := RoundOne(w, xmltv, aliases, c1);
    if c1 != ch {
      Settle1(w, xmltv, aliases, ch);
    }
    if c2 != c1 {
      Settle1(w, xmltv, aliases, c1);
      TrimTwice(MatchOf(w, xmltv, aliases, c1).found.value.id);
      assert MatchOf(w, xmltv, aliases, c2).found == MatchOf(w, xmltv, aliases, c1).found by {
        TrimTwice(MatchOf(w, xmltv, aliases, ch).found.value.id);
      }
    } else if ChangeOf(c1, Some(MatchOf(w, xmltv, aliases, c1))).Repaired?
           || ChangeOf(c1, Some(MatchOf(w, xmltv, aliases, c1))).Applied? {
      TrimTwice(MatchOf(w, xmltv, aliases, c1).found.value.id);
    }
  }

  /** After a round a channel is matched as before, or by its new id, in the spelling of the last XMLTV channel with
      that id. */
  lemma {:induction false} Settle1(w: Words, xmltv: seq<Xmltv>, aliases: Aliases, ch: Live)
    requires RoundOne(w, xmltv, aliases, ch) != ch
    ensures var c1 := RoundOne(w, xmltv, aliases, ch);
      var before, after := MatchOf(w, xmltv, aliases, ch), MatchOf(w, xmltv, aliases, c1);
      var at := IdAt(w, xmltv, Key(w, c1.tvgId));
      && before.found.Some? && c1.tvgId == Trim(before.found.value.id)
      && Key(w, c1.tvgId) == Key(w, before.found.value.id)
      && (at.None? ==> after == before)
      && (at.Some? ==> after.found == Some(Match(at.value, TvgIdExact)) && Key(w, at.value) == Key(w, c1.tvgId))
  {
    hide Indexed, Carriers, Trim;
    var c1 := RoundOne(w, xmltv, aliases, ch);
    var id := MatchOf(w, xmltv, aliases, ch).found.value.id;
    TrimTwice(id);
    assert c1.tvgId == Trim(id) && Key(w, c1.tvgId) == Key(w, id);
    assert c1.channelId == ch.channelId && c1.guideName == ch.guideName;
    hide RoundOne, RepairOne, ChangeOf, Key;
    var at := IdAt(w, xmltv, Key(w, c1.tvgId));
    if at.Some? {
      IdAtKey(w, xmltv, Key(w, c1.tvgId));
      assert Key(w, c1.tvgId) != "";
    } else if Key(w, ch.tvgId) != "" && IdAt(w, xmltv, Key(w, ch.tvgId)).Some? {
      IdAtKey(w, xmltv, Key(w, ch.tvgId));
    }
  }

  predicate Settled(ch: Live, rows: seq<Row>) {
    var change := ChangeOf(ch, RowFor(rows, ch.channelId));
    change.Skipped? || change.AlreadyLinked?
  }

  lemma {:induction false} NoChanges(live: seq<Live>, rows: seq<Row>)
    requires forall i :: 0 <= i < |live| ==> Settled(live[i], rows)
    ensures CountChanges(live, rows, Applied) == 0 && CountChanges(live, rows, Repaired) == 0
    ensures RepairAll(live, rows) == live
  {
    hide ChangeOf;
    if live != [] {
      NoChanges(live[..|live| - 1], rows);
    }
  }

  /** Repeating match-then-repair with the same XMLTV data and aliases reaches a fixed point within two rounds: the
      third applies and repairs nothing. */
  lemma {:induction false} RepairConverges(w: Words, xmltv: seq<Xmltv>, aliases: Aliases, live: seq<Live>)
    requires UniqueIds(live)
    ensures var l2 := Round(w, xmltv, aliases, Round(w, xmltv, aliases, live));
      var rows := Rows(w, xmltv, aliases, l2);
      && Round(w, xmltv, aliases, l2) == l2
      && CountChanges(l2, rows, Applied) == 0 && CountChanges(l2, rows, Repaired) == 0
  {
    hide MatchOf, ChangeOf, Trim, RowFor;
    var l1 := Round(w, xmltv, aliases, live);
    var l2 := Round(w, xmltv, aliases, l1);
    forall i | 0 <= i < |live|
      ensures Settled(l2[i], Rows(w, xmltv, aliases, l2))
    {
      OwnRow(w, xmltv, aliases, live, i);
      OwnRow(w, xmltv, aliases, l1, i);
      OwnRow(w, xmltv, aliases, l2, i);
      ChannelSettles(w, xmltv, aliases, live[i]);
    }
    NoChanges(l2, Rows(w, xmltv, aliases, l2));
  }

  /** When exactly: the second round changes a channel if and only if the first one did, giving it an id that the XMLTV
      data spell otherwise: the last XMLTV channel with that id, up to case and blanks, is neither blank nor spelled
      so. */
  lemma {:induction false} SecondRoundIff(w: Words, xmltv: seq<Xmltv>, aliases: Aliases, ch: Live)
    ensures var c1 := RoundOne(w, xmltv, aliases, ch);
      var found := MatchOf(w, xmltv, aliases, ch).found;
      RoundOne(w, xmltv, aliases, c1) != c1 <==>
        && c1 != ch && found.Some?
        && var at := IdAt(w, xmltv, Key(w, found.value.id));
           at.Some? && Trim(at.value) != "" && Trim(at.value) != Trim(found.value.id)
  {
    hide IdAt, Indexed, Carriers, Trim, Key;
    var c1 := RoundOne(w, xmltv, aliases, ch);
    if c1 != ch {
      Settle1(w, xmltv, aliases, ch);
      TrimTwice(MatchOf(w, xmltv, aliases, ch).found.value.id);
    }
  }

  /** One round is not always enough: two ids that differ in case, and a name that only the first carries. */
  lemma {:induction false} TwoRoundsNeeded()
    ensures var w := Words((s: string) => if s == "A" then "a" else s, (s: string) => s);
      var xmltv := [Xmltv("A", ["n"]), Xmltv("a", [])];
      var ch := Live("1", "n", "", false);
      RoundOne(w, xmltv, map[], ch).tvgId == "A" && RoundOne(w, xmltv, map[], RoundOne(w, xmltv, map[], ch)).tvgId == "a"
  {
    hide Trim, Indexed, Carriers;
    var w := Words((s: string) => if s == "A" then "a" else s, (s: string) => s);
    var xmltv := [Xmltv("A", ["n"]), Xmltv("a", [])];
    TrimKeeps("A");
    TrimKeeps("a");
    TrimKeeps("");
    assert Carries(w, xmltv[0], "n") by {
      assert "n" in NamesOf(xmltv[0]);
    }
    assert !Carries(w, xmltv[1], "n");
    NameIndexIff(w, xmltv, "n", "A");
    assert xmltv[..1] == [xmltv[0]];
    assert IdAt(w, xmltv, "a") == Some("a");
  }
}
