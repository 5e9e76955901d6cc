/** internal/tuner/gateway.go:72-118 and gateway_support.go:88-100: which channel a request path names, and whether the
    stream URLs of the served playlist name the channels they were printed for. */
module StreamRoute {
  import opened Bytes
  import opened Text
  import opened M3uParser
  import opened M3uServe

  // ---- from the path to a channel ----------------------------------------

  /** channelIDFromRequestPath. */
  function RequestId(path: string): Option<string> {
    if "/stream/" <= path then Some(path[8..])
    else if "/auto/" <= path then Some(TrimPrefix(path[6..], "v"))
    else None
  }

  predicate IsDigit(c: char) {
    '0' <= c <= '9'
  }

  function Value(digits: string): nat
    requires forall c <- digits :: IsDigit(c)
  {
    if digits == "" then 0
    else
      var last := digits[|digits| - 1];
      assert IsDigit(last);
      Value(digits[..|digits| - 1]) * 10 + (last as int - '0' as int)
  }

  /** strconv.Atoi: a sign, perhaps, and digits. What does not fit an int is an error there and beyond any list here. */
  function Atoi(s: string): Option<int> {
    var digits := if s != "" && (s[0] == '-' || s[0] == '+') then s[1..] else s;
    if digits == "" || exists c <- digits :: !IsDigit(c) then None
    else Some(if s[0] == '-' then 0 - Value(digits) else Value(digits))
  }

  /** The place of the first channel with this in that field. */
  function FirstWith(channels: seq<Listing>, field: Listing -> string, s: string): (r: Option<nat>)
    ensures match r
            case Some(i) =>
              i < |channels| && field(channels[i]) == s && forall j :: 0 <= j < i ==> field(channels[j]) != s
            case None => forall j :: 0 <= j < |channels| ==> field(channels[j]) != s
  {
    if channels == [] then None
    else
      var n := |channels| - 1;
      var before := FirstWith(channels[..n], field, s);
      if before.Some? then before else if field(channels[n]) == s then Some(n) else None
  }

  function ById(channels: seq<Listing>, id: string): Option<nat> {
    FirstWith(channels, (c: Listing) => c.channelId, id)
  }

  function ByNumber(channels: seq<Listing>, id: string): Option<nat> {
    FirstWith(channels, (c: Listing) => c.guideNumber, id)
  }

  function ByIndex(channels: seq<Listing>, id: string): Option<nat> {
    if Atoi(id).Some? && 0 <= Atoi(id).value < |channels| then Some(Atoi(id).value) else None
  }

  function Lookup(channels: seq<Listing>, id: string): Option<nat> {
    if id == "" then None
    else if ById(channels, id).Some? then ById(channels, id)
    else if ByIndex(channels, id).Some? then ByIndex(channels, id)
    else ByNumber(channels, id)
  }

  method Route(path: string, channels: seq<Listing>) returns (channel: Option<nat>)
    ensures channel == if RequestId(path).Some? then Lookup(channels, RequestId(path).value) else None
  {
    hide Atoi;
    if RequestId(path).None? || RequestId(path).value == "" {
      return None;
    }
    var id := RequestId(path).value;
    channel := None;
    for i := 0 to |channels|
      invariant forall j :: 0 <= j < i ==> channels[j].channelId != id
    {
      if channels[i].channelId == id {
        channel := Some(i);
        break;
      }
    }
    if channel.None? {
      var n := Atoi(id);
      if n.Some? && 0 <= n.value < |channels| {
        channel := Some(n.value);
      }
    }
    if channel.None? {
      for i := 0 to |channels|
        invariant forall j :: 0 <= j < i ==> channels[j].guideNumber != id
      {
        if channels[i].guideNumber == id {
          channel := Some(i);
          break;
        }
      }
    }
  }

  // ---- from a channel to its path and back -------------------------------

  /** The id a channel is printed with. */
  function IdOf(e: Entry): string {
    if Trim(e.c.channelId) != "" then Trim(e.c.channelId)
    else if e.c.guideNumber != "" then e.c.guideNumber
    else Itoa(e.idx)
  }

  function PathOf(e: Entry): string {
    "/stream/" + IdOf(e)
  }

  function RouteOf(path: string, channels: seq<Listing>): Option<nat> {
    if RequestId(path).Some? then Lookup(channels, RequestId(path).value) else None
  }

  /** The printed URL is the base with that path. */
  lemma {:induction false} UrlIsPath(base: string, e: Entry, escape: string -> string)
    ensures LineOf(base, e, escape).url == base + PathOf(e)
  {
    hide Trim, Itoa, ReplaceAll;
    Regrouped(base, "/stream/", IdOf(e));
  }

  lemma Regrouped(a: string, b: string, c: string)
    ensures a + b + c == a + (b + c)
  {
  }

  lemma {:induction false} PathNamesId(e: Entry)
    ensures RequestId(PathOf(e)) == Some(IdOf(e)) && IdOf(e) != ""
  {
    hide Trim;
    assert PathOf(e)[8..] == IdOf(e);
    DigitsPlain(e.idx);
  }

  lemma {:induction false} ValueSnoc(digits: string, c: char)
    requires (forall d <- digits :: IsDigit(d)) && IsDigit(c)
    ensures Value(digits + [c]) == Value(digits) * 10 + (c as int - '0' as int)
  {
    assert (digits + [c])[..|digits|] == digits;
  }

  lemma {:induction false} ValueOfItoa(n: nat)
    ensures forall c <- Itoa(n) :: IsDigit(c)
    ensures Value(Itoa(n)) == n
  {
    if n < 10 {
      assert [] + [Digit(n)] == [Digit(n)];
      ValueSnoc([], Digit(n));
    } else {
      ValueOfItoa(n / 10);
      ValueSnoc(Itoa(n / 10), Digit(n % 10));
    }
  }

  /** Printing a number and reading it are inverse. */
  lemma {:induction false} AtoiOfItoa(n: nat)
    ensures Atoi(Itoa(n)) == Some(n)
  {
    ValueOfItoa(n);
    DigitsPlain(n);
  }

  /** Nothing stands in the way of a channel printed by its number or its place: no channel has that as its id, and a
      number that reads as a place in the list reads as its own. */
  predicate Unshadowed(channels: seq<Listing>, idx: nat, id: string) {
    && (forall c <- channels :: c.channelId != id)
    && (ByIndex(channels, id).Some? ==> ByIndex(channels, id) == Some(idx))
  }

  /** Whose URL leads back to it: a channel with an id of its own, if no channel before it has the same; one printed by
      its guide number, or with blanks around its id, if nothing shadows that and it is the first with the number, or in
      its place by number; one printed by its place, unless that is another one's id. */
  predicate LeadsBack(channels: seq<Listing>, e: Entry) {
    var c, id := e.c, IdOf(e);
    if c.channelId == id then
      forall j :: 0 <= j < e.idx && j < |channels| ==> channels[j].channelId != id
    else
      && Unshadowed(channels, e.idx, id)
      && (ByIndex(channels, id).None? ==>
            && c.guideNumber == id
            && forall j :: 0 <= j < e.idx && j < |channels| ==> channels[j].guideNumber != id)
  }

  /** For every channel of every list: the stream URL printed for it names that channel if and only if so. */
  lemma {:induction false} LeadsBackIff(channels: seq<Listing>, e: Entry)
    requires e.idx < |channels| && channels[e.idx] == e.c
    ensures RouteOf(PathOf(e), channels) == Some(e.idx) <==> LeadsBack(channels, e)
  {
    hide Trim, Atoi, Itoa;
    PathNamesId(e);
  }

  /** A list in which every channel has an id, without blanks around it, that no other one has. */
  predicate ProperIds(channels: seq<Listing>) {
    && (forall c <- channels :: c.channelId != "" && Trimmed(c.channelId))
    && (forall i, j :: 0 <= i < j < |channels| ==> channels[i].channelId != channels[j].channelId)
  }

  /** Of such a list every printed URL names its channel, whether or not some are left out of the playlist. */
  lemma {:induction false} EveryUrlLeadsBack(channels: seq<Listing>, prune: bool, e: Entry)
    requires ProperIds(channels) && e in EntriesFrom(channels, prune, 0)
    ensures RouteOf(PathOf(e), channels) == Some(e.idx)
  {
    hide RouteOf, PathOf, Trim, EntriesFrom, Included;
    EntryIsChannel(channels, prune, 0, e);
    TrimKeeps(e.c.channelId);
    LeadsBackIff(channels, e);
  }

  /** What goes into the playlist: each channel in its place, or, pruned, each with a guide id. */
  lemma {:induction false} EntryIsChannel(channels: seq<Listing>, prune: bool, n: nat, e: Entry)
    ensures e in EntriesFrom(channels, prune, n) <==>
              n <= e.idx < |channels| && channels[e.idx] == e.c && (prune ==> Trim(e.c.tvgId) != "")
    decreases |channels| - n
  {
    hide Trim;
    if n < |channels| {
      EntryIsChannel(channels, prune, n + 1, e);
    }
  }

  /** Two channels with one id: the second one's URL names the first. */
  lemma {:induction false} SameIdMisleads(c: Listing, d: Listing)
    requires c.channelId == d.channelId != "" && Trimmed(d.channelId)
    ensures RouteOf(PathOf(Entry(1, d)), [c, d]) == Some(0)
  {
    hide Trim, Atoi;
    TrimKeeps(d.channelId);
    PathNamesId(Entry(1, d));
    var id := (x: Listing) => x.channelId;
    assert id([c, d][0]) == d.channelId;
    assert FirstWith([c, d], id, d.channelId) == Some(0);
  }

  /** A channel printed by a guide number that reads as another one's place. */
  lemma {:induction false} NumberReadAsPlace()
    ensures var c, d := Listing("", "1", "One", ""), Listing("b", "2", "Two", "");
            RouteOf(PathOf(Entry(0, c)), [c, d]) == Some(1)
  {
    var c, d := Listing("", "1", "One", ""), Listing("b", "2", "Two", "");
    PathNamesId(Entry(0, c));
    assert Trim("") == "";
    AtoiOfItoa(1);
    assert Itoa(1) == "1";
  }
}
