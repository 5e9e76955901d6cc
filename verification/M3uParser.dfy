/** internal/indexer/m3u.go:51-158: reading a playlist into live channels. */
module M3uParser {
  import opened Bytes
  import opened Text

  type Attrs = map<string, string>

  datatype Channel = Channel(channelId: string, guideNumber: string, guideName: string, streamUrl: string,
                             streamUrls: seq<string>, epgLinked: bool, tvgId: string)

  const LIMIT: nat := 512 * 1024
  const EXTINF: string := "#EXTINF:"

  /** strconv.Itoa. */
  function Itoa(n: nat): string {
    if n < 10 then [Digit(n)] else Itoa(n / 10) + [Digit(n % 10)]
  }

  function Digit(n: nat): char
    requires n < 10
  {
    '0' + n as char
  }

  function Get(m: Attrs, key: string): string {
    if key in m then m[key] else ""
  }

  // ---- one EXTINF line ---------------------------------------------------

  /** What stands before the `=`, after its last blank. */
  function KeyOf(before: string): string {
    var i := LastIndex(before, ' ');
    if i >= 0 then Trim(before[i + 1..]) else before
  }

  /** A key, its quoted value, and what follows; None when the rest of the line has no such thing. */
  datatype Attr = Attr(key: string, value: string, rest: string)

  /** The quoted value at the beginning of q. */
  function QuotedValue(key: string, q: string): (r: Option<Attr>)
    ensures r.Some? ==> |r.value.rest| < |q|
  {
    if |q| < 2 || (q[0] != '"' && q[0] != '\'') then None
    else
      var end := Index(q[1..], q[0]);
      if end < 0 then None else Some(Attr(key, q[1..][..end], q[1..][end + 1..]))
  }

  function NextAttr(line: string): (r: Option<Attr>)
    ensures r.Some? ==> |r.value.rest| < |line|
  {
    var l := Trim(line);
    var eq := Index(l, '=');
    if eq <= 0 then None else QuotedValue(KeyOf(Trim(l[..eq])), Trim(l[eq + 1..]))
  }

  function Attributes(line: string, m: Attrs): Attrs
    decreases |line|
  {
    match NextAttr(line)
    case None => m
    case Some(a) => Attributes(a.rest, m[a.key := a.value])
  }

  function TrimPrefix(line: string, prefix: string): string {
    if prefix <= line then line[|prefix|..] else line
  }

  function Extinf(line: string): Attrs {
    var l := TrimPrefix(line, EXTINF);
    var comma := LastIndex(l, ',');
    if comma >= 0 && comma + 1 < |l| then Attributes(l[..comma], map["name" := Trim(l[comma + 1..])])
    else Attributes(l, map[])
  }

  /** The key (m3u.go:136-140). */
  method TakeKey(before: string) returns (key: string)
    ensures key == KeyOf(before)
  {
    hide Trim, LastIndex;
    key := before;
    var blank := LastIndex(before, ' ');
    if blank >= 0 {
      key := Trim(before[blank + 1..]);
    }
  }

  /** The value (m3u.go:142-155). */
  method TakeValue(key: string, q: string) returns (r: Option<Attr>)
    ensures r == QuotedValue(key, q)
  {
    hide Index;
    if |q| < 2 {
      return None;
    }
    var quote := q[0];
    if quote != '"' && quote != '\'' {
      return None;
    }
    var l := q[1..];
    var end := Index(l, quote);
    if end < 0 {
      return None;
    }
    return Some(Attr(key, l[..end], l[end + 1..]));
  }

  /** One attribute (m3u.go:127-155). */
  method TakeAttr(line: string) returns (r: Option<Attr>)
    ensures r == NextAttr(line)
  {
    hide Trim, Index, KeyOf, QuotedValue;
    var l := Trim(line);
    if l == "" {
      return None;
    }
    var eq := Index(l, '=');
    if eq <= 0 {
      return None;
    }
    var key := TakeKey(Trim(l[..eq]));
    r := TakeValue(key, Trim(l[eq + 1..]));
  }

  method ParseExtinf(line: string) returns (m: Attrs)
    ensures m == Extinf(line)
  {
    hide Trim, NextAttr;
    m := map[];
    var l := TrimPrefix(line, EXTINF);
    var idx := LastIndex(l, ',');
    if idx >= 0 && idx + 1 < |l| {
      m := m["name" := Trim(l[idx + 1..])];
      l := l[..idx];
    }
    while true
      invariant Attributes(l, m) == Extinf(line)
      decreases |l|
    {
      var a := TakeAttr(l);
      if a.None? {
        return;
      }
      m := m[a.value.key := a.value.value];
      l := a.value.rest;
    }
  }

  // ---- the whole playlist ------------------------------------------------

  /** The channels so far, and the EXTINF line and the URLs of the one being read. */
  datatype Reading = Reading(out: seq<Channel>, extinf: Option<Attrs>, urls: seq<string>)

  function OrElse(s: string, t: string): string {
    if s == "" then t else s
  }

  function ChannelOf(m: Attrs, urls: seq<string>, n: nat): Channel
    requires urls != []
  {
    var number := OrElse(Get(m, "num"), Itoa(n));
    var tvgId := Get(m, "tvg-id");
    Channel(OrElse(tvgId, number), number,
            OrElse(OrElse(Get(m, "name"), Get(m, "tvg-name")), "Channel " + Itoa(n)),
            urls[0], urls, tvgId != "", tvgId)
  }

  function Emit(r: Reading): Reading {
    if r.extinf == None || r.urls == [] then r
    else Reading(r.out + [ChannelOf(r.extinf.value, r.urls, |r.out| + 1)], None, [])
  }

  function Feed(r: Reading, raw: string, isHttp: string -> bool): Reading {
    var line := Trim(raw);
    if line == "" then r
    else if EXTINF <= line then Reading(Emit(r).out, Some(Extinf(line)), [])
    else if line[0] == '#' then r
    else if r.extinf.Some? && isHttp(line) then r.(urls := r.urls + [line])
    else r
  }

  function FeedAll(r: Reading, lines: seq<string>, isHttp: string -> bool): Reading
    decreases |lines|
  {
    if lines == [] then r else FeedAll(Feed(r, lines[0], isHttp), lines[1..], isHttp)
  }

  function Parse(body: string, isHttp: string -> bool): seq<Channel> {
    Emit(FeedAll(Reading([], None, []), Lines(body, LIMIT), isHttp)).out
  }

  /** The first channel's worth of the lines read so far, if it is complete (m3u.go:61-93). */
  method EmitOne(out: seq<Channel>, extinf: Option<Attrs>, urls: seq<string>)
      returns (out': seq<Channel>, extinf': Option<Attrs>, urls': seq<string>)
    ensures Reading(out', extinf', urls') == Emit(Reading(out, extinf, urls))
  {
    hide Itoa, Get, Extinf, Trim;
    if extinf.None? || |urls| == 0 {
      return out, extinf, urls;
    }
    var m := extinf.value;
    var name := Get(m, "name");
    if name == "" {
      name := Get(m, "tvg-name");
    }
    if name == "" {
      name := "Channel " + Itoa(|out| + 1);
    }
    var tvgId, number := Get(m, "tvg-id"), Get(m, "num");
    if number == "" {
      number := Itoa(|out| + 1);
    }
    var channelId := tvgId;
    if channelId == "" {
      channelId := number;
    }
    return out + [Channel(channelId, number, name, urls[0], urls, tvgId != "", tvgId)], None, [];
  }

  method ParseM3uBody(body: string, isHttp: string -> bool) returns (out: seq<Channel>)
    ensures out == Parse(body, isHttp)
  {
    hide Extinf, Trim, Emit;
    var lines := Lines(body, LIMIT);
    var extinf: Option<Attrs>, urls: seq<string> := None, [];
    out := [];
    for i := 0 to |lines|
      invariant FeedAll(Reading([], None, []), lines, isHttp) ==
                FeedAll(Reading(out, extinf, urls), lines[i..], isHttp)
    {
      assert lines[i..][1..] == lines[i + 1..];
      var line := Trim(lines[i]);
      if line == "" {
        continue;
      }
      if EXTINF <= line {
        out, extinf, urls := EmitOne(out, extinf, urls);
        var m := ParseExtinf(line);
        extinf, urls := Some(m), [];
        continue;
      }
      if line[0] == '#' {
        continue;
      }
      if extinf.Some? && isHttp(line) {
        urls := urls + [line];
      }
    }
    out, extinf, urls := EmitOne(out, extinf, urls);
  }

  // ---- what the playlist says, entry by entry ----------------------------

  predicate IsEntry(raw: string) {
    EXTINF <= Trim(raw)
  }

  predicate IsStream(raw: string, isHttp: string -> bool) {
    var line := Trim(raw);
    line != "" && line[0] != '#' && isHttp(line)
  }

  /** The stream lines among some lines, trimmed. */
  function StreamsIn(lines: seq<string>, isHttp: string -> bool): seq<string> {
    if lines == [] then []
    else
      var n := |lines| - 1;
      StreamsIn(lines[..n], isHttp) + if IsStream(lines[n], isHttp) then [Trim(lines[n])] else []
  }

  /** The place of the last entry line, -1 if there is none. */
  function LastEntry(lines: seq<string>): (k: int)
    ensures -1 <= k < |lines|
    ensures k >= 0 ==> IsEntry(lines[k])
    ensures forall i :: k < i < |lines| ==> !IsEntry(lines[i])
  {
    if lines == [] then -1
    else if IsEntry(lines[|lines| - 1]) then |lines| - 1
    else LastEntry(lines[..|lines| - 1])
  }

  /** One channel for each entry line with a stream before the next one; it has all of them, in order, and what it lacks
      is made up from its place among the channels. */
  function ChannelsIn(lines: seq<string>, isHttp: string -> bool): seq<Channel>
    decreases |lines|
  {
    var k := LastEntry(lines);
    if k < 0 then []
    else
      var before, urls := ChannelsIn(lines[..k], isHttp), StreamsIn(lines[k + 1..], isHttp);
      before + if urls == [] then [] else [ChannelOf(Extinf(Trim(lines[k])), urls, |before| + 1)]
  }

  lemma {:induction false} FeedSnoc(r: Reading, lines: seq<string>, last: string, isHttp: string -> bool)
    ensures FeedAll(r, lines + [last], isHttp) == Feed(FeedAll(r, lines, isHttp), last, isHttp)
    decreases |lines|
  {
    hide Feed;
    if lines == [] {
      assert FeedAll(Feed(r, last, isHttp), [], isHttp) == Feed(r, last, isHttp);
    } else {
      assert (lines + [last])[1..] == lines[1..] + [last];
      FeedSnoc(Feed(r, lines[0], isHttp), lines[1..], last, isHttp);
    }
  }

  /** Where the parser stands after some lines. */
  function Held(lines: seq<string>, isHttp: string -> bool): Reading {
    var k := LastEntry(lines);
    if k < 0 then Reading([], None, [])
    else Reading(ChannelsIn(lines[..k], isHttp), Some(Extinf(Trim(lines[k]))), StreamsIn(lines[k + 1..], isHttp))
  }

  lemma {:induction false} EmitHeld(lines: seq<string>, isHttp: string -> bool)
    ensures Emit(Held(lines, isHttp)).out == ChannelsIn(lines, isHttp)
  {
    hide Extinf, Trim, ChannelOf, StreamsIn, LastEntry;
  }

  lemma {:induction false} LastEntrySnoc(init: seq<string>, last: string)
    ensures LastEntry(init + [last]) == if IsEntry(last) then |init| else LastEntry(init)
  {
    hide IsEntry;
    assert (init + [last])[..|init|] == init;
  }

  lemma {:induction false} StreamsSnoc(init: seq<string>, last: string, isHttp: string -> bool)
    ensures StreamsIn(init + [last], isHttp) ==
              StreamsIn(init, isHttp) + if IsStream(last, isHttp) then [Trim(last)] else []
  {
    hide IsStream, Trim;
    assert (init + [last])[..|init|] == init;
  }

  /** What a line does, by its kind. */
  lemma {:induction false} FeedKinds(r: Reading, raw: string, isHttp: string -> bool)
    ensures Feed(r, raw, isHttp) ==
              if IsEntry(raw) then Reading(Emit(r).out, Some(Extinf(Trim(raw))), [])
              else if r.extinf.Some? && IsStream(raw, isHttp) then r.(urls := r.urls + [Trim(raw)])
              else r
  {
    hide Extinf, Trim, Emit;
  }

  lemma {:induction false} HeldEntry(init: seq<string>, last: string, isHttp: string -> bool)
    requires IsEntry(last)
    ensures Held(init + [last], isHttp) == Reading(ChannelsIn(init, isHttp), Some(Extinf(Trim(last))), [])
  {
    hide Extinf, Trim, ChannelsIn, LastEntry, IsEntry;
    var lines := init + [last];
    LastEntrySnoc(init, last);
    assert lines[..|init|] == init && lines[|init| + 1..] == [];
  }

  lemma {:induction false} HeldOther(init: seq<string>, last: string, isHttp: string -> bool)
    requires !IsEntry(last)
    ensures var r := Held(init, isHttp);
            Held(init + [last], isHttp) ==
              if r.extinf.Some? && IsStream(last, isHttp) then r.(urls := r.urls + [Trim(last)]) else r
  {
    hide Extinf, Trim, ChannelsIn, StreamsIn, LastEntry, IsEntry, IsStream;
    var lines, k := init + [last], LastEntry(init);
    LastEntrySnoc(init, last);
    if k >= 0 {
      assert lines[..k] == init[..k] && lines[k] == init[k] && lines[k + 1..] == init[k + 1..] + [last];
      StreamsSnoc(init[k + 1..], last, isHttp);
    }
  }

  lemma {:induction false} FeedHeld(init: seq<string>, last: string, isHttp: string -> bool)
    ensures Held(init + [last], isHttp) == Feed(Held(init, isHttp), last, isHttp)
  {
    hide *;
    FeedKinds(Held(init, isHttp), last, isHttp);
    if IsEntry(last) {
      HeldEntry(init, last, isHttp);
      EmitHeld(init, isHttp);
    } else {
      HeldOther(init, last, isHttp);
    }
  }

  lemma {:induction false} ReadSoFar(lines: seq<string>, isHttp: string -> bool)
    ensures FeedAll(Reading([], None, []), lines, isHttp) == Held(lines, isHttp)
    decreases |lines|
  {
    hide Feed, ChannelsIn, StreamsIn;
    if lines != [] {
      var n := |lines| - 1;
      assert lines == lines[..n] + [lines[n]];
      ReadSoFar(lines[..n], isHttp);
      FeedSnoc(Reading([], None, []), lines[..n], lines[n], isHttp);
      FeedHeld(lines[..n], lines[n], isHttp);
    }
  }

  /** The parser reads exactly these channels, whatever the lines are. */
  lemma {:induction false} ParseIsChannels(body: string, isHttp: string -> bool)
    ensures Parse(body, isHttp) == ChannelsIn(Lines(body, LIMIT), isHttp)
  {
    hide Lines, FeedAll, Held, ChannelsIn, Emit;
    ReadSoFar(Lines(body, LIMIT), isHttp);
    EmitHeld(Lines(body, LIMIT), isHttp);
  }

  /** A channel that can be served: it has an id, a number, a name and a stream, and its guide id is its id. */
  predicate Usable(c: Channel) {
    && c.channelId != "" && c.guideNumber != "" && c.guideName != ""
    && c.streamUrls != [] && c.streamUrl == c.streamUrls[0]
    && (c.epgLinked <==> c.tvgId != "") && c.channelId == if c.epgLinked then c.tvgId else c.guideNumber
  }

  /** Whatever the playlist says, every channel read from it is usable. */
  lemma {:induction false} ChannelsUsable(lines: seq<string>, isHttp: string -> bool)
    ensures forall c <- ChannelsIn(lines, isHttp) :: Usable(c)
    decreases |lines|
  {
    hide Extinf, Trim, ChannelOf, StreamsIn, LastEntry, Usable;
    var k := LastEntry(lines);
    if k >= 0 {
      ChannelsUsable(lines[..k], isHttp);
      var urls := StreamsIn(lines[k + 1..], isHttp);
      if urls != [] {
        ChannelUsable(Extinf(Trim(lines[k])), urls, |ChannelsIn(lines[..k], isHttp)| + 1);
      }
    }
  }

  lemma {:induction false} ChannelUsable(m: Attrs, urls: seq<string>, n: nat)
    requires urls != []
    ensures Usable(ChannelOf(m, urls, n))
  {
    assert Itoa(n) != "";
  }
}
