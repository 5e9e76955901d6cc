/** internal/tuner/m3u.go: printing the channels as a playlist, which M3uParser reads back. */
module M3uServe {
  import opened Bytes
  import opened Text
  import opened M3uParser

  /** A channel as the catalog has it. */
  datatype Listing = Listing(channelId: string, guideNumber: string, guideName: string, tvgId: string)

  /** A channel that goes into the playlist, with its place in the catalog. */
  datatype Entry = Entry(idx: nat, c: Listing)

  /** What one entry is printed with. */
  datatype Line = Line(tvgId: string, attr: string, name: string, url: string)

  function ReplaceAll(s: string, c: char, d: char): (r: string)
    ensures |r| == |s| && forall i :: 0 <= i < |r| ==> r[i] == if s[i] == c then d else s[i]
  {
    seq(|s|, i requires 0 <= i < |s| => if s[i] == c then d else s[i])
  }

  predicate Included(c: Listing, prune: bool) {
    !prune || Trim(c.tvgId) != ""
  }

  /** The channels from n on that go into the playlist. */
  function EntriesFrom(channels: seq<Listing>, prune: bool, n: nat): seq<Entry>
    decreases |channels| - n
  {
    if n >= |channels| then []
    else
      (if Included(channels[n], prune) then [Entry(n, channels[n])] else []) + EntriesFrom(channels, prune, n + 1)
  }

  function Base(baseUrl: string): string {
    var b := OrElse(baseUrl, "http://localhost:5004");
    if b[|b| - 1] == '/' then b[..|b| - 1] else b
  }

  function LineOf(base: string, e: Entry, escape: string -> string): Line {
    var id := OrElse(OrElse(Trim(e.c.channelId), e.c.guideNumber), Itoa(e.idx));
    var name := ReplaceAll(OrElse(e.c.guideName, "Channel " + e.c.guideNumber), ',', ' ');
    Line(OrElse(Trim(e.c.tvgId), e.c.guideNumber), ReplaceAll(escape(name), '+', ' '), name, base + "/stream/" + id)
  }

  function Header(base: string): string {
    "#EXTM3U url-tvg=\"" + (base + "/guide.xml") + "\""
  }

  function Tags(l: Line): string {
    "-1 tvg-id=\"" + l.tvgId + "\" tvg-name=\"" + l.attr + "\""
  }

  function ExtinfLine(l: Line): string {
    EXTINF + (Tags(l) + "," + l.name)
  }

  function Printed(base: string, entries: seq<Entry>, escape: string -> string): string {
    if entries == [] then ""
    else
      var l := LineOf(base, entries[0], escape);
      ExtinfLine(l) + "\n" + (l.url + "\n" + Printed(base, entries[1..], escape))
  }

  function Playlist(baseUrl: string, channels: seq<Listing>, prune: bool, escape: string -> string): string {
    Header(Base(baseUrl)) + "\n" + Printed(Base(baseUrl), EntriesFrom(channels, prune, 0), escape)
  }

  method List(channels: seq<Listing>, prune: bool) returns (entries: seq<Entry>)
    ensures entries == EntriesFrom(channels, prune, 0)
  {
    hide Included;
    entries := [];
    for i := 0 to |channels|
      invariant EntriesFrom(channels, prune, 0) == entries + EntriesFrom(channels, prune, i)
    {
      if Included(channels[i], prune) {
        entries := entries + [Entry(i, channels[i])];
      }
    }
  }

  method Serve(baseUrl: string, channels: seq<Listing>, prune: bool, escape: string -> string) returns (w: string)
    ensures w == Playlist(baseUrl, channels, prune, escape)
  {
    hide ExtinfLine, Header, LineOf, EntriesFrom, Base;
    var entries := List(channels, prune);
    var base := Base(baseUrl);
    w := Header(base) + "\n";
    for i := 0 to |entries|
      invariant w + Printed(base, entries[i..], escape) == Playlist(baseUrl, channels, prune, escape)
    {
      assert entries[i..][1..] == entries[i + 1..];
      var l := LineOf(base, entries[i], escape);
      Regroup(w, ExtinfLine(l), l.url, Printed(base, entries[i + 1..], escape));
      w := w + (ExtinfLine(l) + "\n");
      w := w + (l.url + "\n");
    }
    assert w + "" == w;
  }

  lemma Regroup(w: string, a: string, b: string, rest: string)
    ensures w + (a + "\n") + (b + "\n") + rest == w + (a + "\n" + (b + "\n" + rest))
  {
  }

  // ---- read back ---------------------------------------------------------

  /** What a printed line must be like to be read back: no quote in the ids, no line break anywhere, no blanks around
      the name and the URL, the URL an http one, and no line as long as the reader's limit. */
  predicate Printable(l: Line, isHttp: string -> bool) {
    && '"' !in l.tvgId && '"' !in l.attr
    && l.name != "" && Trimmed(l.name) && ',' !in l.name
    && '\n' !in l.tvgId && '\n' !in l.attr && '\n' !in l.name && |ExtinfLine(l)| < LIMIT
    && l.url != "" && Trimmed(l.url) && '\n' !in l.url && l.url[0] != '#' && |l.url| < LIMIT && isHttp(l.url)
  }

  /** The n-th channel read back. */
  function Expected(l: Line, n: nat): Channel {
    Channel(OrElse(l.tvgId, Itoa(n)), Itoa(n), l.name, l.url, [l.url], l.tvgId != "", l.tvgId)
  }

  function AllExpected(base: string, entries: seq<Entry>, escape: string -> string, n: nat): seq<Channel> {
    if entries == [] then []
    else [Expected(LineOf(base, entries[0], escape), n)] + AllExpected(base, entries[1..], escape, n + 1)
  }

  /** A value in quotes, and what follows it. */
  function Quoted(value: string, rest: string): string {
    ['"'] + (value + ['"'] + rest)
  }

  /** One printed attribute is taken whole. */
  lemma {:induction false} AttrBack(before: string, value: string, rest: string)
    requires before != "" && Trimmed(before) && '=' !in before && '"' !in value
    requires rest == "" || !IsSpace(rest[|rest| - 1])
    ensures Trimmed(before + ['='] + Quoted(value, rest))
    ensures NextAttr(before + ['='] + Quoted(value, rest)) == Some(Attr(KeyOf(before), value, rest))
  {
    hide Trim, KeyOf, Index, QuotedValue;
    var q := Quoted(value, rest);
    var l := before + ['='] + q;
    assert q[|q| - 1] == if rest == "" then '"' else rest[|rest| - 1];
    hide Quoted;
    TrimKeeps(l);
    IndexBetween(before, '=', q);
    assert l[..|before|] == before && l[|before| + 1..] == q;
    TrimKeeps(before);
    QuotedStarts(value, rest);
    TrimKeeps(q);
    ValueBack(KeyOf(before), value, rest);
  }

  lemma QuotedStarts(value: string, rest: string)
    ensures Quoted(value, rest)[0] == '"'
  {
  }

  lemma {:induction false} ValueBack(key: string, value: string, rest: string)
    requires '"' !in value
    ensures QuotedValue(key, Quoted(value, rest)) == Some(Attr(key, value, rest))
  {
    hide Index;
    var q := Quoted(value, rest);
    assert q[1..] == value + ['"'] + rest;
    IndexBetween(value, '"', rest);
    assert q[1..][..|value|] == value && q[1..][|value| + 1..] == rest;
  }

  lemma {:induction false} KeysBack()
    ensures KeyOf("-1 tvg-id") == "tvg-id" && KeyOf("tvg-name") == "tvg-name"
  {
    hide Trim;
    assert "-1 tvg-id" == "-1" + [' '] + "tvg-id";
    LastIndexBetween("-1", ' ', "tvg-id");
    assert "-1 tvg-id"[3..] == "tvg-id";
    TrimKeeps("tvg-id");
    assert LastIndex("tvg-name", ' ') < 0;
  }

  lemma {:induction false} TrimBlank(l: string)
    requires Trimmed(l) && l != ""
    ensures NextAttr(" " + l) == NextAttr(l)
  {
    hide Trim, KeyOf, Index;
    TrimOfBlank(l);
    TrimKeeps(l);
  }

  lemma BlankIsSpace()
    ensures IsSpace(' ')
  {
  }

  lemma {:induction false} TrimOfBlank(l: string)
    requires Trimmed(l) && l != ""
    ensures Trim(" " + l) == l
  {
    hide IsSpace, TrimRight;
    assert (" " + l)[1..] == l;
    BlankIsSpace();
    assert TrimLeft(" " + l) == TrimLeft(l) == l;
    TrimKeeps(l);
  }

  lemma TagsParts(l: Line)
    ensures Tags(l) == "-1 tvg-id" + ['='] + Quoted(l.tvgId, " " + ("tvg-name" + ['='] + Quoted(l.attr, "")))
  {
  }

  lemma {:induction false} AttributesBack(l: Line, m: Attrs)
    requires '"' !in l.tvgId && '"' !in l.attr
    ensures Attributes(Tags(l), m) == m["tvg-id" := l.tvgId]["tvg-name" := l.attr]
  {
    hide NextAttr, KeyOf, Quoted, Tags;
    var second := "tvg-name" + ['='] + Quoted(l.attr, "");
    TagsParts(l);
    AttrBack("tvg-name", l.attr, "");
    assert (" " + second)[|second|] == second[|second| - 1];
    AttrBack("-1 tvg-id", l.tvgId, " " + second);
    TrimBlank(second);
    KeysBack();
    NoAttr(m["tvg-id" := l.tvgId]["tvg-name" := l.attr]);
    assert Attributes(" " + second, m["tvg-id" := l.tvgId]) == Attributes("", m["tvg-id" := l.tvgId]["tvg-name" := l.attr]);
  }

  lemma {:induction false} NoAttr(m: Attrs)
    ensures Attributes("", m) == m
  {
    hide Trim, Index, KeyOf, QuotedValue;
    TrimKeeps("");
  }

  lemma {:induction false} NameBack(attrs: string, name: string)
    requires name != "" && Trimmed(name) && ',' !in name
    ensures Extinf(EXTINF + (attrs + [','] + name)) == Attributes(attrs, map["name" := name])
  {
    hide Attributes, Trim;
    var rest := attrs + [','] + name;
    assert (EXTINF + rest)[|EXTINF|..] == rest;
    LastIndexBetween(attrs, ',', name);
    assert rest[..|attrs|] == attrs && rest[|attrs| + 1..] == name;
    TrimKeeps(name);
  }

  /** A printed EXTINF line parses to the id, the escaped name and the display name. */
  lemma {:induction false} ExtinfBack(l: Line)
    requires '"' !in l.tvgId && '"' !in l.attr && l.name != "" && Trimmed(l.name) && ',' !in l.name
    ensures Trim(ExtinfLine(l)) == ExtinfLine(l)
    ensures Extinf(ExtinfLine(l)) == map["name" := l.name, "tvg-id" := l.tvgId, "tvg-name" := l.attr]
  {
    hide Trim, Extinf, Attributes, Tags;
    var line := EXTINF + (Tags(l) + [','] + l.name);
    assert ExtinfLine(l) == line;
    assert line[0] == '#' && line[|line| - 1] == l.name[|l.name| - 1];
    TrimKeeps(line);
    NameBack(Tags(l), l.name);
    AttributesBack(l, map["name" := l.name]);
  }

  lemma {:induction false} ChannelBack(l: Line, n: nat)
    requires l.name != ""
    ensures ChannelOf(map["name" := l.name, "tvg-id" := l.tvgId, "tvg-name" := l.attr], [l.url], n) == Expected(l, n)
  {
    hide Itoa;
    var m := map["name" := l.name, "tvg-id" := l.tvgId, "tvg-name" := l.attr];
    assert "num" !in m;
    assert Get(m, "name") == l.name && Get(m, "tvg-id") == l.tvgId;
  }

  /** What reading one printed entry does. */
  lemma {:induction false} EntryFeeds(r: Reading, l: Line, isHttp: string -> bool)
    requires Printable(l, isHttp)
    ensures var q := Feed(Feed(r, ExtinfLine(l), isHttp), l.url, isHttp);
      Emit(q).out == Emit(r).out + [Expected(l, |Emit(r).out| + 1)]
  {
    hide Trim, Extinf, ChannelOf, Expected, ExtinfLine;
    ExtinfBack(l);
    TrimKeeps(l.url);
    ExtinfMarked(l);
    ChannelBack(l, |Emit(r).out| + 1);
    var m := Extinf(ExtinfLine(l));
    assert Feed(r, ExtinfLine(l), isHttp) == Reading(Emit(r).out, Some(m), []);
    UrlFeeds(Emit(r).out, m, l.url, isHttp);
  }

  lemma {:induction false} UrlFeeds(out: seq<Channel>, m: Attrs, url: string, isHttp: string -> bool)
    requires url != "" && Trimmed(url) && url[0] != '#' && isHttp(url)
    ensures Feed(Reading(out, Some(m), []), url, isHttp) == Reading(out, Some(m), [url])
  {
    hide Trim, Emit;
    TrimKeeps(url);
    assert EXTINF[0] == '#';
  }

  lemma NothingToEmit()
    ensures Emit(Reading([], None, [])) == Reading([], None, [])
  {
  }

  lemma ExtinfMarked(l: Line)
    ensures EXTINF <= ExtinfLine(l)
  {
  }

  lemma ExtinfIsLine(l: Line, isHttp: string -> bool)
    requires Printable(l, isHttp)
    ensures IsLine(ExtinfLine(l), LIMIT) && IsLine(l.url, LIMIT)
  {
  }

  /** The lines of the printed entries. */
  function EntryLines(base: string, entries: seq<Entry>, escape: string -> string): seq<string> {
    if entries == [] then []
    else
      var l := LineOf(base, entries[0], escape);
      [ExtinfLine(l), l.url] + EntryLines(base, entries[1..], escape)
  }

  ghost predicate AllPrintable(base: string, entries: seq<Entry>, escape: string -> string, isHttp: string -> bool) {
    forall i :: 0 <= i < |entries| ==> Printable(LineOf(base, entries[i], escape), isHttp)
  }

  lemma {:induction false} LinesBack(base: string, entries: seq<Entry>, escape: string -> string,
                                     isHttp: string -> bool)
    requires AllPrintable(base, entries, escape, isHttp)
    ensures Lines(Printed(base, entries, escape), LIMIT) == EntryLines(base, entries, escape)
  {
    hide LineOf, ExtinfLine, Printable, IsLine;
    if entries != [] {
      LinesBack(base, entries[1..], escape, isHttp);
      var l := LineOf(base, entries[0], escape);
      ExtinfIsLine(l, isHttp);
      LinesCons(l.url, Printed(base, entries[1..], escape), LIMIT);
      LinesCons(ExtinfLine(l), l.url + "\n" + Printed(base, entries[1..], escape), LIMIT);
    }
  }

  lemma {:induction false} EntriesBack(r: Reading, base: string, entries: seq<Entry>, escape: string -> string,
                                       isHttp: string -> bool)
    requires AllPrintable(base, entries, escape, isHttp)
    ensures Emit(FeedAll(r, EntryLines(base, entries, escape), isHttp)).out ==
              Emit(r).out + AllExpected(base, entries, escape, |Emit(r).out| + 1)
    decreases |entries|
  {
    hide LineOf, ExtinfLine, Printable, Feed, Emit, Expected;
    if entries != [] {
      var l := LineOf(base, entries[0], escape);
      var lines := EntryLines(base, entries, escape);
      var first := Feed(r, ExtinfLine(l), isHttp);
      var q := Feed(first, l.url, isHttp);
      assert lines[0] == ExtinfLine(l) && lines[1..][0] == l.url;
      assert lines[1..][1..] == EntryLines(base, entries[1..], escape);
      assert FeedAll(r, lines, isHttp) == FeedAll(first, lines[1..], isHttp) == FeedAll(q, lines[1..][1..], isHttp);
      EntryFeeds(r, l, isHttp);
      EntriesBack(q, base, entries[1..], escape, isHttp);
    }
  }

  /** Printer and parser undo each other: of any channels whose printed lines can be read back, the served playlist
      parses to the same number of channels, in the same order, with the printed ids, names and stream URLs. */
  lemma {:induction false} PlaylistBack(baseUrl: string, channels: seq<Listing>, prune: bool, escape: string -> string,
                     isHttp: string -> bool)
    requires AllPrintable(Base(baseUrl), EntriesFrom(channels, prune, 0), escape, isHttp)
    requires '\n' !in baseUrl && |Header(Base(baseUrl))| < LIMIT
    ensures Parse(Playlist(baseUrl, channels, prune, escape), isHttp) ==
              AllExpected(Base(baseUrl), EntriesFrom(channels, prune, 0), escape, 1)
  {
    hide LineOf, ExtinfLine, Printable, Emit, Expected, Trim, EntriesFrom, AllPrintable;
    var base, entries := Base(baseUrl), EntriesFrom(channels, prune, 0);
    HeaderSkipped(baseUrl, isHttp);
    LinesBack(base, entries, escape, isHttp);
    LinesCons(Header(base), Printed(base, entries, escape), LIMIT);
    var start := Reading([], None, []);
    EntriesBack(start, base, entries, escape, isHttp);
    NothingToEmit();
    var lines := [Header(base)] + EntryLines(base, entries, escape);
    assert lines[1..] == EntryLines(base, entries, escape);
    assert [] + AllExpected(base, entries, escape, 1) == AllExpected(base, entries, escape, 1);
  }

  lemma {:induction false} HeaderSkipped(baseUrl: string, isHttp: string -> bool)
    requires '\n' !in baseUrl && |Header(Base(baseUrl))| < LIMIT
    ensures IsLine(Header(Base(baseUrl)), LIMIT)
    ensures forall r :: Feed(r, Header(Base(baseUrl)), isHttp) == r
  {
    hide Trim, Extinf, Base, Emit;
    var h := Header(Base(baseUrl));
    BaseLine(baseUrl);
    TrimKeeps(h);
    assert h[0] == '#' && h[4] == 'M' && EXTINF[4] == 'I';
  }

  lemma BaseLine(baseUrl: string)
    requires '\n' !in baseUrl
    ensures '\n' !in Base(baseUrl)
  {
  }

  // ---- in terms of the channels ------------------------------------------

  /** A text without line breaks, quotes or blanks around it. */
  predicate Plain(s: string) {
    Trimmed(s) && '\n' !in s && '"' !in s
  }

  /** The name as displayed: not blank or a comma at either end, no line break. */
  predicate PlainName(s: string) {
    && s != "" && '\n' !in s && Trimmed(s) && s[0] != ',' && s[|s| - 1] != ','
  }

  /** What is asked of a channel: plain id fields (each may be blank), and a plain name or, without one, a plain number
      to name it by. */
  predicate PlainChannel(c: Listing) {
    && Plain(Trim(c.tvgId)) && Plain(c.guideNumber) && '\n' !in Trim(c.channelId)
    && (if c.guideName != "" then PlainName(c.guideName) else PlainName(c.guideNumber))
  }

  /** ... and of the rest: a base that begins like a URL, names escaped without quotes or line breaks, a stream URL that
      counts as an http one, and lines within the reader's limit. */
  predicate PlainRest(base: string, e: Entry, escape: string -> string, isHttp: string -> bool) {
    var l := LineOf(base, e, escape);
    && base != "" && !IsSpace(base[0]) && base[0] != '#' && '\n' !in base
    && '"' !in escape(l.name) && '\n' !in escape(l.name)
    && isHttp(l.url) && |l.url| < LIMIT && |ExtinfLine(l)| < LIMIT
  }

  lemma {:induction false} DigitsPlain(n: nat)
    ensures Itoa(n) != "" && forall i :: 0 <= i < |Itoa(n)| ==> '0' <= Itoa(n)[i] <= '9'
  {
    if n >= 10 {
      DigitsPlain(n / 10);
    }
  }

  /** The name of a plain channel is printed as it is but for its commas. */
  lemma {:induction false} NameReadable(c: Listing)
    requires PlainChannel(c)
    ensures var name := ReplaceAll(OrElse(c.guideName, "Channel " + c.guideNumber), ',', ' ');
      name != "" && Trimmed(name) && ',' !in name && '\n' !in name
  {
    hide Plain, Trim;
  }

  lemma {:induction false} UrlReadable(base: string, id: string)
    requires base != "" && !IsSpace(base[0]) && '\n' !in base && id != "" && Trimmed(id) && '\n' !in id
    ensures var url := base + "/stream/" + id; url != "" && Trimmed(url) && '\n' !in url && url[0] == base[0]
  {
    hide IsSpace;
  }

  lemma {:induction false} IdReadable(e: Entry)
    requires PlainChannel(e.c)
    ensures var id := OrElse(OrElse(Trim(e.c.channelId), e.c.guideNumber), Itoa(e.idx));
      id != "" && Trimmed(id) && '\n' !in id
  {
    hide Itoa, PlainName, Trim;
    DigitsPlain(e.idx);
    TrimmedTrim(e.c.channelId);
  }

  lemma {:induction false} TrimmedTrim(s: string)
    ensures Trimmed(Trim(s))
  {
    hide TrimLeft, TrimRight, IsSpace;
  }

  /** A plain channel is printed readably. */
  lemma {:induction false} ChannelReadable(base: string, e: Entry, escape: string -> string, isHttp: string -> bool)
    requires PlainChannel(e.c) && PlainRest(base, e, escape, isHttp)
    ensures Printable(LineOf(base, e, escape), isHttp)
  {
    hide Trim, Itoa, PlainName, ExtinfLine, IsSpace, Trimmed;
    NameReadable(e.c);
    IdReadable(e);
    UrlReadable(base, OrElse(OrElse(Trim(e.c.channelId), e.c.guideNumber), Itoa(e.idx)));
  }

  /** So the served playlist of plain channels gives every one of them back. */
  lemma {:induction false} ChannelsBack(baseUrl: string, channels: seq<Listing>, prune: bool,
                                        escape: string -> string, isHttp: string -> bool)
    requires '\n' !in baseUrl && |Header(Base(baseUrl))| < LIMIT
    requires forall e :: e in EntriesFrom(channels, prune, 0) ==>
               PlainChannel(e.c) && PlainRest(Base(baseUrl), e, escape, isHttp)
    ensures Parse(Playlist(baseUrl, channels, prune, escape), isHttp) ==
              AllExpected(Base(baseUrl), EntriesFrom(channels, prune, 0), escape, 1)
  {
    hide *;
    assert AllPrintable(Base(baseUrl), EntriesFrom(channels, prune, 0), escape, isHttp) by {
      AllReadable(Base(baseUrl), EntriesFrom(channels, prune, 0), escape, isHttp);
    }
    PlaylistBack(baseUrl, channels, prune, escape, isHttp);
  }

  lemma {:induction false} AllReadable(base: string, entries: seq<Entry>, escape: string -> string,
                                       isHttp: string -> bool)
    requires forall e :: e in entries ==> PlainChannel(e.c) && PlainRest(base, e, escape, isHttp)
    ensures AllPrintable(base, entries, escape, isHttp)
  {
    hide PlainChannel, PlainRest, Printable, LineOf;
    forall i | 0 <= i < |entries|
      ensures Printable(LineOf(base, entries[i], escape), isHttp)
    {
      ChannelReadable(base, entries[i], escape, isHttp);
    }
  }

  lemma {:induction false} AllIncluded(channels: seq<Listing>, n: nat)
    requires n <= |channels|
    ensures var es := EntriesFrom(channels, false, n);
            |es| == |channels| - n && forall i :: 0 <= i < |es| ==> es[i] == Entry(n + i, channels[n + i])
    decreases |channels| - n
  {
    if n < |channels| {
      AllIncluded(channels, n + 1);
    }
  }

  lemma {:induction false} ExpectedAt(base: string, entries: seq<Entry>, escape: string -> string, n: nat, i: nat)
    requires i < |entries|
    ensures |AllExpected(base, entries, escape, n)| == |entries|
    ensures AllExpected(base, entries, escape, n)[i] == Expected(LineOf(base, entries[i], escape), n + i)
    decreases |entries|
  {
    hide Expected, LineOf;
    if |entries| > 1 {
      ExpectedAt(base, entries[1..], escape, n + 1, if i == 0 then 0 else i - 1);
    }
  }

  /** What a player reads of channel i in a whole catalog of plain channels: its id in the stream URL, its guide id, or
      else its number, and its name with commas as blanks. */
  ghost predicate ReadAs(c: Channel, base: string, l: Listing) {
    && (Trim(l.channelId) != "" ==> c.streamUrls == [base + "/stream/" + Trim(l.channelId)])
    && (if Trim(l.tvgId) != "" then c.tvgId == Trim(l.tvgId) else c.tvgId == l.guideNumber)
    && (l.guideName != "" ==>
          |c.guideName| == |l.guideName|
          && forall k :: 0 <= k < |l.guideName| ==>
               c.guideName[k] == if l.guideName[k] == ',' then ' ' else l.guideName[k])
  }

  lemma {:induction false} CatalogBack(baseUrl: string, channels: seq<Listing>, escape: string -> string,
                                       isHttp: string -> bool, i: nat)
    requires '\n' !in baseUrl && |Header(Base(baseUrl))| < LIMIT && i < |channels|
    requires forall j :: 0 <= j < |channels| ==>
               PlainChannel(channels[j]) && PlainRest(Base(baseUrl), Entry(j, channels[j]), escape, isHttp)
    ensures var out := Parse(Playlist(baseUrl, channels, false, escape), isHttp);
            |out| == |channels| && ReadAs(out[i], Base(baseUrl), channels[i])
  {
    hide PlainChannel, PlainRest, Parse, Playlist, Header, Base, Trim, Itoa, EntriesFrom, AllExpected;
    AllIncluded(channels, 0);
    ChannelsBack(baseUrl, channels, false, escape, isHttp);
    ExpectedAt(Base(baseUrl), EntriesFrom(channels, false, 0), escape, 1, i);
  }
}
