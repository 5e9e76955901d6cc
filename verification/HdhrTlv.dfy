/** internal/hdhomerun/packet.go:138-363: the tag-length-value items inside a packet, and the packets built of them. */
module HdhrTlv {
  import opened Bytes
  import opened Crc
  import opened HdhrPacket

  datatype Tlv = Tlv(tag: byte, length: u16, value: seq<byte>)

  datatype Error = TruncatedItem | TruncatedLength | TruncatedValue

  datatype Result = Ok(tlvs: seq<Tlv>) | Err(error: Error)

  const MAX_VALUE: nat := 16383

  // ---- printing ----------------------------------------------------------

  /** One byte up to 127; else 7 high bits with the top bit set, then 7 low bits. Of the length, 14 bits survive. */
  function LengthBytes(n: u16): seq<byte> {
    if n < 128 then [Byte(n)] else [Byte(128 + n / 128 % 128), Byte(n % 128)]
  }

  function Print(t: Tlv): seq<byte> {
    [t.tag] + LengthBytes(t.length) + t.value
  }

  function PrintAll(ts: seq<Tlv>): seq<byte> {
    if ts == [] then [] else PrintAll(ts[..|ts| - 1]) + Print(ts[|ts| - 1])
  }

  method AppendTlv(before: seq<byte>, tlv: Tlv) returns (buf: seq<byte>)
    ensures buf == before + Print(tlv)
  {
    hide Byte;
    buf := before + [tlv.tag];
    if tlv.length < 128 {
      buf := buf + [Byte(tlv.length)];
    } else {
      buf := buf + [Byte(128 + tlv.length / 128 % 128)];
      buf := buf + [Byte(tlv.length % 128)];
    }
    assert buf == before + ([tlv.tag] + LengthBytes(tlv.length));
    if |tlv.value| > 0 {
      buf := buf + tlv.value;
    } else {
      assert [tlv.tag] + LengthBytes(tlv.length) + tlv.value == [tlv.tag] + LengthBytes(tlv.length);
    }
  }

  method MarshalTlvs(tlvs: seq<Tlv>) returns (buf: seq<byte>)
    ensures buf == PrintAll(tlvs)
  {
    hide Print;
    buf := [];
    for i := 0 to |tlvs|
      invariant buf == PrintAll(tlvs[..i])
    {
      assert tlvs[..i + 1][..i] == tlvs[..i];
      buf := AppendTlv(buf, tlvs[i]);
    }
    assert tlvs[..|tlvs|] == tlvs;
  }

  // ---- parsing -----------------------------------------------------------

  /** (length << 7) | b, for a 7-bit length and a whole byte: their one common bit is not added twice. */
  function Join7(length: nat, b: nat): (n: u16)
    requires length < 128 && b < 256
    ensures n <= MAX_VALUE
  {
    length * 128 + b - if length % 2 == 1 && b >= 128 then 128 else 0
  }

  lemma Join7IsOr(length: bv16, b: bv16)
    requires length < 128 && b < 256
    ensures (length << 7) | b == length * 128 + b - if length & 1 == 1 && b >= 128 then 128 else 0
  {
  }

  datatype Item = Item(tlv: Tlv, end: nat) | Bad(error: Error)

  /** The item at pos (packet.go:151-183). */
  function ItemAt(payload: seq<byte>, pos: nat): (r: Item)
    requires pos < |payload|
    ensures r.Item? ==>
      && pos + 2 <= r.end <= |payload| && |r.tlv.value| == r.tlv.length <= MAX_VALUE
  {
    if pos + 2 > |payload| then Bad(TruncatedItem)
    else
      var first := Int(payload[pos + 1]);
      if first >= 128 && pos + 2 >= |payload| then Bad(TruncatedLength)
      else
        var length := if first >= 128 then Join7(first - 128, Int(payload[pos + 2])) else first;
        var start := if first >= 128 then pos + 3 else pos + 2;
        if start + length > |payload| then Bad(TruncatedValue)
        else Item(Tlv(payload[pos], length, payload[start..start + length]), start + length)
  }

  function ParseFrom(payload: seq<byte>, pos: nat): Result
    decreases |payload| - pos
  {
    if pos >= |payload| then Ok([])
    else
      match ItemAt(payload, pos)
      case Bad(e) => Err(e)
      case Item(t, end) => After(t, ParseFrom(payload, end))
  }

  function After(t: Tlv, rest: Result): Result {
    if rest.Ok? then Ok([t] + rest.tlvs) else rest
  }

  function Parse(payload: seq<byte>): Result {
    ParseFrom(payload, 0)
  }

  method TakeItem(payload: seq<byte>, start: nat) returns (r: Item)
    requires start < |payload|
    ensures r == ItemAt(payload, start)
  {
    hide Join7, Int;
    if start + 2 > |payload| {
      return Bad(TruncatedItem);
    }
    var tag := payload[start];
    var length: u16 := Int(payload[start + 1]) % 128;
    var pos := start + 2;
    if Int(payload[pos - 1]) >= 128 {
      if pos >= |payload| {
        return Bad(TruncatedLength);
      }
      length := Join7(length, Int(payload[pos]));
      pos := pos + 1;
    }
    if pos + length > |payload| {
      return Bad(TruncatedValue);
    }
    return Item(Tlv(tag, length, payload[pos..pos + length]), pos + length);
  }

  method UnmarshalTlvs(payload: seq<byte>) returns (r: Result)
    ensures r == Parse(payload)
  {
    hide ItemAt;
    var tlvs: seq<Tlv> := [];
    var pos := 0;
    while pos < |payload|
      invariant Parse(payload) == AfterAll(tlvs, ParseFrom(payload, pos))
      decreases |payload| - pos
    {
      var item := TakeItem(payload, pos);
      if item.Bad? {
        return Err(item.error);
      }
      AfterAllSnoc(tlvs, item.tlv, ParseFrom(payload, item.end));
      tlvs, pos := tlvs + [item.tlv], item.end;
    }
    assert tlvs + [] == tlvs;
    return Ok(tlvs);
  }

  function AfterAll(ts: seq<Tlv>, rest: Result): Result {
    if rest.Ok? then Ok(ts + rest.tlvs) else rest
  }

  lemma {:induction false} AfterAllSnoc(ts: seq<Tlv>, t: Tlv, rest: Result)
    ensures AfterAll(ts + [t], rest) == AfterAll(ts, After(t, rest))
  {
    if rest.Ok? {
      assert ts + [t] + rest.tlvs == ts + ([t] + rest.tlvs);
    }
  }

  // ---- both ways ---------------------------------------------------------

  /** An item whose value is as long as it says, and no longer than 14 bits can say. */
  predicate Honest(t: Tlv) {
    t.length == |t.value| <= MAX_VALUE
  }

  predicate AllHonest(ts: seq<Tlv>) {
    forall i :: 0 <= i < |ts| ==> Honest(ts[i])
  }

  /** What is printed is read back, wherever it stands. */
  lemma {:induction false} ItemBack(before: seq<byte>, t: Tlv, rest: seq<byte>)
    requires Honest(t)
    ensures ItemAt(before + Print(t) + rest, |before|) == Item(t, |before + Print(t)|)
  {
    hide Byte, Int;
    var p, pos := before + Print(t) + rest, |before|;
    assert p[pos] == t.tag;
    if t.length < 128 {
      IntOfByte(t.length);
      assert p[pos + 1] == Byte(t.length);
      assert p[pos + 2..pos + 2 + t.length] == t.value;
    } else {
      IntOfByte(128 + t.length / 128);
      IntOfByte(t.length % 128);
      assert p[pos + 1] == Byte(128 + t.length / 128) && p[pos + 2] == Byte(t.length % 128);
      assert p[pos + 3..pos + 3 + t.length] == t.value;
    }
  }

  lemma PrintSome(t: Tlv)
    ensures |Print(t)| > 0
  {
  }

  /** Items printed one after the other are read back. */
  lemma {:induction false} ItemsBack(before: seq<byte>, ts: seq<Tlv>)
    requires AllHonest(ts)
    ensures ParseFrom(before + PrintAll(ts), |before|) == Ok(ts)
    decreases |ts|
  {
    hide Honest, ItemAt, Print;
    if ts == [] {
      assert before + PrintAll(ts) == before;
    } else {
      PrintFirst(ts);
      var p := before + Print(ts[0]) + PrintAll(ts[1..]);
      assert p == before + PrintAll(ts);
      ItemBack(before, ts[0], PrintAll(ts[1..]));
      ItemsBack(before + Print(ts[0]), ts[1..]);
      assert [ts[0]] + ts[1..] == ts;
      PrintSome(ts[0]);
    }
  }

  lemma {:induction false} PrintFirst(ts: seq<Tlv>)
    requires ts != []
    ensures PrintAll(ts) == Print(ts[0]) + PrintAll(ts[1..])
  {
    hide Print;
    var n := |ts| - 1;
    if n == 0 {
      assert PrintAll(ts[..0]) == [];
    } else {
      PrintFirst(ts[..n]);
      assert ts[..n][1..] == ts[1..][..n - 1] && ts[1..][n - 1] == ts[n];
    }
  }

  lemma {:induction false} ParsedHonest(payload: seq<byte>, pos: nat)
    ensures var r := ParseFrom(payload, pos); r.Ok? ==> AllHonest(r.tlvs)
    decreases |payload| - pos
  {
    hide ItemAt;
    if pos < |payload| && ItemAt(payload, pos).Item? {
      ParsedHonest(payload, ItemAt(payload, pos).end);
    }
  }

  /** Printing then parsing gives the items back exactly when every one of them is honest about its length. */
  lemma {:induction false} TlvRoundTripIff(ts: seq<Tlv>)
    ensures Parse(PrintAll(ts)) == Ok(ts) <==> AllHonest(ts)
  {
    hide AllHonest, ParseFrom, PrintAll;
    ParsedHonest(PrintAll(ts), 0);
    if AllHonest(ts) {
      ItemsBack([], ts);
      assert [] + PrintAll(ts) == PrintAll(ts);
    }
  }

  /** Parsing, printing and parsing again is parsing, on every input that parses, overlong lengths included. */
  lemma {:induction false} ParsePrintParse(payload: seq<byte>)
    requires Parse(payload).Ok?
    ensures Parse(PrintAll(Parse(payload).tlvs)) == Parse(payload)
  {
    hide ItemAt, Print;
    ParsedHonest(payload, 0);
    TlvRoundTripIff(Parse(payload).tlvs);
  }

  // ---- finding and building ----------------------------------------------

  /** FindTLV: the first item with the tag. */
  method FindTlv(tlvs: seq<Tlv>, tag: byte) returns (r: Option<Tlv>)
    ensures r == Find(tlvs, tag)
    ensures r == None <==> forall i :: 0 <= i < |tlvs| ==> tlvs[i].tag != tag
    ensures r.Some? ==>
      exists i :: 0 <= i < |tlvs| && tlvs[i] == r.value && r.value.tag == tag && forall k :: 0 <= k < i ==> tlvs[k].tag != tag
  {
    for i := 0 to |tlvs|
      invariant forall k :: 0 <= k < i ==> tlvs[k].tag != tag
      invariant Find(tlvs, tag) == Find(tlvs[i..], tag)
    {
      assert tlvs[i..][1..] == tlvs[i + 1..];
      if tlvs[i].tag == tag {
        return Some(tlvs[i]);
      }
    }
    return None;
  }

  function Find(tlvs: seq<Tlv>, tag: byte): Option<Tlv> {
    if tlvs == [] then None else if tlvs[0].tag == tag then Some(tlvs[0]) else Find(tlvs[1..], tag)
  }

  lemma {:induction false} FindConcat(a: seq<Tlv>, b: seq<Tlv>, tag: byte)
    ensures Find(a + b, tag) == if Find(a, tag).Some? then Find(a, tag) else Find(b, tag)
  {
    if a == [] {
      assert a + b == b;
    } else {
      assert (a + b)[1..] == a[1..] + b;
      FindConcat(a[1..], b, tag);
    }
  }

  lemma FindNone(tag: byte)
    ensures Find([], tag) == None
  {
  }

  lemma {:induction false} FindOne(t: Tlv, tag: byte)
    ensures Find([t], tag) == if t.tag == tag then Some(t) else None
  {
    assert [t][1..] == [];
  }

  lemma {:induction false} FindTwo(t: Tlv, u: Tlv, tag: byte)
    ensures Find([t, u], tag) == if t.tag == tag then Some(t) else if u.tag == tag then Some(u) else None
  {
    assert [t, u] == [t] + [u];
    FindConcat([t], [u], tag);
    FindOne(t, tag);
    FindOne(u, tag);
  }

  const DEVICE_TYPE: byte := 0x01
  const DEVICE_ID: byte := 0x02
  const NAME: byte := 0x03
  const VALUE: byte := 0x04
  const ERROR_MESSAGE: byte := 0x05
  const TUNER_COUNT: byte := 0x10
  const LINEUP_URL: byte := 0x27
  const BASE_URL: byte := 0x2A

  const DISCOVER_RPY: u16 := 3
  const GET_SET_REQ: u16 := 4
  const GET_SET_RPY: u16 := 5

  /** A zero-terminated string item; the length field is computed in 16 bits. */
  function Text(tag: byte, s: seq<byte>): Tlv {
    Tlv(tag, (|s| + 1) % 0x1_0000, s + [0])
  }

  predicate Fits(s: seq<byte>) {
    |s| + 1 <= MAX_VALUE
  }

  function GetSet(name: seq<byte>, value: seq<byte>): seq<byte> {
    if value == [] then [NAME, Byte((|name| + 1) % 256)] else PrintAll([Text(NAME, name), Text(VALUE, value)])
  }

  function NewGetReq(name: seq<byte>): Packet {
    Packet(GET_SET_REQ, GetSet(name, []))
  }

  function NewSetReq(name: seq<byte>, value: seq<byte>): Packet {
    Packet(GET_SET_REQ, GetSet(name, value))
  }

  function NewGetSetRpy(name: seq<byte>, value: seq<byte>, message: seq<byte>): Packet {
    Packet(GET_SET_RPY, PrintAll(RpyItems(name, value, message)))
  }

  function RpyItems(name: seq<byte>, value: seq<byte>, message: seq<byte>): seq<Tlv> {
    if message != [] then [Text(ERROR_MESSAGE, message)]
    else [Text(NAME, name)] + if value != [] then [Text(VALUE, value)] else []
  }

  function Clamp(v: int): byte {
    if v > 255 then 255 else if v < 0 then 0 else Byte(v)
  }

  function DiscoverItems(deviceType: bv32, deviceId: bv32, tuners: int, base: seq<byte>, lineup: seq<byte>): seq<Tlv> {
    [Tlv(DEVICE_TYPE, 4, BigEndian(deviceType)), Tlv(DEVICE_ID, 4, BigEndian(deviceId)),
     Tlv(TUNER_COUNT, 1, [Clamp(tuners)])]
    + (if base != [] then [Text(BASE_URL, base)] else [])
    + (if lineup != [] then [Text(LINEUP_URL, lineup)] else [])
  }

  function NewDiscoverRpy(deviceType: bv32, deviceId: bv32, tuners: int, base: seq<byte>, lineup: seq<byte>): Packet {
    Packet(DISCOVER_RPY, PrintAll(DiscoverItems(deviceType, deviceId, tuners, base, lineup)))
  }

  /** The text of an item: its value without the terminator. */
  function TextOf(t: Option<Tlv>): Option<seq<byte>> {
    if t.Some? && t.value.value != [] then Some(t.value.value[..|t.value.value| - 1]) else None
  }

  function Given(s: seq<byte>): Option<seq<byte>> {
    if s == [] then None else Some(s)
  }

  /** What a receiver gets from the wire: the items of an accepted packet. */
  function Receive(data: seq<byte>): Result {
    var d := Unmarshal(data);
    if d.Accepted? then Parse(d.p.payload) else Err(TruncatedItem)
  }

  lemma {:induction false} PrintedSize(ts: seq<Tlv>)
    requires AllHonest(ts)
    ensures |PrintAll(ts)| <= |ts| * (MAX_VALUE + 3)
  {
    hide Byte;
    if ts != [] {
      PrintedSize(ts[..|ts| - 1]);
    }
  }

  /** Up to three long items make a packet that goes over the wire whole. */
  lemma {:induction false} WireBack(typ: u16, ts: seq<Tlv>)
    requires AllHonest(ts) && |PrintAll(ts)| <= MAX_PAYLOAD
    ensures Receive(Marshal(Packet(typ, PrintAll(ts)))) == Ok(ts)
  {
    hide AllHonest, Parse, PrintAll, Unmarshal, Marshal;
    var p := Packet(typ, PrintAll(ts));
    RoundTripIff(p, []);
    assert Marshal(p) + [] == Marshal(p);
    TlvRoundTripIff(ts);
  }

  /** A SET request arrives with its name and value. */
  lemma {:induction false} SetReqArrives(name: seq<byte>, value: seq<byte>)
    requires Fits(name) && Fits(value) && value != []
    ensures var r := Receive(Marshal(NewSetReq(name, value)));
      r.Ok? && TextOf(Find(r.tlvs, NAME)) == Some(name) && TextOf(Find(r.tlvs, VALUE)) == Some(value)
  {
    hide Receive, Marshal, PrintAll;
    var ts := [Text(NAME, name), Text(VALUE, value)];
    FindTwo(ts[0], ts[1], NAME);
    FindTwo(ts[0], ts[1], VALUE);
    PrintedSize(ts);
    WireBack(GET_SET_REQ, ts);
  }

  /** A reply arrives with its error message, or with its name and its value if it has one. */
  lemma {:induction false} GetSetRpyArrives(name: seq<byte>, value: seq<byte>, message: seq<byte>)
    requires Fits(name) && Fits(value) && Fits(message)
    ensures var r := Receive(Marshal(NewGetSetRpy(name, value, message)));
      && r.Ok?
      && TextOf(Find(r.tlvs, ERROR_MESSAGE)) == Given(message)
      && TextOf(Find(r.tlvs, NAME)) == (if message != [] then None else Some(name))
      && TextOf(Find(r.tlvs, VALUE)) == (if message != [] then None else Given(value))
  {
    hide Receive, Marshal, PrintAll;
    var ts := RpyItems(name, value, message);
    PrintedSize(ts);
    WireBack(GET_SET_RPY, ts);
    hide Find;
    if message != [] || value == [] {
      assert ts == [ts[0]];
      forall tag {
        FindOne(ts[0], tag);
      }
    } else {
      assert ts == [Text(NAME, name), Text(VALUE, value)];
      forall tag {
        FindTwo(Text(NAME, name), Text(VALUE, value), tag);
      }
    }
  }

  /** A discovery reply arrives with its device, its tuner count (clamped to a byte) and its URLs. */
  lemma {:induction false} DiscoverRpyArrives(deviceType: bv32, deviceId: bv32, tuners: int, base: seq<byte>,
                                              lineup: seq<byte>)
    requires Fits(base) && Fits(lineup)
    ensures var r := Receive(Marshal(NewDiscoverRpy(deviceType, deviceId, tuners, base, lineup)));
      && r.Ok?
      && (var t := Find(r.tlvs, DEVICE_TYPE); t.Some? && |t.value.value| == 4 && Word(t.value.value) == deviceType)
      && (var t := Find(r.tlvs, DEVICE_ID); t.Some? && |t.value.value| == 4 && Word(t.value.value) == deviceId)
      && (var t := Find(r.tlvs, TUNER_COUNT);
            t.Some? && |t.value.value| == 1 && Int(t.value.value[0]) == Min(Max(tuners, 0), 255))
      && TextOf(Find(r.tlvs, BASE_URL)) == Given(base)
      && TextOf(Find(r.tlvs, LINEUP_URL)) == Given(lineup)
  {
    hide Receive, Marshal, PrintAll, Word, BigEndian, Byte, Int, Find, Clamp;
    var ts := DiscoverItems(deviceType, deviceId, tuners, base, lineup);
    assert AllHonest(ts);
    DiscoverSize(ts);
    WireBack(DISCOVER_RPY, ts);
    WordOfRegister(deviceType);
    WordOfRegister(deviceId);
    ClampMeans(tuners);
    DiscoverFinds(deviceType, deviceId, tuners, base, lineup);
  }

  lemma {:induction false} DiscoverFinds(deviceType: bv32, deviceId: bv32, tuners: int, base: seq<byte>,
                                         lineup: seq<byte>)
    ensures var ts := DiscoverItems(deviceType, deviceId, tuners, base, lineup);
      && Find(ts, DEVICE_TYPE) == Some(ts[0]) && Find(ts, DEVICE_ID) == Some(ts[1])
      && Find(ts, TUNER_COUNT) == Some(ts[2])
      && Find(ts, BASE_URL) == (if base == [] then None else Some(Text(BASE_URL, base)))
      && Find(ts, LINEUP_URL) == (if lineup == [] then None else Some(Text(LINEUP_URL, lineup)))
  {
    hide Find, BigEndian, Clamp;
    var t, i := Tlv(DEVICE_TYPE, 4, BigEndian(deviceType)), Tlv(DEVICE_ID, 4, BigEndian(deviceId));
    var n := Tlv(TUNER_COUNT, 1, [Clamp(tuners)]);
    var b := if base != [] then [Text(BASE_URL, base)] else [];
    var l := if lineup != [] then [Text(LINEUP_URL, lineup)] else [];
    forall tag
      ensures Find(DiscoverItems(deviceType, deviceId, tuners, base, lineup), tag) ==
                if tag == DEVICE_TYPE then Some(t) else if tag == DEVICE_ID then Some(i)
                else if tag == TUNER_COUNT then Some(n)
                else if Find(b, tag).Some? then Find(b, tag) else Find(l, tag)
    {
      FindConcat([t, i, n] + b, l, tag);
      FindConcat([t, i, n], b, tag);
      FindConcat([t] + [i], [n], tag);
      FindConcat([t], [i], tag);
      assert [t, i, n] == [t] + [i] + [n];
      FindOne(t, tag);
      FindOne(i, tag);
      FindOne(n, tag);
    }
    forall tag {
      FindOne(Text(BASE_URL, base), tag);
    }
    forall tag {
      FindOne(Text(LINEUP_URL, lineup), tag);
    }
    forall tag {
      FindNone(tag);
    }
  }

  lemma {:induction false} ClampMeans(v: int)
    ensures Int(Clamp(v)) == Min(Max(v, 0), 255)
  {
    hide Byte;
    if 0 <= v <= 255 {
      IntOfByte(v);
    } else {
      assert (255 as bv8) as int == 255;
    }
  }

  lemma {:induction false} DiscoverSize(ts: seq<Tlv>)
    requires 3 <= |ts| <= 5 && ts[0].length <= 4 && ts[1].length <= 4 && ts[2].length <= 4
    requires AllHonest(ts)
    ensures |PrintAll(ts)| <= MAX_PAYLOAD
  {
    hide Byte;
    PrintFirst(ts);
    PrintFirst(ts[1..]);
    PrintFirst(ts[1..][1..]);
    PrintedSize(ts[1..][1..][1..]);
  }

  /** A GET request never carries its name: its payload is a header without the bytes it announces. A receiver finds
      an error in it, or, when the header's length byte has wrapped to zero, an empty name. */
  lemma {:induction false} GetReqLosesName(name: seq<byte>)
    ensures Parse(NewGetReq(name).payload) ==
              if (|name| + 1) % 256 == 0 then Ok([Tlv(NAME, 0, [])])
              else if (|name| + 1) % 256 < 128 then Err(TruncatedValue) else Err(TruncatedLength)
  {
    hide Byte, Int;
    var n := (|name| + 1) % 256;
    IntOfByte(n);
    var p := [NAME, Byte(n)];
    assert ParseFrom(p, 2) == Ok([]);
    assert p[2..2] == [];
  }
}
