/** internal/vodfs/file.go: file system reads served from a growing partial file or from the final one, while the
    threads of the materializer go on. */
module ProgressiveRead {
  import opened Bytes
  import opened SingleFlight
  import opened SingleFlightRuns

  /** Which file a read looks at, and on whose behalf. */
  datatype Place = TryFinal | TryPartial | Materialized

  /** Where a read stands. A stat, an open and a ReadAt are separate steps: the file may change in between. */
  datatype ReadPc =
    | Polling
    | Stating(place: Place)
    | Opening(place: Place, size: nat)
    | Reading(place: Place, size: nat, ino: Ino)
    | Sleeping
    | Asking
    | Served(data: seq<byte>)
    | Eio

  /** A read of `want` bytes at `off`; t is the thread that runs the Materialize call it falls back to. */
  datatype Reader = Reader(asset: Asset, off: nat, want: nat, t: Tid, pc: ReadPc)

  /** What the world answers: whether a step goes well, and how far a ReadAt gets. */
  datatype Answer = Answer(ok: bool, n: nat)

  datatype World = World(s: State, readers: map<nat, Reader>)

  function FileAt(s: State, a: Asset, place: Place): Option<Ino> {
    Get(if place == TryPartial then s.partial else s.final, a)
  }

  /** The next thing after a read of this place came to nothing. */
  function GiveUp(place: Place): ReadPc {
    match place
    case TryFinal => Stating(TryPartial)
    case TryPartial => Sleeping
    case Materialized => Eio
  }

  /** readLocal up to the open, with the size its caller saw (file.go:94-101). */
  function Local(place: Place, size: nat, off: nat): ReadPc {
    if off >= size then Served([]) else Opening(place, size)
  }

  /** What ReadAt finds of the requested bytes, given how much of the file there is now (file.go:94-97, 107). */
  function Wanted(size: nat, off: nat, want: nat): nat
    requires off < size
  {
    Min(off + want, size) - off
  }

  function Slice(bytes: seq<byte>, off: nat, n: nat): seq<byte> {
    bytes[Min(off, |bytes|)..Min(off + n, |bytes|)]
  }

  /** One step of a read (file.go:78-154). */
  function ReadStep(s: State, r: Reader, w: Answer): ReadPc {
    match r.pc
    // the context
    case Polling => if w.ok then Stating(TryFinal) else Asking
    case Stating(place) =>
      var f := FileAt(s, r.asset, place);
      var seen := f.Some? && f.value in s.nodes;
      if place == Materialized then
        if seen then Local(place, |s.nodes[f.value].bytes|, r.off) else Served([])
      else if seen && |s.nodes[f.value].bytes| > r.off then
        Local(place, |s.nodes[f.value].bytes|, r.off)
      else
        GiveUp(place)
    case Opening(place, size) =>
      var f := FileAt(s, r.asset, place);
      if f.Some? && w.ok then Reading(place, size, f.value) else GiveUp(place)
    // a ReadAt that is short has an error; only one that got nothing fails the read
    case Reading(place, size, ino) =>
      if ino !in s.nodes || r.off >= size then GiveUp(place)
      else
        var data := Slice(s.nodes[ino].bytes, r.off, Min(w.n, Wanted(size, r.off, r.want)));
        if data == [] && Wanted(size, r.off, r.want) > 0 then GiveUp(place) else Served(data)
    // the deadline
    case Sleeping => if w.ok then Polling else Asking
    // Materialize has returned
    case Asking =>
      if r.t in s.threads && s.threads[r.t].pc == Returned(Path) then Stating(Materialized) else Served([])
    case Served(_) => r.pc
    case Eio => r.pc
  }

  /** The thread a read asks works for the asset of the read. */
  ghost predicate Assigned(s: State, r: Reader) {
    r.t in s.threads && s.threads[r.t].asset == r.asset
  }

  datatype Event = Thread(m: Move) | Read(r: nat, w: Answer)

  ghost predicate Next(cfg: Config, x: World, e: Event, y: World) {
    match e
    case Thread(m) => Follows(cfg, x.s, m, y.s) && y.readers == x.readers
    case Read(k, w) =>
      && k in x.readers && y.s == x.s
      && (x.readers[k].pc.Asking? ==> Assigned(x.s, x.readers[k]) && x.s.threads[x.readers[k].t].pc.Returned?)
      && y.readers == x.readers[k := x.readers[k].(pc := ReadStep(x.s, x.readers[k], w))]
  }

  ghost predicate Start(cfg: Config, x: World) {
    Init(cfg, x.s) && forall k :: k in x.readers ==> x.readers[k].pc == Polling && Assigned(x.s, x.readers[k])
  }

  ghost predicate History(cfg: Config, xs: seq<World>, es: seq<Event>) {
    && |xs| == |es| + 1
    && Start(cfg, xs[0])
    && forall i :: 0 <= i < |es| ==> Next(cfg, xs[i], es[i], xs[i + 1])
  }

  /** What a read may hold: an open file of its own asset, or the matching slice of the resource. */
  ghost predicate ReaderOk(cfg: Config, s: State, r: Reader) {
    && (r.pc.Reading? ==> r.off < r.pc.size && r.pc.ino in s.nodes && s.nodes[r.pc.ino].asset == r.asset)
    && (r.pc.Served? && r.asset in cfg.resource ==> Matches(r, cfg.resource[r.asset]))
    && (r.pc.Opening? ==> r.off < r.pc.size)
    && ((r.pc.Stating? || r.pc.Opening? || r.pc.Reading?) && r.pc.place == Materialized ==> r.asset in s.final)
    && Assigned(s, r)
  }

  /** The bytes served are those of the resource at the offset of the read, and no more than were asked for. */
  ghost predicate Matches(r: Reader, resource: seq<byte>)
    requires r.pc.Served?
  {
    |r.pc.data| <= r.want && (r.pc.data == [] || (r.off + |r.pc.data| <= |resource|
      && r.pc.data == resource[r.off..r.off + |r.pc.data|]))
  }

  ghost predicate WorldInv(cfg: Config, x: World) {
    Inv(cfg, x.s) && forall k :: k in x.readers ==> ReaderOk(cfg, x.s, x.readers[k])
  }

  lemma SliceOfPrefix(bytes: seq<byte>, resource: seq<byte>, off: nat, n: nat)
    requires bytes <= resource
    ensures var d := Slice(bytes, off, n);
            |d| <= n && (d == [] || (off + |d| <= |resource| && d == resource[off..off + |d|]))
  {
  }

  /** A step of a thread takes no file away from under a read, nor changes whose it is. */
  lemma {:induction false} FilesStay(cfg: Config, s: State, m: Move, r: State)
    requires Inv(cfg, s) && Follows(cfg, s, m, r)
    ensures forall i :: i in s.nodes ==> i in r.nodes && r.nodes[i].asset == s.nodes[i].asset
    ensures forall a :: a in s.final ==> a in r.final
    ensures forall t :: t in s.threads ==> t in r.threads && r.threads[t].asset == s.threads[t].asset
  {
    hide SingleFlight.Next, Locks, Unlocks, LockInv, OwnerInv, FlightInv, WaitInv, ClosingInv, PrefixInv, PromiseInv;
  }

  lemma {:induction false} ReadKeeps(cfg: Config, s: State, r: Reader, w: Answer)
    requires Inv(cfg, s) && ReaderOk(cfg, s, r)
    ensures ReaderOk(cfg, s, r.(pc := ReadStep(s, r, w)))
  {
    hide ProtocolInv, WriterInv, Slice;
    if r.pc.Reading? && r.asset in cfg.resource {
      SliceOfPrefix(s.nodes[r.pc.ino].bytes, cfg.resource[r.asset], r.off,
                    Min(w.n, Wanted(r.pc.size, r.off, r.want)));
    }
  }

  lemma ReaderStays(cfg: Config, s: State, q: State, r: Reader)
    requires ReaderOk(cfg, s, r)
    requires forall i :: i in s.nodes ==> i in q.nodes && q.nodes[i].asset == s.nodes[i].asset
    requires forall a :: a in s.final ==> a in q.final
    requires forall t :: t in s.threads ==> t in q.threads && q.threads[t].asset == s.threads[t].asset
    ensures ReaderOk(cfg, q, r)
  {
  }

  lemma {:induction false} NextKeeps(cfg: Config, x: World, e: Event, y: World)
    requires WorldInv(cfg, x) && Next(cfg, x, e, y)
    ensures WorldInv(cfg, y)
  {
    hide Inv, ReadStep, Enabled, Step, ReaderOk;
    match e
    case Thread(m) =>
      InvStep(cfg, x.s, m.t, m.ch);
      FilesStay(cfg, x.s, m, y.s);
      forall k | k in y.readers ensures ReaderOk(cfg, y.s, y.readers[k]) {
        ReaderStays(cfg, x.s, y.s, x.readers[k]);
      }
    case Read(k, w) =>
      ReadKeeps(cfg, x.s, x.readers[k], w);
  }

  lemma StartOk(cfg: Config, x: World)
    requires Start(cfg, x)
    ensures WorldInv(cfg, x)
  {
  }

  lemma {:induction false} HistoryInv(cfg: Config, xs: seq<World>, es: seq<Event>, i: nat)
    requires History(cfg, xs, es) && i < |xs|
    ensures WorldInv(cfg, xs[i])
  {
    hide WorldInv, Next, Start;
    if i == 0 {
      StartOk(cfg, xs[0]);
    } else {
      HistoryInv(cfg, xs, es, i - 1);
      NextKeeps(cfg, xs[i - 1], es[i - 1], xs[i]);
    }
  }

  /** Over every history of downloads and reads, in any interleaving: what a read is served is the part of the
      resource it asked for, cut short perhaps, even when the partial file was truncated or renamed between the
      stat, the open and the read. */
  lemma {:induction false} ReadsAgreeWithResource(cfg: Config, xs: seq<World>, es: seq<Event>, i: nat, k: nat)
    requires History(cfg, xs, es) && i < |xs| && k in xs[i].readers
    requires xs[i].readers[k].pc.Served? && xs[i].readers[k].asset in cfg.resource
    ensures Matches(xs[i].readers[k], cfg.resource[xs[i].readers[k].asset])
  {
    hide Inv;
    HistoryInv(cfg, xs, es, i);
  }

  /** After Materialize has returned the path, the stat and the open find the file: the read fails only if the
      operating system fails it, and comes back empty only at or past the end of the file. */
  lemma {:induction false} MaterializedIsThere(cfg: Config, xs: seq<World>, es: seq<Event>, i: nat, k: nat, w: Answer)
    requires History(cfg, xs, es) && i < |xs| && k in xs[i].readers
    requires var pc := xs[i].readers[k].pc; (pc.Stating? || pc.Opening?) && pc.place == Materialized
    ensures var r, s := xs[i].readers[k], xs[i].s;
      && r.asset in s.final && s.final[r.asset] in s.nodes
      && (r.pc.Stating? ==>
            (ReadStep(s, r, w) == Served([]) <==> r.off >= |s.nodes[s.final[r.asset]].bytes|))
      && (r.pc.Opening? && w.ok ==> ReadStep(s, r, w) == Reading(Materialized, r.pc.size, s.final[r.asset]))
  {
    hide ProtocolInv, WriterInv, PrefixInv, PromiseInv, History;
    HistoryInv(cfg, xs, es, i);
  }

  // ---- a read finds what is there ----------------------------------------

  /** How many bytes a ReadAt that gets as far as n finds, of `want` at `off`, in a file that had `size` bytes when it
      was looked at and holds `bytes` now. */
  function Found(bytes: seq<byte>, size: nat, off: nat, want: nat, n: nat): nat {
    Min(n, Max(0, Min(Min(off + want, size), |bytes|) - off))
  }

  /** What a read of an open file comes to: the bytes found; it goes on elsewhere exactly when some were wanted and none
      found. */
  ghost predicate Outcome(off: nat, want: nat, place: Place, bytes: seq<byte>, size: nat, n: nat, after: ReadPc) {
    var found := Found(bytes, size, off, want, n);
    if found == 0 && want > 0 then after == GiveUp(place)
    else after == Served(if found == 0 then [] else bytes[off..off + found])
  }

  lemma {:induction false} ReadAtServes(s: State, r: Reader, w: Answer)
    requires r.pc.Reading? && r.pc.ino in s.nodes && r.off < r.pc.size
    ensures Outcome(r.off, r.want, r.pc.place, s.nodes[r.pc.ino].bytes, r.pc.size, w.n, ReadStep(s, r, w))
  {
  }

  /** A file, and more of it than the offset. */
  ghost predicate HasMore(s: State, r: Reader, place: Place) {
    var f := FileAt(s, r.asset, place);
    f.Some? && f.value in s.nodes && |s.nodes[f.value].bytes| > r.off
  }

  /** All a read can have of a file. */
  function Whole(bytes: seq<byte>, off: nat, want: nat): seq<byte>
    requires off <= |bytes|
  {
    bytes[off..Min(off + want, |bytes|)]
  }

  /** The steps of a read on which everything goes well, while nobody else moves. */
  function Alone(s: State, r: Reader, n: nat): Reader {
    if n == 0 then r
    else
      var before := Alone(s, r, n - 1);
      before.(pc := ReadStep(s, before, Answer(true, r.want)))
  }

  /** A read finds the final file before anything else. */
  lemma {:induction false} FindsFinal(s: State, r: Reader)
    requires r.pc == Polling && HasMore(s, r, TryFinal)
    ensures Alone(s, r, 4).pc == Served(Whole(s.nodes[FileAt(s, r.asset, TryFinal).value].bytes, r.off, r.want))
  {
    var a0, a1, a2 := Alone(s, r, 0), Alone(s, r, 1), Alone(s, r, 2);
    assert a1 == a0.(pc := Stating(TryFinal));
    assert a2.pc.Opening? && Alone(s, r, 3).pc.Reading?;
  }

  /** ... else the partial one. */
  lemma {:induction false} FindsPartial(s: State, r: Reader)
    requires r.pc == Polling && !HasMore(s, r, TryFinal) && HasMore(s, r, TryPartial)
    ensures Alone(s, r, 5).pc == Served(Whole(s.nodes[FileAt(s, r.asset, TryPartial).value].bytes, r.off, r.want))
  {
    var a0, a1, a2 := Alone(s, r, 0), Alone(s, r, 1), Alone(s, r, 2);
    assert a1 == a0.(pc := Stating(TryFinal));
    assert a2 == a0.(pc := Stating(TryPartial));
    assert Alone(s, r, 3).pc.Opening? && Alone(s, r, 4).pc.Reading?;
  }

  /** ... else it sleeps and looks again, until its deadline or its context sends it to Materialize, whose failure
      leaves it empty-handed and whose path it reads. */
  lemma {:induction false} FindsNothingYet(s: State, r: Reader, w: Answer)
    requires r.pc == Polling && !HasMore(s, r, TryFinal) && !HasMore(s, r, TryPartial)
    ensures Alone(s, r, 3).pc == Sleeping
    ensures ReadStep(s, r.(pc := Sleeping), w) == (if w.ok then Polling else Asking)
    ensures !w.ok ==> ReadStep(s, r, w) == Asking
    ensures var given := r.t in s.threads && s.threads[r.t].pc == Returned(Path);
            ReadStep(s, r.(pc := Asking), w) == (if given then Stating(Materialized) else Served([]))
  {
    assert Alone(s, r, 1) == r.(pc := Stating(TryFinal));
    assert Alone(s, r, 2) == r.(pc := Stating(TryPartial));
  }

  // ---- ... whatever threads and other reads do in between -----------------

  /** Event e is a step of read k. */
  predicate Of(e: Event, k: nat) {
    e.Read? && e.r == k
  }

  lemma {:induction false} ReaderWaits(cfg: Config, xs: seq<World>, es: seq<Event>, k: nat, i: nat, j: nat)
    requires History(cfg, xs, es) && i <= j < |xs| && k in xs[i].readers
    requires forall e :: i <= e < j ==> !Of(es[e], k)
    ensures k in xs[j].readers && xs[j].readers[k] == xs[i].readers[k]
    decreases j
  {
    hide Follows, ReadStep, Start;
    if i < j {
      ReaderWaits(cfg, xs, es, k, i, j - 1);
      assert Next(cfg, xs[j - 1], es[j - 1], xs[j]) && !Of(es[j - 1], k);
    }
  }

  lemma {:induction false} FileKept(cfg: Config, xs: seq<World>, es: seq<Event>, ino: Ino, i: nat, j: nat)
    requires History(cfg, xs, es) && i <= j < |xs| && ino in xs[i].s.nodes
    requires xs[i].s.nodes[ino].published && xs[i].s.nodes[ino].finished
    ensures ino in xs[j].s.nodes && xs[j].s.nodes[ino].bytes == xs[i].s.nodes[ino].bytes
    ensures xs[j].s.nodes[ino].published && xs[j].s.nodes[ino].finished
    decreases j
  {
    hide Follows, ReadStep, Start, Inv;
    if i < j {
      FileKept(cfg, xs, es, ino, i, j - 1);
      HistoryInv(cfg, xs, es, j - 1);
      assert Next(cfg, xs[j - 1], es[j - 1], xs[j]);
      match es[j - 1] {
        case Thread(m) => PublishedStays(cfg, xs[j - 1].s, m, xs[j].s, ino);
        case Read(_, _) =>
      }
    }
  }

  /** Read k looks at a place in event i, opens it in event o and reads it in event j, with nothing in between. */
  ghost predicate Reads(xs: seq<World>, es: seq<Event>, k: nat, place: Place, i: nat, o: nat, j: nat) {
    && i < o < j < |es| < |xs| && k in xs[i].readers && xs[i].readers[k].pc == Stating(place)
    && (forall e :: i <= e <= j ==> (Of(es[e], k) <==> e == i || e == o || e == j))
    && HasMore(xs[i].s, xs[i].readers[k], place)
    && es[o].w.ok && FileAt(xs[o].s, xs[i].readers[k].asset, place).Some?
  }

  /** What the read comes to: what ReadAt finds, at that moment, in the file it opened. */
  lemma {:induction false} ReadsWhatItOpened(cfg: Config, xs: seq<World>, es: seq<Event>, k: nat, place: Place, i: nat,
                                             o: nat, j: nat)
    requires History(cfg, xs, es) && Reads(xs, es, k, place, i, o, j)
    ensures var r := xs[i].readers[k];
      var size := |xs[i].s.nodes[FileAt(xs[i].s, r.asset, place).value].bytes|;
      var ino := FileAt(xs[o].s, r.asset, place).value;
      && ino in xs[j].s.nodes && k in xs[j + 1].readers
      && Outcome(r.off, r.want, place, xs[j].s.nodes[ino].bytes, size, es[j].w.n, xs[j + 1].readers[k].pc)
  {
    hide Follows, Start, Inv, Outcome;
    var r := xs[i].readers[k];
    assert Of(es[i], k) && Of(es[o], k) && Of(es[j], k);
    assert Next(cfg, xs[i], es[i], xs[i + 1]) && Next(cfg, xs[o], es[o], xs[o + 1]);
    assert Next(cfg, xs[j], es[j], xs[j + 1]);
    var size := |xs[i].s.nodes[FileAt(xs[i].s, r.asset, place).value].bytes|;
    assert xs[i + 1].readers[k] == r.(pc := Opening(place, size));
    ReaderWaits(cfg, xs, es, k, i + 1, o);
    var ino := FileAt(xs[o].s, r.asset, place).value;
    assert xs[o + 1].readers[k] == r.(pc := Reading(place, size, ino));
    ReaderWaits(cfg, xs, es, k, o + 1, j);
    HistoryInv(cfg, xs, es, j);
    assert ReaderOk(cfg, xs[j].s, xs[j].readers[k]);
    ReadAtServes(xs[j].s, xs[j].readers[k], es[j].w);
    assert xs[j + 1].readers[k].pc == ReadStep(xs[j].s, xs[j].readers[k], es[j].w);
  }

  /** A final file that holds more than the offset is served, byte for byte all that was asked for and is there,
      whatever threads and other reads do between the stat, the open and a ReadAt that goes as far as it is asked to.
      Should a second download be put over the file before the open, it is the new file that is read, up to the old
      size. */
  lemma {:induction false} FinalIsServed(cfg: Config, xs: seq<World>, es: seq<Event>, k: nat, place: Place, i: nat,
                                         o: nat, j: nat)
    requires History(cfg, xs, es) && Reads(xs, es, k, place, i, o, j) && place != TryPartial
    requires es[j].w.n >= xs[i].readers[k].want
    ensures var r := xs[i].readers[k];
      var seen := FileAt(xs[i].s, r.asset, place).value;
      var now := FileAt(xs[o].s, r.asset, place).value;
      var bytes := xs[i].s.nodes[seen].bytes;
      && now in xs[o].s.nodes && k in xs[j + 1].readers
      && Outcome(r.off, r.want, place, xs[o].s.nodes[now].bytes, |bytes|, r.want, xs[j + 1].readers[k].pc)
      && (now == seen ==> xs[j + 1].readers[k].pc == Served(Whole(bytes, r.off, r.want)))
  {
    hide Follows, Start, ReadStep, History, Inv, Outcome, FinalOk;
    assert |xs| == |es| + 1 by { HistoryLength(cfg, xs, es); }
    var r := xs[i].readers[k];
    var seen, now := FileAt(xs[i].s, r.asset, place).value, FileAt(xs[o].s, r.asset, place).value;
    FinalIsOk(cfg, xs, es, i, r.asset);
    FinalIsOk(cfg, xs, es, o, r.asset);
    FileKept(cfg, xs, es, seen, i, o);
    FileKept(cfg, xs, es, now, o, j);
    ReadsWhatItOpened(cfg, xs, es, k, place, i, o, j);
    ReadToTheEnd(r.off, r.want, place, xs[o].s.nodes[now].bytes, |xs[i].s.nodes[seen].bytes|, es[j].w.n,
                 xs[j + 1].readers[k].pc);
  }

  lemma HistoryLength(cfg: Config, xs: seq<World>, es: seq<Event>)
    requires History(cfg, xs, es)
    ensures |xs| == |es| + 1
  {
  }

  lemma {:induction false} FinalIsOk(cfg: Config, xs: seq<World>, es: seq<Event>, i: nat, a: Asset)
    requires History(cfg, xs, es) && i < |xs| && a in xs[i].s.final
    ensures var ino := xs[i].s.final[a];
            ino in xs[i].s.nodes && xs[i].s.nodes[ino].published && xs[i].s.nodes[ino].finished
  {
    hide ProtocolInv, WriterInv, PrefixInv, PromiseInv, History;
    HistoryInv(cfg, xs, es, i);
  }

  lemma ReadToTheEnd(off: nat, want: nat, place: Place, bytes: seq<byte>, size: nat, n: nat, after: ReadPc)
    requires Outcome(off, want, place, bytes, size, n, after) && n >= want
    ensures Outcome(off, want, place, bytes, size, want, after)
    ensures off < size == |bytes| ==> after == Served(Whole(bytes, off, want))
  {
  }
}
