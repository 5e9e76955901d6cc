/** internal/materializer/cache.go and directfile.go: many threads asking for assets, one download at a time
    per asset. Threads are step machines with program counters; a step of the model is one call to the mutex, a
    channel, the file system or the network, or the code between two of them under the lock. */
module SingleFlight {
  import opened Bytes

  type Tid = nat
  type Chan = nat
  type Ino = nat
  type Asset = string
  type Error = string

  /** Cache serves files and HLS and remembers errors; DirectFile does neither of the last two. */
  datatype Variant = CacheVariant | DirectVariant

  datatype StreamType = Direct | Hls | Unsupported

  datatype Outcome = Path | NotReady | Failed(error: Error) | Cancelled

  /** Where a thread stands. `c` is the done channel the thread owns or waits for; `off` is how much its own download
      has stored, which is where the next piece is asked for and where it goes in the open file. */
  datatype Pc =
    | Entry
    | Probing
    | Locking(typ: StreamType)
    | Deciding(typ: StreamType)
    | UnlockingToWait(c: Chan)
    | UnlockingToOwn(typ: StreamType, c: Chan)
    | Waiting(c: Chan)
    | LockingForError
    | ReadingError
    | UnlockingError(last: Option<Error>)
    | StatAgain(last: Option<Error>)
    | MakingDir(typ: StreamType, c: Chan)
    | Creating(typ: StreamType, c: Chan)
    | Writing(typ: StreamType, c: Chan, ino: Ino, off: nat)
    | Renaming(c: Chan, ino: Ino)
    | Removing(c: Chan, error: Error, noted: bool)
    | LockingToNote(c: Chan, error: Error)
    | Noting(c: Chan, error: Error)
    | UnlockingNoted(c: Chan, error: Error)
    | LockingToClean(c: Chan, r: Outcome)
    | Deleting(c: Chan, r: Outcome)
    | Closing(c: Chan, r: Outcome)
    | UnlockingClean(r: Outcome)
    | Returned(r: Outcome)

  datatype Thread = Thread(asset: Asset, pc: Pc)

  /** An inode: the asset it was created for, its bytes, whether its download ended well, and whether it has
      been renamed to the final path. */
  datatype Node = Node(asset: Asset, bytes: seq<byte>, finished: bool, published: bool)

  datatype State = State(
    threads: map<Tid, Thread>,
    mu: Option<Tid>,
    inFlight: map<Asset, Chan>,
    lastErr: map<Asset, Error>,
    /** every channel ever made, with the thread that made it */
    maker: map<Chan, Tid>,
    closed: set<Chan>,
    panicked: bool,
    partial: map<Asset, Ino>,
    final: map<Asset, Ino>,
    nodes: map<Ino, Node>)

  /** What the outside world answers at a step that asks it something. */
  datatype Choice = Choice(ok: bool, typ: StreamType, error: Error, data: seq<byte>, more: bool, ino: Ino, c: Chan)

  /** resource: the assets that are plain files upstream, with their bytes; their servers answer honestly. */
  datatype Config = Config(variant: Variant, resource: map<Asset, seq<byte>>)

  // ---- program counters --------------------------------------------------

  predicate Holds(pc: Pc) {
    pc.Deciding? || pc.UnlockingToWait? || pc.UnlockingToOwn? || pc.ReadingError? || pc.UnlockingError?
    || pc.Noting? || pc.UnlockingNoted? || pc.Deleting? || pc.Closing? || pc.UnlockingClean?
  }

  /** From registration to the deletion of the inFlight entry. */
  predicate Registered(pc: Pc) {
    pc.UnlockingToOwn? || pc.MakingDir? || pc.Creating? || pc.Writing? || pc.Renaming? || pc.Removing?
    || pc.LockingToNote? || pc.Noting? || pc.UnlockingNoted? || pc.LockingToClean? || pc.Deleting?
  }

  /** ... and on to the close of the done channel. */
  predicate Owns(pc: Pc) {
    Registered(pc) || pc.Closing?
  }

  predicate Waits(pc: Pc) {
    pc.UnlockingToWait? || pc.Waiting?
  }

  predicate Locks(pc: Pc) {
    pc.Locking? || pc.LockingForError? || pc.LockingToNote? || pc.LockingToClean?
  }

  /** The done channel a program counter carries. */
  function ChanOf(pc: Pc): Chan {
    if Owns(pc) || Waits(pc) then pc.c else 0
  }

  predicate Unlocks(pc: Pc) {
    pc.UnlockingToWait? || pc.UnlockingToOwn? || pc.UnlockingError? || pc.UnlockingNoted? || pc.UnlockingClean?
  }

  predicate HasFile(pc: Pc) {
    pc.Writing? || pc.Renaming?
  }

  // ---- the steps ---------------------------------------------------------

  predicate HasFinal(s: State, a: Asset) {
    a in s.final && s.final[a] in s.nodes && s.nodes[s.final[a]].bytes != []
  }

  function Get<T>(m: map<Asset, T>, a: Asset): Option<T> {
    if a in m then Some(m[a]) else None
  }

  /** What a thread reads of the shared state at a step. */
  datatype View = View(hasFinal: bool, flying: Option<Chan>, lastErr: Option<Error>, partial: Option<Ino>)

  function ViewOf(s: State, a: Asset): View {
    View(HasFinal(s, a), Get(s.inFlight, a), Get(s.lastErr, a), Get(s.partial, a))
  }

  /** Where a thread goes next (cache.go:26-115, directfile.go:21-80, download.go:100-184). */
  function Next(variant: Variant, v: View, pc: Pc, ch: Choice): Pc {
    match pc
    // no URL, or a stat of the final path before anything else
    case Entry => if !ch.ok then Returned(NotReady) else if v.hasFinal then Returned(Path) else Probing
    // probe; DirectFile turns other types away (directfile.go:38)
    case Probing =>
      if !ch.ok then Returned(Failed(ch.error))
      else if variant == DirectVariant && ch.typ != Direct then Returned(NotReady)
      else Locking(ch.typ)
    case Locking(typ) => Deciding(typ)
    // look up inFlight, or register
    case Deciding(typ) => if v.flying.Some? then UnlockingToWait(v.flying.value) else UnlockingToOwn(typ, ch.c)
    case UnlockingToWait(c) => Waiting(c)
    case UnlockingToOwn(typ, c) => if variant == CacheVariant then MakingDir(typ, c) else Creating(typ, c)
    // select on the context and the channel
    case Waiting(c) =>
      if !ch.ok then Returned(Cancelled) else if variant == CacheVariant then LockingForError else StatAgain(None)
    case LockingForError => ReadingError
    case ReadingError => UnlockingError(v.lastErr)
    case UnlockingError(last) => StatAgain(last)
    case StatAgain(last) =>
      Returned(if v.hasFinal then Path else if last.Some? then Failed(last.value) else NotReady)
    // mkdir, then the switch on the type
    case MakingDir(typ, c) =>
      if !ch.ok then LockingToClean(c, Failed(ch.error))
      else if typ == Unsupported then LockingToClean(c, NotReady)
      else Creating(typ, c)
    // everything up to os.Create, which truncates a partial file left at the path
    case Creating(typ, c) =>
      if !ch.ok then Removing(c, ch.error, variant == CacheVariant)
      else Writing(typ, c, if v.partial.Some? then v.partial.value else ch.ino, 0)
    // one more piece, the end of the download, or an error
    case Writing(typ, c, ino, off) =>
      if !ch.ok then Removing(c, ch.error, variant == CacheVariant)
      else if ch.more then Writing(typ, c, ino, off + |ch.data|)
      else Renaming(c, ino)
    // rename; a failed one removes the partial and notes no error
    case Renaming(c, ino) => if !ch.ok then Removing(c, ch.error, false) else LockingToClean(c, Path)
    // os.Remove, whose own error nobody looks at
    case Removing(c, e, noted) => if noted then LockingToNote(c, e) else LockingToClean(c, Failed(e))
    case LockingToNote(c, e) => Noting(c, e)
    case Noting(c, e) => UnlockingNoted(c, e)
    case UnlockingNoted(c, e) => LockingToClean(c, Failed(e))
    // the deferred cleanup
    case LockingToClean(c, r) => Deleting(c, r)
    case Deleting(c, r) => Closing(c, r)
    case Closing(c, r) => UnlockingClean(r)
    case UnlockingClean(r) => Returned(r)
    case Returned(_) => pc
  }

  /** A server that is asked for what stands at off answers with bytes that stand there; past the end it may answer
      anything. What the file holds by then plays no part. */
  predicate Answers(data: seq<byte>, resource: seq<byte>, off: nat) {
    off <= |resource| ==> data <= resource[off..]
  }

  /** A write at an offset of a file, whatever the file holds: a gap is filled with zeros. */
  function WriteAt(bytes: seq<byte>, off: nat, data: seq<byte>): seq<byte> {
    if off > |bytes| then bytes + seq(off - |bytes|, _ => 0 as byte) + data
    else if off + |data| < |bytes| then bytes[..off] + data + bytes[off + |data|..]
    else bytes[..off] + data
  }

  /** Can thread t take a step, with this answer from outside? */
  predicate Enabled(cfg: Config, s: State, t: Tid, ch: Choice) {
    && t in s.threads
    && var a, pc := s.threads[t].asset, s.threads[t].pc;
       && !pc.Returned?
       && (Locks(pc) ==> s.mu == None)
       && (pc.Probing? && ch.ok && a in cfg.resource ==> ch.typ == Direct)
       && (pc.Deciding? ==> ch.c !in s.maker)
       && (pc.Waiting? ==> !ch.ok || pc.c in s.closed)
       && (pc.Creating? ==> ch.ino !in s.nodes)
       && (HasFile(pc) ==> pc.ino in s.nodes)
       && (pc.Writing? && ch.ok && ch.more && a in cfg.resource ==> Answers(ch.data, cfg.resource[a], pc.off))
  }

  function NextPartial(m: map<Asset, Ino>, a: Asset, pc: Pc, ch: Choice): map<Asset, Ino> {
    if pc.Creating? && ch.ok then m[a := if a in m then m[a] else ch.ino]
    else if (pc.Renaming? || pc.Removing?) && ch.ok then m - {a}
    else m
  }

  function NextNodes(s: State, a: Asset, pc: Pc, ch: Choice): map<Ino, Node>
    requires HasFile(pc) ==> pc.ino in s.nodes
  {
    if !ch.ok then s.nodes
    else if pc.Creating? then s.nodes[(if a in s.partial then s.partial[a] else ch.ino) := Node(a, [], false, false)]
    else if pc.Renaming? then s.nodes[pc.ino := s.nodes[pc.ino].(published := true)]
    else if pc.Writing? then
      var node := s.nodes[pc.ino];
      s.nodes[pc.ino := if !ch.more then node.(finished := true)
                        else node.(bytes := if pc.typ == Hls then ch.data else WriteAt(node.bytes, pc.off, ch.data))]
    else s.nodes
  }

  /** One step of thread t. Closing a closed channel panics. */
  function Step(cfg: Config, s: State, t: Tid, ch: Choice): State
    requires Enabled(cfg, s, t, ch)
  {
    var a, pc := s.threads[t].asset, s.threads[t].pc;
    var registers := pc.Deciding? && a !in s.inFlight;
    State(
      s.threads[t := Thread(a, Next(cfg.variant, ViewOf(s, a), pc, ch))],
      if Locks(pc) then Some(t) else if Unlocks(pc) then None else s.mu,
      if registers then s.inFlight[a := ch.c] else if pc.Deleting? then s.inFlight - {a} else s.inFlight,
      if pc.Noting? then s.lastErr[a := pc.error] else s.lastErr,
      if registers then s.maker[ch.c := t] else s.maker,
      if pc.Closing? then s.closed + {pc.c} else s.closed,
      s.panicked || (pc.Closing? && pc.c in s.closed),
      NextPartial(s.partial, a, pc, ch),
      if pc.Renaming? && ch.ok then s.final[a := pc.ino] else s.final,
      NextNodes(s, a, pc, ch))
  }

  // ---- the invariant -----------------------------------------------------

  ghost predicate LockInv(s: State) {
    && (forall t :: t in s.threads && Holds(s.threads[t].pc) ==> s.mu == Some(t))
    && (s.mu.Some? ==> s.mu.value in s.threads && Holds(s.threads[s.mu.value].pc))
  }

  /** Every owner made its channel, which is still open; while registered it is the one in inFlight. */
  ghost predicate OwnerInv(s: State) {
    && !s.panicked
    && (forall t :: t in s.threads && Owns(s.threads[t].pc) ==>
          var c := ChanOf(s.threads[t].pc); c in s.maker && s.maker[c] == t && c !in s.closed)
    && (forall t :: t in s.threads && Registered(s.threads[t].pc) ==>
          var a := s.threads[t].asset; a in s.inFlight && s.inFlight[a] == ChanOf(s.threads[t].pc))
    && (forall c :: c in s.closed ==> c in s.maker)
  }

  /** Every entry of inFlight has its registered maker. */
  ghost predicate FlightInv(s: State) {
    forall a :: a in s.inFlight ==>
      var c := s.inFlight[a];
      c in s.maker && s.maker[c] in s.threads && s.threads[s.maker[c]].asset == a
      && Registered(s.threads[s.maker[c]].pc) && ChanOf(s.threads[s.maker[c]].pc) == c
  }

  /** A channel that is closed, or whose maker is still on its way to closing it, for this very asset. */
  ghost predicate LiveChan(s: State, c: Chan, a: Asset) {
    && c in s.maker && s.maker[c] in s.threads && s.threads[s.maker[c]].asset == a
    && (c in s.closed || (Owns(s.threads[s.maker[c]].pc) && ChanOf(s.threads[s.maker[c]].pc) == c))
  }

  ghost predicate WaitInv(s: State) {
    forall t :: t in s.threads && Waits(s.threads[t].pc) ==> LiveChan(s, ChanOf(s.threads[t].pc), s.threads[t].asset)
  }

  /** A thread about to close its channel has already left inFlight. */
  ghost predicate ClosingInv(s: State) {
    forall t :: t in s.threads && s.threads[t].pc.Closing? ==> s.threads[t].asset !in s.inFlight
  }

  ghost predicate ProtocolInv(s: State) {
    LockInv(s) && OwnerInv(s) && FlightInv(s) && WaitInv(s) && ClosingInv(s)
  }

  /** The outcome a thread has settled on, once its work is over. */
  function Settled(pc: Pc): Option<Outcome> {
    match pc
    case LockingToClean(_, r) => Some(r)
    case Deleting(_, r) => Some(r)
    case Closing(_, r) => Some(r)
    case UnlockingClean(r) => Some(r)
    case Returned(r) => Some(r)
    case _ => None
  }

  function TypeOf(pc: Pc): StreamType {
    match pc
    case Locking(typ) => typ
    case Deciding(typ) => typ
    case UnlockingToOwn(typ, _) => typ
    case MakingDir(typ, _) => typ
    case Creating(typ, _) => typ
    case Writing(typ, _, _, _) => typ
    case _ => Direct
  }

  /** The partial file of a is a file of a that has never been published. */
  ghost predicate PartialOk(s: State, a: Asset)
    requires a in s.partial
  {
    s.partial[a] in s.nodes && s.nodes[s.partial[a]].asset == a && !s.nodes[s.partial[a]].published
  }

  /** The final file of a is a finished download of a. */
  ghost predicate FinalOk(s: State, a: Asset)
    requires a in s.final
  {
    && s.final[a] in s.nodes && s.nodes[s.final[a]].asset == a
    && s.nodes[s.final[a]].published && s.nodes[s.final[a]].finished
  }

  ghost predicate PathInv(s: State) {
    && (forall a :: a in s.partial ==> PartialOk(s, a))
    && (forall a :: a in s.final ==> FinalOk(s, a))
  }

  /** A thread with the file open has the one at the partial path; what it has stored is the whole file; one about to
      rename has finished it. */
  ghost predicate WriterInv(s: State) {
    forall t :: t in s.threads && HasFile(s.threads[t].pc) ==> WriterOk(s, s.threads[t].asset, s.threads[t].pc)
  }

  ghost predicate WriterOk(s: State, a: Asset, pc: Pc)
    requires HasFile(pc)
  {
    && a in s.partial && s.partial[a] == pc.ino && pc.ino in s.nodes
    && (pc.Renaming? ==> s.nodes[pc.ino].finished)
    && (pc.Writing? && pc.typ != Hls ==> pc.off == |s.nodes[pc.ino].bytes|)
  }

  /** Files of plain upstream assets hold a prefix of the resource, whatever has happened so far. */
  ghost predicate PrefixInv(cfg: Config, s: State) {
    && (forall i :: i in s.nodes && s.nodes[i].asset in cfg.resource ==> s.nodes[i].bytes <= cfg.resource[s.nodes[i].asset])
    && (forall t :: t in s.threads && s.threads[t].asset in cfg.resource ==> TypeOf(s.threads[t].pc) == Direct)
  }

  /** Whoever was promised the path finds a file there. */
  ghost predicate PromiseInv(s: State) {
    forall t :: t in s.threads && Settled(s.threads[t].pc) == Some(Path) ==> s.threads[t].asset in s.final
  }

  ghost predicate FileInv(cfg: Config, s: State) {
    PathInv(s) && WriterInv(s) && PrefixInv(cfg, s) && PromiseInv(s)
  }

  ghost predicate Inv(cfg: Config, s: State) {
    ProtocolInv(s) && FileInv(cfg, s)
  }

  // ---- the invariant is kept ---------------------------------------------

  /** What a move of the program counter means for the lock. */
  lemma {:induction false} NextLocks(variant: Variant, v: View, pc: Pc, ch: Choice)
    ensures var q := Next(variant, v, pc, ch);
            && (Locks(pc) ==> !Holds(pc) && Holds(q))
            && (Unlocks(pc) ==> Holds(pc) && !Holds(q))
            && (!Locks(pc) && !Unlocks(pc) ==> (Holds(q) <==> Holds(pc)))
  {
    hide Registered, Owns, Waits, ChanOf;
  }

  /** What it means for registration, ownership and waiting. */
  lemma NextFacts(variant: Variant, v: View, pc: Pc, ch: Choice)
    ensures var q := Next(variant, v, pc, ch);
            && (Registered(q) <==> (pc.Deciding? && v.flying.None?) || (Registered(pc) && !pc.Deleting?))
            && (Owns(q) <==> (pc.Deciding? && v.flying.None?) || (Owns(pc) && !pc.Closing?))
            && (Waits(q) <==> (pc.Deciding? && v.flying.Some?) || pc.UnlockingToWait?)
            && (pc.Deciding? ==> ChanOf(q) == if v.flying.Some? then v.flying.value else ch.c)
            && (!pc.Deciding? && (Owns(q) || Waits(q)) ==> ChanOf(q) == ChanOf(pc))
  {
  }

  lemma {:induction false} LockStep(cfg: Config, s: State, t: Tid, ch: Choice)
    requires LockInv(s) && Enabled(cfg, s, t, ch)
    ensures LockInv(Step(cfg, s, t, ch))
  {
    hide Next, NextPartial, NextNodes, Locks, Unlocks, Holds;
    NextLocks(cfg.variant, ViewOf(s, s.threads[t].asset), s.threads[t].pc, ch);
  }

  lemma {:induction false} OwnerStep(cfg: Config, s: State, t: Tid, ch: Choice)
    requires ProtocolInv(s) && Enabled(cfg, s, t, ch)
    ensures OwnerInv(Step(cfg, s, t, ch))
  {
    hide Next, NextPartial, NextNodes, Locks, Unlocks, Holds, Registered, Owns, Waits, ChanOf, LockInv;
    var r := Step(cfg, s, t, ch);
    var pc := s.threads[t].pc;
    PcKinds(pc);
    NextFacts(cfg.variant, ViewOf(s, s.threads[t].asset), pc, ch);
    forall u | u in r.threads && Owns(r.threads[u].pc)
      ensures var c := ChanOf(r.threads[u].pc); c in r.maker && r.maker[c] == u && c !in r.closed
    {
      if u != t {
        assert r.threads[u] == s.threads[u];
        assert s.maker[ChanOf(s.threads[u].pc)] == u;
        assert pc.Closing? ==> s.maker[pc.c] == t;
      }
    }
    forall u | u in r.threads && Registered(r.threads[u].pc)
      ensures var a := r.threads[u].asset; a in r.inFlight && r.inFlight[a] == ChanOf(r.threads[u].pc)
    {
      if u != t {
        assert r.threads[u] == s.threads[u];
        PcKinds(s.threads[u].pc);
        assert s.maker[ChanOf(s.threads[u].pc)] == u;
        assert pc.Deleting? ==> s.maker[ChanOf(pc)] == t;
      }
    }
  }

  lemma PcKinds(pc: Pc)
    ensures pc.Deciding? ==> !Owns(pc) && !Registered(pc) && !Waits(pc)
    ensures pc.Deleting? ==> Registered(pc)
    ensures Registered(pc) ==> Owns(pc) && !pc.Closing?
    ensures pc.Closing? ==> Owns(pc) && !Registered(pc) && ChanOf(pc) == pc.c
    ensures pc.Waiting? || pc.UnlockingToWait? ==> Waits(pc) && ChanOf(pc) == pc.c
    ensures Owns(pc) && !Registered(pc) ==> pc.Closing?
    ensures HasFile(pc) ==> Registered(pc) && !pc.Deleting?
    ensures pc.Creating? || pc.Renaming? || pc.Removing? || pc.Writing? ==> Registered(pc)
  {
  }

  lemma {:induction false} FlightStep(cfg: Config, s: State, t: Tid, ch: Choice)
    requires ProtocolInv(s) && Enabled(cfg, s, t, ch)
    ensures FlightInv(Step(cfg, s, t, ch))
  {
    hide Next, NextPartial, NextNodes, Locks, Unlocks, Holds, Registered, Owns, Waits, ChanOf, LockInv;
    PcKinds(s.threads[t].pc);
    NextFacts(cfg.variant, ViewOf(s, s.threads[t].asset), s.threads[t].pc, ch);
  }

  lemma {:induction false} WaitStep(cfg: Config, s: State, t: Tid, ch: Choice)
    requires ProtocolInv(s) && Enabled(cfg, s, t, ch)
    ensures WaitInv(Step(cfg, s, t, ch))
  {
    hide Next, NextPartial, NextNodes, Locks, Unlocks, Holds, Registered, Owns, Waits, ChanOf, LockInv;
    var r := Step(cfg, s, t, ch);
    var pc := s.threads[t].pc;
    PcKinds(pc);
    NextFacts(cfg.variant, ViewOf(s, s.threads[t].asset), pc, ch);
    forall u | u in r.threads && Waits(r.threads[u].pc)
      ensures LiveChan(r, ChanOf(r.threads[u].pc), r.threads[u].asset)
    {
      var c, a := ChanOf(r.threads[u].pc), r.threads[u].asset;
      if u != t {
        assert r.threads[u] == s.threads[u];
      }
      if u == t && pc.Deciding? {
        PcKinds(s.threads[s.maker[c]].pc);
      }
      assert LiveChan(s, c, a);
    }
  }

  lemma {:induction false} ClosingStep(cfg: Config, s: State, t: Tid, ch: Choice)
    requires ProtocolInv(s) && Enabled(cfg, s, t, ch)
    ensures ClosingInv(Step(cfg, s, t, ch))
  {
    hide Next, NextPartial, NextNodes, Locks, Unlocks, Holds, Registered, Owns, Waits, ChanOf;
    var r := Step(cfg, s, t, ch);
    var pc := s.threads[t].pc;
    NextCloses(cfg.variant, ViewOf(s, s.threads[t].asset), pc, ch);
    forall u | u in r.threads && r.threads[u].pc.Closing?
      ensures r.threads[u].asset !in r.inFlight
    {
      if u != t {
        assert r.threads[u] == s.threads[u];
        LockKinds(r.threads[u].pc);
        LockKinds(pc);
      }
    }
  }

  lemma NextCloses(variant: Variant, v: View, pc: Pc, ch: Choice)
    ensures Next(variant, v, pc, ch).Closing? <==> pc.Deleting?
  {
  }

  lemma LockKinds(pc: Pc)
    ensures pc.Closing? || pc.Deciding? ==> Holds(pc)
  {
  }

  lemma {:induction false} ProtocolStep(cfg: Config, s: State, t: Tid, ch: Choice)
    requires ProtocolInv(s) && Enabled(cfg, s, t, ch)
    ensures ProtocolInv(Step(cfg, s, t, ch))
  {
    hide Step, LockInv, OwnerInv, FlightInv, WaitInv, ClosingInv, Enabled;
    LockStep(cfg, s, t, ch);
    OwnerStep(cfg, s, t, ch);
    FlightStep(cfg, s, t, ch);
    WaitStep(cfg, s, t, ch);
    ClosingStep(cfg, s, t, ch);
  }

  /** At most one thread per asset is between registration and the close of its channel. */
  lemma {:induction false} OneOwner(s: State, t: Tid, u: Tid)
    requires ProtocolInv(s) && t in s.threads && u in s.threads
    requires Owns(s.threads[t].pc) && Owns(s.threads[u].pc) && s.threads[t].asset == s.threads[u].asset
    ensures t == u
  {
    hide Holds, Registered, ChanOf, Owns;
    PcKinds(s.threads[t].pc);
    PcKinds(s.threads[u].pc);
    LockKinds(s.threads[t].pc);
    LockKinds(s.threads[u].pc);
  }

  // ---- files -------------------------------------------------------------

  lemma NextFiles(variant: Variant, v: View, pc: Pc, ch: Choice)
    ensures var q := Next(variant, v, pc, ch);
            && (HasFile(q) <==> (pc.Creating? && ch.ok) || (pc.Writing? && ch.ok))
            && (pc.Creating? && ch.ok ==>
                  q.Writing? && q.ino == (if v.partial.Some? then v.partial.value else ch.ino) && q.off == 0)
            && (pc.Writing? && ch.ok ==>
                  && q.ino == pc.ino && (q.Renaming? <==> !ch.more)
                  && (q.Writing? ==> q.typ == pc.typ && q.off == pc.off + |ch.data|))
    ensures pc.Renaming? && ch.ok ==> Settled(Next(variant, v, pc, ch)) == Some(Path)
    ensures Settled(Next(variant, v, pc, ch)) == Some(Path) ==>
              (pc.Renaming? && ch.ok) || Settled(pc) == Some(Path) || v.hasFinal
  {
  }

  lemma NextType(variant: Variant, v: View, pc: Pc, ch: Choice)
    ensures TypeOf(Next(variant, v, pc, ch)) == Direct || TypeOf(Next(variant, v, pc, ch)) == TypeOf(pc)
         || (pc.Probing? && ch.ok && TypeOf(Next(variant, v, pc, ch)) == ch.typ)
  {
  }

  /** The file a thread writes is nobody else's. */
  lemma {:induction false} OneWriter(s: State, t: Tid, u: Tid)
    requires ProtocolInv(s) && PathInv(s) && WriterInv(s) && t in s.threads && u in s.threads && t != u
    requires HasFile(s.threads[u].pc)
    requires Registered(s.threads[t].pc)
    ensures s.threads[u].asset != s.threads[t].asset
  {
    hide Holds, Registered, ChanOf, Owns, HasFile;
    PcKinds(s.threads[t].pc);
    PcKinds(s.threads[u].pc);
    if s.threads[u].asset == s.threads[t].asset {
      OneOwner(s, t, u);
    }
  }

  lemma {:induction false} PartialStep(cfg: Config, s: State, t: Tid, ch: Choice)
    requires PathInv(s) && WriterInv(s) && Enabled(cfg, s, t, ch)
    ensures var r := Step(cfg, s, t, ch); forall a :: a in r.partial ==> PartialOk(r, a)
  {
    hide Next, Locks, Unlocks;
  }

  lemma {:induction false} FinalStep(cfg: Config, s: State, t: Tid, ch: Choice)
    requires PathInv(s) && WriterInv(s) && Enabled(cfg, s, t, ch)
    ensures var r := Step(cfg, s, t, ch); forall a :: a in r.final ==> FinalOk(r, a)
  {
    hide Next, Locks, Unlocks, NextPartial;
  }

  lemma {:induction false} PathStep(cfg: Config, s: State, t: Tid, ch: Choice)
    requires FileInv(cfg, s) && Enabled(cfg, s, t, ch)
    ensures PathInv(Step(cfg, s, t, ch))
  {
    hide Step, Enabled, WriterInv, PrefixInv, PromiseInv;
    PartialStep(cfg, s, t, ch);
    FinalStep(cfg, s, t, ch);
  }

  /** What a thread with the file open needs of the step it takes itself. */
  lemma {:induction false} OwnWrite(cfg: Config, s: State, t: Tid, ch: Choice)
    requires Inv(cfg, s) && Enabled(cfg, s, t, ch)
    requires HasFile(Step(cfg, s, t, ch).threads[t].pc)
    ensures var r := Step(cfg, s, t, ch); WriterOk(r, r.threads[t].asset, r.threads[t].pc)
  {
    hide Next, Locks, Unlocks, ProtocolInv, PrefixInv, PromiseInv;
    var pc := s.threads[t].pc;
    NextFiles(cfg.variant, ViewOf(s, s.threads[t].asset), pc, ch);
  }

  /** A step of t leaves alone the file, and the path, of a writer of another asset. */
  lemma {:induction false} OthersWrite(cfg: Config, s: State, t: Tid, ch: Choice, a: Asset, pc: Pc)
    requires PathInv(s) && Enabled(cfg, s, t, ch) && HasFile(pc) && WriterOk(s, a, pc)
    requires HasFile(s.threads[t].pc) ==> WriterOk(s, s.threads[t].asset, s.threads[t].pc)
    requires s.threads[t].pc.Creating? || HasFile(s.threads[t].pc) || s.threads[t].pc.Removing? ==>
               s.threads[t].asset != a
    ensures WriterOk(Step(cfg, s, t, ch), a, pc)
  {
    hide Next, Locks, Unlocks;
  }

  lemma {:induction false} WriterStep(cfg: Config, s: State, t: Tid, ch: Choice)
    requires Inv(cfg, s) && Enabled(cfg, s, t, ch)
    ensures WriterInv(Step(cfg, s, t, ch))
  {
    hide Next, Locks, Unlocks, Holds, Registered, Owns, Waits, ChanOf, LockInv, OwnerInv, FlightInv, WaitInv,
      ClosingInv, WriterOk, PrefixInv, PromiseInv, NextNodes, NextPartial;
    var r := Step(cfg, s, t, ch);
    var pc := s.threads[t].pc;
    PcKinds(pc);
    forall u | u in r.threads && HasFile(r.threads[u].pc)
      ensures WriterOk(r, r.threads[u].asset, r.threads[u].pc)
    {
      if u == t {
        OwnWrite(cfg, s, t, ch);
      } else {
        assert r.threads[u] == s.threads[u];
        if pc.Creating? || HasFile(pc) || pc.Removing? {
          OneWriter(s, t, u);
        }
        OthersWrite(cfg, s, t, ch, s.threads[u].asset, s.threads[u].pc);
      }
    }
  }

  /** Writing at its end, a prefix grows by what stands there. */
  lemma {:induction false} PrefixGrows(bytes: seq<byte>, data: seq<byte>, resource: seq<byte>)
    requires bytes <= resource && Answers(data, resource, |bytes|)
    ensures WriteAt(bytes, |bytes|, data) <= resource
  {
    assert resource == bytes + resource[|bytes|..];
  }

  /** Files stay prefixes because their one writer writes at their end: single flight, the truncation at the start of a
      download and the server's honesty are all used. */
  lemma {:induction false} PrefixStep(cfg: Config, s: State, t: Tid, ch: Choice)
    requires Inv(cfg, s) && Enabled(cfg, s, t, ch)
    ensures PrefixInv(cfg, Step(cfg, s, t, ch))
  {
    hide Next, Locks, Unlocks, ProtocolInv, PromiseInv, NextPartial, WriteAt, Answers;
    var a, pc := s.threads[t].asset, s.threads[t].pc;
    NextType(cfg.variant, ViewOf(s, a), pc, ch);
    if pc.Writing? && ch.ok && ch.more && a in cfg.resource {
      assert WriterOk(s, a, pc) && s.nodes[pc.ino].asset == a;
      PrefixGrows(s.nodes[pc.ino].bytes, ch.data, cfg.resource[a]);
    }
  }

  lemma {:induction false} PromiseStep(cfg: Config, s: State, t: Tid, ch: Choice)
    requires Inv(cfg, s) && Enabled(cfg, s, t, ch)
    ensures PromiseInv(Step(cfg, s, t, ch))
  {
    hide Next, Locks, Unlocks, Holds, Registered, Owns, Waits, ChanOf, LockInv, OwnerInv, FlightInv, WaitInv, ClosingInv,
      NextPartial, NextNodes;
    NextFiles(cfg.variant, ViewOf(s, s.threads[t].asset), s.threads[t].pc, ch);
  }

  /** Every step of every thread, whatever the outside world answers, keeps the invariant. */
  lemma {:induction false} InvStep(cfg: Config, s: State, t: Tid, ch: Choice)
    requires Inv(cfg, s) && Enabled(cfg, s, t, ch)
    ensures Inv(cfg, Step(cfg, s, t, ch))
  {
    hide Step, ProtocolInv, PathInv, WriterInv, PrefixInv, PromiseInv, Enabled;
    ProtocolStep(cfg, s, t, ch);
    PathStep(cfg, s, t, ch);
    WriterStep(cfg, s, t, ch);
    PrefixStep(cfg, s, t, ch);
    PromiseStep(cfg, s, t, ch);
  }
}
