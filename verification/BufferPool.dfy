/** The tunnel's pooled buffers as they move between goroutines (pkg/core/tunhandler.go,
    tunhandlerclient.go, tunendpoint.go, tcphandler.go, udpovertcp.go). Any number of goroutines of
    each role interleave; every Get, Put, channel operation, buffer write and transmission is a step. */
module BufferPool {
  import opened Lists
  import opened Framing

  type Buf = nat

  /** A queued packet: the buffer it lies in, its length, and which packet read it is. */
  datatype Elem = Elem(buf: Buf, length: nat, id: nat)

  datatype Queue = TunRaw | TunIn | TunOut | ConnIn | TcpIn | PeerIn

  const CAPACITY := 1000

  /** A channel: all that was ever sent, and how much of it has been received. */
  datatype Chan = Chan(log: seq<Elem>, head: nat)

  datatype Role =
    | TunReader      // readFromTun
    | HeaderParser   // parseIPHeader
    | Heartbeat      // heartbeats
    | TunWriter      // writeToTun, and the endpoint's writer
    | ConnReader     // readFromConn
    | TcpParser      // readFromTCPConn
    | ConnParser     // parseHeader
    | PeerRouter     // routePeer
    | TunRouter      // routeTUN
    | TcpHandler     // fakeUdpHandler.Handle
    | ClientSender   // transportTunClient, towards the peer
    | ClientReader   // transportTunClient, from the peer
    | EndpointQueue  // the endpoint's stack-to-device loop
    | EndpointReader // the endpoint's device-to-stack loop
    | Copier         // gvisor copy loops: one buffer for the whole session

  datatype Phase =
    | Idle
    | Filling(buf: Buf)
    | Loaded(e: Elem)
    | Staging(e: Elem, frame: Buf)
    | Staged(e: Elem, frame: Buf, n: nat)
    | FrameSent(e: Elem, frame: Buf, ok: bool)
    | Written(e: Elem, framed: bool, ok: bool)
    | Exited

  datatype Proc = Proc(role: Role, phase: Phase)

  /** What one write handed to a connection or device. */
  datatype Sent = Sent(id: nat, framed: bool, bytes: Bytes)

  /** pool is sync.Pool's content, made the buffers allocated so far, taken the packets read in and origins
      the roles that read them. */
  datatype World = World(procs: seq<Proc>, pool: multiset<Buf>, made: set<Buf>, mem: map<Buf, Bytes>,
                         queues: map<Queue, Chan>, taken: seq<Bytes>, origins: seq<Role>, wire: seq<Sent>)

  function Source(r: Role): Option<Queue> {
    match r
    case HeaderParser => Some(TunRaw)
    case TunWriter => Some(TunOut)
    case TcpParser => Some(TcpIn)
    case ConnParser => Some(ConnIn)
    case PeerRouter => Some(PeerIn)
    case TunRouter => Some(TunIn)
    case ClientSender => Some(TunIn)
    case _ => None
  }

  predicate Reads(r: Role) {
    r in {TunReader, Heartbeat, ConnReader, TcpHandler, ClientReader, EndpointQueue, EndpointReader, Copier}
  }

  function Target(r: Role): Option<Queue> {
    match r
    case TunReader => Some(TunRaw)
    case HeaderParser => Some(TunIn)
    case Heartbeat => Some(TunIn)
    case EndpointReader => Some(TunIn)
    case ConnReader => Some(ConnIn)
    case TcpHandler => Some(TcpIn)
    case TcpParser => Some(PeerIn)
    case ConnParser => Some(PeerIn)
    case PeerRouter => Some(TunOut)
    case ClientSender => Some(TunOut)
    case ClientReader => Some(TunOut)
    case EndpointQueue => Some(TunOut)
    case _ => None
  }

  /** The roles that skip a packet they cannot parse, leaving its buffer to the garbage collector. */
  predicate Drops(r: Role) {
    r in {HeaderParser, TcpParser, ConnParser, TcpHandler, EndpointReader}
  }

  predicate WritesPlain(r: Role) {
    r in {TunWriter, PeerRouter, TunRouter, ClientSender, EndpointReader, Copier}
  }

  predicate WritesFramed(r: Role) {
    r in {PeerRouter, TunRouter, ClientSender, Copier}
  }

  datatype Step =
    | Spawn(role: Role)
    | Collect(b: Buf)                 // sync.Pool may forget a buffer
    | Get(g: nat, b: Buf)
    | Read(g: nat, data: Bytes)
    | ReadFails(g: nat, data: Bytes)
    | Take(g: nat)
    | Drop(g: nat)
    | Send(g: nat)
    | Write(g: nat, ok: bool)
    | Stage(g: nat, b: Buf)           // datagramPacket.Write takes its own buffer
    | Fill(g: nat)
    | WriteFrame(g: nat, ok: bool)
    | PutFrame(g: nat)
    | Finish(g: nat)
    | PutUnsent(g: nat)

  function Queued(w: World, q: Queue): Chan {
    if q in w.queues then w.queues[q] else Chan([], 0)
  }

  function Content(w: World, b: Buf): Bytes {
    if b in w.mem then w.mem[b] else []
  }

  function Prefix(s: Bytes, n: nat): Bytes {
    if n <= |s| then s[..n] else s
  }

  /** Writing data at the start of a buffer leaves the rest as it was. */
  function Overwrite(old_: Bytes, data: Bytes): Bytes {
    if |data| <= |old_| then data + old_[|data|..] else data
  }

  predicate Obtainable(w: World, b: Buf) {
    b in w.pool || b !in w.made
  }

  predicate Enabled(w: World, s: Step) {
    match s
    case Spawn(_) => true
    case Collect(b) => b in w.pool
    case Get(g, b) => g < |w.procs| && w.procs[g].phase.Idle? && Reads(w.procs[g].role) && Obtainable(w, b)
    case Read(g, data) => g < |w.procs| && w.procs[g].phase.Filling? && |data| <= LARGE
    case ReadFails(g, data) => g < |w.procs| && w.procs[g].phase.Filling? && |data| <= LARGE &&
      w.procs[g].role != Heartbeat && w.procs[g].role != EndpointQueue
    case Take(g) => g < |w.procs| && w.procs[g].phase.Idle? && Source(w.procs[g].role).Some? &&
      var c := Queued(w, Source(w.procs[g].role).value); c.head < |c.log|
    case Drop(g) => g < |w.procs| && w.procs[g].phase.Loaded? && Drops(w.procs[g].role)
    case Send(g) => g < |w.procs| && w.procs[g].phase.Loaded? && Target(w.procs[g].role).Some? &&
      var c := Queued(w, Target(w.procs[g].role).value); |c.log| < c.head + CAPACITY
    case Write(g, ok) => g < |w.procs| && w.procs[g].phase.Loaded? && WritesPlain(w.procs[g].role)
    case Stage(g, b) => g < |w.procs| && w.procs[g].phase.Loaded? && WritesFramed(w.procs[g].role) && Obtainable(w, b)
    case Fill(g) => g < |w.procs| && w.procs[g].phase.Staging?
    case WriteFrame(g, ok) => g < |w.procs| && w.procs[g].phase.Staged?
    case PutFrame(g) => g < |w.procs| && w.procs[g].phase.FrameSent?
    case Finish(g) => g < |w.procs| && w.procs[g].phase.Written?
    case PutUnsent(g) => g < |w.procs| && w.procs[g].phase.Loaded? && w.procs[g].role == TunRouter
  }

  /** A copy loop goes on with the buffer it has. */
  predicate Reuses(p: Proc)
    requires p.phase.Written?
  {
    p.role == Copier && p.phase.ok
  }

  /** routePeer returns early, without Put, when writing the datagram fails. */
  predicate Abandons(p: Proc)
    requires p.phase.Written?
  {
    p.role == PeerRouter && p.phase.framed && !p.phase.ok
  }

  /** Where the acting goroutine is after its step. */
  function NextPhase(w: World, s: Step): Phase
    requires Enabled(w, s) && !s.Spawn? && !s.Collect?
  {
    var p := w.procs[s.g].phase;
    match s
    case Get(_, b) => Filling(b)
    case Read(_, data) => Loaded(Elem(p.buf, |data|, |w.taken|))
    case ReadFails(_, _) => Exited
    case Take(g) => var c := Queued(w, Source(w.procs[g].role).value); Loaded(c.log[c.head])
    case Drop(_) => Idle
    case Send(_) => Idle
    case Write(_, ok) => Written(p.e, false, ok)
    case Stage(_, b) => Staging(p.e, b)
    case Fill(_) => Staged(p.e, p.frame, |Frame(Prefix(Content(w, p.e.buf), p.e.length))|)
    case WriteFrame(_, ok) => FrameSent(p.e, p.frame, ok)
    case PutFrame(_) => Written(p.e, true, p.ok)
    case Finish(g) => if Reuses(w.procs[g]) then Filling(p.e.buf) else if p.ok then Idle else Exited
    case PutUnsent(_) => Idle
  }

  function ProcsAfter(w: World, s: Step): seq<Proc>
    requires Enabled(w, s)
  {
    if s.Spawn? then w.procs + [Proc(s.role, Idle)]
    else if s.Collect? then w.procs
    else w.procs[s.g := w.procs[s.g].(phase := NextPhase(w, s))]
  }

  /** The buffer a step takes out of the pool, or has sync.Pool allocate. */
  function Taken(s: Step): Option<Buf> {
    if s.Get? || s.Stage? || s.Collect? then Some(s.b) else None
  }

  /** The buffer a step puts back into the pool. */
  function Returned(w: World, s: Step): Option<Buf>
    requires Enabled(w, s)
  {
    match s
    case ReadFails(g, _) => if w.procs[g].role == Copier then Some(w.procs[g].phase.buf) else None
    case PutFrame(g) => Some(w.procs[g].phase.frame)
    case Finish(g) => if Reuses(w.procs[g]) || Abandons(w.procs[g]) then None else Some(w.procs[g].phase.e.buf)
    case PutUnsent(g) => Some(w.procs[g].phase.e.buf)
    case _ => None
  }

  function PoolAfter(w: World, s: Step): multiset<Buf>
    requires Enabled(w, s)
  {
    if Taken(s).Some? then w.pool - multiset{Taken(s).value}
    else if Returned(w, s).Some? then w.pool + multiset{Returned(w, s).value}
    else w.pool
  }

  /** The buffer a step writes into, and what it writes. */
  function Stored(w: World, s: Step): Option<(Buf, Bytes)>
    requires Enabled(w, s)
  {
    match s
    case Read(g, data) => Some((w.procs[g].phase.buf, data))
    case ReadFails(g, data) => Some((w.procs[g].phase.buf, data))
    case Fill(g) =>
      var p := w.procs[g].phase;
      Some((p.frame, Frame(Prefix(Content(w, p.e.buf), p.e.length))))
    case _ => None
  }

  function MemAfter(w: World, s: Step): map<Buf, Bytes>
    requires Enabled(w, s)
  {
    var st := Stored(w, s);
    if st.Some? then w.mem[st.value.0 := Overwrite(Content(w, st.value.0), st.value.1)] else w.mem
  }

  function QueuesAfter(w: World, s: Step): map<Queue, Chan>
    requires Enabled(w, s)
  {
    if s.Take? then
      var q := Source(w.procs[s.g].role).value;
      w.queues[q := Queued(w, q).(head := Queued(w, q).head + 1)]
    else if s.Send? then
      var q := Target(w.procs[s.g].role).value;
      w.queues[q := Queued(w, q).(log := Queued(w, q).log + [w.procs[s.g].phase.e])]
    else w.queues
  }

  function WireAfter(w: World, s: Step): seq<Sent>
    requires Enabled(w, s)
  {
    if s.Write? then
      var e := w.procs[s.g].phase.e;
      w.wire + [Sent(e.id, false, Prefix(Content(w, e.buf), e.length))]
    else if s.WriteFrame? then
      var p := w.procs[s.g].phase;
      w.wire + [Sent(p.e.id, true, Prefix(Content(w, p.frame), p.n))]
    else w.wire
  }

  function After(w: World, s: Step): World
    requires Enabled(w, s)
  {
    World(
      ProcsAfter(w, s),
      PoolAfter(w, s),
      if s.Get? || s.Stage? then w.made + {s.b} else w.made,
      MemAfter(w, s),
      QueuesAfter(w, s),
      if s.Read? then w.taken + [s.data] else w.taken,
      if s.Read? then w.origins + [w.procs[s.g].role] else w.origins,
      WireAfter(w, s))
  }

  const START := World([], multiset{}, {}, map[], map[], [], [], [])

  /** The state a run from the start reaches, if each of its steps is possible. */
  function Run(steps: seq<Step>): Option<World> {
    if steps == [] then Some(START)
    else
      var r := Run(steps[..|steps| - 1]);
      if r.Some? && Enabled(r.value, steps[|steps| - 1]) then Some(After(r.value, steps[|steps| - 1])) else None
  }

  // ---- Ownership ----

  /** Where a buffer can be: in the pool, in a queue slot, held by a goroutine as its packet's buffer,
      or held by it as the buffer of the datagram it is writing. */
  datatype Loc = Pool | Slot(q: Queue, i: nat) | Main(g: nat) | Second(g: nat)

  function MainBuf(p: Phase): Option<Buf> {
    match p
    case Idle => None
    case Exited => None
    case Filling(b) => Some(b)
    case _ => Some(p.e.buf)
  }

  function SecondBuf(p: Phase): Option<Buf> {
    if p.Staging? || p.Staged? || p.FrameSent? then Some(p.frame) else None
  }

  predicate Owns(w: World, l: Loc, b: Buf) {
    match l
    case Pool => b in w.pool
    case Slot(q, i) => var c := Queued(w, q); c.head <= i < |c.log| && c.log[i].buf == b
    case Main(g) => g < |w.procs| && MainBuf(w.procs[g].phase) == Some(b)
    case Second(g) => g < |w.procs| && SecondBuf(w.procs[g].phase) == Some(b)
  }

  ghost predicate Linear(w: World) {
    && (forall b :: w.pool[b] <= 1)
    && (forall l, b :: Owns(w, l, b) ==> b in w.made)
    && (forall l, m, b :: Owns(w, l, b) && Owns(w, m, b) ==> l == m)
  }

  /** w2 comes from w by moving b from one place to another; None stands for "nowhere". */
  ghost predicate Moved(w: World, w2: World, b: Buf, from: Option<Loc>, to: Option<Loc>) {
    && w.made <= w2.made
    && (to.Some? ==> b in w2.made)
    && (from.Some? ==> Owns(w, from.value, b))
    && (from.None? && to.Some? ==> b !in w.made)
    && (forall l, c :: MovesAt(w, w2, b, from, to, l, c))
    && (forall c :: w2.pool[c] <= if c == b && to == Some(Pool) then w.pool[c] + 1 else w.pool[c])
  }

  lemma MoveKeepsLinear(w: World, w2: World, b: Buf, from: Option<Loc>, to: Option<Loc>)
    requires Linear(w) && Moved(w, w2, b, from, to) && (from == to ==> to == None)
    ensures Linear(w2)
  {
    if to == Some(Pool) {
      assert !Owns(w, Pool, b);
      assert w.pool[b] == 0;
    }
    assert forall l, c :: Owns(w2, l, c) ==> MovesAt(w, w2, b, from, to, l, c);
  }

  /** The move each step makes: the buffer, where it leaves, where it arrives. */
  ghost function Move(w: World, s: Step): (Buf, Option<Loc>, Option<Loc>)
    requires Enabled(w, s)
  {
    match s
    case Collect(b) => (b, Some(Pool), None)
    case Get(g, b) => (b, if b in w.pool then Some(Pool) else None, Some(Main(g)))
    case ReadFails(g, _) =>
      (w.procs[g].phase.buf, Some(Main(g)), if w.procs[g].role == Copier then Some(Pool) else None)
    case Take(g) =>
      var q := Source(w.procs[g].role).value;
      (Queued(w, q).log[Queued(w, q).head].buf, Some(Slot(q, Queued(w, q).head)), Some(Main(g)))
    case Drop(g) => (w.procs[g].phase.e.buf, Some(Main(g)), None)
    case Send(g) =>
      var q := Target(w.procs[g].role).value;
      (w.procs[g].phase.e.buf, Some(Main(g)), Some(Slot(q, |Queued(w, q).log|)))
    case Stage(g, b) => (b, if b in w.pool then Some(Pool) else None, Some(Second(g)))
    case PutFrame(g) => (w.procs[g].phase.frame, Some(Second(g)), Some(Pool))
    case Finish(g) =>
      var p := w.procs[g].phase;
      if Reuses(w.procs[g]) then (0, None, None)
      else (p.e.buf, Some(Main(g)), if Abandons(w.procs[g]) then None else Some(Pool))
    case PutUnsent(g) => (w.procs[g].phase.e.buf, Some(Main(g)), Some(Pool))
    case _ => (0, None, None)
  }

  ghost predicate MovesAt(w: World, w2: World, b: Buf, from: Option<Loc>, to: Option<Loc>, l: Loc, c: Buf) {
    Owns(w2, l, c) ==> (Owns(w, l, c) && (c == b ==> from != Some(l))) || (c == b && to == Some(l))
  }

  /** Move agrees with Taken and Returned about the pool. */
  lemma MovePool(w: World, s: Step)
    requires Enabled(w, s)
    ensures var (b, from, to) := Move(w, s);
            && (Taken(s).Some? ==> Taken(s).value == b && (from == Some(Pool) <==> b in w.pool) && to != Some(Pool))
            && (Returned(w, s).Some? ==> Returned(w, s).value == b && to == Some(Pool))
            && (Taken(s).None? ==> from != Some(Pool))
  {
  }

  lemma PoolMoves(w: World, s: Step, c: Buf)
    requires Enabled(w, s) && w.pool[c] <= 1
    ensures var (b, from, to) := Move(w, s); MovesAt(w, After(w, s), b, from, to, Pool, c)
  {
    MovePool(w, s);
    assert After(w, s).pool == PoolAfter(w, s);
  }

  lemma QueuesKept(w: World, s: Step, q: Queue, i: nat)
    requires Enabled(w, s) && !s.Take? && !s.Send?
    ensures Move(w, s).1 != Some(Slot(q, i)) && Move(w, s).2 != Some(Slot(q, i))
  {
  }

  lemma QueueMoves(w: World, s: Step, q: Queue, i: nat, c: Buf)
    requires Enabled(w, s)
    ensures var (b, from, to) := Move(w, s); MovesAt(w, After(w, s), b, from, to, Slot(q, i), c)
  {
    if !s.Take? && !s.Send? {
      assert After(w, s).queues == w.queues;
      QueuesKept(w, s, q, i);
    }
  }

  /** The acting goroutine holds what it held, less what leaves it and plus what arrives. */
  lemma ActorMoves(w: World, s: Step)
    requires Enabled(w, s) && !s.Spawn? && !s.Collect?
    ensures var (b, from, to) := Move(w, s);
            var p, p2 := w.procs[s.g].phase, NextPhase(w, s);
            && MainBuf(p2) == (if from == Some(Main(s.g)) then None
                               else if to == Some(Main(s.g)) then Some(b) else MainBuf(p))
            && SecondBuf(p2) == (if from == Some(Second(s.g)) then None
                                 else if to == Some(Second(s.g)) then Some(b) else SecondBuf(p))
  {
  }

  /** Only the acting goroutine takes part in a move. */
  lemma OthersKeep(w: World, s: Step, g: nat)
    requires Enabled(w, s) && (s.Spawn? || s.Collect? || s.g != g)
    ensures var (_, from, to) := Move(w, s);
            from != Some(Main(g)) && from != Some(Second(g)) && to != Some(Main(g)) && to != Some(Second(g))
  {
  }

  ghost predicate HolderAt(w: World, w2: World, b: Buf, from: Option<Loc>, to: Option<Loc>, g: nat, c: Buf) {
    MovesAt(w, w2, b, from, to, Main(g), c) && MovesAt(w, w2, b, from, to, Second(g), c)
  }

  lemma ActorHolds(w: World, s: Step, c: Buf)
    requires Enabled(w, s) && !s.Spawn? && !s.Collect?
    ensures var (b, from, to) := Move(w, s); HolderAt(w, After(w, s), b, from, to, s.g, c)
  {
    ActorMoves(w, s);
    assert After(w, s).procs[s.g].phase == NextPhase(w, s);
  }

  lemma OthersHold(w: World, s: Step, g: nat, c: Buf)
    requires Enabled(w, s) && (s.Spawn? || s.Collect? || s.g != g)
    ensures var (b, from, to) := Move(w, s); HolderAt(w, After(w, s), b, from, to, g, c)
  {
    OthersKeep(w, s, g);
    var w2 := After(w, s);
    assert w2.procs == ProcsAfter(w, s);
    assert g < |w2.procs| ==> if g < |w.procs| then w2.procs[g] == w.procs[g] else w2.procs[g].phase == Idle;
  }

  lemma HolderMoves(w: World, s: Step, g: nat, c: Buf)
    requires Enabled(w, s)
    ensures var (b, from, to) := Move(w, s); HolderAt(w, After(w, s), b, from, to, g, c)
  {
    if s.Spawn? || s.Collect? || s.g != g {
      OthersHold(w, s, g, c);
    } else {
      ActorHolds(w, s, c);
    }
  }

  lemma MoveStarts(w: World, s: Step)
    requires Enabled(w, s)
    ensures var (b, from, _) := Move(w, s); from.Some? ==> Owns(w, from.value, b)
  {
  }

  /** Nothing is unmade, and what comes from nowhere is made by the step. */
  lemma MadeMoves(w: World, s: Step)
    requires Enabled(w, s) && Linear(w)
    ensures var (b, from, to) := Move(w, s);
            var w2 := After(w, s);
            && w.made <= w2.made && (to.Some? ==> b in w2.made) && (from.None? && to.Some? ==> b !in w.made)
  {
    MoveStarts(w, s);
  }

  lemma PoolCountMoves(w: World, s: Step, c: Buf)
    requires Enabled(w, s)
    ensures var (b, _, to) := Move(w, s);
            After(w, s).pool[c] <= if c == b && to == Some(Pool) then w.pool[c] + 1 else w.pool[c]
  {
    MovePool(w, s);
    assert After(w, s).pool == PoolAfter(w, s);
  }

  lemma EachPlaceMoves(w: World, s: Step, l: Loc, c: Buf)
    requires Enabled(w, s) && Linear(w)
    ensures var (b, from, to) := Move(w, s); MovesAt(w, After(w, s), b, from, to, l, c)
  {
    match l
    case Pool => PoolMoves(w, s, c);
    case Slot(q, i) => QueueMoves(w, s, q, i, c);
    case Main(g) => HolderMoves(w, s, g, c);
    case Second(g) => HolderMoves(w, s, g, c);
  }

  lemma StepMoves(w: World, s: Step)
    requires Enabled(w, s) && Linear(w)
    ensures var (b, from, to) := Move(w, s); Moved(w, After(w, s), b, from, to)
  {
    var (b, from, to) := Move(w, s);
    MoveStarts(w, s);
    MadeMoves(w, s);
    forall l, c
      ensures MovesAt(w, After(w, s), b, from, to, l, c)
    {
      EachPlaceMoves(w, s, l, c);
    }
    forall c
      ensures After(w, s).pool[c] <= if c == b && to == Some(Pool) then w.pool[c] + 1 else w.pool[c]
    {
      PoolCountMoves(w, s, c);
    }
  }

  lemma StepKeepsLinear(w: World, s: Step)
    requires Enabled(w, s) && Linear(w)
    ensures Linear(After(w, s))
  {
    var (b, from, to) := Move(w, s);
    StepMoves(w, s);
    MoveKeepsLinear(w, After(w, s), b, from, to);
  }

  // ---- Packet integrity ----

  /** The packet waiting at a place, not yet handed to a connection or device. */
  function Pending(w: World, l: Loc): Option<Elem> {
    match l
    case Slot(q, i) => var c := Queued(w, q); if c.head <= i < |c.log| then Some(c.log[i]) else None
    case Main(g) =>
      if g < |w.procs| && (w.procs[g].phase.Loaded? || w.procs[g].phase.Staging? || w.procs[g].phase.Staged?)
      then Some(w.procs[g].phase.e) else None
    case _ => None
  }

  /** The bytes in e's buffer are those of the packet that was read into it. */
  predicate Intact(w: World, e: Elem) {
    e.id < |w.taken| && e.length == |w.taken[e.id]| && Prefix(Content(w, e.buf), e.length) == w.taken[e.id]
  }

  ghost predicate Whole(w: World) {
    && (forall l :: Pending(w, l).Some? ==> Intact(w, Pending(w, l).value))
    && (forall g | 0 <= g < |w.procs| && w.procs[g].phase.Staged? :: FrameIntact(w, w.procs[g].phase))
  }

  predicate FrameIntact(w: World, p: Phase)
    requires p.Staged?
  {
    p.e.id < |w.taken| && Prefix(Content(w, p.frame), p.n) == Frame(w.taken[p.e.id])
  }

  /** Where the packet at l was before the step. */
  ghost function Origin(w: World, s: Step, l: Loc): Loc
    requires Enabled(w, s)
  {
    if s.Take? && l == Main(s.g) then
      var q := Source(w.procs[s.g].role).value; Slot(q, Queued(w, q).head)
    else if s.Send? then
      var q := Target(w.procs[s.g].role).value; if l == Slot(q, |Queued(w, q).log|) then Main(s.g) else l
    else l
  }

  ghost predicate JustRead(w: World, s: Step, l: Loc) {
    s.Read? && l == Main(s.g)
  }

  lemma SlotComesFrom(w: World, s: Step, q: Queue, i: nat)
    requires Enabled(w, s) && Pending(After(w, s), Slot(q, i)).Some?
    ensures Pending(w, Origin(w, s, Slot(q, i))) == Pending(After(w, s), Slot(q, i))
  {
  }

  lemma HeldComesFrom(w: World, s: Step, g: nat)
    requires Enabled(w, s) && Pending(After(w, s), Main(g)).Some? && !JustRead(w, s, Main(g))
    ensures Pending(w, Origin(w, s, Main(g))) == Pending(After(w, s), Main(g))
  {
    if !s.Spawn? && !s.Collect? && g == s.g {
      assert Pending(After(w, s), Main(g)) == Some(NextPhase(w, s).e);
    }
  }

  lemma PendingComesFrom(w: World, s: Step, l: Loc)
    requires Enabled(w, s) && Pending(After(w, s), l).Some? && !JustRead(w, s, l)
    ensures Pending(w, Origin(w, s, l)) == Pending(After(w, s), l)
  {
    if l.Slot? {
      SlotComesFrom(w, s, l.q, l.i);
    } else {
      HeldComesFrom(w, s, l.g);
    }
  }

  lemma OriginInjective(w: World, s: Step, l: Loc, m: Loc)
    requires Enabled(w, s) && Pending(After(w, s), l).Some? && Pending(After(w, s), m).Some?
    requires !JustRead(w, s, l) && !JustRead(w, s, m) && Origin(w, s, l) == Origin(w, s, m)
    ensures l == m
  {
  }

  lemma PendingOwns(w: World, l: Loc)
    requires Pending(w, l).Some?
    ensures Owns(w, l, Pending(w, l).value.buf)
  {
  }

  /** The place whose buffer a step writes into. */
  function WritesAt(s: Step): Option<Loc> {
    match s
    case Read(g, _) => Some(Main(g))
    case ReadFails(g, _) => Some(Main(g))
    case Fill(g) => Some(Second(g))
    case _ => None
  }

  lemma OnlyOwnBufferWritten(w: World, s: Step, l: Loc, b: Buf)
    requires Enabled(w, s) && Linear(w) && Owns(w, l, b) && WritesAt(s) != Some(l)
    ensures Content(After(w, s), b) == Content(w, b)
  {
    if s.Fill? {
      assert Owns(w, Second(s.g), w.procs[s.g].phase.frame);
    } else if s.Read? || s.ReadFails? {
      assert Owns(w, Main(s.g), w.procs[s.g].phase.buf);
    }
  }

  lemma StepKeepsIntact(w: World, s: Step, l: Loc)
    requires Enabled(w, s) && Linear(w) && Whole(w) && Pending(After(w, s), l).Some?
    ensures Intact(After(w, s), Pending(After(w, s), l).value)
  {
    if !JustRead(w, s, l) {
      var o := Origin(w, s, l);
      PendingComesFrom(w, s, l);
      PendingOwns(w, o);
      OnlyOwnBufferWritten(w, s, o, Pending(w, o).value.buf);
    }
  }

  lemma FilledFrame(w: World, s: Step)
    requires Enabled(w, s) && s.Fill? && Whole(w)
    ensures FrameIntact(After(w, s), After(w, s).procs[s.g].phase)
  {
    assert Intact(w, Pending(w, Main(s.g)).value);
  }

  lemma StagedComesFrom(w: World, s: Step, g: nat)
    requires Enabled(w, s) && g < |After(w, s).procs| && After(w, s).procs[g].phase.Staged? && !(s.Fill? && s.g == g)
    ensures g < |w.procs| && After(w, s).procs[g].phase == w.procs[g].phase
  {
    assert After(w, s).procs == ProcsAfter(w, s);
  }

  lemma StepKeepsFrame(w: World, s: Step, g: nat)
    requires Enabled(w, s) && Linear(w) && Whole(w)
    requires g < |After(w, s).procs| && After(w, s).procs[g].phase.Staged?
    ensures FrameIntact(After(w, s), After(w, s).procs[g].phase)
  {
    if s.Fill? && s.g == g {
      FilledFrame(w, s);
    } else {
      StagedComesFrom(w, s, g);
      var p := w.procs[g].phase;
      assert FrameIntact(w, p) && Owns(w, Second(g), p.frame);
      OnlyOwnBufferWritten(w, s, Second(g), p.frame);
    }
  }

  lemma StepKeepsWhole(w: World, s: Step)
    requires Enabled(w, s) && Linear(w) && Whole(w)
    ensures Whole(After(w, s))
  {
    forall l | Pending(After(w, s), l).Some?
      ensures Intact(After(w, s), Pending(After(w, s), l).value)
    {
      StepKeepsIntact(w, s, l);
    }
    forall g | 0 <= g < |After(w, s).procs| && After(w, s).procs[g].phase.Staged?
      ensures FrameIntact(After(w, s), After(w, s).procs[g].phase)
    {
      StepKeepsFrame(w, s, g);
    }
  }

  // ---- What goes out ----

  function Encoded(framed: bool, packet: Bytes): Bytes {
    if framed then Frame(packet) else packet
  }

  ghost predicate WireFaithful(taken: seq<Bytes>, wire: seq<Sent>) {
    && (forall i | 0 <= i < |wire| ::
          wire[i].id < |taken| && wire[i].bytes == Encoded(wire[i].framed, taken[wire[i].id]))
    && (forall i, j | 0 <= i < j < |wire| :: wire[i].id != wire[j].id)
  }

  /** Every write carried, unaltered, a packet that was read, and no packet was written twice. */
  ghost predicate Faithful(w: World) {
    WireFaithful(w.taken, w.wire)
  }

  ghost predicate Unsent(w: World, id: nat) {
    forall i | 0 <= i < |w.wire| :: w.wire[i].id != id
  }

  /** No packet is waiting in two places, and none that waits has been written. */
  ghost predicate Distinct(w: World) {
    && (forall l, m ::
          Pending(w, l).Some? && Pending(w, m).Some? && Pending(w, l).value.id == Pending(w, m).value.id ==> l == m)
    && (forall l :: Pending(w, l).Some? ==> Unsent(w, Pending(w, l).value.id))
  }

  lemma PendingIsSent(w: World, s: Step)
    requires Enabled(w, s) && (s.Write? || s.WriteFrame?)
    ensures Pending(w, Main(s.g)) == Some(w.procs[s.g].phase.e) && Pending(After(w, s), Main(s.g)).None?
  {
    assert After(w, s).procs[s.g].phase == NextPhase(w, s);
  }

  lemma WireGrows(w: World, s: Step)
    requires Enabled(w, s)
    ensures !s.Write? && !s.WriteFrame? ==> WireAfter(w, s) == w.wire
    ensures s.Write? || s.WriteFrame? ==>
              var wire, n := WireAfter(w, s), |w.wire|;
              wire == w.wire + [wire[n]] && wire[n].id == w.procs[s.g].phase.e.id
  {
  }

  /** What a write sends is the packet in its buffer, which was not sent before. */
  lemma SendsIntact(w: World, s: Step)
    requires Enabled(w, s) && Whole(w) && Distinct(w) && (s.Write? || s.WriteFrame?)
    ensures var sent := WireAfter(w, s)[|w.wire|];
            && sent.id < |w.taken| && sent.bytes == Encoded(sent.framed, w.taken[sent.id])
            && Unsent(w, sent.id)
  {
    PendingIsSent(w, s);
    var p := w.procs[s.g].phase;
    assert Intact(w, p.e) && Unsent(w, p.e.id);
    assert s.WriteFrame? ==> FrameIntact(w, p);
  }

  lemma WireStep(taken: seq<Bytes>, wire: seq<Sent>, sent: Sent)
    requires WireFaithful(taken, wire) && sent.id < |taken| && sent.bytes == Encoded(sent.framed, taken[sent.id])
    requires forall i | 0 <= i < |wire| :: wire[i].id != sent.id
    ensures WireFaithful(taken, wire + [sent])
  {
  }

  lemma StepKeepsFaithful(w: World, s: Step)
    requires Enabled(w, s) && Whole(w) && Distinct(w) && Faithful(w)
    ensures Faithful(After(w, s))
  {
    WireGrows(w, s);
    if s.Write? || s.WriteFrame? {
      SendsIntact(w, s);
      WireStep(w.taken, w.wire, WireAfter(w, s)[|w.wire|]);
    } else {
      assert After(w, s).wire == w.wire && w.taken <= After(w, s).taken;
    }
  }

  lemma StepKeepsUnsent(w: World, s: Step, l: Loc)
    requires Enabled(w, s) && Whole(w) && Distinct(w) && Faithful(w) && Pending(After(w, s), l).Some?
    ensures Unsent(After(w, s), Pending(After(w, s), l).value.id)
  {
    if !JustRead(w, s, l) {
      PendingComesFrom(w, s, l);
      var o := Origin(w, s, l);
      assert Unsent(w, Pending(w, o).value.id);
      WireGrows(w, s);
      if s.Write? || s.WriteFrame? {
        PendingIsSent(w, s);
        assert o == l && l != Main(s.g);
        assert Pending(w, l).value.id != Pending(w, Main(s.g)).value.id;
      }
    }
  }

  lemma StepKeepsApart(w: World, s: Step, l: Loc, m: Loc)
    requires Enabled(w, s) && Whole(w) && Distinct(w)
    requires Pending(After(w, s), l).Some? && Pending(After(w, s), m).Some?
    requires Pending(After(w, s), l).value.id == Pending(After(w, s), m).value.id
    ensures l == m
  {
    if !JustRead(w, s, l) {
      PendingComesFrom(w, s, l);
      assert Intact(w, Pending(w, Origin(w, s, l)).value);
    }
    if !JustRead(w, s, m) {
      PendingComesFrom(w, s, m);
      assert Intact(w, Pending(w, Origin(w, s, m)).value);
    }
    if !JustRead(w, s, l) && !JustRead(w, s, m) {
      OriginInjective(w, s, l, m);
    }
  }

  lemma StepKeepsDistinct(w: World, s: Step)
    requires Enabled(w, s) && Whole(w) && Distinct(w) && Faithful(w)
    ensures Distinct(After(w, s))
  {
    var w2 := After(w, s);
    forall l, m | Pending(w2, l).Some? && Pending(w2, m).Some? && Pending(w2, l).value.id == Pending(w2, m).value.id
      ensures l == m
    {
      StepKeepsApart(w, s, l, m);
    }
    forall l | Pending(w2, l).Some?
      ensures Unsent(w2, Pending(w2, l).value.id)
    {
      StepKeepsUnsent(w, s, l);
    }
  }

  ghost predicate Sound(w: World) {
    Linear(w) && Whole(w) && Distinct(w) && Faithful(w)
  }

  /** Over every run: each buffer is in one place, every waiting packet is as it was read, and
      everything transmitted is a packet that was read in, intact, and at most once. */
  lemma {:induction false} EveryRunSound(steps: seq<Step>)
    requires Run(steps).Some?
    ensures Sound(Run(steps).value)
  {
    if steps != [] {
      var w, s := Run(steps[..|steps| - 1]).value, steps[|steps| - 1];
      EveryRunSound(steps[..|steps| - 1]);
      StepKeepsLinear(w, s);
      StepKeepsWhole(w, s);
      StepKeepsFaithful(w, s);
      StepKeepsDistinct(w, s);
    }
  }

  /** No run returns a buffer that is already in the pool, or that anyone else still holds. */
  lemma NeverReturnedTwice(steps: seq<Step>, s: Step, l: Loc)
    requires Run(steps).Some?
    requires var w := Run(steps).value; Enabled(w, s) && Returned(w, s).Some?
    ensures var w := Run(steps).value; var b := Returned(w, s).value;
            b !in w.pool && (Owns(After(w, s), l, b) <==> l == Pool)
  {
    EveryRunSound(steps);
    var w := Run(steps).value;
    MovePool(w, s);
    MoveStarts(w, s);
    var b, from := Returned(w, s).value, Move(w, s).1;
    assert Owns(w, from.value, b) && from != Some(Pool);
    assert !Owns(w, Pool, b);
    StepKeepsLinear(w, s);
    assert Owns(After(w, s), Pool, b);
  }

  /** No run hands to a connection or device a buffer that is in the pool or in another's hands. */
  lemma NeverSentAfterReturn(steps: seq<Step>, s: Step, l: Loc)
    requires Run(steps).Some?
    requires var w := Run(steps).value; Enabled(w, s) && (s.Write? || s.WriteFrame?)
    ensures var w := Run(steps).value;
            var p := w.procs[s.g].phase;
            Owns(w, l, if s.Write? then p.e.buf else p.frame) <==> l == if s.Write? then Main(s.g) else Second(s.g)
  {
    EveryRunSound(steps);
    var w := Run(steps).value;
    var p := w.procs[s.g].phase;
    assert if s.Write? then Owns(w, Main(s.g), p.e.buf) else Owns(w, Second(s.g), p.frame);
  }

  // ---- A packet that goes out framed ----

  lemma OverwritePrefix(was: Bytes, data: Bytes)
    ensures Prefix(Overwrite(was, data), |data|) == data
  {
  }

  lemma FillsFrame(w: World, g: nat, ok: bool)
    requires g < |w.procs| && w.procs[g].phase.Staging?
    ensures var w2 := After(w, Fill(g));
            && Enabled(w2, WriteFrame(g, ok))
            && var p := w.procs[g].phase;
               After(w2, WriteFrame(g, ok)).wire
               == w.wire + [Sent(p.e.id, true, Frame(Prefix(Content(w, p.e.buf), p.e.length)))]
  {
    var p, w2 := w.procs[g].phase, After(w, Fill(g));
    var f := Frame(Prefix(Content(w, p.e.buf), p.e.length));
    OverwritePrefix(Content(w, p.frame), f);
    assert w2.procs[g].phase == Staged(p.e, p.frame, |f|);
    assert Content(w2, p.frame) == Overwrite(Content(w, p.frame), f);
    assert After(w2, WriteFrame(g, ok)).wire == WireAfter(w2, WriteFrame(g, ok));
  }

  lemma StagesFrame(w: World, g: nat, b: Buf, ok: bool)
    requires g < |w.procs| && Enabled(w, Stage(g, b))
    ensures var w1 := After(w, Stage(g, b));
            && Enabled(w1, Fill(g)) && Enabled(After(w1, Fill(g)), WriteFrame(g, ok))
            && var e := w.procs[g].phase.e;
               After(After(w1, Fill(g)), WriteFrame(g, ok)).wire
               == w.wire + [Sent(e.id, true, Frame(Prefix(Content(w, e.buf), e.length)))]
  {
    var w1 := After(w, Stage(g, b));
    assert w1.procs[g].phase == NextPhase(w, Stage(g, b)) && w1.mem == w.mem && w1.wire == w.wire;
    FillsFrame(w1, g, ok);
  }

  /** In every run the roles that write to a TCP connection, and only those, can put a packet into a frame of its
      own; if nothing interrupts them, what goes out is the frame of the packet as it was read. */
  lemma GoesOutFramed(steps: seq<Step>, g: nat, b: Buf, ok: bool)
    requires Run(steps).Some?
    requires var w := Run(steps).value; g < |w.procs| && w.procs[g].phase.Loaded? && Obtainable(w, b)
    ensures var w := Run(steps).value;
            Enabled(w, Stage(g, b)) <==> w.procs[g].role in {PeerRouter, TunRouter, ClientSender, Copier}
    ensures var w := Run(steps).value;
            Enabled(w, Stage(g, b)) ==>
              var w1 := After(w, Stage(g, b));
              && Enabled(w1, Fill(g)) && Enabled(After(w1, Fill(g)), WriteFrame(g, ok))
              && var id := w.procs[g].phase.e.id;
                 && id < |w.taken|
                 && After(After(w1, Fill(g)), WriteFrame(g, ok)).wire == w.wire + [Sent(id, true, Frame(w.taken[id]))]
  {
    EveryRunSound(steps);
    var w := Run(steps).value;
    var e := w.procs[g].phase.e;
    assert Pending(w, Main(g)) == Some(e);
    assert Intact(w, e);
    if Enabled(w, Stage(g, b)) {
      StagesFrame(w, g, b, ok);
    }
  }

  /** routeTUN, and no other, can put a packet back unsent: its buffer is then in the pool, and nothing goes out. */
  lemma PutBackUnsent(w: World, g: nat)
    requires g < |w.procs| && w.procs[g].phase.Loaded?
    ensures Enabled(w, PutUnsent(g)) <==> w.procs[g].role == TunRouter
    ensures w.procs[g].role == TunRouter ==>
              var w1 := After(w, PutUnsent(g));
              w.procs[g].phase.e.buf in w1.pool && w1.procs[g].phase.Idle? && w1.wire == w.wire
  {
  }

  // ---- Which buffers are lost ----

  /** Only a role that reads is filling a buffer; no more is received than was sent, and at most 1000 packets
      wait in a queue. */
  ghost predicate Regular(w: World) {
    && (forall g | 0 <= g < |w.procs| && w.procs[g].phase.Filling? :: Reads(w.procs[g].role))
    && (forall q :: Queued(w, q).head <= |Queued(w, q).log| <= Queued(w, q).head + 1000)
  }

  lemma StepKeepsReaders(w: World, s: Step, g: nat)
    requires Enabled(w, s) && Regular(w) && g < |After(w, s).procs| && After(w, s).procs[g].phase.Filling?
    ensures Reads(After(w, s).procs[g].role)
  {
    assert After(w, s).procs == ProcsAfter(w, s);
  }

  lemma StepKeepsHeads(w: World, s: Step, q: Queue)
    requires Enabled(w, s) && Regular(w)
    ensures var c := Queued(After(w, s), q); c.head <= |c.log| <= c.head + 1000
  {
    assert Queued(w, q).head <= |Queued(w, q).log| <= Queued(w, q).head + 1000;
  }

  lemma {:induction false} EveryRunRegular(steps: seq<Step>)
    requires Run(steps).Some?
    ensures Regular(Run(steps).value)
  {
    if steps != [] {
      var w, s := Run(steps[..|steps| - 1]).value, steps[|steps| - 1];
      EveryRunRegular(steps[..|steps| - 1]);
      forall g | 0 <= g < |After(w, s).procs| && After(w, s).procs[g].phase.Filling?
        ensures Reads(After(w, s).procs[g].role)
      {
        StepKeepsReaders(w, s, g);
      }
      forall q
        ensures var c := Queued(After(w, s), q); c.head <= |c.log| <= c.head + 1000
      {
        StepKeepsHeads(w, s, q);
      }
    }
  }

  lemma QueueStays(w: World, s: Step, q: Queue, i: nat, b: Buf)
    requires Enabled(w, s) && Owns(w, Slot(q, i), b) && Move(w, s).1 != Some(Slot(q, i))
    ensures Owns(After(w, s), Slot(q, i), b)
  {
  }

  lemma PoolStays(w: World, s: Step, b: Buf)
    requires Enabled(w, s) && b in w.pool && !(Move(w, s).0 == b && Move(w, s).1 == Some(Pool))
    ensures b in After(w, s).pool
  {
    MovePool(w, s);
    assert After(w, s).pool == PoolAfter(w, s);
  }

  lemma ActorKeeps(w: World, s: Step, l: Loc, b: Buf)
    requires Enabled(w, s) && !s.Spawn? && !s.Collect? && (l == Main(s.g) || l == Second(s.g)) && Owns(w, l, b)
    requires Move(w, s).1 != Some(l) && Move(w, s).2 != Some(l)
    ensures Owns(After(w, s), l, b)
  {
    ActorMoves(w, s);
    assert After(w, s).procs[s.g].phase == NextPhase(w, s);
  }

  lemma HolderStays(w: World, s: Step, l: Loc, b: Buf)
    requires Enabled(w, s) && (l.Main? || l.Second?) && Owns(w, l, b)
    requires Move(w, s).1 != Some(l) && Move(w, s).2 != Some(l)
    ensures Owns(After(w, s), l, b)
  {
    if !s.Spawn? && !s.Collect? && s.g == l.g {
      ActorKeeps(w, s, l, b);
    } else {
      assert After(w, s).procs == ProcsAfter(w, s);
      assert ProcsAfter(w, s)[l.g] == w.procs[l.g];
    }
  }

  lemma ArrivesInQueue(w: World, s: Step)
    requires Enabled(w, s) && Regular(w) && s.Send?
    ensures var (b, _, to) := Move(w, s); Owns(After(w, s), to.value, b)
  {
    var q := Target(w.procs[s.g].role).value;
    assert Queued(w, q).head <= |Queued(w, q).log|;
  }

  lemma ArrivesInHands(w: World, s: Step)
    requires Enabled(w, s) && !s.Spawn? && !s.Collect?
    ensures var (b, _, to) := Move(w, s);
            to == Some(Main(s.g)) || to == Some(Second(s.g)) ==> Owns(After(w, s), to.value, b)
  {
    ActorMoves(w, s);
    assert After(w, s).procs[s.g].phase == NextPhase(w, s);
  }

  lemma ArrivesInPool(w: World, s: Step)
    requires Enabled(w, s)
    ensures Move(w, s).2 == Some(Pool) ==> Move(w, s).0 in After(w, s).pool
  {
    MovePool(w, s);
    assert Move(w, s).2 == Some(Pool) ==> Returned(w, s).Some?;
    assert After(w, s).pool == PoolAfter(w, s);
  }

  /** Where a step can bring a buffer. */
  lemma MoveTargets(w: World, s: Step)
    requires Enabled(w, s)
    ensures var to := Move(w, s).2;
            || to.None? || to == Some(Pool) || s.Send?
            || (!s.Spawn? && !s.Collect? && (to == Some(Main(s.g)) || to == Some(Second(s.g))))
  {
  }

  lemma MoveArrives(w: World, s: Step)
    requires Enabled(w, s) && Regular(w)
    ensures var (b, _, to) := Move(w, s); to.Some? ==> Owns(After(w, s), to.value, b)
  {
    MoveTargets(w, s);
    ArrivesInPool(w, s);
    if s.Send? {
      ArrivesInQueue(w, s);
    } else if !s.Spawn? && !s.Collect? {
      ArrivesInHands(w, s);
    }
  }

  /** A goroutine that is handed a buffer held none in that place. */
  lemma HandsWereFree(w: World, s: Step, l: Loc, c: Buf)
    requires Enabled(w, s) && Move(w, s).2 == Some(l) && (l.Main? || l.Second?)
    ensures !Owns(w, l, c)
  {
  }

  lemma StaysPut(w: World, s: Step, l: Loc, b: Buf)
    requires Enabled(w, s) && Owns(w, l, b) && !(Move(w, s).0 == b && Move(w, s).1 == Some(l))
    ensures Owns(After(w, s), l, b)
  {
    MoveStarts(w, s);
    match l
    case Pool => PoolStays(w, s, b);
    case Slot(q, i) => QueueStays(w, s, q, i, b);
    case _ =>
      if Move(w, s).2 == Some(l) {
        HandsWereFree(w, s, l, b);
      } else {
        HolderStays(w, s, l, b);
      }
  }

  ghost predicate Nowhere(w: World, b: Buf) {
    forall l :: !Owns(w, l, b)
  }

  lemma LostByMove(w: World, s: Step, l: Loc, b: Buf)
    requires Linear(w) && Regular(w) && Enabled(w, s) && Owns(w, l, b)
    ensures Nowhere(After(w, s), b) <==> Move(w, s) == (b, Some(l), None)
  {
    var w2 := After(w, s);
    StepMoves(w, s);
    MoveArrives(w, s);
    if Move(w, s) == (b, Some(l), None) {
      forall m
        ensures !Owns(w2, m, b)
      {
        assert MovesAt(w, w2, b, Some(l), None, m, b);
      }
    } else if Move(w, s).0 == b && Move(w, s).1 == Some(l) {
      assert Owns(w2, Move(w, s).2.value, b);
    } else {
      StaysPut(w, s, l, b);
    }
  }

  /** The step lets go of the buffer without putting it back: sync.Pool forgets it, a packet cannot be parsed, a
      read fails, or routePeer cannot write its datagram. */
  predicate LetsGo(w: World, s: Step, b: Buf)
    requires Enabled(w, s)
  {
    match s
    case Collect(c) => c == b
    case Drop(g) =>
      && w.procs[g].phase.e.buf == b
      && w.procs[g].role in {HeaderParser, TcpParser, ConnParser, TcpHandler, EndpointReader}
    case ReadFails(g, _) =>
      && w.procs[g].phase.buf == b
      && w.procs[g].role in {TunReader, ConnReader, TcpHandler, ClientReader, EndpointReader}
    case Finish(g) =>
      var p := w.procs[g].phase;
      p.e.buf == b && w.procs[g].role == PeerRouter && p.framed && !p.ok
    case _ => false
  }

  lemma LetsGoIsMove(w: World, s: Step, b: Buf)
    requires Enabled(w, s) && Regular(w)
    ensures LetsGo(w, s, b) <==> Move(w, s).0 == b && Move(w, s).1.Some? && Move(w, s).2.None?
  {
  }

  /** In every run a step loses a buffer, for the garbage collector to find, in exactly these cases. */
  lemma BufferLostIff(steps: seq<Step>, s: Step, l: Loc, b: Buf)
    requires Run(steps).Some?
    requires var w := Run(steps).value; Enabled(w, s) && Owns(w, l, b)
    ensures var w := Run(steps).value; Nowhere(After(w, s), b) <==> LetsGo(w, s, b)
  {
    EveryRunSound(steps);
    EveryRunRegular(steps);
    var w := Run(steps).value;
    LostByMove(w, s, l, b);
    MoveStarts(w, s);
    LetsGoIsMove(w, s, b);
  }

  /** What becomes of a packet's buffer after its write. routePeer's datagram that could not be written is lost;
      a copy loop goes on with its buffer after a good write; in every other case it is back in the pool. */
  lemma AfterWrite(steps: seq<Step>, s: Step, l: Loc)
    requires Run(steps).Some?
    requires var w := Run(steps).value; Enabled(w, s) && s.Finish?
    ensures var w := Run(steps).value;
            var r, p, w2 := w.procs[s.g].role, w.procs[s.g].phase, After(w, s);
            Owns(w2, l, p.e.buf) <==>
              if r == PeerRouter && p.framed && !p.ok then false
              else if r == Copier && p.ok then l == Main(s.g)
              else l == Pool
  {
    EveryRunSound(steps);
    EveryRunRegular(steps);
    var w := Run(steps).value;
    var r, p, w2 := w.procs[s.g].role, w.procs[s.g].phase, After(w, s);
    assert Owns(w, Main(s.g), p.e.buf);
    LostByMove(w, s, Main(s.g), p.e.buf);
    StepKeepsLinear(w, s);
    if !(r == PeerRouter && p.framed && !p.ok) {
      assert Owns(w2, if r == Copier && p.ok then Main(s.g) else Pool, p.e.buf);
    }
  }

  /** A goroutine ends with a failed read or a failed write, and with nothing else. */
  lemma EndsIff(w: World, s: Step)
    requires Enabled(w, s) && !s.Spawn? && !s.Collect?
    ensures After(w, s).procs[s.g].phase.Exited? <==> s.ReadFails? || (s.Finish? && !w.procs[s.g].phase.ok)
  {
    assert After(w, s).procs == ProcsAfter(w, s);
    assert NextPhase(w, s).Exited? <==> s.ReadFails? || (s.Finish? && !w.procs[s.g].phase.ok);
  }

  // ---- No goroutine is stuck ----

  predicate Acts(s: Step, g: nat) {
    !s.Spawn? && !s.Collect? && s.g == g
  }

  /** What a goroutine can wait for: a packet to receive, or room in the queue it sends to. Only the readers wait
      for room; everybody else has something else to do with a packet. */
  predicate Waits(w: World, g: nat)
    requires g < |w.procs|
  {
    var r, p := w.procs[g].role, w.procs[g].phase;
    || (p.Idle? && Source(r).Some? && Queued(w, Source(r).value).head >= |Queued(w, Source(r).value).log|)
    || (p.Loaded? && r in {TunReader, Heartbeat, ConnReader, ClientReader, EndpointQueue} && Target(r).Some? &&
        |Queued(w, Target(r).value).log| >= Queued(w, Target(r).value).head + 1000)
  }

  lemma {:induction false} UnusedBuffer(made: set<Buf>) returns (b: Buf)
    ensures forall c | c in made :: c < b
  {
    if made == {} {
      b := 0;
    } else {
      var c :| c in made;
      b := UnusedBuffer(made - {c});
      if b <= c {
        b := c + 1;
      }
      forall x | x in made ensures x < b {
        assert x == c || x in made - {c};
      }
    }
  }

  /** What a goroutine with a packet does next, if not wait: one of the steps its role has for it. */
  lemma LoadedActs(w: World, g: nat) returns (s: Step)
    requires g < |w.procs| && w.procs[g].phase.Loaded? && !Waits(w, g)
    ensures Acts(s, g) && Enabled(w, s)
  {
    match w.procs[g].role
    case TunReader | Heartbeat | ConnReader | ClientReader | EndpointQueue => s := Send(g);
    case HeaderParser | TcpParser | ConnParser | TcpHandler | EndpointReader => s := Drop(g);
    case _ => s := Write(g, true);
  }

  lemma IdleActs(w: World, g: nat) returns (s: Step)
    requires g < |w.procs| && w.procs[g].phase.Idle? && !Waits(w, g)
    ensures Acts(s, g) && Enabled(w, s)
  {
    var b := UnusedBuffer(w.made);
    s := if Reads(w.procs[g].role) then Get(g, b) else Take(g);
  }

  lemma NextAct(w: World, g: nat) returns (s: Step)
    requires g < |w.procs| && !w.procs[g].phase.Exited? && !Waits(w, g)
    ensures Acts(s, g) && Enabled(w, s)
  {
    match w.procs[g].phase
    case Idle => s := IdleActs(w, g);
    case Filling(_) => s := Read(g, []);
    case Loaded(_) => s := LoadedActs(w, g);
    case Staging(_, _) => s := Fill(g);
    case Staged(_, _, _) => s := WriteFrame(g, true);
    case FrameSent(_, _, _) => s := PutFrame(g);
    case Written(_, _, _) => s := Finish(g);
  }

  lemma WaitingCannotAct(w: World, g: nat, s: Step)
    requires g < |w.procs| && Acts(s, g) && Enabled(w, s)
    ensures !w.procs[g].phase.Exited? && !Waits(w, g)
  {
  }

  /** A goroutine that has not ended can go on exactly when it is not waiting for a packet or for room. */
  lemma GoesOnIff(w: World, g: nat)
    requires g < |w.procs|
    ensures (exists s :: Acts(s, g) && Enabled(w, s)) <==> !w.procs[g].phase.Exited? && !Waits(w, g)
  {
    if !w.procs[g].phase.Exited? && !Waits(w, g) {
      var s := NextAct(w, g);
    }
    if s :| Acts(s, g) && Enabled(w, s) {
      WaitingCannotAct(w, g, s);
    }
  }

  // ---- Where packets come from ----

  /** The goroutine that works on a packet next, by role. */
  predicate Follows(r: Role, next: Role) {
    || (r == TunReader && next == HeaderParser)
    || (r in {HeaderParser, Heartbeat, EndpointReader} && next in {TunRouter, ClientSender})
    || (r == ConnReader && next == ConnParser)
    || (r == TcpHandler && next == TcpParser)
    || (r in {ConnParser, TcpParser} && next == PeerRouter)
    || (r in {PeerRouter, ClientSender, ClientReader, EndpointQueue} && next == TunWriter)
  }

  lemma FollowsByQueue(r: Role, next: Role)
    ensures Follows(r, next) <==> Target(r).Some? && Source(next) == Target(r)
  {
  }

  lemma SendFiles(w: World, g: nat, q: Queue)
    requires g < |w.procs| && w.procs[g].phase.Loaded?
    requires Queued(w, q).head == |Queued(w, q).log|
    requires Enabled(w, Send(g))
    ensures var c := Queued(After(w, Send(g)), q);
            if Target(w.procs[g].role) == Some(q) then
              c.head < |c.log| && Loaded(c.log[c.head]) == w.procs[g].phase
            else c.head == |c.log|
  {
  }

  lemma TakesSent(w: World, g: nat, h: nat, q: Queue)
    requires g < |w.procs| && h < |w.procs| && w.procs[g].phase.Loaded? && w.procs[h].phase.Idle?
    requires Queued(w, q).head == |Queued(w, q).log| && Source(w.procs[h].role) == Some(q)
    requires Enabled(w, Send(g))
    ensures Enabled(After(w, Send(g)), Take(h)) <==> Target(w.procs[g].role) == Some(q)
    ensures Target(w.procs[g].role) == Some(q) ==>
              NextPhase(After(w, Send(g)), Take(h)) == w.procs[g].phase
  {
    SendFiles(w, g, q);
    assert After(w, Send(g)).procs[h] == w.procs[h];
  }

  /** With nothing else under way, a goroutine can send its packet and another receive it exactly when the one
      follows the other; it then has that packet. */
  lemma HandsOverIff(w: World, g: nat, h: nat)
    requires g < |w.procs| && h < |w.procs| && w.procs[g].phase.Loaded? && w.procs[h].phase.Idle?
    requires forall q :: Queued(w, q).head == |Queued(w, q).log|
    ensures Enabled(w, Send(g)) && Enabled(After(w, Send(g)), Take(h)) <==> Follows(w.procs[g].role, w.procs[h].role)
    ensures Follows(w.procs[g].role, w.procs[h].role) ==>
              After(After(w, Send(g)), Take(h)).procs[h].phase == w.procs[g].phase
  {
    var r, next := w.procs[g].role, w.procs[h].role;
    FollowsByQueue(r, next);
    assert Target(r).Some? ==> Enabled(w, Send(g));
    if Enabled(w, Send(g)) {
      assert After(w, Send(g)).procs[h] == w.procs[h];
      if Source(next).Some? {
        TakesSent(w, g, h, Source(next).value);
      }
    }
  }

  /** The roles whose packets a queue may hold. */
  function Feeds(q: Queue): set<Role> {
    match q
    case TunRaw => {TunReader}
    case TunIn => {TunReader, Heartbeat, EndpointReader}
    case ConnIn => {ConnReader}
    case TcpIn => {TcpHandler}
    case PeerIn => {ConnReader, TcpHandler}
    case TunOut => {ConnReader, TcpHandler, ClientReader, EndpointQueue, TunReader, Heartbeat, EndpointReader}
  }

  /** The roles whose packets a goroutine may work on: a router towards peers never sees what the device's own
      readers took, nor the router from the device what came from peers. */
  function Handles(r: Role): set<Role> {
    match r
    case HeaderParser => {TunReader}
    case TunWriter => Feeds(TunOut)
    case TcpParser => {TcpHandler}
    case ConnParser => {ConnReader}
    case PeerRouter => {ConnReader, TcpHandler}
    case TunRouter => {TunReader, Heartbeat, EndpointReader}
    case ClientSender => {TunReader, Heartbeat, EndpointReader}
    case _ => {r}
  }

  function Allowed(w: World, l: Loc): set<Role> {
    match l
    case Slot(q, _) => Feeds(q)
    case Main(g) => if g < |w.procs| then Handles(w.procs[g].role) else {}
    case _ => {}
  }

  /** Every waiting packet was read by a role that belongs on its way. */
  ghost predicate Flows(w: World) {
    && |w.origins| == |w.taken|
    && (forall l :: Pending(w, l).Some? ==>
          Pending(w, l).value.id < |w.origins| && w.origins[Pending(w, l).value.id] in Allowed(w, l))
  }

  lemma AllowedPassesOn(w: World, s: Step, l: Loc)
    requires Enabled(w, s) && Pending(After(w, s), l).Some? && !JustRead(w, s, l)
    ensures Allowed(w, Origin(w, s, l)) <= Allowed(After(w, s), l)
  {
    assert After(w, s).procs == ProcsAfter(w, s);
  }

  lemma StepKeepsFlow(w: World, s: Step, l: Loc)
    requires Enabled(w, s) && Flows(w) && Regular(w) && Pending(After(w, s), l).Some?
    ensures var w2, e := After(w, s), Pending(After(w, s), l).value;
            e.id < |w2.origins| && w2.origins[e.id] in Allowed(w2, l)
  {
    if JustRead(w, s, l) {
      assert After(w, s).procs[s.g].role == w.procs[s.g].role;
    } else {
      PendingComesFrom(w, s, l);
      AllowedPassesOn(w, s, l);
    }
  }

  /** Over every run: a packet waits in a queue, and is worked on by a goroutine, only if a role on the way there
      read it in. */
  lemma {:induction false} EveryRunFlows(steps: seq<Step>)
    requires Run(steps).Some?
    ensures Flows(Run(steps).value)
  {
    if steps != [] {
      var w, s := Run(steps[..|steps| - 1]).value, steps[|steps| - 1];
      EveryRunFlows(steps[..|steps| - 1]);
      EveryRunRegular(steps[..|steps| - 1]);
      forall l | Pending(After(w, s), l).Some?
        ensures Pending(After(w, s), l).value.id < |After(w, s).origins|
        ensures After(w, s).origins[Pending(After(w, s), l).value.id] in Allowed(After(w, s), l)
      {
        StepKeepsFlow(w, s, l);
      }
    }
  }
}
