/** The shared ConfigMap as a versioned store that any number of clients read and write
    (pkg/handler/dhcp.go, pkg/handler/envoy.go, pkg/handler/cleaner.go). Values are kept in decoded
    form: each codec is taken to be inverse to its decoder. */
module ConfigStore {
  import opened Lists
  import opened Allocator
  import opened MeshRules

  datatype ConfigMap = ConfigMap(
    dhcp: Option<Bits>, dhcp6: Option<Bits>,
    envoy: Option<seq<Virtual>>,
    refCount: Option<int>,
    other: map<string, string>)

  // ---- The functions clients apply ----

  /** An address as its distance from the first offset of its family; it may be any address. */
  datatype Ip = V4(distance: int) | V6(distance: int)

  datatype Op =
    | Rent(local4: set<nat>, local6: set<nat>)
    | Release(ips: seq<Ip>)
    | Edit(edit: MeshRules.Edit)
    | Put(key: string, value: string)

  datatype Pair = Pair(v4: nat, v6: nat)

  /** What a client computes from the content it read: new content, and for a rent the addresses
      it took; or an error, in which case it writes nothing. */
  datatype Computed = Write(cm: ConfigMap, lease: Option<Pair>) | NoWrite

  function Marks(o: Option<Bits>): Bits {
    if o.None? then {} else o.value
  }

  function RentIn(cm: ConfigMap, local4: set<nat>, local6: set<nat>): Computed {
    var v4, v6 := FirstRentable(Marks(cm.dhcp), local4, 0), FirstRentable(Marks(cm.dhcp6), local6, 0);
    if v4.None? || v6.None? then NoWrite else
      Write(cm.(dhcp := Some(Marks(cm.dhcp) + Below(v4.value + 1)),
                dhcp6 := Some(Marks(cm.dhcp6) + Below(v6.value + 1))),
            Some(Pair(v4.value, v6.value)))
  }

  /** Releasing clears the mark, if any, that the allocator computes from the address. */
  function ReleaseOne(cm: ConfigMap, ip: Ip): ConfigMap {
    match ip
    case V4(d) => cm.(dhcp := Some(Unmark(Marks(cm.dhcp), ClearsV4(d))))
    case V6(d) => cm.(dhcp6 := Some(Unmark(Marks(cm.dhcp6), ClearsV6(d))))
  }

  /** Both marks are written back, whichever of them changed. */
  function ReleaseIn(cm: ConfigMap, ips: seq<Ip>): ConfigMap {
    if ips == [] then cm.(dhcp := Some(Marks(cm.dhcp)), dhcp6 := Some(Marks(cm.dhcp6)))
    else ReleaseOne(ReleaseIn(cm, ips[..|ips| - 1]), ips[|ips| - 1])
  }

  function Stored(cm: ConfigMap): seq<Virtual> {
    if cm.envoy.None? then [] else cm.envoy.value
  }

  ghost function EditIn(cm: ConfigMap, e: MeshRules.Edit): Computed {
    match e
    case Join(node, tun, headers, ports) =>
      var r := AddRule(Stored(cm), node, tun, headers, ports);
      if r.Panics? then NoWrite else Write(cm.(envoy := Some(r.value)), None)
    case Leave(node, v4) =>
      if cm.envoy.None? then NoWrite else Write(cm.(envoy := Some(RemoveRule(cm.envoy.value, node, v4))), None)
  }

  ghost function Compute(op: Op, cm: ConfigMap): Computed {
    match op
    case Rent(local4, local6) => RentIn(cm, local4, local6)
    case Release(ips) => Write(ReleaseIn(cm, ips), None)
    case Edit(e) => EditIn(cm, e)
    case Put(key, value) => Write(cm.(other := cm.other[key := value]), None)
  }

  /** The reference count after an increment; an absent or unreadable count reads as zero. */
  function Counted(cm: ConfigMap, inc: int): int {
    AtLeastZero(CountOf(cm) + inc)
  }

  function CountOf(cm: ConfigMap): int {
    if cm.refCount.None? then 0 else cm.refCount.value
  }

  function AtLeastZero(n: int): int {
    if n < 0 then 0 else n
  }

  // ---- Clients and the server ----

  /** Where a client is: idle, between its Get and its Update, or between its Get and a patch that
      carries no version: of the count, or of the Envoy key that it found missing. */
  datatype Phase =
    | Idle
    | Updating(op: Op, version: nat, cm: ConfigMap, lease: Option<Pair>, ticket: Option<nat>)
    | Patching(inc: int, version: nat, count: int)
    | Initializing(version: nat)

  datatype Event = Updated(op: Op) | CountSet(count: int, inc: int) | CountReset | EnvoyInit | Wiped

  datatype Lease = Lease(owner: nat, v4: nat, v6: nat)

  /** `history[i]` is the content after i writes and `log[i]` the write that led on from it.
      `leases` holds the addresses clients were told they have, by ticket, since the last wipe. */
  datatype World = World(
    version: nat, cm: ConfigMap,
    phases: map<nat, Phase>,
    leases: map<nat, Lease>,
    history: seq<ConfigMap>, log: seq<Event>)

  function PhaseOf(w: World, c: nat): Phase {
    if c in w.phases then w.phases[c] else Idle
  }

  datatype Step =
    | Get(c: nat, op: Op)
    | GetRelease(c: nat, ticket: nat)
    | Commit(c: nat, seen: bool, ticket: nat)
    | Abort(c: nat)
    | GetCount(c: nat, inc: int)
    | PatchCount(c: nat)
    | ResetCount
    | GetInit(c: nat)
    | PatchInit(c: nat)
    | Wipe

  /** Every write bumps the version. */
  function Written(w: World, cm: ConfigMap, e: Event): World {
    w.(version := w.version + 1, cm := cm, history := w.history + [cm], log := w.log + [e])
  }

  ghost predicate Enabled(w: World, s: Step) {
    match s
    case Get(c, op) => PhaseOf(w, c).Idle? && Compute(op, w.cm).Write?
    case GetRelease(c, t) => PhaseOf(w, c).Idle? && t in w.leases && w.leases[t].owner == c
    case Commit(c, _, t) => PhaseOf(w, c).Updating? && PhaseOf(w, c).version == w.version && t !in w.leases
    case Abort(c) => !PhaseOf(w, c).Idle?
    case GetCount(c, _) => PhaseOf(w, c).Idle?
    case PatchCount(c) => PhaseOf(w, c).Patching?
    case ResetCount => true
    case GetInit(c) => PhaseOf(w, c).Idle? && w.cm.envoy.None?
    case PatchInit(c) => PhaseOf(w, c).Initializing?
    case Wipe => w.cm.dhcp.Some? && w.cm.dhcp6.Some?
  }

  /** `Commit` is an Update whose version is still current; `seen` says whether the client got the
      good news or an error. `Abort` is every other end of a transaction, a conflict included. The wipe's
      JSON patch removes both DHCP keys, and is refused when one is missing. */
  ghost function After(w: World, s: Step): World
    requires Enabled(w, s)
  {
    match s
    case Get(c, op) =>
      var r := Compute(op, w.cm);
      w.(phases := w.phases[c := Updating(op, w.version, r.cm, r.lease, None)])
    case GetRelease(c, t) =>
      var op := ReleaseOf(w.leases[t]);
      w.(phases := w.phases[c := Updating(op, w.version, ReleaseIn(w.cm, op.ips), None, Some(t))])
    case Commit(c, seen, t) =>
      var p := PhaseOf(w, c);
      var leases :=
        if p.ticket.Some? then w.leases - {p.ticket.value}
        else if p.lease.Some? && seen then w.leases[t := Lease(c, p.lease.value.v4, p.lease.value.v6)]
        else w.leases;
      Written(w, p.cm, Updated(p.op)).(phases := w.phases[c := Idle], leases := leases)
    case Abort(c) => w.(phases := w.phases[c := Idle])
    case GetCount(c, inc) => w.(phases := w.phases[c := Patching(inc, w.version, Counted(w.cm, inc))])
    case PatchCount(c) =>
      var p := PhaseOf(w, c);
      Written(w, w.cm.(refCount := Some(p.count)), CountSet(p.count, p.inc)).(phases := w.phases[c := Idle])
    case ResetCount => Written(w, w.cm.(refCount := Some(0)), CountReset)
    case GetInit(c) => w.(phases := w.phases[c := Initializing(w.version)])
    case PatchInit(c) => Written(w, w.cm.(envoy := Some([])), EnvoyInit).(phases := w.phases[c := Idle])
    case Wipe =>
      Written(w, w.cm.(dhcp := None, dhcp6 := None), Wiped).(leases := map[])
  }

  function ReleaseOf(l: Lease): Op {
    Release([V4(l.v4), V6(l.v6)])
  }

  function Start(cm: ConfigMap): World {
    World(0, cm, map[], map[], [cm], [])
  }

  /** The world after a run, or None when some step was not enabled where it was taken. */
  ghost function Run(cm: ConfigMap, steps: seq<Step>): Option<World> {
    if steps == [] then Some(Start(cm)) else
      var before := Run(cm, steps[..|steps| - 1]);
      var s := steps[|steps| - 1];
      if before.None? || !Enabled(before.value, s) then None else Some(After(before.value, s))
  }

  // ---- Transactions are atomic ----

  ghost predicate Explains(e: Event, before: ConfigMap, after: ConfigMap) {
    match e
    case Updated(op) => var r := Compute(op, before); r.Write? && r.cm == after
    case CountSet(n, _) => after == before.(refCount := Some(n))
    case CountReset => after == before.(refCount := Some(0))
    case EnvoyInit => after == before.(envoy := Some([]))
    case Wiped => after == before.(dhcp := None, dhcp6 := None)
  }

  ghost predicate Serial(w: World) {
    && |w.history| == w.version + 1 && |w.log| == w.version
    && w.history[w.version] == w.cm
    && forall i | 0 <= i < w.version :: Explains(w.log[i], w.history[i], w.history[i + 1])
  }

  /** What a client has in hand is what its operation makes of the content it read. */
  ghost predicate Fresh(w: World, p: Phase) {
    p.Idle? ||
    (p.version <= w.version && p.version < |w.history| &&
     match p
     case Updating(op, version, cm, lease, ticket) =>
       Compute(op, w.history[version]) == Write(cm, lease) && (ticket.Some? ==> op.Release?)
     case Patching(inc, version, count) => count == Counted(w.history[version], inc)
     case Initializing(version) => w.history[version].envoy.None?)
  }

  ghost predicate ReadsAreOld(w: World) {
    forall c | c in w.phases :: Fresh(w, w.phases[c])
  }

  ghost predicate SerialInv(w: World) {
    Serial(w) && ReadsAreOld(w)
  }

  lemma WrittenKeepsSerial(w: World, cm: ConfigMap, e: Event)
    requires SerialInv(w) && Explains(e, w.cm, cm)
    ensures SerialInv(Written(w, cm, e))
  {
    var w' := Written(w, cm, e);
    forall i | 0 <= i < w'.version ensures Explains(w'.log[i], w'.history[i], w'.history[i + 1]) {
      if i < w.version {
        assert w'.log[i] == w.log[i];
      }
    }
    forall c | c in w'.phases ensures Fresh(w', w'.phases[c]) {
      assert Fresh(w, w.phases[c]);
    }
  }

  lemma StepKeepsSerial(w: World, s: Step)
    requires SerialInv(w) && Enabled(w, s)
    ensures SerialInv(After(w, s))
  {
    match s
    case Commit(c, _, _) =>
      var p := PhaseOf(w, c);
      assert Fresh(w, w.phases[c]);
      WrittenKeepsSerial(w, p.cm, Updated(p.op));
    case PatchCount(c) =>
      var p := PhaseOf(w, c);
      WrittenKeepsSerial(w, w.cm.(refCount := Some(p.count)), CountSet(p.count, p.inc));
    case ResetCount => WrittenKeepsSerial(w, w.cm.(refCount := Some(0)), CountReset);
    case PatchInit(c) => WrittenKeepsSerial(w, w.cm.(envoy := Some([])), EnvoyInit);
    case GetInit(c) =>
    case Wipe => WrittenKeepsSerial(w, w.cm.(dhcp := None, dhcp6 := None), Wiped);
    case Get(c, op) =>
    case GetRelease(c, t) =>
    case Abort(c) =>
    case GetCount(c, inc) =>
  }

  /** In every interleaving, the content is the result of the committed transactions one after
      another: each Update is its function applied to the content it replaced, however much
      happened since that client's Get. */
  lemma {:induction false} TransactionsAreAtomic(cm: ConfigMap, steps: seq<Step>)
    requires Run(cm, steps).Some?
    ensures SerialInv(Run(cm, steps).value)
  {
    if steps != [] {
      TransactionsAreAtomic(cm, steps[..|steps| - 1]);
      StepKeepsSerial(Run(cm, steps[..|steps| - 1]).value, steps[|steps| - 1]);
    }
  }

  // ---- No write is lost ----

  datatype Key = Dhcp | Dhcp6 | Envoy | RefCount | Other(name: string)

  ghost predicate SameAt(a: ConfigMap, b: ConfigMap, k: Key) {
    match k
    case Dhcp => a.dhcp == b.dhcp
    case Dhcp6 => a.dhcp6 == b.dhcp6
    case Envoy => a.envoy == b.envoy
    case RefCount => a.refCount == b.refCount
    case Other(n) => (n in a.other <==> n in b.other) && (n in a.other ==> a.other[n] == b.other[n])
  }

  predicate Touches(e: Event, k: Key) {
    match e
    case Updated(Rent(_, _)) => k.Dhcp? || k.Dhcp6?
    case Updated(Release(_)) => k.Dhcp? || k.Dhcp6?
    case Updated(Edit(_)) => k.Envoy?
    case Updated(Put(key, _)) => k == Other(key)
    case CountSet(_, _) => k.RefCount?
    case CountReset => k.RefCount?
    case EnvoyInit => k.Envoy?
    case Wiped => k.Dhcp? || k.Dhcp6?
  }

  lemma {:induction false} ReleaseFrame(cm: ConfigMap, ips: seq<Ip>)
    ensures ReleaseIn(cm, ips) == cm.(dhcp := ReleaseIn(cm, ips).dhcp, dhcp6 := ReleaseIn(cm, ips).dhcp6)
    ensures ReleaseIn(cm, ips).dhcp.Some? && ReleaseIn(cm, ips).dhcp6.Some?
  {
    if ips != [] {
      ReleaseFrame(cm, ips[..|ips| - 1]);
    }
  }

  lemma EventFrame(e: Event, before: ConfigMap, after: ConfigMap, k: Key)
    requires Explains(e, before, after) && !Touches(e, k)
    ensures SameAt(before, after, k)
  {
    if e.Updated? && e.op.Release? {
      ReleaseFrame(before, e.op.ips);
    }
  }

  lemma {:induction false} UntouchedBetween(w: World, k: Key, i: nat, j: nat)
    requires Serial(w) && i <= j <= w.version
    requires forall n | i <= n < j :: !Touches(w.log[n], k)
    ensures SameAt(w.history[i], w.history[j], k)
    decreases j - i
  {
    if i < j {
      UntouchedBetween(w, k, i, j - 1);
      EventFrame(w.log[j - 1], w.history[j - 1], w.history[j], k);
    }
  }

  /** No write is lost: in every run, what write number i left under a key is still there when
      nothing that writes this key came after it. In particular no Update brings back an older
      reference count, and no count patch brings back older leases or rules. */
  lemma NoWriteIsLost(cm: ConfigMap, steps: seq<Step>, k: Key, i: nat)
    requires Run(cm, steps).Some?
    requires var w := Run(cm, steps).value;
             i < w.version && forall n | i < n < |w.log| :: !Touches(w.log[n], k)
    ensures var w := Run(cm, steps).value;
            i + 1 < |w.history| && SameAt(w.history[i + 1], w.cm, k)
  {
    TransactionsAreAtomic(cm, steps);
    var w := Run(cm, steps).value;
    UntouchedBetween(w, k, i + 1, w.version);
  }

  // ---- The rules in the store ----

  ghost predicate RulesWellFormed(cm: ConfigMap) {
    cm.envoy.Some? ==> WellFormed(cm.envoy.value)
  }

  lemma EventKeepsRules(e: Event, before: ConfigMap, after: ConfigMap)
    requires Explains(e, before, after) && RulesWellFormed(before)
    ensures RulesWellFormed(after)
  {
    if e.EnvoyInit? {
      assert after.envoy == Some([]);
    } else if e.Updated? && e.op.Edit? {
      var v := Stored(before);
      match e.op.edit
      case Join(node, tun, headers, ports) => AddKeepsWellFormed(v, node, tun, headers, ports);
      case Leave(node, v4) => RemoveKeepsWellFormed(v, node, v4);
    } else {
      EventFrame(e, before, after, Envoy);
    }
  }

  lemma {:induction false} RulesBetween(w: World, j: nat)
    requires Serial(w) && j <= w.version && RulesWellFormed(w.history[0])
    ensures RulesWellFormed(w.history[j])
  {
    if j > 0 {
      RulesBetween(w, j - 1);
      EventKeepsRules(w.log[j - 1], w.history[j - 1], w.history[j]);
    }
  }

  /** In every interleaving of all clients the stored rule list keeps its node ids distinct, its
      clients distinct within a node, and no node without a rule, from any such list on. */
  lemma StoredRulesStayWellFormed(cm: ConfigMap, steps: seq<Step>)
    requires Run(cm, steps).Some? && RulesWellFormed(cm)
    ensures RulesWellFormed(Run(cm, steps).value.cm)
  {
    TransactionsAreAtomic(cm, steps);
    StartOfHistory(cm, steps);
    RulesBetween(Run(cm, steps).value, Run(cm, steps).value.version);
  }

  lemma HistoryGrows(w: World, s: Step)
    requires Enabled(w, s)
    ensures w.history <= After(w, s).history
  {
  }

  lemma {:induction false} StartOfHistory(cm: ConfigMap, steps: seq<Step>)
    requires Run(cm, steps).Some?
    ensures [cm] <= Run(cm, steps).value.history
  {
    if steps != [] {
      StartOfHistory(cm, steps[..|steps| - 1]);
      HistoryGrows(Run(cm, steps[..|steps| - 1]).value, steps[|steps| - 1]);
    }
  }

  ghost predicate LosesRules(before: ConfigMap, after: ConfigMap) {
    exists node :: RulesOf(Stored(before), node) != [] && RulesOf(Stored(after), node) == []
  }

  /** initDHCP patches the Envoy key, without a version, when its Get had not found it. The patch takes
      rules away exactly when there are any by then, and there are only if some client wrote the key
      since that Get. */
  lemma InitLosesRulesIff(cm: ConfigMap, steps: seq<Step>, c: nat)
    requires Run(cm, steps).Some? && RulesWellFormed(cm) && Enabled(Run(cm, steps).value, PatchInit(c))
    ensures var w := Run(cm, steps).value;
            && (LosesRules(w.cm, After(w, PatchInit(c)).cm) <==> Stored(w.cm) != [])
            && (Stored(w.cm) != [] ==> exists n | PhaseOf(w, c).version <= n < |w.log| :: Touches(w.log[n], Envoy))
  {
    var w := Run(cm, steps).value;
    var p := PhaseOf(w, c);
    TransactionsAreAtomic(cm, steps);
    StoredRulesStayWellFormed(cm, steps);
    assert Fresh(w, w.phases[c]);
    if Stored(w.cm) != [] {
      var x := Stored(w.cm)[0];
      assert x in Stored(w.cm) && RulesOf(Stored(w.cm), x.uid) == x.rules;
    }
    if forall n | p.version <= n < |w.log| :: !Touches(w.log[n], Envoy) {
      UntouchedBetween(w, Envoy, p.version, w.version);
    }
  }

  /** A rule committed between the Get and the patch of an initDHCP is gone. */
  lemma InitWipesRule(cm: ConfigMap, node: string, tun: Tun) returns (steps: seq<Step>, w: World, w2: World)
    requires cm.envoy.None?
    ensures Run(cm, steps) == Some(w) && RulesOf(Stored(w.cm), node) == [Rule(None, tun)]
    ensures Run(cm, steps + [PatchInit(0)]) == Some(w2) && Stored(w2.cm) == []
  {
    var join := Edit(Join(node, tun, None, None));
    var w0 := Start(cm);
    var w1 := After(w0, GetInit(0));
    var none: seq<Virtual> := [];
    assert none + [Virtual(node, None, [Rule(None, tun)])] == [Virtual(node, None, [Rule(None, tun)])];
    Extend(cm, [], w0, GetInit(0));
    steps, w := Transact(cm, [] + [GetInit(0)], w1, Get(1, join), Commit(1, true, 0));
    w2 := After(w, PatchInit(0));
    Extend(cm, steps, w, PatchInit(0));
  }

  // ---- Leases ----

  ghost predicate Marked(cm: ConfigMap, l: Lease) {
    l.v4 in Marks(cm.dhcp) && l.v6 in Marks(cm.dhcp6)
  }

  ghost predicate AllMarked(w: World) {
    forall t | t in w.leases :: Marked(w.cm, w.leases[t])
  }

  ghost predicate Apart(w: World) {
    forall t, u | t in w.leases && u in w.leases && t != u ::
      w.leases[t].v4 != w.leases[u].v4 && w.leases[t].v6 != w.leases[u].v6
  }

  /** A holder's release that can still commit names its own lease. */
  ghost predicate ReleasesOwn(w: World, p: Phase) {
    p.Updating? && p.version == w.version && p.ticket.Some? ==>
      p.ticket.value in w.leases && p.op == ReleaseOf(w.leases[p.ticket.value])
  }

  ghost predicate LeaseInv(w: World) {
    && SerialInv(w) && AllMarked(w) && Apart(w)
    && forall c | c in w.phases :: ReleasesOwn(w, w.phases[c])
  }

  /** A rent takes in each family the least offset left for this client, and writes nothing else. */
  lemma RentTakesFree(cm: ConfigMap, local4: set<nat>, local6: set<nat>)
    requires RentIn(cm, local4, local6).Write?
    ensures var r := RentIn(cm, local4, local6);
            && r.lease.Some? && r.cm == cm.(dhcp := r.cm.dhcp, dhcp6 := r.cm.dhcp6)
            && TakesLeast(Marks(cm.dhcp), Marks(r.cm.dhcp), local4, r.lease.value.v4)
            && TakesLeast(Marks(cm.dhcp6), Marks(r.cm.dhcp6), local6, r.lease.value.v6)
  {
    RentTakesLeast(Marks(cm.dhcp), local4);
    RentTakesLeast(Marks(cm.dhcp6), local6);
  }

  lemma ReleasePair(cm: ConfigMap, v4: nat, v6: nat)
    ensures var after := ReleaseIn(cm, [V4(v4), V6(v6)]);
            && Marks(after.dhcp) == (if v4 < INSIDE_V4 then Marks(cm.dhcp) - {v4} else Marks(cm.dhcp))
            && Marks(after.dhcp6) == (if v6 < INSIDE_V6 then Marks(cm.dhcp6) - {v6} else Marks(cm.dhcp6))
  {
    var ips := [V4(v4), V6(v6)];
    assert ips[..1] == [V4(v4)] && ips[..1][..0] == [];
    assert ReleaseIn(cm, [V4(v4)]) == ReleaseOne(ReleaseIn(cm, []), V4(v4));
    OwnOffset(v4, v6);
  }

  /** What an address at a non-negative distance clears. */
  lemma OwnOffset(v4: nat, v6: nat)
    ensures ClearsV4(v4) == if v4 < INSIDE_V4 then Some(v4) else None
    ensures ClearsV6(v6) == if v6 < INSIDE_V6 then Some(v6) else None
  {
    ClearsV4Iff(v4, v4);
    if v6 < SIZE {
      ClearsV6Iff(v6, v6);
    }
  }

  /** Some address in the list makes the allocator clear a mark of this lease: its own, or for an IPv6
      offset past the end of the network the alias at the network's start. */
  ghost predicate Hits(ips: seq<Ip>, l: Lease) {
    (V4(l.v4) in ips && l.v4 < INSIDE_V4) || V6(Alias(l.v6)) in ips
  }

  lemma {:induction false} ReleaseMarks(cm: ConfigMap, ips: seq<Ip>, o: nat)
    requires o < SIZE
    ensures o in Marks(ReleaseIn(cm, ips).dhcp) <==> o in Marks(cm.dhcp) && !(V4(o) in ips && o < INSIDE_V4)
    ensures o in Marks(ReleaseIn(cm, ips).dhcp6) <==> o in Marks(cm.dhcp6) && V6(Alias(o)) !in ips
  {
    if ips != [] {
      var last := ips[|ips| - 1];
      ReleaseMarks(cm, ips[..|ips| - 1], o);
      assert ips == ips[..|ips| - 1] + [last];
      ClearsV4Iff(last.distance, o);
      ClearsV6Iff(last.distance, o);
    }
  }

  /** dhcp.go does not ask who holds an address. A release by anyone leaves all held addresses
      marked exactly when it names none of them, nor the alias of one, that the allocator clears. */
  lemma StrayReleaseIsSafeIff(w: World, c: nat, seen: bool, t: nat)
    requires SerialInv(w) && AllMarked(w) && Enabled(w, Commit(c, seen, t))
    requires PhaseOf(w, c).op.Release? && PhaseOf(w, c).ticket.None?
    ensures AllMarked(After(w, Commit(c, seen, t)))
       <==> forall u | u in w.leases :: !Hits(PhaseOf(w, c).op.ips, w.leases[u])
  {
    var p, w' := PhaseOf(w, c), After(w, Commit(c, seen, t));
    assert Fresh(w, w.phases[c]);
    assert w'.leases == w.leases && w'.cm == ReleaseIn(w.cm, p.op.ips);
    forall u | u in w.leases
      ensures Marked(w'.cm, w.leases[u]) <==> !Hits(p.op.ips, w.leases[u])
    {
      assert Marked(w.cm, w.leases[u]);
      ReleaseMarks(w.cm, p.op.ips, w.leases[u].v4);
      ReleaseMarks(w.cm, p.op.ips, w.leases[u].v6);
    }
  }

  /** A release that commits without being the holder's own. */
  ghost predicate Stray(w: World, s: Step)
    requires Enabled(w, s)
  {
    s.Commit? && PhaseOf(w, s.c).op.Release? && PhaseOf(w, s.c).ticket.None?
  }

  /** The step is no stray release of an address somebody holds. */
  ghost predicate Harmless(w: World, s: Step)
    requires Enabled(w, s)
  {
    Stray(w, s) ==> forall u | u in w.leases :: !Hits(PhaseOf(w, s.c).op.ips, w.leases[u])
  }

  lemma RentKeepsApart(w: World, c: nat, seen: bool, t: nat)
    requires LeaseInv(w) && Enabled(w, Commit(c, seen, t)) && PhaseOf(w, c).op.Rent?
    ensures AllMarked(After(w, Commit(c, seen, t))) && Apart(After(w, Commit(c, seen, t)))
  {
    var p := PhaseOf(w, c);
    assert Fresh(w, w.phases[c]) && ReleasesOwn(w, w.phases[c]);
    RentTakesFree(w.cm, p.op.local4, p.op.local6);
    assert RentIn(w.cm, p.op.local4, p.op.local6) == Write(p.cm, p.lease);
  }

  lemma ReleaseKeepsApart(w: World, c: nat, seen: bool, t: nat)
    requires LeaseInv(w) && Enabled(w, Commit(c, seen, t)) && PhaseOf(w, c).ticket.Some?
    ensures AllMarked(After(w, Commit(c, seen, t))) && Apart(After(w, Commit(c, seen, t)))
  {
    var p := PhaseOf(w, c);
    assert Fresh(w, w.phases[c]) && ReleasesOwn(w, w.phases[c]);
    var l := w.leases[p.ticket.value];
    ReleasePair(w.cm, l.v4, l.v6);
    assert ReleaseIn(w.cm, [V4(l.v4), V6(l.v6)]) == p.cm;
  }

  lemma CommitKeepsApart(w: World, c: nat, seen: bool, t: nat)
    requires LeaseInv(w) && Enabled(w, Commit(c, seen, t)) && !Stray(w, Commit(c, seen, t))
    ensures AllMarked(After(w, Commit(c, seen, t))) && Apart(After(w, Commit(c, seen, t)))
  {
    var p := PhaseOf(w, c);
    if p.ticket.Some? {
      ReleaseKeepsApart(w, c, seen, t);
    } else if p.op.Rent? {
      RentKeepsApart(w, c, seen, t);
    } else {
      assert Fresh(w, w.phases[c]);
      EventFrame(Updated(p.op), w.cm, p.cm, Dhcp);
      EventFrame(Updated(p.op), w.cm, p.cm, Dhcp6);
    }
  }

  lemma CommitKeepsLeases(w: World, c: nat, seen: bool, t: nat)
    requires LeaseInv(w) && Enabled(w, Commit(c, seen, t)) && !Stray(w, Commit(c, seen, t))
    ensures LeaseInv(After(w, Commit(c, seen, t)))
  {
    var w2 := After(w, Commit(c, seen, t));
    StepKeepsSerial(w, Commit(c, seen, t));
    CommitKeepsApart(w, c, seen, t);
    forall d | d in w2.phases ensures ReleasesOwn(w2, w2.phases[d]) {
      assert d != c ==> Fresh(w, w.phases[d]);
    }
  }

  /** Whatever a stray release does to the marks, the rest of the invariant survives it. */
  lemma StrayKeepsRest(w: World, s: Step)
    requires LeaseInv(w) && Enabled(w, s) && Stray(w, s)
    ensures SerialInv(After(w, s)) && Apart(After(w, s))
    ensures forall c | c in After(w, s).phases :: ReleasesOwn(After(w, s), After(w, s).phases[c])
  {
    StepKeepsSerial(w, s);
    assert Fresh(w, w.phases[s.c]);
    var w2 := After(w, s);
    assert w2.leases == w.leases;
    forall c | c in w2.phases
      ensures ReleasesOwn(w2, w2.phases[c])
    {
      assert c != s.c ==> Fresh(w, w.phases[c]);
    }
  }

  /** A step keeps held addresses apart and marked exactly when it is no stray release of one of them. */
  lemma StepKeepsLeasesIff(w: World, s: Step)
    requires LeaseInv(w) && Enabled(w, s)
    ensures LeaseInv(After(w, s)) <==> Harmless(w, s)
  {
    if Stray(w, s) {
      StrayKeepsRest(w, s);
      StrayReleaseIsSafeIff(w, s.c, s.seen, s.ticket);
    } else if s.Commit? {
      CommitKeepsLeases(w, s.c, s.seen, s.ticket);
    } else {
      OthersKeepLeases(w, s);
    }
  }

  lemma OthersKeepLeases(w: World, s: Step)
    requires LeaseInv(w) && Enabled(w, s) && !s.Commit?
    ensures LeaseInv(After(w, s))
  {
    StepKeepsSerial(w, s);
  }

  ghost predicate HarmlessRun(cm: ConfigMap, steps: seq<Step>)
    requires Run(cm, steps).Some?
  {
    steps == [] ||
    var init := steps[..|steps| - 1];
    HarmlessRun(cm, init) && Harmless(Run(cm, init).value, steps[|steps| - 1])
  }

  /** The invariant holds after every step of the run. */
  ghost predicate ExclusiveAllAlong(cm: ConfigMap, steps: seq<Step>)
    requires Run(cm, steps).Some?
  {
    LeaseInv(Run(cm, steps).value) && (steps == [] || ExclusiveAllAlong(cm, steps[..|steps| - 1]))
  }

  /** In every interleaving of renters, releasers and everyone else who writes the ConfigMap, with
      Updates that commit although their client sees an error: the addresses held at the same time
      are all along pairwise different in IPv4 and in IPv6 and marked in the store, if and only if no
      release that commits, unless it is the holder's own, names an address somebody holds. */
  lemma {:induction false} LeasesExclusiveIff(cm: ConfigMap, steps: seq<Step>)
    requires Run(cm, steps).Some?
    ensures ExclusiveAllAlong(cm, steps) <==> HarmlessRun(cm, steps)
  {
    if steps != [] {
      var init := steps[..|steps| - 1];
      LeasesExclusiveIff(cm, init);
      if ExclusiveAllAlong(cm, init) {
        StepKeepsLeasesIff(Run(cm, init).value, steps[|steps| - 1]);
      }
    }
  }

  /** Clients release only what they hold: no other release is begun. */
  predicate Disciplined(s: Step) {
    s.Get? ==> !s.op.Release?
  }

  ghost predicate NoStray(w: World) {
    forall c | c in w.phases && w.phases[c].Updating? && w.phases[c].op.Release? :: w.phases[c].ticket.Some?
  }

  /** In particular, if clients release only what they hold, however often they try, then in every
      interleaving the addresses held are pairwise different and marked. */
  lemma {:induction false} LeasesAreExclusive(cm: ConfigMap, steps: seq<Step>)
    requires Run(cm, steps).Some? && forall s | s in steps :: Disciplined(s)
    ensures LeaseInv(Run(cm, steps).value) && NoStray(Run(cm, steps).value)
  {
    if steps != [] {
      var init := steps[..|steps| - 1];
      assert steps[|steps| - 1] in steps && forall s | s in init :: s in steps;
      LeasesAreExclusive(cm, init);
      StepKeepsLeasesIff(Run(cm, init).value, steps[|steps| - 1]);
      StepKeepsNoStray(Run(cm, init).value, steps[|steps| - 1]);
    }
  }

  lemma StepKeepsNoStray(w: World, s: Step)
    requires NoStray(w) && Enabled(w, s) && Disciplined(s)
    ensures NoStray(After(w, s)) && !Stray(w, s)
  {
  }

  // ---- What a committed transaction leaves in the store ----

  /** What a commit writes is what its operation makes of the content it replaces. */
  lemma CommitComputes(cm: ConfigMap, steps: seq<Step>, c: nat, seen: bool, t: nat)
    requires Run(cm, steps).Some? && Enabled(Run(cm, steps).value, Commit(c, seen, t))
    ensures var w := Run(cm, steps).value;
            Compute(PhaseOf(w, c).op, w.cm) == Write(After(w, Commit(c, seen, t)).cm, PhaseOf(w, c).lease)
  {
    TransactionsAreAtomic(cm, steps);
    var w := Run(cm, steps).value;
    assert Fresh(w, w.phases[c]);
  }

  /** In every run, a join that commits gives the client its rule in the list as it is at that moment, whoever
      wrote it since the client's Get, and changes nothing else. */
  lemma JoinCommitted(cm: ConfigMap, steps: seq<Step>, c: nat, seen: bool, t: nat)
    requires Run(cm, steps).Some? && Enabled(Run(cm, steps).value, Commit(c, seen, t))
    requires var op := PhaseOf(Run(cm, steps).value, c).op; op.Edit? && op.edit.Join?
    ensures var w := Run(cm, steps).value;
            var w2, j := After(w, Commit(c, seen, t)), PhaseOf(w, c).op.edit;
            && w2.cm.envoy.Some? && w2.cm == w.cm.(envoy := w2.cm.envoy)
            && ListJoined(Stored(w.cm), w2.cm.envoy.value, j.node, j.tun, j.headers, j.ports)
  {
    CommitComputes(cm, steps, c, seen, t);
    var w := Run(cm, steps).value;
    var j := PhaseOf(w, c).op.edit;
    JoinChangesEntries(Stored(w.cm), j.node, j.tun, j.headers, j.ports);
  }

  /** In every run, a leave that commits takes the client's rules, and only those, out of the list as it is at
      that moment, and changes nothing else. */
  lemma LeaveCommitted(cm: ConfigMap, steps: seq<Step>, c: nat, seen: bool, t: nat)
    requires Run(cm, steps).Some? && RulesWellFormed(cm) && Enabled(Run(cm, steps).value, Commit(c, seen, t))
    requires var op := PhaseOf(Run(cm, steps).value, c).op; op.Edit? && op.edit.Leave?
    ensures var w := Run(cm, steps).value;
            var w2, l := After(w, Commit(c, seen, t)), PhaseOf(w, c).op.edit;
            && w.cm.envoy.Some? && w2.cm.envoy.Some? && w2.cm == w.cm.(envoy := w2.cm.envoy)
            && ListLeft(w.cm.envoy.value, w2.cm.envoy.value, l.leaver, l.v4)
  {
    CommitComputes(cm, steps, c, seen, t);
    StoredRulesStayWellFormed(cm, steps);
    var w := Run(cm, steps).value;
    LeaveChangesEntries(Stored(w.cm), PhaseOf(w, c).op.edit.leaver, PhaseOf(w, c).op.edit.v4);
  }

  /** In every run, a Put that commits sets its key, and changes nothing else. */
  lemma PutCommitted(cm: ConfigMap, steps: seq<Step>, c: nat, seen: bool, t: nat)
    requires Run(cm, steps).Some? && Enabled(Run(cm, steps).value, Commit(c, seen, t))
    requires PhaseOf(Run(cm, steps).value, c).op.Put?
    ensures var w := Run(cm, steps).value;
            var w2, op := After(w, Commit(c, seen, t)), PhaseOf(w, c).op;
            && w2.cm == w.cm.(other := w2.cm.other)
            && op.key in w2.cm.other && w2.cm.other[op.key] == op.value
            && w2.cm.other - {op.key} == w.cm.other - {op.key}
  {
    CommitComputes(cm, steps, c, seen, t);
  }

  /** In every run, a rent that commits takes in each family the least offset that is neither marked at that
      moment nor the renter's own, and a renter that sees the commit holds the two. */
  lemma RentCommitted(cm: ConfigMap, steps: seq<Step>, c: nat, seen: bool, t: nat)
    requires Run(cm, steps).Some? && Enabled(Run(cm, steps).value, Commit(c, seen, t))
    requires PhaseOf(Run(cm, steps).value, c).op.Rent?
    ensures var w := Run(cm, steps).value;
            var w2, p := After(w, Commit(c, seen, t)), PhaseOf(w, c);
            && w2.cm.dhcp.Some? && w2.cm.dhcp6.Some?
            && p.lease.Some? && w2.cm == w.cm.(dhcp := w2.cm.dhcp, dhcp6 := w2.cm.dhcp6)
            && TakesLeast(Marks(w.cm.dhcp), Marks(w2.cm.dhcp), p.op.local4, p.lease.value.v4)
            && TakesLeast(Marks(w.cm.dhcp6), Marks(w2.cm.dhcp6), p.op.local6, p.lease.value.v6)
            && var lease := Lease(c, p.lease.value.v4, p.lease.value.v6);
               w2.leases == if seen then w.leases[t := lease] else w.leases
  {
    CommitComputes(cm, steps, c, seen, t);
    TransactionsAreAtomic(cm, steps);
    var w := Run(cm, steps).value;
    assert Fresh(w, w.phases[c]);
    RentTakesFree(w.cm, PhaseOf(w, c).op.local4, PhaseOf(w, c).op.local6);
  }

  /** In every run, a release that commits clears the marks of exactly the addresses it names, as far as the
      allocator takes them for offsets, and changes nothing else. */
  lemma ReleaseCommitted(cm: ConfigMap, steps: seq<Step>, c: nat, seen: bool, t: nat, o: nat)
    requires Run(cm, steps).Some? && Enabled(Run(cm, steps).value, Commit(c, seen, t)) && o < SIZE
    requires PhaseOf(Run(cm, steps).value, c).op.Release?
    ensures var w := Run(cm, steps).value;
            var w2, ips := After(w, Commit(c, seen, t)), PhaseOf(w, c).op.ips;
            && w2.cm.dhcp.Some? && w2.cm.dhcp6.Some?
            && w2.cm == w.cm.(dhcp := w2.cm.dhcp, dhcp6 := w2.cm.dhcp6)
            && (o in Marks(w2.cm.dhcp) <==> o in Marks(w.cm.dhcp) && !(V4(o) in ips && o < INSIDE_V4))
            && (o in Marks(w2.cm.dhcp6) <==> o in Marks(w.cm.dhcp6) && V6(Alias(o)) !in ips)
  {
    CommitComputes(cm, steps, c, seen, t);
    var w := Run(cm, steps).value;
    ReleaseFrame(w.cm, PhaseOf(w, c).op.ips);
    ReleaseMarks(w.cm, PhaseOf(w, c).op.ips, o);
  }

  /** A client gets as far as an Update exactly when its operation does not fail on the content it read: a rent
      needs an offset of each family, a leave the Envoy key, and a join must not write to a missing header map. */
  lemma BeginsIff(w: World, c: nat, op: Op)
    ensures Enabled(w, Get(c, op)) <==>
              PhaseOf(w, c).Idle? &&
              match op
              case Rent(local4, local6) =>
                && (exists i :: 0 <= i < SIZE && i !in Marks(w.cm.dhcp) && i !in local4)
                && (exists i :: 0 <= i < SIZE && i !in Marks(w.cm.dhcp6) && i !in local6)
              case Edit(Join(node, tun, headers, _)) =>
                Entries(headers) == map[] || Rule(None, tun) !in RulesOf(Stored(w.cm), node)
              case Edit(Leave(_, _)) => w.cm.envoy.Some?
              case _ => true
  {
    match op
    case Rent(local4, local6) =>
      NoneRentable(Marks(w.cm.dhcp), local4, 0);
      NoneRentable(Marks(w.cm.dhcp6), local6, 0);
    case Edit(Join(node, tun, headers, ports)) => AddRulePanics(Stored(w.cm), node, tun, headers, ports);
    case _ =>
  }

  /** A client that met a conflict can begin again, and if nobody writes in between its Update commits. */
  lemma TriesAgain(w: World, c: nat, op: Op, seen: bool, t: nat)
    requires !PhaseOf(w, c).Idle? && Compute(op, w.cm).Write? && t !in w.leases
    ensures Enabled(w, Abort(c))
    ensures var w1 := After(w, Abort(c));
            w1.cm == w.cm && w1.leases == w.leases && Enabled(w1, Get(c, op)) &&
            Enabled(After(w1, Get(c, op)), Commit(c, seen, t))
  {
  }

  /** A wipe takes away every mark and every lease, and nothing else. */
  lemma WipeFreesAll(w: World, k: Key)
    requires Enabled(w, Wipe)
    ensures var w1 := After(w, Wipe);
            && w1.cm.dhcp.None? && w1.cm.dhcp6.None? && w1.leases == map[]
            && (!k.Dhcp? && !k.Dhcp6? ==> SameAt(w.cm, w1.cm, k))
  {
  }

  // ---- Releasing what one does not hold ----

  lemma Extend(cm: ConfigMap, steps: seq<Step>, w: World, s: Step)
    requires Run(cm, steps) == Some(w) && Enabled(w, s)
    ensures Run(cm, steps + [s]) == Some(After(w, s))
  {
    assert (steps + [s])[..|steps|] == steps;
  }

  const EMPTY := ConfigMap(None, None, Some([]), Some(0), map[])

  ghost predicate FirstIsFree(w: World) {
    0 !in Marks(w.cm.dhcp) && 0 !in Marks(w.cm.dhcp6)
  }

  ghost predicate AllIdle(w: World) {
    forall c | c in w.phases :: w.phases[c].Idle?
  }

  lemma Transact(cm: ConfigMap, steps: seq<Step>, w: World, get: Step, commit: Step)
    returns (steps': seq<Step>, w': World)
    requires Run(cm, steps) == Some(w)
    requires Enabled(w, get) && Enabled(After(w, get), commit)
    ensures Run(cm, steps') == Some(w') && w' == After(After(w, get), commit)
  {
    Extend(cm, steps, w, get);
    Extend(cm, steps + [get], After(w, get), commit);
    steps', w' := steps + [get] + [commit], After(After(w, get), commit);
  }

  lemma RentFirst(cm: ConfigMap, steps: seq<Step>, w: World, c: nat, t: nat) returns (steps': seq<Step>, w': World)
    requires Run(cm, steps) == Some(w) && AllIdle(w) && FirstIsFree(w) && t !in w.leases
    ensures Run(cm, steps') == Some(w') && AllIdle(w')
    ensures w'.leases == w.leases[t := Lease(c, 0, 0)]
  {
    steps', w' := Transact(cm, steps, w, Get(c, Rent({}, {})), Commit(c, true, t));
  }

  lemma ReleaseHeld(cm: ConfigMap, steps: seq<Step>, w: World, c: nat, t: nat, spare: nat)
    returns (steps': seq<Step>, w': World)
    requires spare !in w.leases
    requires Run(cm, steps) == Some(w) && AllIdle(w) && t in w.leases && w.leases[t] == Lease(c, 0, 0)
    ensures Run(cm, steps') == Some(w') && AllIdle(w') && FirstIsFree(w') && w'.leases == w.leases - {t}
  {
    ReleasePair(w.cm, 0, 0);
    steps', w' := Transact(cm, steps, w, GetRelease(c, t), Commit(c, true, spare));
  }

  lemma ReleaseAgain(cm: ConfigMap, steps: seq<Step>, w: World, c: nat, spare: nat)
    returns (steps': seq<Step>, w': World)
    requires spare !in w.leases
    requires Run(cm, steps) == Some(w) && AllIdle(w)
    ensures Run(cm, steps') == Some(w') && AllIdle(w') && FirstIsFree(w') && w'.leases == w.leases
  {
    ReleasePair(w.cm, 0, 0);
    steps', w' := Transact(cm, steps, w, Get(c, Release([V4(0), V6(0)])), Commit(c, true, spare));
  }

  /** Both daemons of one connection clean up, and each releases the same pair. If somebody else
      rents in between, the second release takes that client's address away, and the next renter
      gets it as well: two clients then hold the same addresses. */
  lemma DoubleReleaseSharesAddress() returns (steps: seq<Step>, w: World)
    ensures Run(EMPTY, steps) == Some(w)
    ensures w.leases == map[20 := Lease(1, 0, 0), 40 := Lease(2, 0, 0)]
    ensures !Apart(w)
  {
    steps, w := RentFirst(EMPTY, [], Start(EMPTY), 0, 10);
    steps, w := ReleaseHeld(EMPTY, steps, w, 0, 10, 11);
    steps, w := RentFirst(EMPTY, steps, w, 1, 20);
    steps, w := ReleaseAgain(EMPTY, steps, w, 0, 30);
    steps, w := RentFirst(EMPTY, steps, w, 2, 40);
    assert w.leases[20].v4 == w.leases[40].v4;
  }

  // ---- Addresses that cannot come back ----

  /** The holder's own release frees its addresses exactly when they lie inside the two networks. */
  lemma ReleaseFreesIff(cm: ConfigMap, l: Lease)
    requires Marked(cm, l)
    ensures var after := ReleaseIn(cm, ReleaseOf(l).ips);
            && (l.v4 !in Marks(after.dhcp) <==> l.v4 < INSIDE_V4)
            && (l.v6 !in Marks(after.dhcp6) <==> l.v6 < INSIDE_V6)
  {
    ReleasePair(cm, l.v4, l.v6);
  }

  /** A write other than a wipe takes a mark away exactly when it is a release that names the address
      whose distance the allocator maps to this offset. */
  lemma MarkClearedIff(e: Event, before: ConfigMap, after: ConfigMap, o: nat)
    requires Explains(e, before, after) && !e.Wiped? && o < SIZE
    ensures o in Marks(before.dhcp) ==> (o !in Marks(after.dhcp) <==> Names(e, V4(o)) && o < INSIDE_V4)
    ensures o in Marks(before.dhcp6) ==> (o !in Marks(after.dhcp6) <==> Names(e, V6(Alias(o))))
  {
    if e.Updated? && e.op.Release? {
      ReleaseMarks(before, e.op.ips, o);
    }
  }

  predicate Names(e: Event, ip: Ip) {
    e.Updated? && e.op.Release? && ip in e.op.ips
  }

  /** An IPv4 offset past the end of the network can be rented, but once marked no release ever clears
      it: in every run it stays marked until the marks are wiped. An IPv6 offset past the end stays
      marked until a wipe or a release of its alias, which is an address nobody was given. */
  lemma {:induction false} OutsideStaysMarked(w: World, o: nat, i: nat, j: nat)
    requires Serial(w) && i <= j <= w.version && o < SIZE
    requires forall n | i <= n < j :: !w.log[n].Wiped?
    ensures o in Marks(w.history[i].dhcp) && o >= INSIDE_V4 ==> o in Marks(w.history[j].dhcp)
    ensures o in Marks(w.history[i].dhcp6) && (forall n | i <= n < j :: !Names(w.log[n], V6(Alias(o)))) ==>
              o in Marks(w.history[j].dhcp6)
    decreases j - i
  {
    if i < j {
      OutsideStaysMarked(w, o, i, j - 1);
      MarkClearedIff(w.log[j - 1], w.history[j - 1], w.history[j], o);
    }
  }

  /** The alias of an offset past the end is never the address of a lease, and releasing it frees the offset. */
  lemma AliasFreesOutside(cm: ConfigMap, o: nat)
    requires INSIDE_V6 <= o < SIZE
    ensures Alias(o) < 0
    ensures o !in Marks(ReleaseIn(cm, [V6(Alias(o))]).dhcp6)
  {
    ReleaseMarks(cm, [V6(Alias(o))], o);
  }

  // ---- The reference count ----

  /** The count is patched without a version check, from a value read earlier. In every run the patch
      does what an atomic increment would exactly when the count is what it was at the Get, or when
      either way the result is cut off at zero. */
  lemma CountPatchIsAtomicIff(cm: ConfigMap, steps: seq<Step>, c: nat)
    requires Run(cm, steps).Some? && Enabled(Run(cm, steps).value, PatchCount(c))
    ensures var w := Run(cm, steps).value;
            var p := PhaseOf(w, c);
            p.version < |w.history| &&
            var read := CountOf(w.history[p.version]);
            After(w, PatchCount(c)).cm == w.cm.(refCount := Some(Counted(w.cm, p.inc)))
            <==> read == CountOf(w.cm) || (read + p.inc <= 0 && CountOf(w.cm) + p.inc <= 0)
  {
    TransactionsAreAtomic(cm, steps);
    var w := Run(cm, steps).value;
    assert Fresh(w, w.phases[c]);
  }

  /** In every run the patch writes the count read at the Get, none being zero, plus the increment, or zero
      where that is negative; it changes nothing else. */
  lemma CountPatched(cm: ConfigMap, steps: seq<Step>, c: nat)
    requires Run(cm, steps).Some? && Enabled(Run(cm, steps).value, PatchCount(c))
    ensures var w := Run(cm, steps).value;
            var w2, p := After(w, PatchCount(c)), PhaseOf(w, c);
            p.version < |w.history| &&
            var sum := (match w.history[p.version].refCount case None => 0 case Some(n) => n) + p.inc;
            w2.cm == w.cm.(refCount := Some(if sum < 0 then 0 else sum))
  {
    TransactionsAreAtomic(cm, steps);
    var w := Run(cm, steps).value;
    assert Fresh(w, w.phases[c]);
  }

  /** In particular it is atomic when nobody wrote the count since the Get. */
  lemma UndisturbedCountPatchIsAtomic(cm: ConfigMap, steps: seq<Step>, c: nat)
    requires Run(cm, steps).Some? && Enabled(Run(cm, steps).value, PatchCount(c))
    requires var w := Run(cm, steps).value;
             forall n | PhaseOf(w, c).version <= n < |w.log| :: !Touches(w.log[n], RefCount)
    ensures var w := Run(cm, steps).value;
            After(w, PatchCount(c)).cm == w.cm.(refCount := Some(Counted(w.cm, PhaseOf(w, c).inc)))
  {
    CountPatchIsAtomicIff(cm, steps, c);
    TransactionsAreAtomic(cm, steps);
    var w := Run(cm, steps).value;
    UntouchedBetween(w, RefCount, PhaseOf(w, c).version, w.version);
  }

  /** The count as it should be: every increment applied to what the ones before it left. */
  function Tally(start: int, log: seq<Event>): int {
    if log == [] then start
    else
      var before := Tally(start, log[..|log| - 1]);
      match log[|log| - 1]
      case CountSet(_, inc) => AtLeastZero(before + inc)
      case CountReset => 0
      case _ => before
  }

  /** Get and patch of the count do not overlap: nobody begins, or resets the count, in between. */
  ghost predicate OneAtATime(w: World, s: Step) {
    s.GetCount? || s.ResetCount? ==> forall c | c in w.phases :: !w.phases[c].Patching?
  }

  ghost predicate Separate(cm: ConfigMap, steps: seq<Step>) {
    steps == [] ||
    var init := steps[..|steps| - 1];
    Separate(cm, init) && (Run(cm, init).Some? ==> OneAtATime(Run(cm, init).value, steps[|steps| - 1]))
  }

  ghost predicate OnePatcher(w: World) {
    && (forall c, d | c in w.phases && d in w.phases && w.phases[c].Patching? && w.phases[d].Patching? :: c == d)
    && (forall c | c in w.phases && w.phases[c].Patching? :: w.phases[c].count == Counted(w.cm, w.phases[c].inc))
  }

  lemma TallySnoc(start: int, log: seq<Event>, e: Event)
    ensures var before := Tally(start, log);
            Tally(start, log + [e]) == match e
                                       case CountSet(_, inc) => AtLeastZero(before + inc)
                                       case CountReset => 0
                                       case _ => before
  {
    assert (log + [e])[..|log|] == log;
  }

  lemma StepKeepsOnePatcher(w: World, s: Step)
    requires SerialInv(w) && Enabled(w, s) && OneAtATime(w, s) && OnePatcher(w)
    ensures OnePatcher(After(w, s))
  {
    if s.Commit? {
      var p := PhaseOf(w, s.c);
      assert Fresh(w, w.phases[s.c]);
      EventFrame(Updated(p.op), w.cm, p.cm, RefCount);
    }
  }

  lemma EventKeepsTally(start: int, log: seq<Event>, e: Event, before: ConfigMap, after: ConfigMap)
    requires Explains(e, before, after) && CountOf(before) == Tally(start, log)
    requires e.CountSet? ==> e.count == Counted(before, e.inc)
    ensures CountOf(after) == Tally(start, log + [e])
  {
    TallySnoc(start, log, e);
    if !Touches(e, RefCount) {
      EventFrame(e, before, after, RefCount);
    }
  }

  lemma CountSetIsCounted(w: World, s: Step)
    requires Enabled(w, s) && OnePatcher(w) && |After(w, s).log| > |w.log|
    ensures var e := After(w, s).log[|w.log|];
            After(w, s).log == w.log + [e] && (e.CountSet? ==> e.count == Counted(w.cm, e.inc))
  {
  }

  lemma QuietStep(w: World, s: Step)
    requires Enabled(w, s) && |After(w, s).log| <= |w.log|
    ensures After(w, s).log == w.log && After(w, s).cm == w.cm
  {
  }

  lemma StepKeepsTally(start: int, w: World, s: Step)
    requires SerialInv(w) && Enabled(w, s) && OnePatcher(w) && CountOf(w.cm) == Tally(start, w.log)
    ensures CountOf(After(w, s).cm) == Tally(start, After(w, s).log)
  {
    if |After(w, s).log| > |w.log| {
      CountSetIsCounted(w, s);
      WrittenExplained(w, s);
      EventKeepsTally(start, w.log, After(w, s).log[|w.log|], w.cm, After(w, s).cm);
    } else {
      QuietStep(w, s);
    }
  }

  lemma WrittenExplained(w: World, s: Step)
    requires SerialInv(w) && Enabled(w, s) && |After(w, s).log| > |w.log|
    ensures Explains(After(w, s).log[|w.log|], w.cm, After(w, s).cm)
  {
    if s.Commit? {
      assert Fresh(w, w.phases[s.c]);
    }
  }

  /** In every run in which the windows between Get and patch of the count do not overlap, the stored
      count is the increments added up, each sum cut off at zero. */
  lemma {:induction false} SeparateCountsAddUp(cm: ConfigMap, steps: seq<Step>)
    requires Run(cm, steps).Some? && Separate(cm, steps)
    ensures var w := Run(cm, steps).value; OnePatcher(w) && CountOf(w.cm) == Tally(CountOf(cm), w.log)
  {
    if steps != [] {
      var init := steps[..|steps| - 1];
      SeparateCountsAddUp(cm, init);
      TransactionsAreAtomic(cm, init);
      StepKeepsOnePatcher(Run(cm, init).value, steps[|steps| - 1]);
      StepKeepsTally(CountOf(cm), Run(cm, init).value, steps[|steps| - 1]);
    }
  }

  /** Two clients that connect at the same time are counted once, whatever the count was. */
  lemma OverlappingIncrementsAreLost(cm: ConfigMap) returns (steps: seq<Step>, w: World)
    requires CountOf(cm) >= 0
    ensures Run(cm, steps) == Some(w)
    ensures w.cm == cm.(refCount := Some(CountOf(cm) + 1)) && Tally(CountOf(cm), w.log) == CountOf(cm) + 2
  {
    var w0 := Start(cm);
    var w1 := After(w0, GetCount(0, 1));
    var w2 := After(w1, GetCount(1, 1));
    var w3 := After(w2, PatchCount(0));
    w := After(w3, PatchCount(1));
    steps := [];
    Extend(cm, steps, w0, GetCount(0, 1));
    Extend(cm, steps + [GetCount(0, 1)], w1, GetCount(1, 1));
    Extend(cm, steps + [GetCount(0, 1)] + [GetCount(1, 1)], w2, PatchCount(0));
    Extend(cm, steps + [GetCount(0, 1)] + [GetCount(1, 1)] + [PatchCount(0)], w3, PatchCount(1));
    steps := steps + [GetCount(0, 1)] + [GetCount(1, 1)] + [PatchCount(0)] + [PatchCount(1)];
    var e := CountSet(CountOf(cm) + 1, 1);
    TallySnoc(CountOf(cm), [], e);
    TallySnoc(CountOf(cm), [e], e);
    assert w.log == [e] + [e];
  }
}
