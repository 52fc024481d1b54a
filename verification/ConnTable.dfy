/** The connection table of pkg/core/tcphandler.go: the source address of a packet leads back to the
    connection it came over. One handler per connection fills the shared sync.Map and clears its own
    entries on the way out. */
module ConnTable {
  import opened Lists

  type Key = string
  type Conn = nat
  type Table = map<Key, Conn>

  // ---- One handler alone ----

  function Without(t: Table, c: Conn): Table {
    map d | d in t && t[d] != c :: t[d]
  }

  class RouteConnNat {
    var table: Table

    constructor ()
      ensures table == map[]
    {
      table := map[];
    }

    /** What Handle does with a packet from src: LoadOrStore, then Store when another connection is there. */
    method Learn(src: Key, conn: Conn)
      modifies this
      ensures table == old(table)[src := conn]
    {
      if src !in table {
        table := table[src := conn];
      } else if table[src] != conn {
        table := table[src := conn];
      }
    }

    /** The deferred clean-up: collect the keys of the connection, then delete them. */
    method Teardown(conn: Conn)
      modifies this
      ensures table == Without(old(table), conn)
      ensures forall d :: d in table <==> d in old(table) && old(table)[d] != conn
      ensures forall d | d in table :: table[d] == old(table)[d]
    {
      var keys: set<Key> := {};
      var left := table.Keys;
      while left != {}
        invariant left <= table.Keys
        invariant keys == set d | d in table && d !in left && table[d] == conn
        invariant unchanged(this)
        decreases left
      {
        var key :| key in left;
        if table[key] == conn {
          keys := keys + {key};
        }
        left := left - {key};
      }
      ghost var all := keys;
      while keys != {}
        invariant keys <= all
        invariant table == old(table) - (all - keys)
        decreases keys
      {
        var key :| key in keys;
        assert table - {key} == old(table) - (all - (keys - {key}));
        table := table - {key};
        keys := keys - {key};
      }
    }
  }

  // ---- Any number of handlers ----

  datatype Phase =
    | Reading
    | Replacing(d: Key)                                        // LoadOrStore found another connection under d
    | Collecting(mine: set<Key>, keys: set<Key>, unseen: set<Key>) // Range; mine led here when it began
    | Deleting(keys: set<Key>)
    | Done

  /** sent holds which connection sent a packet with which source address. */
  datatype World = World(table: Table, handlers: map<Conn, Phase>, sent: set<(Conn, Key)>)

  datatype Step =
    | Accept(c: Conn)
    | Packet(c: Conn, d: Key)
    | Replace(c: Conn)
    | Close(c: Conn)
    | Visit(c: Conn, d: Key, matches: bool)
    | Collected(c: Conn)
    | Delete(c: Conn, d: Key)
    | Finish(c: Conn)

  /** Range shows each key once, with a mapping it had at some moment of the call: it must show the
      connection's own entry if that is still there, and may if it was there when Range began. */
  predicate Shows(w: World, c: Conn, d: Key, matches: bool)
    requires c in w.handlers && w.handlers[c].Collecting?
  {
    (d in w.table && w.table[d] == c ==> matches) && (matches ==> d in w.handlers[c].mine)
  }

  predicate Enabled(w: World, s: Step) {
    match s
    case Accept(c) => c !in w.handlers
    case Packet(c, _) => c in w.handlers && w.handlers[c].Reading?
    case Replace(c) => c in w.handlers && w.handlers[c].Replacing?
    case Close(c) => c in w.handlers && w.handlers[c].Reading?
    case Visit(c, d, matches) =>
      c in w.handlers && w.handlers[c].Collecting? && d in w.handlers[c].unseen && Shows(w, c, d, matches)
    case Collected(c) => c in w.handlers && w.handlers[c].Collecting? && w.handlers[c].unseen == {}
    case Delete(c, d) => c in w.handlers && w.handlers[c].Deleting? && d in w.handlers[c].keys
    case Finish(c) => c in w.handlers && w.handlers[c].Deleting? && w.handlers[c].keys == {}
  }

  function TableAfter(w: World, s: Step): Table
    requires Enabled(w, s)
  {
    match s
    case Packet(c, d) => if d in w.table then w.table else w.table[d := c]
    case Replace(c) => w.table[w.handlers[c].d := c]
    case Delete(_, d) => w.table - {d}
    case _ => w.table
  }

  function PhaseAfter(w: World, s: Step): Phase
    requires Enabled(w, s)
  {
    match s
    case Accept(_) => Reading
    case Packet(c, d) => if d in w.table && w.table[d] != c then Replacing(d) else Reading
    case Replace(_) => Reading
    case Close(c) => Collecting(set d | d in w.table && w.table[d] == c, {}, w.table.Keys)
    case Visit(c, d, matches) =>
      var h := w.handlers[c];
      h.(keys := if matches then h.keys + {d} else h.keys, unseen := h.unseen - {d})
    case Collected(c) => Deleting(w.handlers[c].keys)
    case Delete(c, d) => Deleting(w.handlers[c].keys - {d})
    case Finish(_) => Done
  }

  function After(w: World, s: Step): World
    requires Enabled(w, s)
  {
    World(TableAfter(w, s), w.handlers[s.c := PhaseAfter(w, s)], if s.Packet? then w.sent + {(s.c, s.d)} else w.sent)
  }

  const START := World(map[], map[], {})

  function Run(steps: seq<Step>): Option<World> {
    if steps == [] then Some(START)
    else
      var r := Run(steps[..|steps| - 1]);
      if r.Some? && Enabled(r.value, steps[|steps| - 1]) then Some(After(r.value, steps[|steps| - 1])) else None
  }

  /** A handler in this phase will still meet key d before it is done. */
  predicate WillMeet(p: Phase, d: Key) {
    match p
    case Reading => true
    case Replacing(_) => true
    case Collecting(mine, keys, unseen) => d in mine && (d in keys || d in unseen)
    case Deleting(keys) => d in keys
    case Done => false
  }

  /** Every entry leads to a connection that sent such a packet and whose handler will yet clear it. */
  ghost predicate Tended(w: World) {
    && (forall d | d in w.table ::
          (w.table[d], d) in w.sent && w.table[d] in w.handlers && WillMeet(w.handlers[w.table[d]], d))
    && (forall c | c in w.handlers && w.handlers[c].Replacing? :: (c, w.handlers[c].d) in w.sent)
  }

  lemma StepKeepsTended(w: World, s: Step)
    requires Enabled(w, s) && Tended(w)
    ensures Tended(After(w, s))
  {
  }

  /** Over every interleaving: an entry leads to a connection that sent a packet from that address and
      whose handler is not done, so no finished handler leaves its connection in the table. */
  lemma NoEntryOutlivesItsHandler(steps: seq<Step>, d: Key)
    requires Run(steps).Some? && d in Run(steps).value.table
    ensures var w := Run(steps).value; var c := w.table[d];
            (c, d) in w.sent && c in w.handlers && !w.handlers[c].Done?
  {
    EveryRunTended(steps);
  }

  lemma {:induction false} EveryRunTended(steps: seq<Step>)
    requires Run(steps).Some?
    ensures Tended(Run(steps).value)
  {
    if steps != [] {
      EveryRunTended(steps[..|steps| - 1]);
      StepKeepsTended(Run(steps[..|steps| - 1]).value, steps[|steps| - 1]);
    }
  }

  // ---- When an entry is lost ----

  /** The keys a leaving handler is about to delete. */
  function Marked(p: Phase): set<Key> {
    match p
    case Collecting(mine, keys, _) => mine + keys
    case Deleting(keys) => keys
    case _ => {}
  }

  /** A handler only ever marks addresses its own connection has used. */
  ghost predicate MarksOwn(w: World) {
    forall c, d | c in w.handlers && d in Marked(w.handlers[c]) :: (c, d) in w.sent
  }

  lemma StepKeepsMarks(w: World, s: Step)
    requires Enabled(w, s) && Tended(w) && MarksOwn(w)
    ensures MarksOwn(After(w, s))
  {
  }

  lemma {:induction false} EveryRunMarksOwn(steps: seq<Step>)
    requires Run(steps).Some?
    ensures MarksOwn(Run(steps).value)
  {
    if steps != [] {
      EveryRunMarksOwn(steps[..|steps| - 1]);
      EveryRunTended(steps[..|steps| - 1]);
      StepKeepsMarks(Run(steps[..|steps| - 1]).value, steps[|steps| - 1]);
    }
  }

  predicate Leads(w: World, d: Key, c: Conn) {
    d in w.table && w.table[d] == c
  }

  /** The step deletes the key, or another connection takes it over. */
  predicate Takes(w: World, s: Step, d: Key, c: Conn)
    requires Enabled(w, s)
  {
    (s.Delete? && s.d == d) || (s.Replace? && s.c != c && w.handlers[s.c].d == d)
  }

  /** The connection stores itself under the key. */
  predicate Stores(w: World, s: Step, d: Key, c: Conn)
    requires Enabled(w, s)
  {
    s.c == c && ((s.Packet? && s.d == d) || (s.Replace? && w.handlers[c].d == d))
  }

  /** A step makes an entry stop leading to its connection exactly when it deletes the key or another
      connection takes it over; and whoever does so has itself sent from that address. */
  lemma EntryLostIff(w: World, s: Step, d: Key, c: Conn)
    requires Enabled(w, s) && Tended(w) && MarksOwn(w) && Leads(w, d, c)
    ensures !Leads(After(w, s), d, c) <==> Takes(w, s, d, c)
    ensures Takes(w, s, d, c) ==> (s.c, d) in w.sent
  {
    if s.Delete? && s.d == d {
      assert d in Marked(w.handlers[s.c]);
    }
  }

  lemma EntryGainedOnlyBy(w: World, s: Step, d: Key, c: Conn)
    requires Enabled(w, s) && !Leads(w, d, c) && Leads(After(w, s), d, c)
    ensures Stores(w, s, d, c)
  {
  }

  lemma {:induction false} PrefixRuns(steps: seq<Step>, i: nat)
    requires Run(steps).Some? && i <= |steps|
    ensures Run(steps[..i]).Some?
    ensures i < |steps| ==> Enabled(Run(steps[..i]).value, steps[i]) &&
                            Run(steps[..i + 1]) == Some(After(Run(steps[..i]).value, steps[i]))
  {
    if i == |steps| {
      assert steps[..i] == steps;
    } else {
      var init := steps[..|steps| - 1];
      PrefixRuns(init, i);
      assert steps[..i] == init[..i];
      if i < |init| {
        assert steps[..i + 1] == init[..i + 1];
      } else {
        assert init[..i] == init && steps[..i + 1] == steps;
      }
    }
  }

  /** Step number k of the run takes the key from the connection. */
  ghost predicate TakesAt(steps: seq<Step>, k: nat, d: Key, c: Conn) {
    k < |steps| && Run(steps[..k]).Some? && Enabled(Run(steps[..k]).value, steps[k]) &&
    Takes(Run(steps[..k]).value, steps[k], d, c)
  }

  ghost predicate StoresAt(steps: seq<Step>, k: nat, d: Key, c: Conn) {
    k < |steps| && Run(steps[..k]).Some? && Enabled(Run(steps[..k]).value, steps[k]) &&
    Stores(Run(steps[..k]).value, steps[k], d, c)
  }

  ghost predicate LeadsAt(steps: seq<Step>, k: nat, d: Key, c: Conn) {
    k <= |steps| && Run(steps[..k]).Some? && Leads(Run(steps[..k]).value, d, c)
  }

  lemma OneStepLater(steps: seq<Step>, k: nat, d: Key, c: Conn)
    requires Run(steps).Some? && k < |steps|
    ensures LeadsAt(steps, k, d, c) ==> (LeadsAt(steps, k + 1, d, c) <==> !TakesAt(steps, k, d, c))
    ensures !LeadsAt(steps, k, d, c) && !StoresAt(steps, k, d, c) ==> !LeadsAt(steps, k + 1, d, c)
  {
    PrefixRuns(steps, k);
    var w, s := Run(steps[..k]).value, steps[k];
    EveryRunTended(steps[..k]);
    EveryRunMarksOwn(steps[..k]);
    if Leads(w, d, c) {
      EntryLostIff(w, s, d, c);
    } else if Leads(After(w, s), d, c) {
      EntryGainedOnlyBy(w, s, d, c);
    }
  }

  /** Answers find their way back: in every run, from the moment an address leads to a connection until
      the connection stores itself there again, it still leads there exactly when no handler has deleted
      the address and no other connection has taken it over in between. */
  lemma {:induction false} LeadsBackIff(steps: seq<Step>, i: nat, j: nat, d: Key, c: Conn)
    requires Run(steps).Some? && i <= j <= |steps| && LeadsAt(steps, i, d, c)
    requires forall k | i <= k < j :: !StoresAt(steps, k, d, c)
    ensures LeadsAt(steps, j, d, c) <==> forall k | i <= k < j :: !TakesAt(steps, k, d, c)
    decreases j - i
  {
    if i < j {
      LeadsBackIff(steps, i, j - 1, d, c);
      OneStepLater(steps, j - 1, d, c);
    }
  }

  /** Whoever takes an address away, by clean-up or by use, has sent from it: only a shared address is lost
      to somebody else. */
  lemma OnlySharersTake(steps: seq<Step>, k: nat, d: Key, c: Conn)
    requires Run(steps).Some? && LeadsAt(steps, k, d, c) && TakesAt(steps, k, d, c)
    ensures (steps[k].c, d) in Run(steps[..k]).value.sent && (c, d) in Run(steps[..k]).value.sent
  {
    var w := Run(steps[..k]).value;
    EveryRunTended(steps[..k]);
    EveryRunMarksOwn(steps[..k]);
    EntryLostIff(w, steps[k], d, c);
  }

  // ---- Answers find their way back ----

  /** No address is the source of packets on two connections. */
  ghost predicate Unshared(sent: set<(Conn, Key)>) {
    forall c, c2, d | (c, d) in sent && (c2, d) in sent :: c == c2
  }

  /** While a handler reads, every address its connection has used leads to it. */
  ghost predicate Faithful(w: World) {
    && (forall c, d | (c, d) in w.sent :: c in w.handlers)
    && (forall c | c in w.handlers :: !w.handlers[c].Replacing?)
    && (forall c, d | (c, d) in w.sent && w.handlers[c].Reading? :: d in w.table && w.table[d] == c)
  }

  lemma StepKeepsFaithful(w: World, s: Step)
    requires Enabled(w, s) && Tended(w) && MarksOwn(w) && Faithful(w) && Unshared(After(w, s).sent)
    ensures Faithful(After(w, s))
  {
    if s.Delete? {
      assert s.d in Marked(w.handlers[s.c]);
    }
  }

  lemma {:induction false} UnsharedRunFaithful(steps: seq<Step>)
    requires Run(steps).Some? && Unshared(Run(steps).value.sent)
    ensures Faithful(Run(steps).value)
  {
    if steps != [] {
      var w, s := Run(steps[..|steps| - 1]).value, steps[|steps| - 1];
      assert w.sent <= After(w, s).sent;
      UnsharedRunFaithful(steps[..|steps| - 1]);
      EveryRunTended(steps[..|steps| - 1]);
      EveryRunMarksOwn(steps[..|steps| - 1]);
      StepKeepsFaithful(w, s);
    }
  }

  /** As long as no two connections carry the same source address, every address a connection has
      used leads back to it for as long as its handler reads. */
  lemma RoutesBackWhileReading(steps: seq<Step>, c: Conn, d: Key)
    requires Run(steps).Some? && Unshared(Run(steps).value.sent)
    requires var w := Run(steps).value; (c, d) in w.sent && c in w.handlers && w.handlers[c].Reading?
    ensures var w := Run(steps).value; d in w.table && w.table[d] == c
  {
    UnsharedRunFaithful(steps);
  }

  lemma Extended(steps: seq<Step>, s: Step, w: World) returns (steps2: seq<Step>, w2: World)
    requires Run(steps) == Some(w) && Enabled(w, s)
    ensures steps2 == steps + [s] && w2 == After(w, s) && Run(steps2) == Some(w2)
  {
    assert (steps + [s])[..|steps|] == steps;
    steps2, w2 := steps + [s], After(w, s);
  }

  /** With a shared address it can fail: a client that reconnects from address d loses its fresh entry
      when the handler of its old connection deletes the key it collected before. */
  lemma LateDeleteDropsFreshEntry(d: Key) returns (steps: seq<Step>)
    ensures Run(steps).Some?
    ensures var w := Run(steps).value;
            (1, d) in w.sent && w.handlers.Keys == {0, 1} && w.handlers[1].Reading? && d !in w.table
  {
    steps := [];
    var w := START;
    steps, w := Extended(steps, Accept(0), w);
    steps, w := Extended(steps, Packet(0, d), w);
    steps, w := Extended(steps, Close(0), w);
    assert w.handlers[0] == Collecting({d}, {}, {d});
    steps, w := Extended(steps, Visit(0, d, true), w);
    assert w.handlers[0] == Collecting({d}, {d}, {});
    assert w.handlers == map[0 := Collecting({d}, {d}, {})];
    steps, w := Collect(steps, w, d);
  }

  lemma Collect(steps0: seq<Step>, w0: World, d: Key) returns (steps: seq<Step>, w: World)
    requires Run(steps0) == Some(w0) && w0.table == map[d := 0] && w0.handlers == map[0 := Collecting({d}, {d}, {})]
    ensures Run(steps) == Some(w)
    ensures (1, d) in w.sent && w.handlers.Keys == {0, 1} && w.handlers[1].Reading? && d !in w.table
  {
    steps, w := Extended(steps0, Collected(0), w0);
    steps, w := Extended(steps, Accept(1), w);
    steps, w := Extended(steps, Packet(1, d), w);
    steps, w := Extended(steps, Replace(1), w);
    assert w.table[d] == 1;
    steps, w := Extended(steps, Delete(0, d), w);
  }

  /** The next packet of the connection puts its entry back, whatever happened before. */
  lemma NextPacketRestores(w: World, c: Conn, d: Key)
    requires Enabled(w, Packet(c, d))
    ensures var w1 := After(w, Packet(c, d));
            var w2 := if w1.handlers[c].Replacing? then After(w1, Replace(c)) else w1;
            d in w2.table && w2.table[d] == c && w2.handlers[c] == Reading
  {
  }
}
