/** The UDP route table of pkg/core/tunhandler.go: an inner address leads to a list of peer addresses.
    Addresses stand for their String() form, by which the table compares them. */
module NatTable {
  import opened Lists

  type Ip = string
  type Addr = string
  type Routes = map<Ip, seq<Addr>>

  function Listed(m: Routes, ip: Ip): seq<Addr> {
    if ip in m then m[ip] else []
  }

  function Not(addr: Addr): Addr -> bool {
    a => a != addr
  }

  function Purged(m: Routes, addr: Addr): Routes {
    map k | k in m :: Filter(m[k], Not(addr))
  }

  /** RemoveAddr under way: the keys in left are still to come. */
  ghost function PurgedBut(m: Routes, left: set<Ip>, addr: Addr): Routes {
    map k | k in m :: if k in left then m[k] else Filter(m[k], Not(addr))
  }

  ghost predicate Visited(m: Routes, left: set<Ip>, order: seq<Ip>) {
    (forall k :: k in order <==> k in m && k !in left) && NoRepeats(order)
  }

  lemma SweepStep(m: Routes, left: set<Ip>, order: seq<Ip>, k: Ip, addr: Addr)
    requires k in left && left <= m.Keys && Visited(m, left, order)
    ensures PurgedBut(m, left - {k}, addr) == PurgedBut(m, left, addr)[k := Filter(m[k], Not(addr))]
    ensures Visited(m, left - {k}, order + [k])
    ensures Deleted(m, order + [k], addr) == Deleted(m, order, addr) + |m[k]| - |Filter(m[k], Not(addr))|
  {
    assert (order + [k])[..|order|] == order;
  }

  /** How many entries RemoveAddr deletes on its way through the keys in this order. */
  ghost function Deleted(m: Routes, order: seq<Ip>, addr: Addr): nat
    requires forall k | k in order :: k in m
  {
    if order == [] then 0 else
      var k := order[|order| - 1];
      Deleted(m, order[..|order| - 1], addr) + |m[k]| - |Filter(m[k], Not(addr))|
  }

  /** The places where addr occurs: the key and the position in its list. */
  function Places(m: Routes, addr: Addr): set<(Ip, int)> {
    set k, i | k in m && 0 <= i < |m[k]| && m[k][i] == addr :: (k, i)
  }

  class Nat {
    var routes: Routes

    constructor ()
      ensures routes == map[]
    {
      routes := map[];
    }

    /** RemoveAddr */
    method RemoveAddr(addr: Addr) returns (count: nat)
      modifies this
      ensures routes == Purged(old(routes), addr)
      ensures count == |Places(old(routes), addr)|
    {
      ghost var m := routes;
      ghost var order;
      count, order := Sweep(addr);
      DeletedIsAll(m, order, addr);
    }

    /** The loop of RemoveAddr, visiting the keys in any order. */
    method Sweep(addr: Addr) returns (count: nat, ghost order: seq<Ip>)
      modifies this
      ensures Visited(old(routes), {}, order)
      ensures count == Deleted(old(routes), order, addr)
      ensures routes == Purged(old(routes), addr)
    {
      ghost var m := routes;
      order := [];
      var left := routes.Keys;
      count := 0;
      while left != {}
        invariant left <= m.Keys
        invariant routes == PurgedBut(m, left, addr)
        invariant Visited(m, left, order)
        invariant count == Deleted(m, order, addr)
        decreases left
      {
        var k :| k in left;
        SweepStep(m, left, order, k, addr);
        var v, n := DeleteUnwanted(routes[k], Not(addr));
        routes := routes[k := v];
        left := left - {k};
        count := count + n;
        order := order + [k];
      }
      assert PurgedBut(m, {}, addr) == Purged(m, addr);
    }

    /** LoadOrStore when no other call overlaps it. */
    method LoadOrStore(to: Ip, addr: Addr) returns (result: Addr, loaded: bool)
      modifies this
      ensures result == addr
      ensures loaded <==> addr in Listed(old(routes), to)
      ensures routes == Apply(old(routes), Store(to, addr))
      ensures routes == if loaded then old(routes) else old(routes)[to := Listed(old(routes), to) + [addr]]
    {
      var found := to in routes;
      var addrList := if found then routes[to] else [];
      var i := 0;
      while i < |addrList|
        invariant 0 <= i <= |addrList|
        invariant addr !in addrList[..i]
        invariant unchanged(this)
      {
        if addrList[i] == addr {
          return addr, true;
        }
        i := i + 1;
      }
      assert addrList[..i] == addrList;
      if !found {
        routes := routes[to := [addr]];
        assert addrList + [addr] == [addr];
      } else {
        routes := routes[to := routes[to] + [addr]];
      }
      return addr, false;
    }

    /** RouteTo: intn is the random source, rand.Intn. */
    method RouteTo(ip: Ip, intn: nat -> nat) returns (addr: Option<Addr>)
      requires forall n | n > 0 :: intn(n) < n
      ensures addr == var list := Listed(routes, ip); if list == [] then None else Some(list[intn(|list|)])
    {
      if ip !in routes || |routes[ip]| == 0 {
        return None;
      }
      var index := intn(|routes[ip]|);
      return Some(routes[ip][index]);
    }

    /** Remove */
    method Remove(ip: Ip, addr: Addr)
      modifies this
      ensures routes == Apply(old(routes), Drop(ip, addr))
      ensures Listed(routes, ip) == Filter(Listed(old(routes), ip), Not(addr))
      ensures forall k | k != ip :: Listed(routes, k) == Listed(old(routes), k)
    {
      if ip !in routes {
        return;
      }
      var v, n := DeleteUnwanted(routes[ip], Not(addr));
      routes := routes[ip := v];
    }
  }

  function Positions(s: seq<Addr>, addr: Addr): set<int> {
    set i | 0 <= i < |s| && s[i] == addr
  }

  lemma PositionsSnoc(s: seq<Addr>, x: Addr, addr: Addr)
    ensures Positions(s + [x], addr) == if x == addr then Positions(s, addr) + {|s|} else Positions(s, addr)
  {
  }

  lemma {:induction false} PositionsCount(s: seq<Addr>, addr: Addr)
    ensures |Positions(s, addr)| == |s| - |Filter(s, Not(addr))|
  {
    if s != [] {
      var n := |s| - 1;
      PositionsCount(s[..n], addr);
      PositionsSnoc(s[..n], s[n], addr);
      assert s == s[..n] + [s[n]];
    }
  }

  function Under(k: Ip, at: set<int>): set<(Ip, int)> {
    set i | i in at :: (k, i)
  }

  lemma {:induction false} UnderCount(k: Ip, at: set<int>)
    ensures |Under(k, at)| == |at|
  {
    if exists i :: i in at {
      var i :| i in at;
      UnderCount(k, at - {i});
      assert Under(k, at) == Under(k, at - {i}) + {(k, i)};
    } else {
      assert at == {} && Under(k, at) == {};
    }
  }

  lemma PlacesOfOneMore(m: Routes, k: Ip, s: seq<Addr>, addr: Addr)
    requires k !in m
    ensures |Places(m[k := s], addr)| == |Places(m, addr)| + |s| - |Filter(s, Not(addr))|
  {
    var a, b, c := Places(m, addr), Under(k, Positions(s, addr)), Places(m[k := s], addr);
    assert c == a + b;
    assert a !! b;
    PositionsCount(s, addr);
    UnderCount(k, Positions(s, addr));
  }

  lemma {:induction false} DeletedIsPlaces(m: Routes, order: seq<Ip>, addr: Addr)
    requires (forall k | k in order :: k in m) && NoRepeats(order)
    ensures Deleted(m, order, addr) == |Places(m - (m.Keys - set k | k in order), addr)|
  {
    if order == [] {
      assert Places(m - m.Keys, addr) == {};
    } else {
      var init, k := order[..|order| - 1], order[|order| - 1];
      var before := m - (m.Keys - set j | j in init);
      DeletedIsPlaces(m, init, addr);
      PlacesOfOneMore(before, k, m[k], addr);
      assert before[k := m[k]] == m - (m.Keys - set j | j in order);
    }
  }

  lemma DeletedIsAll(m: Routes, order: seq<Ip>, addr: Addr)
    requires Visited(m, {}, order)
    ensures Deleted(m, order, addr) == |Places(m, addr)|
  {
    DeletedIsPlaces(m, order, addr);
    assert m - (m.Keys - set k | k in order) == m;
  }

  // ---- Without overlapping calls the table is a multimap ----

  datatype Op = Store(ip: Ip, addr: Addr) | Drop(ip: Ip, addr: Addr) | DropAll(addr: Addr)

  function Apply(m: Routes, op: Op): Routes {
    match op
    case Store(ip, addr) => if addr in Listed(m, ip) then m else m[ip := Listed(m, ip) + [addr]]
    case Drop(ip, addr) => if ip in m then m[ip := Filter(m[ip], Not(addr))] else m
    case DropAll(addr) => Purged(m, addr)
  }

  function ApplyAll(ops: seq<Op>): Routes {
    if ops == [] then map[] else Apply(ApplyAll(ops[..|ops| - 1]), ops[|ops| - 1])
  }

  /** The pair was stored and not dropped since. */
  predicate Live(ops: seq<Op>, ip: Ip, addr: Addr) {
    ops != [] &&
    var last := ops[|ops| - 1];
    last == Store(ip, addr) || (last != Drop(ip, addr) && last != DropAll(addr) && Live(ops[..|ops| - 1], ip, addr))
  }

  ghost predicate NoRepeats<T>(s: seq<T>) {
    forall i, j | 0 <= i < j < |s| :: s[i] != s[j]
  }

  lemma {:induction false} FilterNoRepeats(s: seq<Addr>, p: Addr -> bool)
    requires NoRepeats(s)
    ensures NoRepeats(Filter(s, p))
  {
    if s != [] {
      var init := s[..|s| - 1];
      FilterNoRepeats(init, p);
      FilterMember(init, p);
      assert s[|s| - 1] !in init;
      assert s[|s| - 1] !in Filter(init, p);
    }
  }

  lemma ApplyNoRepeats(m: Routes, op: Op, ip: Ip)
    requires NoRepeats(Listed(m, ip))
    ensures NoRepeats(Listed(Apply(m, op), ip))
  {
    FilterNoRepeats(Listed(m, ip), Not(op.addr));
  }

  lemma ApplyMember(m: Routes, op: Op, ip: Ip, addr: Addr)
    ensures addr in Listed(Apply(m, op), ip) <==>
            op == Store(ip, addr) || (op != Drop(ip, addr) && op != DropAll(addr) && addr in Listed(m, ip))
  {
    FilterMember(Listed(m, ip), Not(op.addr));
  }

  /** After any sequence of calls each list holds, without repeats, exactly the addresses stored for
      its key and not dropped since. */
  lemma {:induction false} TableIsMultimap(ops: seq<Op>, ip: Ip, addr: Addr)
    ensures addr in Listed(ApplyAll(ops), ip) <==> Live(ops, ip, addr)
    ensures NoRepeats(Listed(ApplyAll(ops), ip))
  {
    if ops != [] {
      var init, last := ops[..|ops| - 1], ops[|ops| - 1];
      TableIsMultimap(init, ip, addr);
      ApplyMember(ApplyAll(init), last, ip, addr);
      ApplyNoRepeats(ApplyAll(init), last, ip);
    }
  }

  /** Once RemoveAddr returns nothing routes to the address any more, and nothing else changed. */
  lemma PurgeRemovesExactly(m: Routes, addr: Addr, ip: Ip)
    ensures addr !in Listed(Purged(m, addr), ip)
    ensures Listed(Purged(m, addr), ip) == Filter(Listed(m, ip), Not(addr))
    ensures Places(m, addr) == {} ==> Purged(m, addr) == m
  {
    FilterMember(Listed(m, ip), Not(addr));
    if Places(m, addr) == {} {
      forall k | k in m
        ensures Filter(m[k], Not(addr)) == m[k]
      {
        FilterKeepsAll(m[k], Not(addr));
        forall x | x in m[k]
          ensures x != addr
        {
          var i :| 0 <= i < |m[k]| && m[k][i] == x;
          assert x == addr ==> (k, i) in Places(m, addr);
        }
      }
    }
  }

  // ---- Overlapping calls: LoadOrStore lets go of the lock between its test and its write ----

  /** A LoadOrStore call past its first critical section. seen is the slice it read, None for nil.
      raced says that a removal has since shifted the list's backing array under it. */
  datatype Call = Call(ip: Ip, addr: Addr, seen: Option<seq<Addr>>, raced: bool)

  /** asked holds what calls were made with, and done the completed calls in the order they took effect. */
  datatype World = World(routes: Routes, calls: map<nat, Call>, asked: set<(Ip, Addr)>, done: seq<Op>)

  datatype Step =
    | Begin(c: nat, ip: Ip, addr: Addr)
    | Find(c: nat)
    | Write(c: nat)
    | RemoveOne(ip: Ip, addr: Addr)
    | RemoveEvery(addr: Addr)

  predicate Sees(call: Call) {
    call.seen.Some? && call.addr in call.seen.value
  }

  predicate Enabled(w: World, s: Step) {
    match s
    case Begin(c, _, _) => c !in w.calls
    case Find(c) => c in w.calls && w.calls[c].seen.Some? && (w.calls[c].raced || Sees(w.calls[c]))
    case Write(c) => c in w.calls && (w.calls[c].raced || !Sees(w.calls[c]))
    case _ => true
  }

  /** A removal that shortens a list shifts its backing array under every call that is reading it. */
  function Race(w: World, op: Op): map<nat, Call> {
    map c | c in w.calls ::
      var call := w.calls[c];
      call.(raced := call.raced || Listed(Apply(w.routes, op), call.ip) != Listed(w.routes, call.ip))
  }

  /** The slice a call reads: nil when the key is missing. */
  function Slice(m: Routes, ip: Ip): Option<seq<Addr>> {
    if ip in m then Some(m[ip]) else None
  }

  function Written(m: Routes, call: Call): Routes {
    if call.seen.None? then m[call.ip := [call.addr]] else m[call.ip := Listed(m, call.ip) + [call.addr]]
  }

  function After(w: World, s: Step): World
    requires Enabled(w, s)
  {
    match s
    case Begin(c, ip, addr) =>
      w.(calls := w.calls[c := Call(ip, addr, Slice(w.routes, ip), false)], asked := w.asked + {(ip, addr)})
    case Find(c) => w.(calls := w.calls - {c}, done := w.done + [Store(w.calls[c].ip, w.calls[c].addr)])
    case Write(c) =>
      w.(routes := Written(w.routes, w.calls[c]), calls := w.calls - {c},
         done := w.done + [Store(w.calls[c].ip, w.calls[c].addr)])
    case RemoveOne(ip, addr) => Removed(w, Drop(ip, addr))
    case RemoveEvery(addr) => Removed(w, DropAll(addr))
  }

  function Removed(w: World, op: Op): World {
    w.(routes := Apply(w.routes, op), calls := Race(w, op), done := w.done + [op])
  }

  function Run(w: World, steps: seq<Step>): Option<World> {
    if steps == [] then Some(w)
    else
      var r := Run(w, steps[..|steps| - 1]);
      if r.Some? && Enabled(r.value, steps[|steps| - 1]) then Some(After(r.value, steps[|steps| - 1])) else None
  }

  const START := World(map[], map[], {}, [])

  /** The table and the calls under way hold only what was asked for. */
  ghost predicate OnlyAsked(w: World) {
    && (forall ip, a :: a in Listed(w.routes, ip) ==> (ip, a) in w.asked)
    && (forall c | c in w.calls :: (w.calls[c].ip, w.calls[c].addr) in w.asked)
  }

  lemma StepKeepsAsked(w: World, s: Step)
    requires Enabled(w, s) && OnlyAsked(w)
    ensures OnlyAsked(After(w, s))
  {
    var w2 := After(w, s);
    forall ip, a | a in Listed(w2.routes, ip)
      ensures (ip, a) in w2.asked
    {
      if s.RemoveOne? || s.RemoveEvery? {
        FilterMember(Listed(w.routes, ip), Not(s.addr));
        assert a in Listed(w.routes, ip);
      }
    }
  }

  /** Over every interleaving RouteTo(ip) can return only addresses that some call stored for ip. */
  lemma {:induction false} RoutesOnlyToStored(steps: seq<Step>)
    requires Run(START, steps).Some?
    ensures OnlyAsked(Run(START, steps).value)
  {
    if steps != [] {
      RoutesOnlyToStored(steps[..|steps| - 1]);
      StepKeepsAsked(Run(START, steps[..|steps| - 1]).value, steps[|steps| - 1]);
    }
  }

  // ---- Calls that nobody disturbs ----

  /** Nobody has changed this call's list since it read it. */
  ghost predicate Undisturbed(w: World, call: Call) {
    !call.raced && call.seen == Slice(w.routes, call.ip)
  }

  /** An undisturbed call ends as a whole call would. */
  lemma UndisturbedIsStore(w: World, s: Step)
    requires Enabled(w, s) && (s.Find? || s.Write?) && Undisturbed(w, w.calls[s.c])
    ensures After(w, s).routes == Apply(w.routes, Store(w.calls[s.c].ip, w.calls[s.c].addr))
  {
    var call := w.calls[s.c];
    assert Listed(w.routes, call.ip) == if call.seen.Some? then call.seen.value else [];
    assert [] + [call.addr] == [call.addr];
  }

  /** The two steps of a LoadOrStore with nothing in between are the whole call, whatever else is under way. */
  lemma UninterruptedIsStore(w: World, c: nat, ip: Ip, addr: Addr)
    requires c !in w.calls
    ensures var w1 := After(w, Begin(c, ip, addr));
            var s := if addr in Listed(w.routes, ip) then Find(c) else Write(c);
            Enabled(w1, s) &&
            After(w1, s).routes == Apply(w.routes, Store(ip, addr)) && After(w1, s).calls == w.calls
  {
    var w1 := After(w, Begin(c, ip, addr));
    var s := if addr in Listed(w.routes, ip) then Find(c) else Write(c);
    UndisturbedIsStore(w1, s);
    assert w1.calls - {c} == w.calls;
  }

  ghost predicate UndisturbedRun(steps: seq<Step>)
    requires Run(START, steps).Some?
  {
    steps == [] ||
    var w, s := Run(START, steps[..|steps| - 1]).value, steps[|steps| - 1];
    UndisturbedRun(steps[..|steps| - 1]) && (s.Find? || s.Write? ==> Undisturbed(w, w.calls[s.c]))
  }

  lemma ApplySnoc(ops: seq<Op>, op: Op)
    ensures ApplyAll(ops + [op]) == Apply(ApplyAll(ops), op)
  {
    assert (ops + [op])[..|ops|] == ops;
  }

  /** Over every run in which nobody changes a call's list between its test and its write, the table is what
      the completed calls make of it one after another. */
  lemma {:induction false} UndisturbedRunIsSerial(steps: seq<Step>)
    requires Run(START, steps).Some? && UndisturbedRun(steps)
    ensures var w := Run(START, steps).value; w.routes == ApplyAll(w.done)
  {
    if steps != [] {
      var w, s := Run(START, steps[..|steps| - 1]).value, steps[|steps| - 1];
      UndisturbedRunIsSerial(steps[..|steps| - 1]);
      match s
      case Begin(_, _, _) =>
      case Find(c) =>
        UndisturbedIsStore(w, s);
        ApplySnoc(w.done, Store(w.calls[c].ip, w.calls[c].addr));
      case Write(c) =>
        UndisturbedIsStore(w, s);
        ApplySnoc(w.done, Store(w.calls[c].ip, w.calls[c].addr));
      case RemoveOne(ip, addr) => ApplySnoc(w.done, Drop(ip, addr));
      case RemoveEvery(addr) => ApplySnoc(w.done, DropAll(addr));
    }
  }

  /** So it is a multimap: each list holds, without repeats, exactly what was stored and not dropped since. */
  lemma UndisturbedRunIsMultimap(steps: seq<Step>, ip: Ip, addr: Addr)
    requires Run(START, steps).Some? && UndisturbedRun(steps)
    ensures var w := Run(START, steps).value;
            NoRepeats(Listed(w.routes, ip)) && (addr in Listed(w.routes, ip) <==> Live(w.done, ip, addr))
  {
    UndisturbedRunIsSerial(steps);
    TableIsMultimap(Run(START, steps).value.done, ip, addr);
  }

  // ---- What a disturbed write does ----

  /** A write drops another address from the list exactly when the call had found no list at all and
      somebody made one meanwhile. */
  lemma WriteLosesIff(w: World, c: nat)
    requires Enabled(w, Write(c))
    ensures var call := w.calls[c]; var now := Listed(w.routes, call.ip);
            (exists a :: a in now && a !in Listed(After(w, Write(c)).routes, call.ip)) <==>
            call.seen.None? && (exists a :: a in now && a != call.addr)
  {
  }

  /** A write repeats an address exactly when the call had found a list and the address is in it now. */
  lemma WriteRepeatsIff(w: World, c: nat)
    requires Enabled(w, Write(c)) && NoRepeats(Listed(w.routes, w.calls[c].ip))
    ensures var call := w.calls[c];
            !NoRepeats(Listed(After(w, Write(c)).routes, call.ip)) <==>
            call.seen.Some? && call.addr in Listed(w.routes, call.ip)
  {
    var call := w.calls[c];
    var now := Listed(w.routes, call.ip);
    if call.seen.Some? && call.addr in now {
      var i :| 0 <= i < |now| && now[i] == call.addr;
      assert (now + [call.addr])[i] == (now + [call.addr])[|now|];
    }
  }

  /** Two first packets from one inner address, over two peers, can leave only the later peer. */
  lemma OverlapLosesPeer(ip: Ip, a: Addr, b: Addr) returns (steps: seq<Step>)
    requires a != b
    ensures steps == [Begin(0, ip, a), Begin(1, ip, b), Write(0), Write(1)]
    ensures Run(START, steps).Some? && Listed(Run(START, steps).value.routes, ip) == [b]
  {
    steps := [];
    var w := START;
    steps, w := Extended(steps, Begin(0, ip, a), w);
    steps, w := Extended(steps, Begin(1, ip, b), w);
    assert w.calls[0] == Call(ip, a, None, false) && w.calls[1] == Call(ip, b, None, false);
    steps, w := Extended(steps, Write(0), w);
    steps, w := Extended(steps, Write(1), w);
  }

  /** Two packets from one inner address over the same new peer can list it twice. */
  lemma OverlapRepeatsPeer(ip: Ip, x: Addr, a: Addr) returns (steps: seq<Step>)
    requires x != a
    ensures steps == [Begin(0, ip, x), Write(0), Begin(0, ip, a), Begin(1, ip, a), Write(0), Write(1)]
    ensures Run(START, steps).Some? && Listed(Run(START, steps).value.routes, ip) == [x, a, a]
  {
    steps := [];
    var w := START;
    steps, w := Extended(steps, Begin(0, ip, x), w);
    steps, w := Extended(steps, Write(0), w);
    assert w.routes[ip] == [x];
    steps, w := Extended(steps, Begin(0, ip, a), w);
    steps, w := Extended(steps, Begin(1, ip, a), w);
    assert w.calls[0] == Call(ip, a, Some([x]), false) && w.calls[1] == Call(ip, a, Some([x]), false);
    steps, w := Extended(steps, Write(0), w);
    assert w.routes[ip] == [x, a];
    steps, w := Extended(steps, Write(1), w);
  }

  lemma Extended(steps: seq<Step>, s: Step, w: World) returns (steps2: seq<Step>, w2: World)
    requires Run(START, steps) == Some(w) && Enabled(w, s)
    ensures steps2 == steps + [s] && w2 == After(w, s) && Run(START, steps2) == Some(w2)
  {
    assert (steps + [s])[..|steps|] == steps;
    steps2, w2 := steps + [s], After(w, s);
  }
}
