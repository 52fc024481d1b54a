/** The user daemon and the sudo daemon, which each keep a list of the lite connections
    (pkg/daemon/action: connect-fork.go, disconnect.go, status.go). */
module Daemons {
  import opened Lists

  /** A connection: the cluster it leads to, the options Equal compares, and the rest. */
  datatype Conn = Conn(cluster: string, options: string, rest: string)

  datatype Daemon = Daemon(main: Option<Conn>, secondary: seq<Conn>)

  type Int32 = x: int | -0x8000_0000 <= x < 0x8000_0000

  /** A disconnect request: all, one id, or neither. */
  datatype Which = All | Id(id: Int32) | Neither

  /** The list index of an id, in 32-bit arithmetic. */
  function Index(id: Int32): int {
    if id == -0x8000_0000 then 0x7fff_ffff else id - 1
  }

  /** A negative index passes the test against the length, and the daemon dies of it. */
  predicate Dies(which: Which) {
    which.Id? && which.id != 0 && Index(which.id) < 0
  }

  /** Only the most negative id escapes, since its index wraps around. */
  lemma DiesIff(which: Which)
    ensures Dies(which) <==> which.Id? && -0x7fff_ffff <= which.id < 0
  {
  }

  function Without(s: seq<Conn>, i: nat): seq<Conn> {
    if i < |s| then s[..i] + s[i + 1..] else s
  }

  function Disconnected(d: Daemon, which: Which): Daemon {
    match which
    case All => Daemon(None, [])
    case Id(k) =>
      if k == 0 then d.(main := None)
      else if Index(k) < 0 then d
      else d.(secondary := Without(d.secondary, Index(k)))
    case Neither => d
  }

  function Held(d: Daemon): seq<Conn> {
    (if d.main.Some? then [d.main.value] else []) + d.secondary
  }

  /** What a disconnect cleans up. */
  function Closed(d: Daemon, which: Which): seq<Conn> {
    match which
    case All => Held(d)
    case Id(k) =>
      if k == 0 then Held(d.(secondary := []))
      else if 0 <= Index(k) < |d.secondary| then [d.secondary[Index(k)]]
      else []
    case Neither => []
  }

  lemma CutOut(a: seq<Conn>, s: seq<Conn>, i: nat)
    requires i < |s|
    ensures multiset([s[i]]) + multiset(a + Without(s, i)) == multiset(a + s)
  {
    var l, r := s[..i], s[i + 1..];
    assert a + s == a + l + ([s[i]] + r);
    assert a + Without(s, i) == a + l + r;
  }

  lemma OneClosed(d: Daemon, k: Int32)
    requires k != 0 && 0 <= Index(k) < |d.secondary|
    ensures multiset(Closed(d, Id(k))) + multiset(Held(Disconnected(d, Id(k)))) == multiset(Held(d))
  {
    CutOut(if d.main.Some? then [d.main.value] else [], d.secondary, Index(k));
  }

  lemma MainClosed(d: Daemon)
    ensures multiset(Closed(d, Id(0))) + multiset(Held(Disconnected(d, Id(0)))) == multiset(Held(d))
  {
    assert Closed(d, Id(0)) + Held(Disconnected(d, Id(0))) == Held(d);
  }

  /** Every connection is either cleaned up, once, or still held. */
  lemma ClosedOrHeld(d: Daemon, which: Which)
    ensures multiset(Closed(d, which)) + multiset(Held(Disconnected(d, which))) == multiset(Held(d))
  {
    match which
    case All => assert Held(Disconnected(d, which)) == [];
    case Neither =>
    case Id(k) =>
      if k == 0 {
        MainClosed(d);
      } else if 0 <= Index(k) < |d.secondary| {
        OneClosed(d, k);
      }
  }

  /** The rows Status prints: an id and the connection. */
  function Rows(d: Daemon): seq<(nat, Conn)> {
    (if d.main.Some? then [(0, d.main.value)] else []) +
    seq(|d.secondary|, i requires 0 <= i < |d.secondary| => (i + 1, d.secondary[i]))
  }

  /** Status shows the full connection, if there is one, as 0 and each lite connection by its position from 1. */
  lemma RowsIff(d: Daemon, id: nat, c: Conn)
    ensures (id, c) in Rows(d) <==>
              if id == 0 then d.main == Some(c) else id <= |d.secondary| && d.secondary[id - 1] == c
  {
    var first, rows := if d.main.Some? then 1 else 0, Rows(d);
    assert d.main.Some? ==> rows[0] == (0, d.main.value);
    assert forall i | 0 <= i < |d.secondary| :: rows[first + i] == (i + 1, d.secondary[i]);
  }

  /** Disconnecting by id takes the row with that id away. The full connection's leaves the other rows as they
      are; a lite connection's moves those behind it up by one. */
  lemma DisconnectShiftsRows(d: Daemon, k: Int32, id: nat, c: Conn)
    requires 0 <= k
    ensures (id, c) in Rows(Disconnected(d, Id(k))) <==>
              if k == 0 then id != 0 && (id, c) in Rows(d)
              else if id < k then (id, c) in Rows(d)
              else (id + 1, c) in Rows(d)
  {
    RowsIff(Disconnected(d, Id(k)), id, c);
    RowsIff(d, id, c);
    RowsIff(d, id + 1, c);
  }

  /** The same cluster under equal options; blind holds the positions whose cluster could not be compared. */
  predicate Already(c: Conn, list: seq<Conn>, blind: set<nat>) {
    exists i: nat | i < |list| :: i !in blind && list[i].cluster == c.cluster && list[i].options == c.options
  }

  class Server {
    var main: Option<Conn>
    var secondary: seq<Conn>

    ghost function State(): Daemon
      reads this
    {
      Daemon(main, secondary)
    }

    constructor ()
      ensures State() == Daemon(None, [])
    {
      main, secondary := None, [];
    }

    /** The part of Disconnect that each daemon carries out itself; closed is what it cleaned up, and
        died says that it came to an index out of range. */
    method Disconnect(which: Which) returns (closed: seq<Conn>, died: bool)
      modifies this
      ensures State() == Disconnected(old(State()), which)
      ensures closed == Closed(old(State()), which)
      ensures died <==> Dies(which)
    {
      closed, died := [], false;
      match which
      case All =>
        if main.Some? {
          closed := [main.value];
        }
        main := None;
        var i := 0;
        ghost var first := closed;
        while i < |secondary|
          invariant 0 <= i <= |secondary|
          invariant closed == first + secondary[..i]
          invariant main == None && secondary == old(secondary)
        {
          closed := closed + [secondary[i]];
          i := i + 1;
        }
        assert secondary[..i] == secondary;
        secondary := [];
      case Id(k) =>
        if k == 0 {
          if main.Some? {
            closed := [main.value];
          }
          main := None;
        } else {
          var index := Index(k);
          if index < |secondary| {
            if index < 0 {
              died := true;
              return;
            }
            closed := [secondary[index]];
            secondary := secondary[..index] + secondary[index + 1..];
          }
        }
      case Neither =>
    }

    /** Status */
    method Status() returns (rows: seq<(nat, Conn)>)
      ensures rows == Rows(State())
    {
      rows := [];
      if main.Some? {
        rows := [(0, main.value)];
      }
      ghost var first := rows;
      var i := 0;
      while i < |secondary|
        invariant 0 <= i <= |secondary|
        invariant rows == first + Rows(Daemon(None, secondary))[..i]
      {
        rows := rows + [(i + 1, secondary[i])];
        i := i + 1;
      }
    }

    /** The test redirectConnectForkToSudoDaemon makes before it calls the sudo daemon. */
    method AlreadyConnected(c: Conn, blind: set<nat>) returns (found: bool)
      ensures found <==> Already(c, secondary, blind)
    {
      var i := 0;
      while i < |secondary|
        invariant 0 <= i <= |secondary|
        invariant !Already(c, secondary[..i], blind)
      {
        if i !in blind && secondary[i].cluster == c.cluster && secondary[i].options == c.options {
          return true;
        }
        i := i + 1;
      }
      assert secondary[..i] == secondary;
      return false;
    }
  }

  // ---- The pair ----

  datatype Pair = Pair(user: Daemon, sudo: Daemon)

  /** How the user daemon's call to the sudo daemon ends: served, refused with nothing done, or served
      with the stream breaking before the user daemon hears of it. */
  datatype Fate = Served | Refused | Broken

  datatype Call = Connect(c: Conn, blind: set<nat>, fate: Fate) | Disconnect(which: Which, fate: Fate)

  /** A daemon that has just started, or started again after it died. */
  const NEW := Daemon(None, [])

  function Appended(d: Daemon, c: Conn): Daemon {
    d.(secondary := d.secondary + [c])
  }

  function After(p: Pair, call: Call): Pair {
    match call
    case Connect(c, blind, fate) =>
      if Already(c, p.user.secondary, blind) || fate.Refused? then p
      else Pair(if fate.Served? then Appended(p.user, c) else p.user, Appended(p.sudo, c))
    case Disconnect(which, fate) =>
      if fate.Refused? then p
      else if Dies(which) then Pair(p.user, NEW)
      else Pair(if fate.Served? then Disconnected(p.user, which) else p.user, Disconnected(p.sudo, which))
  }

  /** redirectConnectForkToSudoDaemon on the user's side and ConnectFork on the sudo side. */
  method ConnectFork(user: Server, sudo: Server, c: Conn, blind: set<nat>, fate: Fate)
    requires user != sudo
    modifies user, sudo
    ensures Pair(user.State(), sudo.State()) == After(old(Pair(user.State(), sudo.State())), Connect(c, blind, fate))
  {
    var found := user.AlreadyConnected(c, blind);
    if found || fate.Refused? {
      return;
    }
    sudo.secondary := sudo.secondary + [c];
    if fate.Broken? {
      return;
    }
    user.secondary := user.secondary + [c];
  }

  /** Disconnect asked of the user daemon: the sudo daemon goes first. */
  method DisconnectBoth(user: Server, sudo: Server, which: Which, fate: Fate)
    requires user != sudo
    modifies user, sudo
    ensures Pair(user.State(), sudo.State()) == After(old(Pair(user.State(), sudo.State())), Disconnect(which, fate))
  {
    if fate.Refused? {
      return;
    }
    var closed, died := sudo.Disconnect(which);
    if died {
      sudo.main, sudo.secondary := None, [];
      return;
    }
    if fate.Broken? {
      return;
    }
    closed, died := user.Disconnect(which);
  }

  /** The pair after these calls, from daemons that hold the same. */
  function Run(start: Daemon, calls: seq<Call>): Pair {
    if calls == [] then Pair(start, start) else After(Run(start, calls[..|calls| - 1]), calls[|calls| - 1])
  }

  /** No stream breaks and no daemon dies. */
  predicate Clean(calls: seq<Call>) {
    forall call | call in calls :: !call.fate.Broken? && (call.Disconnect? ==> !Dies(call.which))
  }

  /** In every clean run both daemons hold the same connections at the same positions. */
  lemma {:induction false} ListsAgree(start: Daemon, calls: seq<Call>)
    requires Clean(calls)
    ensures Run(start, calls).user == Run(start, calls).sudo
  {
    if calls != [] {
      assert calls[|calls| - 1] in calls;
      assert forall call | call in calls[..|calls| - 1] :: call in calls;
      ListsAgree(start, calls[..|calls| - 1]);
    }
  }

  /** The request leaves a daemon as it is. */
  predicate ChangesNothing(d: Daemon, which: Which) {
    match which
    case All => d == NEW
    case Id(k) => if k == 0 then d.main.None? else if Index(k) < 0 then true else |d.secondary| <= Index(k)
    case Neither => true
  }

  lemma ChangesNothingIff(d: Daemon, which: Which)
    ensures Disconnected(d, which) == d <==> ChangesNothing(d, which)
  {
    if which.Id? && which.id != 0 && 0 <= Index(which.id) < |d.secondary| {
      assert |Without(d.secondary, Index(which.id))| != |d.secondary|;
    }
  }

  /** From agreeing daemons a call keeps them agreeing exactly in these cases: it was refused; it was
      served on both sides; its stream broke but it asked for nothing that changes the sudo daemon; or
      the sudo daemon died of it and had nothing to lose. */
  lemma StaysTogetherIff(p: Pair, call: Call)
    requires p.user == p.sudo
    ensures After(p, call).user == After(p, call).sudo <==>
            call.fate.Refused? ||
            match call
            case Connect(c, blind, fate) => fate.Served? || Already(c, p.user.secondary, blind)
            case Disconnect(which, fate) =>
              if Dies(which) then p.sudo == NEW else fate.Served? || ChangesNothing(p.sudo, which)
  {
    match call
    case Connect(c, _, _) => assert |p.sudo.secondary + [c]| != |p.sudo.secondary|;
    case Disconnect(which, _) => ChangesNothingIff(p.sudo, which);
  }

  /** Disconnecting the id that Status shows for a connection removes that connection from both
      daemons, leaves the rows above it, and moves the rows below it up by one id. */
  lemma DisconnectRemovesShownRow(start: Daemon, calls: seq<Call>, k: Int32)
    requires Clean(calls)
    requires 1 <= k <= |Run(start, calls).user.secondary|
    ensures var before := Run(start, calls).user;
            var after := After(Run(start, calls), Disconnect(Id(k), Served));
            && (k, before.secondary[k - 1]) in Rows(before)
            && after.user == after.sudo && after.user.main == before.main
            && after.user.secondary == before.secondary[..k - 1] + before.secondary[k..]
  {
    ListsAgree(start, calls);
    RemovesShown(Run(start, calls).user, k);
  }

  lemma RemovesShown(d: Daemon, k: Int32)
    requires 1 <= k <= |d.secondary|
    ensures (k, d.secondary[k - 1]) in Rows(d)
    ensures Disconnected(d, Id(k)) == d.(secondary := d.secondary[..k - 1] + d.secondary[k..])
  {
    var r := if d.main.Some? then 1 else 0;
    assert Rows(d)[r + k - 1] == (k, d.secondary[k - 1]);
  }

  /** A served connect is kept, by both daemons, exactly when every connection of the user daemon that could be
      compared leads to another cluster or has other options. */
  lemma ConnectsIff(p: Pair, c: Conn, blind: set<nat>)
    ensures var s, q := p.user.secondary, After(p, Connect(c, blind, Served));
            if forall i | 0 <= i < |s| && i !in blind :: s[i].cluster != c.cluster || s[i].options != c.options then
              && q.user == p.user.(secondary := s + [c]) && q.sudo == p.sudo.(secondary := p.sudo.secondary + [c])
            else q == p
  {
  }

  /** A served connect shows up in both daemons as one more row, behind all others. */
  lemma ConnectAddsLastRow(start: Daemon, calls: seq<Call>, c: Conn, blind: set<nat>)
    requires Clean(calls)
    requires !Already(c, Run(start, calls).user.secondary, blind)
    ensures var before := Run(start, calls).user;
            var after := After(Run(start, calls), Connect(c, blind, Served));
            after.user == after.sudo && Rows(after.user) == Rows(before) + [(|before.secondary| + 1, c)]
  {
    ListsAgree(start, calls);
    AppendsRow(Run(start, calls).user, c);
  }

  lemma AppendsRow(d: Daemon, c: Conn)
    ensures Rows(Appended(d, c)) == Rows(d) + [(|d.secondary| + 1, c)]
  {
  }

  // ---- No connection twice ----

  ghost predicate NoTwins(s: seq<Conn>) {
    forall i, j | 0 <= i < j < |s| :: s[i].cluster != s[j].cluster || s[i].options != s[j].options
  }

  /** If every cluster can be compared, no two of the user daemon's lite connections lead to the same
      cluster with equal options. */
  lemma {:induction false} NeverConnectedTwice(start: Daemon, calls: seq<Call>)
    requires NoTwins(start.secondary) && forall call | call in calls :: call.Connect? ==> call.blind == {}
    ensures NoTwins(Run(start, calls).user.secondary)
  {
    if calls != [] {
      var init, last := calls[..|calls| - 1], calls[|calls| - 1];
      assert last in calls;
      assert forall call | call in init :: call in calls;
      NeverConnectedTwice(start, init);
    }
  }
}
