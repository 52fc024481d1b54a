/** Injecting the mesh sidecars into a workload and taking them out again when the last user leaves
    (pkg/handler/envoy.go), on top of the rule list of MeshRules and the template edits of Containers. */
module Injection {
  import opened Lists
  import opened Containers
  import R = MeshRules

  /** The workload object. annotated says that it has an annotation map at all; restore is the saved
      patch under the restore key, None when the key is absent or empty. */
  datatype Workload = Workload(annotated: bool, restore: Option<seq<P>>, containers: seq<Container>)

  datatype World = World(rules: seq<R.Virtual>, load: Workload)

  /** The workload's node id and the path to its pod template. */
  datatype Target = Target(node: string, path: seq<string>)

  /** commits is false when the ConfigMap update meets a conflict. */
  datatype Op =
    | Inject(tun: R.Tun, headers: R.Headers, commits: bool)
    | Leave(v4: string, commits: bool)
    | Elsewhere(edit: R.Edit)

  function AllPorts(cs: seq<Container>): seq<R.Port> {
    if cs == [] then [] else AllPorts(cs[..|cs| - 1]) + cs[|cs| - 1].ports
  }

  /** The ports collected from the containers; a slice nothing was appended to is nil. */
  function PortsOf(cs: seq<Container>): Option<seq<R.Port>> {
    if AllPorts(cs) == [] then None else Some(AllPorts(cs))
  }

  function Names(cs: seq<Container>): set<string> {
    set c | c in cs :: c.name
  }

  /** The JSON patch an operation sends: the new containers, the new saved patch, then one null per probe. */
  datatype JsonPatch = JsonPatch(spec: seq<Container>, restore: Option<seq<P>>, clears: seq<P>)

  /** A replace below an absent parent rejects the whole patch; the replaced key itself may be absent. */
  predicate Accepts(load: Workload, p: JsonPatch) {
    load.annotated && |p.clears| <= 3 * |p.spec|
  }

  function Patched(t: Target, load: Workload, p: JsonPatch): Workload {
    if Accepts(load, p) then Workload(true, p.restore, Assigned(p.spec, t.path, p.clears)) else load
  }

  function InjectPatch(t: Target, seen: Workload): Option<JsonPatch> {
    if {VPN, ENVOY} <= Names(seen.containers) then None
    else Some(JsonPatch(Filter(seen.containers, NotSidecar()) + Sidecars(t.node),
                        Some(Entries(t.path, ProbesOf(seen.containers))),
                        Entries(t.path, Blank(|seen.containers|))))
  }

  function LeavePatch(t: Target, seen: Workload): JsonPatch {
    var cs := Filter(seen.containers, NotSidecar());
    JsonPatch(if seen.restore.Some? then Restored(cs, t.path, seen.restore.value) else cs, None, [])
  }

  /** A call that has read the workload as seen: the rule list it leaves and the patch it then sends. */
  ghost function Decide(t: Target, rules: seq<R.Virtual>, seen: Workload, op: Op): (seq<R.Virtual>, Option<JsonPatch>) {
    match op
    case Inject(tun, headers, commits) =>
      var added := R.AddRule(rules, t.node, tun, headers, PortsOf(seen.containers));
      if added.Panics? || !commits then (rules, None) else (added.value, InjectPatch(t, seen))
    case Leave(v4, commits) =>
      if !commits then (rules, None)
      else (R.RemoveRule(rules, t.node, v4),
            if R.DropsEntry(rules, t.node, v4) then Some(LeavePatch(t, seen)) else None)
    case Elsewhere(edit) => (R.Apply(rules, edit), None)
  }

  function Delivered(t: Target, load: Workload, p: Option<JsonPatch>): Workload {
    if p.Some? then Patched(t, load, p.value) else load
  }

  /** One whole call that no other call overlaps. */
  ghost function Perform(t: Target, w: World, op: Op): World {
    var (rules, p) := Decide(t, w.rules, w.load, op);
    World(rules, Delivered(t, w.load, p))
  }

  // ---- The ports of a workload ----

  lemma {:induction false} AllPortsAppend(a: seq<Container>, b: seq<Container>)
    ensures AllPorts(a + b) == AllPorts(a) + AllPorts(b)
  {
    if b == [] {
      assert a + b == a;
    } else {
      var n := |b| - 1;
      assert (a + b)[..|a| + n] == a + b[..n];
      AllPortsAppend(a, b[..n]);
    }
  }

  lemma AllPortsOne(c: Container)
    ensures AllPorts([c]) == c.ports
  {
    assert [c][..0] == [] && AllPorts([c][..0]) == [];
  }

  lemma {:induction false} AllPortsHas(cs: seq<Container>, p: R.Port)
    ensures p in AllPorts(cs) <==> exists c | c in cs :: p in c.ports
  {
    if cs != [] {
      AllPortsHas(cs[..|cs| - 1], p);
      assert cs == cs[..|cs| - 1] + [cs[|cs| - 1]];
    }
  }

  lemma {:induction false} NoPortsIff(cs: seq<Container>)
    ensures AllPorts(cs) == [] <==> forall c | c in cs :: c.ports == []
  {
    if cs != [] {
      NoPortsIff(cs[..|cs| - 1]);
      assert cs == cs[..|cs| - 1] + [cs[|cs| - 1]];
    }
  }

  // ---- The calls as programs ----

  method CollectPorts(cs: seq<Container>) returns (ports: Option<seq<R.Port>>)
    ensures ports == PortsOf(cs)
    ensures ports.None? <==> forall c | c in cs :: c.ports == []
    ensures ports.Some? ==> forall p :: p in ports.value <==> exists c | c in cs :: p in c.ports
  {
    var all: seq<R.Port> := [];
    var i := 0;
    while i < |cs|
      invariant 0 <= i <= |cs| && all == AllPorts(cs[..i])
    {
      all := all + cs[i].ports;
      assert cs[..i + 1][..i] == cs[..i];
      i := i + 1;
    }
    assert cs[..i] == cs;
    NoPortsIff(cs);
    forall p ensures p in all <==> exists c | c in cs :: p in c.ports {
      AllPortsHas(cs, p);
    }
    return if all == [] then None else Some(all);
  }

  class Cluster {
    var rules: seq<R.Virtual>
    var load: Workload

    /** The API server's side of a JSON patch. */
    method Apply(t: Target, p: JsonPatch)
      modifies this
      ensures rules == old(rules) && load == Patched(t, old(load), p)
    {
      if Accepts(load, p) {
        load := Workload(true, p.restore, Assigned(p.spec, t.path, p.clears));
      }
    }

    /** InjectVPNAndEnvoySidecar; panicked means that it died before writing anything. */
    method InjectSidecar(t: Target, tun: R.Tun, headers: R.Headers, commits: bool) returns (panicked: bool)
      modifies this
      ensures World(rules, load) == Perform(t, old(World(rules, load)), Inject(tun, headers, commits))
      ensures panicked ==> rules == old(rules) && load == old(load)
    {
      var origin := load.containers;
      var ports := CollectPorts(origin);
      var added := R.AddEnvoyConfig(rules, t.node, tun, headers, ports);
      if added.Panics? {
        return true;
      }
      if !commits {
        return false;
      }
      rules := added.value;
      if {VPN, ENVOY} <= Names(origin) {
        return false;
      }
      var remove, restore := Patch(origin, t.path);
      var template := new PodTemplate(origin);
      AddMeshContainer(template, t.node);
      Apply(t, JsonPatch(template.containers, Some(restore), remove));
      return false;
    }

    /** UnPatchContainer */
    method UnPatchContainer(t: Target, v4: string, commits: bool)
      modifies this
      ensures World(rules, load) == Perform(t, old(World(rules, load)), Leave(v4, commits))
    {
      var template := new PodTemplate(load.containers);
      var v, empty := R.RemoveEnvoyConfig(rules, t.node, v4);
      if !commits {
        return;
      }
      rules := v;
      RemoveContainers(template);
      if load.restore.Some? {
        FromPatchToProbe(template, t.path, load.restore.value);
      }
      if empty {
        Apply(t, JsonPatch(template.containers, None, []));
      }
    }
  }

  // ---- The two forms of the workload ----

  function Stripped(cs: seq<Container>): seq<Container> {
    seq(|cs|, i requires 0 <= i < |cs| => cs[i].(probes := NONE))
  }

  ghost predicate NoSidecar(cs: seq<Container>) {
    forall c | c in cs :: !IsSidecar(c)
  }

  /** The original containers without probes, the sidecars behind them, and the probes saved. */
  function Injected(t: Target, cs: seq<Container>): Workload {
    Workload(true, Some(Entries(t.path, ProbesOf(cs))), Stripped(cs) + Sidecars(t.node))
  }

  function Plain(cs: seq<Container>): Workload {
    Workload(true, None, cs)
  }

  /** Clearing the first n containers strips a list whose others have no probes. */
  lemma ClearsAll(path: seq<string>, all: seq<Container>, n: nat)
    requires n <= |all| && forall i | n <= i < |all| :: all[i].probes == NONE
    ensures Assigned(all, path, Entries(path, Blank(n))) == Stripped(all)
  {
    forall i | 0 <= i < |all|
      ensures SetAll(all[i].probes, path, i, Entries(path, Blank(n))) == NONE
    {
      EntriesSet(all[i].probes, path, i, Blank(n));
      if i < n {
        BlankAt(n, i);
      }
    }
  }

  lemma ClearsBehind(path: seq<string>, cs: seq<Container>, more: seq<Container>)
    requires forall c | c in more :: c.probes == NONE
    ensures Assigned(cs + more, path, Entries(path, Blank(|cs|))) == Stripped(cs) + more
  {
    ClearsAll(path, cs + more, |cs|);
    assert Stripped(cs + more) == Stripped(cs) + more;
  }

  lemma ClearsStrip(t: Target, cs: seq<Container>)
    ensures Assigned(cs + Sidecars(t.node), t.path, Entries(t.path, Blank(|cs|))) == Stripped(cs) + Sidecars(t.node)
  {
    ClearsBehind(t.path, cs, Sidecars(t.node));
  }

  lemma StrippedHasNoSidecar(cs: seq<Container>)
    requires NoSidecar(cs)
    ensures NoSidecar(Stripped(cs))
  {
    forall c | c in Stripped(cs)
      ensures !IsSidecar(c)
    {
      var i :| 0 <= i < |cs| && Stripped(cs)[i] == c;
      assert cs[i] in cs;
    }
  }

  lemma InjectTurnsPlain(t: Target, cs: seq<Container>)
    requires NoSidecar(cs)
    ensures InjectPatch(t, Plain(cs)).Some? && Patched(t, Plain(cs), InjectPatch(t, Plain(cs)).value) == Injected(t, cs)
  {
    assert VPN !in Names(cs);
    FilterKeepsAll(cs, NotSidecar());
    ClearsStrip(t, cs);
  }

  ghost predicate HasNamed(cs: seq<Container>, name: string) {
    exists c | c in cs :: c.name == name
  }

  lemma BothNamed(cs: seq<Container>)
    ensures {VPN, ENVOY} <= Names(cs) <==> HasNamed(cs, "vpn") && HasNamed(cs, "envoy-proxy")
  {
    assert VPN in Names(cs) <==> HasNamed(cs, "vpn");
    assert ENVOY in Names(cs) <==> HasNamed(cs, "envoy-proxy");
  }

  lemma ClearsKept(t: Target, kept: seq<Container>, n: nat)
    requires |kept| <= n <= |kept| + 2
    ensures Assigned(kept + Sidecars(t.node), t.path, Entries(t.path, Blank(n))) == Stripped(kept) + Sidecars(t.node)
  {
    var s := Sidecars(t.node);
    ClearsAll(t.path, kept + s, n);
    assert Stripped(kept + s) == Stripped(kept) + s;
  }

  lemma InjectPatchArrives(t: Target, load: Workload)
    requires load.annotated && InjectPatch(t, load).Some?
    ensures var cs := load.containers;
            var kept := Filter(cs, NotSidecar());
            Patched(t, load, InjectPatch(t, load).value) ==
              if |cs| <= |kept| + 2
              then Workload(true, Some(Entries(t.path, ProbesOf(cs))), Stripped(kept) + Sidecars(t.node))
              else load
  {
    var cs := load.containers;
    var kept := Filter(cs, NotSidecar());
    var p := InjectPatch(t, load).value;
    assert |p.spec| == |kept| + 2 && |p.clears| == 3 * |cs|;
    if |cs| <= |kept| + 2 {
      ClearsKept(t, kept, |cs|);
    }
  }

  /** What a committed inject makes of any annotated workload: nothing when both sidecars are there. Otherwise the
      containers without a sidecar's name lose their probes and the two sidecars stand behind them; but the
      patch is refused when it clears probes of more containers than it leaves. */
  lemma InjectAnyWorkload(t: Target, w: World, tun: R.Tun, headers: R.Headers)
    requires w.load.annotated && R.AddRule(w.rules, t.node, tun, headers, PortsOf(w.load.containers)).Done?
    ensures var cs, load := w.load.containers, Perform(t, w, Inject(tun, headers, true)).load;
            var kept := Filter(cs, NotSidecar());
            load ==
              if (HasNamed(cs, "vpn") && HasNamed(cs, "envoy-proxy")) || |cs| > |kept| + 2 then w.load
              else Workload(true, Some(Entries(t.path, ProbesOf(cs))), Stripped(kept) + Sidecars(t.node))
  {
    BothNamed(w.load.containers);
    if InjectPatch(t, w.load).Some? {
      InjectPatchArrives(t, w.load);
    }
  }

  lemma SidecarsAreNamed(t: Target, cs: seq<Container>)
    ensures InjectPatch(t, Injected(t, cs)).None?
  {
    var all := Stripped(cs) + Sidecars(t.node);
    assert all[|cs|] in all && all[|cs| + 1] in all;
    assert all[|cs|].name == VPN && all[|cs| + 1].name == ENVOY;
  }

  lemma FilterDropsSidecars(cs: seq<Container>, node: string)
    requires NoSidecar(cs)
    ensures Filter(cs + Sidecars(node), NotSidecar()) == cs
  {
    var s := Sidecars(node);
    assert cs + s == cs + [s[0]] + [s[1]];
    FilterSnoc(cs + [s[0]], s[1], NotSidecar());
    FilterSnoc(cs, s[0], NotSidecar());
    FilterKeepsAll(cs, NotSidecar());
  }

  lemma RestoreUndoesStrip(path: seq<string>, cs: seq<Container>)
    ensures Restored(Stripped(cs), path, Entries(path, ProbesOf(cs))) == cs
  {
    forall i | 0 <= i < |cs|
      ensures SetAll(NONE, path, i, Entries(path, ProbesOf(cs))) == cs[i].probes
    {
      EntriesSet(NONE, path, i, ProbesOf(cs));
      ProbesOfAt(cs, i);
    }
  }

  lemma LeaveTurnsInjected(t: Target, cs: seq<Container>)
    requires NoSidecar(cs)
    ensures Patched(t, Injected(t, cs), LeavePatch(t, Injected(t, cs))) == Plain(cs)
  {
    StrippedHasNoSidecar(cs);
    FilterDropsSidecars(Stripped(cs), t.node);
    RestoreUndoesStrip(t.path, cs);
    assert Assigned(cs, t.path, []) == cs;
  }

  // ---- Every run ----

  predicate HasRule(t: Target, rules: seq<R.Virtual>) {
    R.RulesOf(rules, t.node) != []
  }

  ghost predicate InForm(t: Target, w: World, cs: seq<Container>) {
    R.WellFormed(w.rules) && w.load == if HasRule(t, w.rules) then Injected(t, cs) else Plain(cs)
  }

  lemma AddedIsMentioned(v: seq<R.Virtual>, node: string, tun: R.Tun, headers: R.Headers, ports: Option<seq<R.Port>>)
    requires R.AddRule(v, node, tun, headers, ports).Done?
    ensures R.Mentions(R.AddRule(v, node, tun, headers, ports).value, node)
  {
    var r, i := R.AddRule(v, node, tun, headers, ports).value, R.Find(v, node);
    assert r[i] in r && r[i].uid == node;
  }

  lemma RemovedIsMentioned(v: seq<R.Virtual>, node: string, v4: string)
    requires R.WellFormed(v)
    ensures R.Mentions(R.RemoveRule(v, node, v4), node) <==> R.Mentions(v, node) && !R.DropsEntry(v, node, v4)
    ensures R.DropsEntry(v, node, v4) ==> R.Mentions(v, node)
  {
    R.RemoveAtOneEntry(v, node, v4);
    var i, r := R.Find(v, node), R.RemoveRule(v, node, v4);
    if R.DropsEntry(v, node, v4) {
      R.DroppedIsGone(v, node, v4);
      assert v[i] in v;
    } else if i < |v| {
      assert r[i] in r && r[i].uid == node && v[i] in v;
    }
  }

  /** A list edit for another node leaves this node's entries as they are. */
  lemma JoinKeepsOthers(v: seq<R.Virtual>, edit: R.Edit, node: string)
    requires edit.Join? && edit.node != node
    ensures R.Mentions(R.Apply(v, edit), node) <==> R.Mentions(v, node)
  {
    var r, i := R.Apply(v, edit), R.Find(v, edit.node);
    forall j | 0 <= j < |v|
      ensures r[j].uid == v[j].uid && r[j] in r && v[j] in v
    {
    }
  }

  lemma LeaveKeepsOthers(v: seq<R.Virtual>, edit: R.Edit, node: string)
    requires edit.Leave? && edit.leaver != node
    ensures R.Mentions(R.Apply(v, edit), node) <==> R.Mentions(v, node)
  {
    var s := R.Strip(v, edit.leaver, edit.v4);
    FilterMember(s, R.NotEmptied(edit.leaver));
    forall j | 0 <= j < |v|
      ensures s[j].uid == v[j].uid && s[j] in s && v[j] in v
    {
    }
  }

  lemma RulesStayWellFormed(t: Target, w: World, op: Op)
    requires R.WellFormed(w.rules)
    ensures R.WellFormed(Perform(t, w, op).rules)
  {
    match op
    case Inject(tun, headers, _) =>
      var ports := PortsOf(w.load.containers);
      if R.AddRule(w.rules, t.node, tun, headers, ports).Done? {
        R.AddKeepsWellFormed(w.rules, t.node, tun, headers, ports);
      }
    case Leave(v4, _) => R.RemoveKeepsWellFormed(w.rules, t.node, v4);
    case Elsewhere(Join(node, tun, headers, ports)) =>
      if R.AddRule(w.rules, node, tun, headers, ports).Done? {
        R.AddKeepsWellFormed(w.rules, node, tun, headers, ports);
      }
    case Elsewhere(Leave(node, v4)) => R.RemoveKeepsWellFormed(w.rules, node, v4);
  }

  /** What a call may be: anything on this workload, rule edits for others. */
  predicate Proper(t: Target, op: Op) {
    op.Elsewhere? ==> (if op.edit.Join? then op.edit.node else op.edit.leaver) != t.node
  }

  lemma ElsewhereKeepsRule(t: Target, rules: seq<R.Virtual>, edit: R.Edit)
    requires R.WellFormed(rules) && Proper(t, Elsewhere(edit))
    ensures HasRule(t, R.Apply(rules, edit)) == HasRule(t, rules)
  {
    RulesStayWellFormed(t, World(rules, Plain([])), Elsewhere(edit));
    R.MentionedHasRules(rules, t.node);
    R.MentionedHasRules(R.Apply(rules, edit), t.node);
    if edit.Join? {
      JoinKeepsOthers(rules, edit, t.node);
    } else {
      LeaveKeepsOthers(rules, edit, t.node);
    }
  }

  lemma PerformKeepsForm(t: Target, w: World, op: Op, cs: seq<Container>)
    requires NoSidecar(cs) && Proper(t, op) && InForm(t, w, cs)
    ensures InForm(t, Perform(t, w, op), cs)
  {
    RulesStayWellFormed(t, w, op);
    R.MentionedHasRules(w.rules, t.node);
    R.MentionedHasRules(Perform(t, w, op).rules, t.node);
    InjectTurnsPlain(t, cs);
    SidecarsAreNamed(t, cs);
    LeaveTurnsInjected(t, cs);
    match op
    case Inject(tun, headers, _) =>
      var ports := PortsOf(w.load.containers);
      if R.AddRule(w.rules, t.node, tun, headers, ports).Done? {
        AddedIsMentioned(w.rules, t.node, tun, headers, ports);
      }
    case Leave(v4, _) => RemovedIsMentioned(w.rules, t.node, v4);
    case Elsewhere(edit) => ElsewhereKeepsRule(t, w.rules, edit);
  }

  ghost function PerformAll(t: Target, w: World, ops: seq<Op>): World {
    if ops == [] then w else Perform(t, PerformAll(t, w, ops[..|ops| - 1]), ops[|ops| - 1])
  }

  /** Over every run of injects and leaves, of this workload and of others, the template is in injected
      form exactly while the node has a rule, and is the original, probes and all, when it has none. */
  lemma {:induction false} EveryRunKeepsForm(t: Target, others: seq<R.Virtual>, cs: seq<Container>, ops: seq<Op>)
    requires R.WellFormed(others) && R.RulesOf(others, t.node) == []
    requires NoSidecar(cs) && forall op | op in ops :: Proper(t, op)
    ensures InForm(t, PerformAll(t, World(others, Plain(cs)), ops), cs)
  {
    if ops != [] {
      assert ops[|ops| - 1] in ops;
      assert forall op | op in ops[..|ops| - 1] :: op in ops;
      EveryRunKeepsForm(t, others, cs, ops[..|ops| - 1]);
      PerformKeepsForm(t, PerformAll(t, World(others, Plain(cs)), ops[..|ops| - 1]), ops[|ops| - 1], cs);
    }
  }

  // ---- The ports in the rule list ----

  /** The node's entry, if there is one, has the ports of these containers. */
  ghost predicate Recorded(t: Target, rules: seq<R.Virtual>, cs: seq<Container>) {
    forall x | x in rules && x.uid == t.node :: x.ports == PortsOf(cs)
  }

  /** The first inject of a node adds an entry with the ports of all the workload's containers, in order, or none
      when they have none. */
  lemma FirstInjectRecordsPorts(t: Target, w: World, tun: R.Tun, headers: R.Headers, p: R.Port)
    requires !R.Mentions(w.rules, t.node)
    ensures var w1, cs := Perform(t, w, Inject(tun, headers, true)), w.load.containers;
            && |w1.rules| == |w.rules| + 1 && w.rules <= w1.rules
            && var x := w1.rules[|w.rules|];
               && x.uid == t.node && x.rules == [R.Rule(headers, tun)]
               && (x.ports.None? <==> forall c | c in cs :: c.ports == [])
               && (x.ports.Some? ==> x.ports.value == AllPorts(cs))
               && (x.ports.Some? && p in x.ports.value <==> exists c | c in cs :: p in c.ports)
  {
    var cs := w.load.containers;
    assert R.Find(w.rules, t.node) == |w.rules|;
    R.AddRulePanics(w.rules, t.node, tun, headers, PortsOf(cs));
    R.JoinChangesEntries(w.rules, t.node, tun, headers, PortsOf(cs));
    AllPortsHas(cs, p);
    NoPortsIff(cs);
  }

  lemma {:induction false} StrippedKeepsPorts(cs: seq<Container>)
    ensures AllPorts(Stripped(cs)) == AllPorts(cs)
  {
    if cs != [] {
      var n := |cs| - 1;
      StrippedKeepsPorts(cs[..n]);
      assert Stripped(cs)[..n] == Stripped(cs[..n]);
    }
  }

  /** The sidecars have no ports of their own. */
  lemma InjectedKeepsPorts(t: Target, cs: seq<Container>)
    ensures PortsOf(Injected(t, cs).containers) == PortsOf(cs)
  {
    var s := Sidecars(t.node);
    AllPortsAppend(Stripped(cs), s);
    StrippedKeepsPorts(cs);
    assert forall c | c in s :: c.ports == [];
    NoPortsIff(s);
    assert AllPorts(Stripped(cs)) + [] == AllPorts(cs);
    assert Injected(t, cs).containers == Stripped(cs) + s;
  }

  lemma JoinKeepsRecorded(t: Target, rules: seq<R.Virtual>, node: string, tun: R.Tun, headers: R.Headers,
                          ports: Option<seq<R.Port>>, cs: seq<Container>)
    requires Recorded(t, rules, cs) && (node == t.node ==> ports == PortsOf(cs))
    requires R.AddRule(rules, node, tun, headers, ports).Done?
    ensures Recorded(t, R.AddRule(rules, node, tun, headers, ports).value, cs)
  {
    var after := R.AddRule(rules, node, tun, headers, ports).value;
    R.JoinChangesEntries(rules, node, tun, headers, ports);
    forall x | x in after && x.uid == t.node ensures x.ports == PortsOf(cs) {
      var i :| 0 <= i < |after| && after[i] == x;
      if i < |rules| {
        assert rules[i] in rules && rules[i].uid == x.uid;
      }
    }
  }

  lemma LeaveKeepsRecorded(t: Target, rules: seq<R.Virtual>, node: string, v4: string, cs: seq<Container>)
    requires Recorded(t, rules, cs)
    ensures Recorded(t, R.RemoveRule(rules, node, v4), cs)
  {
    var s := R.Strip(rules, node, v4);
    FilterMember(s, R.NotEmptied(node));
    forall x | x in s && x.uid == t.node ensures x.ports == PortsOf(cs) {
      var i :| 0 <= i < |s| && s[i] == x;
      assert rules[i] in rules;
    }
  }

  lemma DecideKeepsRecorded(t: Target, rules: seq<R.Virtual>, seen: Workload, op: Op, cs: seq<Container>)
    requires Recorded(t, rules, cs) && Proper(t, op) && PortsOf(seen.containers) == PortsOf(cs)
    ensures Recorded(t, Decide(t, rules, seen, op).0, cs)
  {
    match op
    case Inject(tun, headers, _) =>
      if R.AddRule(rules, t.node, tun, headers, PortsOf(cs)).Done? {
        JoinKeepsRecorded(t, rules, t.node, tun, headers, PortsOf(cs), cs);
      }
    case Leave(v4, _) => LeaveKeepsRecorded(t, rules, t.node, v4, cs);
    case Elsewhere(Join(node, tun, headers, ports)) =>
      if R.AddRule(rules, node, tun, headers, ports).Done? {
        JoinKeepsRecorded(t, rules, node, tun, headers, ports, cs);
      }
    case Elsewhere(Leave(node, v4)) => LeaveKeepsRecorded(t, rules, node, v4, cs);
  }

  // ---- When the original cannot be restored ----

  lemma AssignedKeepsNames(cs: seq<Container>, path: seq<string>, ps: seq<P>)
    requires NoSidecar(cs)
    ensures NoSidecar(Assigned(cs, path, ps))
  {
    forall c | c in Assigned(cs, path, ps)
      ensures !IsSidecar(c)
    {
      var i :| 0 <= i < |cs| && Assigned(cs, path, ps)[i] == c;
      assert cs[i] in cs;
    }
  }

  lemma LeavePatchHasNoSidecar(t: Target, seen: Workload)
    ensures NoSidecar(Patched(t, Plain([]), LeavePatch(t, seen)).containers)
  {
    var cs := Filter(seen.containers, NotSidecar());
    FilterMember(seen.containers, NotSidecar());
    if seen.restore.Some? {
      AssignedKeepsNames(cs, t.path, seen.restore.value);
    }
    AssignedKeepsNames(LeavePatch(t, seen).spec, t.path, []);
  }

  lemma FirstRule(node: string, ports: Option<seq<R.Port>>, headers: R.Headers, a: R.Tun)
    ensures R.AddRule([], node, a, headers, ports) == R.Done([R.Virtual(node, ports, [R.Rule(headers, a)])])
  {
    var none: seq<R.Virtual> := [];
    var first := [R.Virtual(node, ports, [R.Rule(headers, a)])];
    assert R.Find(none, node) == 0 && none + first == first;
  }

  lemma OnlyRuleDropped(node: string, ports: Option<seq<R.Port>>, headers: R.Headers, a: R.Tun)
    ensures var rules := [R.Virtual(node, ports, [R.Rule(headers, a)])];
            R.DropsEntry(rules, node, a.v4) && R.RemoveRule(rules, node, a.v4) == []
  {
    var x := R.Virtual(node, ports, [R.Rule(headers, a)]);
    var s := R.Strip([x], node, a.v4);
    FilterDropsAll(x.rules, R.NotFrom(a.v4));
    assert s[0].rules == [] && s[0] in s && !R.NotEmptied(node)(s[0]);
    FilterDropsAll(s, R.NotEmptied(node));
  }

  /** Injecting and leaving gives back the original containers exactly when none of them already had
      the name of a sidecar. */
  lemma RestoresExactlyWithoutSidecars(t: Target, cs: seq<Container>, tun: R.Tun, headers: R.Headers)
    ensures var w1 := Perform(t, World([], Plain(cs)), Inject(tun, headers, true));
            var w2 := Perform(t, w1, Leave(tun.v4, true));
            w2.load.containers == cs <==> NoSidecar(cs)
  {
    FirstRule(t.node, PortsOf(cs), headers, tun);
    OnlyRuleDropped(t.node, PortsOf(cs), headers, tun);
    var w1 := Perform(t, World([], Plain(cs)), Inject(tun, headers, true));
    var w2 := Perform(t, w1, Leave(tun.v4, true));
    LeavePatchHasNoSidecar(t, w1.load);
    assert NoSidecar(w2.load.containers);
    if NoSidecar(cs) {
      InjectTurnsPlain(t, cs);
      LeaveTurnsInjected(t, cs);
    }
  }

  /** On a workload that has no annotations the patch is refused: the rule is there, the sidecars are not. */
  lemma InjectsExactlyWhenAnnotated(t: Target, cs: seq<Container>, annotated: bool, tun: R.Tun, headers: R.Headers)
    requires NoSidecar(cs)
    ensures var w1 := Perform(t, World([], Workload(annotated, None, cs)), Inject(tun, headers, true));
            HasRule(t, w1.rules) && w1.load == if annotated then Injected(t, cs) else Workload(false, None, cs)
  {
    FirstRule(t.node, PortsOf(cs), headers, tun);
    InjectTurnsPlain(t, cs);
    assert InjectPatch(t, Workload(annotated, None, cs)) == InjectPatch(t, Plain(cs));
  }

  /** Over every run a workload without annotations stays as it is, whatever rules come and go: it has the
      containers it should have exactly while the node has no rule. */
  lemma {:induction false} UnannotatedNeverChanges(t: Target, others: seq<R.Virtual>, cs: seq<Container>, ops: seq<Op>)
    ensures var load := Workload(false, None, cs);
            var w := PerformAll(t, World(others, load), ops);
            && w.load == load
            && (w.load.containers == (if HasRule(t, w.rules) then Injected(t, cs).containers else cs)
                <==> !HasRule(t, w.rules))
  {
    if ops != [] {
      UnannotatedNeverChanges(t, others, cs, ops[..|ops| - 1]);
    }
    assert |Injected(t, cs).containers| == |cs| + 2;
  }

  /** Once the rules are gone no leave touches the workload: a restore that failed is not tried again. */
  lemma NoRuleNoRestore(t: Target, w: World, v4: string, commits: bool)
    requires R.WellFormed(w.rules) && R.RulesOf(w.rules, t.node) == []
    ensures Perform(t, w, Leave(v4, commits)) == w
  {
    R.MentionedHasRules(w.rules, t.node);
    R.RemoveAtOneEntry(w.rules, t.node, v4);
  }

  lemma {:induction false} LeavesChangeNothing(t: Target, w: World, ops: seq<Op>)
    requires R.WellFormed(w.rules) && !HasRule(t, w.rules) && forall op | op in ops :: op.Leave?
    ensures PerformAll(t, w, ops) == w
  {
    if ops != [] {
      var last := ops[|ops| - 1];
      assert last in ops;
      assert forall op | op in ops[..|ops| - 1] :: op in ops;
      LeavesChangeNothing(t, w, ops[..|ops| - 1]);
      NoRuleNoRestore(t, w, last.v4, last.commits);
    }
  }

  lemma FirstInjectAddsRule(t: Target, w: World, cs: seq<Container>, b: R.Tun, headers: R.Headers)
    requires R.WellFormed(w.rules) && !HasRule(t, w.rules) && w.load == Injected(t, cs)
    ensures var w1 := Perform(t, w, Inject(b, headers, true));
            R.WellFormed(w1.rules) && R.RulesOf(w1.rules, t.node) == [R.Rule(headers, b)] && w1.load == w.load
  {
    var ports := PortsOf(w.load.containers);
    R.AddRulePanics(w.rules, t.node, b, headers, ports);
    R.AddKeepsWellFormed(w.rules, t.node, b, headers, ports);
    R.JoinChangesOwnRule(w.rules, t.node, b, headers, ports, t.node);
    SidecarsAreNamed(t, cs);
  }

  lemma OnlyUserLeaves(t: Target, w: World, cs: seq<Container>, b: R.Tun, headers: R.Headers)
    requires NoSidecar(cs) && R.WellFormed(w.rules) && w.load == Injected(t, cs)
    requires R.RulesOf(w.rules, t.node) == [R.Rule(headers, b)]
    ensures Perform(t, w, Leave(b.v4, true)).load == Plain(cs)
  {
    R.DropsOneEntry(w.rules, t.node, b.v4);
    FilterDropsAll([R.Rule(headers, b)], R.NotFrom(b.v4));
    LeaveTurnsInjected(t, cs);
  }

  /** The next inject of a workload left with sidecars and no rule puts it in form, and the leave after it
      restores the original. */
  lemma NextUserHeals(t: Target, w: World, cs: seq<Container>, b: R.Tun, headers: R.Headers)
    requires NoSidecar(cs) && R.WellFormed(w.rules) && !HasRule(t, w.rules) && w.load == Injected(t, cs)
    ensures var w1 := Perform(t, w, Inject(b, headers, true));
            HasRule(t, w1.rules) && InForm(t, w1, cs) && Perform(t, w1, Leave(b.v4, true)).load == Plain(cs)
  {
    FirstInjectAddsRule(t, w, cs, b, headers);
    OnlyUserLeaves(t, Perform(t, w, Inject(b, headers, true)), cs, b, headers);
  }
}
