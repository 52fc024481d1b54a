/** Calls of Injection that overlap: each reads the workload first, then changes the rules, and patches the
    workload last (pkg/handler/envoy.go). */
module OverlappingCalls {
  import opened Lists
  import opened Containers
  import opened Injection
  import R = MeshRules

  /** A call under way: it has read the workload, or it has changed the rules and has its patch to send.
      ruled notes whether the node had a rule right after its decision. */
  datatype Call =
    | Fetched(op: Op, seen: Workload)
    | Deciding(op: Op, patch: Option<JsonPatch>, ruled: bool)

  /** settled notes what ruled was for the call whose patch arrived last. */
  datatype Live = Live(w: World, calls: map<nat, Call>, settled: bool)

  datatype Step = Fetch(id: nat, op: Op) | Decision(id: nat) | Send(id: nat, ok: bool)

  predicate Enabled(l: Live, s: Step) {
    match s
    case Fetch(id, _) => id !in l.calls
    case Decision(id) => id in l.calls && l.calls[id].Fetched?
    case Send(id, _) => id in l.calls && l.calls[id].Deciding?
  }

  ghost function After(t: Target, l: Live, s: Step): Live
    requires Enabled(l, s)
  {
    match s
    case Fetch(id, op) => l.(calls := l.calls[id := Fetched(op, l.w.load)])
    case Decision(id) =>
      var c := l.calls[id];
      var (rules, p) := Decide(t, l.w.rules, c.seen, c.op);
      l.(w := l.w.(rules := rules), calls := l.calls[id := Deciding(c.op, p, HasRule(t, rules))])
    case Send(id, ok) =>
      var c := l.calls[id];
      if ok && c.patch.Some? then Live(l.w.(load := Patched(t, l.w.load, c.patch.value)), l.calls - {id}, c.ruled)
      else l.(calls := l.calls - {id})
  }

  ghost function Run(t: Target, l: Live, steps: seq<Step>): Option<Live> {
    if steps == [] then Some(l)
    else
      var r := Run(t, l, steps[..|steps| - 1]);
      if r.Some? && Enabled(r.value, steps[|steps| - 1]) then Some(After(t, r.value, steps[|steps| - 1])) else None
  }

  ghost predicate IsForm(t: Target, load: Workload, cs: seq<Container>) {
    load == Plain(cs) || load == Injected(t, cs)
  }

  /** Delivered to an annotated workload the patch gives one of its two forms. */
  ghost predicate GoodPatch(t: Target, p: JsonPatch, cs: seq<Container>) {
    && |p.clears| <= 3 * |p.spec|
    && Workload(true, p.restore, Assigned(p.spec, t.path, p.clears)) ==
       if p.restore.Some? then Injected(t, cs) else Plain(cs)
  }

  ghost predicate GoodCall(t: Target, c: Call, cs: seq<Container>) {
    match c
    case Fetched(_, seen) => IsForm(t, seen, cs)
    case Deciding(_, p, _) => p.Some? ==> GoodPatch(t, p.value, cs)
  }

  ghost predicate Unmangled(t: Target, l: Live, cs: seq<Container>) {
    IsForm(t, l.w.load, cs) && forall id | id in l.calls :: GoodCall(t, l.calls[id], cs)
  }

  lemma InjectIsGood(t: Target, seen: Workload, cs: seq<Container>)
    requires NoSidecar(cs) && IsForm(t, seen, cs) && InjectPatch(t, seen).Some?
    ensures GoodPatch(t, InjectPatch(t, seen).value, cs)
  {
    SidecarsAreNamed(t, cs);
    assert seen == Plain(cs);
    InjectTurnsPlain(t, cs);
  }

  lemma LeaveIsGood(t: Target, seen: Workload, cs: seq<Container>)
    requires NoSidecar(cs) && IsForm(t, seen, cs)
    ensures GoodPatch(t, LeavePatch(t, seen), cs)
  {
    if seen == Plain(cs) {
      FilterKeepsAll(cs, NotSidecar());
      assert Assigned(cs, t.path, []) == cs;
    } else {
      LeaveTurnsInjected(t, cs);
    }
  }

  lemma DecisionIsGood(t: Target, rules: seq<R.Virtual>, seen: Workload, op: Op, ruled: bool, cs: seq<Container>)
    requires NoSidecar(cs) && IsForm(t, seen, cs)
    ensures GoodCall(t, Deciding(op, Decide(t, rules, seen, op).1, ruled), cs)
  {
    LeaveIsGood(t, seen, cs);
    if InjectPatch(t, seen).Some? {
      InjectIsGood(t, seen, cs);
    }
  }

  lemma StepKeepsUnmangled(t: Target, l: Live, s: Step, cs: seq<Container>)
    requires NoSidecar(cs) && Unmangled(t, l, cs) && Enabled(l, s)
    ensures Unmangled(t, After(t, l, s), cs)
  {
    if s.Decision? {
      var c := l.calls[s.id];
      var l2 := After(t, l, s);
      DecisionIsGood(t, l.w.rules, c.seen, c.op, l2.calls[s.id].ruled, cs);
    }
  }

  /** However calls overlap and whichever patches fail, the template is always the original or its
      injected form: no interleaving loses a container or a probe. */
  lemma {:induction false} NeverMangled(t: Target, cs: seq<Container>, start: Live, steps: seq<Step>)
    requires NoSidecar(cs) && Unmangled(t, start, cs) && Run(t, start, steps).Some?
    ensures Unmangled(t, Run(t, start, steps).value, cs)
  {
    if steps != [] {
      NeverMangled(t, cs, start, steps[..|steps| - 1]);
      StepKeepsUnmangled(t, Run(t, start, steps[..|steps| - 1]).value, steps[|steps| - 1], cs);
    }
  }

  ghost predicate AllProper(t: Target, l: Live) {
    forall id | id in l.calls :: Proper(t, l.calls[id].op)
  }

  lemma StepKeepsRecorded(t: Target, l: Live, s: Step, cs: seq<Container>)
    requires Unmangled(t, l, cs) && AllProper(t, l) && Recorded(t, l.w.rules, cs) && Enabled(l, s)
    ensures Recorded(t, After(t, l, s).w.rules, cs)
  {
    if s.Decision? {
      var c := l.calls[s.id];
      assert GoodCall(t, c, cs);
      InjectedKeepsPorts(t, cs);
      DecideKeepsRecorded(t, l.w.rules, c.seen, c.op, cs);
    }
  }

  /** Over every interleaving, whatever form of the workload each inject found, the node's entry has the ports
      of the workload's own containers, as long as it has an entry. */
  lemma {:induction false} OverlapRecordsPorts(t: Target, cs: seq<Container>, start: Live, steps: seq<Step>)
    requires NoSidecar(cs) && Unmangled(t, start, cs) && AllProper(t, start) && Recorded(t, start.w.rules, cs)
    requires Run(t, start, steps).Some? && forall s | s in steps && s.Fetch? :: Proper(t, s.op)
    ensures var l := Run(t, start, steps).value; AllProper(t, l) && Recorded(t, l.w.rules, cs)
  {
    if steps != [] {
      var init, s := steps[..|steps| - 1], steps[|steps| - 1];
      assert s in steps && forall x | x in init :: x in steps;
      OverlapRecordsPorts(t, cs, start, init);
      NeverMangled(t, cs, start, init);
      StepKeepsRecorded(t, Run(t, start, init).value, s, cs);
    }
  }

  // ---- Exactly when the form is right under overlap ----

  /** A patch says what the rules were when it was decided on, and the form what the last patch said. */
  ghost predicate Tracked(t: Target, l: Live, cs: seq<Container>) {
    && R.WellFormed(l.w.rules) && Unmangled(t, l, cs)
    && l.w.load == (if l.settled then Injected(t, cs) else Plain(cs))
    && forall id | id in l.calls && l.calls[id].Deciding? && l.calls[id].patch.Some? ::
         l.calls[id].patch.value.restore.Some? == l.calls[id].ruled
  }

  /** An inject sends its patch when the node has a rule, the last leave when it has none. */
  lemma PatchMatchesRules(t: Target, rules: seq<R.Virtual>, seen: Workload, op: Op)
    requires R.WellFormed(rules)
    ensures var (after, p) := Decide(t, rules, seen, op);
            R.WellFormed(after) && (p.Some? ==> p.value.restore.Some? == HasRule(t, after))
  {
    RulesStayWellFormed(t, World(rules, seen), op);
    R.MentionedHasRules(Decide(t, rules, seen, op).0, t.node);
    match op
    case Inject(tun, headers, _) =>
      if R.AddRule(rules, t.node, tun, headers, PortsOf(seen.containers)).Done? {
        AddedIsMentioned(rules, t.node, tun, headers, PortsOf(seen.containers));
      }
    case Leave(v4, _) => RemovedIsMentioned(rules, t.node, v4);
    case Elsewhere(_) =>
  }

  lemma StepKeepsTracked(t: Target, l: Live, s: Step, cs: seq<Container>)
    requires NoSidecar(cs) && Tracked(t, l, cs) && Enabled(l, s)
    ensures Tracked(t, After(t, l, s), cs)
  {
    StepKeepsUnmangled(t, l, s, cs);
    match s
    case Fetch(_, _) =>
    case Decision(id) => PatchMatchesRules(t, l.w.rules, l.calls[id].seen, l.calls[id].op);
    case Send(id, _) => assert GoodCall(t, l.calls[id], cs);
  }

  /** Over every interleaving, failed patches included: the template is injected exactly while the node has
      a rule, if and only if the node has a rule now just as it had right after the decision of the call
      whose patch arrived last. */
  lemma {:induction false} OverlapKeepsFormIff(t: Target, cs: seq<Container>, start: Live, steps: seq<Step>)
    requires NoSidecar(cs) && Tracked(t, start, cs) && Run(t, start, steps).Some?
    ensures var l := Run(t, start, steps).value;
            Tracked(t, l, cs) && (InForm(t, l.w, cs) <==> l.settled == HasRule(t, l.w.rules))
  {
    if steps != [] {
      OverlapKeepsFormIff(t, cs, start, steps[..|steps| - 1]);
      StepKeepsTracked(t, Run(t, start, steps[..|steps| - 1]).value, steps[|steps| - 1], cs);
    }
    FormsDiffer(t, cs);
  }

  lemma FormsDiffer(t: Target, cs: seq<Container>)
    ensures Plain(cs) != Injected(t, cs)
  {
    assert Plain(cs).restore != Injected(t, cs).restore;
  }

  /** A patch that arrives sets the form right exactly when it is an inject's and the node has a rule now, or
      a leave's and it has none. */
  lemma SendKeepsFormIff(t: Target, l: Live, id: nat, cs: seq<Container>)
    requires NoSidecar(cs) && Tracked(t, l, cs) && Enabled(l, Send(id, true)) && l.calls[id].patch.Some?
    ensures InForm(t, After(t, l, Send(id, true)).w, cs) <==>
            (l.calls[id].patch.value.restore.Some? <==> HasRule(t, l.w.rules))
  {
    assert GoodCall(t, l.calls[id], cs);
    FormsDiffer(t, cs);
  }

  // ---- Runs that keep the form ----

  ghost predicate Pending(l: Live, id: nat) {
    id in l.calls && l.calls[id].Deciding? && l.calls[id].patch.Some?
  }

  /** An inject that found the sidecars, which have been taken out since. */
  predicate Stale(t: Target, c: Call, load: Workload)
    requires c.Fetched?
  {
    c.op.Inject? && InjectPatch(t, c.seen).None? && InjectPatch(t, load).Some?
  }

  /** No patch fails. A call changes this node's rules only while no patch is on its way, and an inject not
      after the sidecars it found have gone. */
  ghost predicate Orderly(t: Target, l: Live, s: Step)
    requires Enabled(l, s)
  {
    match s
    case Fetch(_, op) => Proper(t, op)
    case Decision(id) =>
      l.calls[id].op.Elsewhere? || ((forall other :: !Pending(l, other)) && !Stale(t, l.calls[id], l.w.load))
    case Send(_, ok) => ok
  }

  /** At most one patch is on its way, and it, or else the form, is right for the rules. */
  ghost predicate Agreeing(t: Target, l: Live) {
    && (forall id, other | Pending(l, id) && Pending(l, other) :: id == other)
    && (forall id | Pending(l, id) :: l.calls[id].ruled == HasRule(t, l.w.rules))
    && ((forall id :: !Pending(l, id)) ==> l.settled == HasRule(t, l.w.rules))
  }

  ghost predicate Ordered(t: Target, l: Live, cs: seq<Container>) {
    Tracked(t, l, cs) && Agreeing(t, l) && forall id | id in l.calls :: Proper(t, l.calls[id].op)
  }

  /** A decision without a patch leaves the node with a rule or without, as it was: from a workload in form,
      unless an inject relies on sidecars that have gone. */
  lemma QuietDecision(t: Target, w: World, c: Call, cs: seq<Container>)
    requires NoSidecar(cs) && InForm(t, w, cs) && c.Fetched? && IsForm(t, c.seen, cs) && Proper(t, c.op)
    requires Decide(t, w.rules, c.seen, c.op).1.None?
    ensures HasRule(t, Decide(t, w.rules, c.seen, c.op).0) != HasRule(t, w.rules) <==>
            Stale(t, c, w.load) && c.op.commits
  {
    var after := Decide(t, w.rules, c.seen, c.op).0;
    RulesStayWellFormed(t, World(w.rules, c.seen), c.op);
    R.MentionedHasRules(w.rules, t.node);
    R.MentionedHasRules(after, t.node);
    InjectTurnsPlain(t, cs);
    SidecarsAreNamed(t, cs);
    match c.op
    case Inject(tun, headers, _) =>
      var ports := PortsOf(c.seen.containers);
      R.AddRulePanics(w.rules, t.node, tun, headers, ports);
      if R.AddRule(w.rules, t.node, tun, headers, ports).Done? {
        AddedIsMentioned(w.rules, t.node, tun, headers, ports);
      }
    case Leave(v4, _) => RemovedIsMentioned(w.rules, t.node, v4);
    case Elsewhere(edit) => ElsewhereKeepsRule(t, w.rules, edit);
  }

  /** A decision made while no patch is on its way, or one that concerns other nodes. */
  lemma AgreeingAfterDecision(t: Target, l: Live, l2: Live, id: nat, c: Call)
    requires Agreeing(t, l) && c.Deciding? && !Pending(l, id)
    requires l2.calls == l.calls[id := c] && l2.settled == l.settled && c.ruled == HasRule(t, l2.w.rules)
    requires c.patch.None? ==> c.ruled == HasRule(t, l.w.rules)
    requires c.patch.Some? ==> forall other :: !Pending(l, other)
    ensures Agreeing(t, l2)
  {
    assert forall other | other != id :: Pending(l2, other) <==> Pending(l, other);
    assert Pending(l2, id) <==> c.patch.Some?;
  }

  lemma AgreeingAfterSend(t: Target, l: Live, l2: Live, id: nat)
    requires Agreeing(t, l) && id in l.calls && l.calls[id].Deciding?
    requires l2.calls == l.calls - {id} && l2.w.rules == l.w.rules
    requires l2.settled == if l.calls[id].patch.Some? then l.calls[id].ruled else l.settled
    ensures Agreeing(t, l2)
  {
    assert forall other | other != id :: Pending(l2, other) <==> Pending(l, other);
    assert Pending(l, id) <==> l.calls[id].patch.Some?;
    assert !Pending(l2, id);
  }

  lemma DecisionKeepsAgreeing(t: Target, l: Live, id: nat, cs: seq<Container>)
    requires NoSidecar(cs) && Ordered(t, l, cs) && Enabled(l, Decision(id)) && Orderly(t, l, Decision(id))
    ensures Agreeing(t, After(t, l, Decision(id)))
  {
    var c, l2 := l.calls[id], After(t, l, Decision(id));
    if c.op.Elsewhere? {
      ElsewhereKeepsRule(t, l.w.rules, c.op.edit);
    } else if Decide(t, l.w.rules, c.seen, c.op).1.None? {
      assert GoodCall(t, c, cs);
      QuietDecision(t, l.w, c, cs);
    }
    AgreeingAfterDecision(t, l, l2, id, l2.calls[id]);
  }

  lemma StepKeepsOrdered(t: Target, l: Live, s: Step, cs: seq<Container>)
    requires NoSidecar(cs) && Ordered(t, l, cs) && Enabled(l, s) && Orderly(t, l, s)
    ensures Ordered(t, After(t, l, s), cs)
  {
    var l2 := After(t, l, s);
    StepKeepsTracked(t, l, s, cs);
    match s
    case Decision(id) => DecisionKeepsAgreeing(t, l, id, cs);
    case Fetch(id, _) => assert forall other :: Pending(l2, other) <==> Pending(l, other);
    case Send(id, _) => AgreeingAfterSend(t, l, l2, id);
  }

  ghost predicate OrderlyRun(t: Target, start: Live, steps: seq<Step>) {
    steps == [] ||
    var init, s := steps[..|steps| - 1], steps[|steps| - 1];
    OrderlyRun(t, start, init) &&
    (Run(t, start, init).Some? && Enabled(Run(t, start, init).value, s) ==> Orderly(t, Run(t, start, init).value, s))
  }

  /** Over every orderly run, overlapping or not, the template is injected exactly while the node has a rule,
      whenever no patch is on its way. */
  lemma {:induction false} OrderlyRunKeepsForm(t: Target, cs: seq<Container>, start: Live, steps: seq<Step>)
    requires NoSidecar(cs) && Ordered(t, start, cs) && Run(t, start, steps).Some? && OrderlyRun(t, start, steps)
    ensures var l := Run(t, start, steps).value;
            Ordered(t, l, cs) && ((forall id :: !Pending(l, id)) ==> InForm(t, l.w, cs))
  {
    if steps != [] {
      OrderlyRunKeepsForm(t, cs, start, steps[..|steps| - 1]);
      StepKeepsOrdered(t, Run(t, start, steps[..|steps| - 1]).value, steps[|steps| - 1], cs);
    }
  }

  /** Decided at once and delivered, a call leaves a workload that was in form in form, exactly unless it is an
      inject that found the sidecars before a leave took them out. */
  lemma PromptCallKeepsFormIff(t: Target, l: Live, id: nat, cs: seq<Container>)
    requires NoSidecar(cs) && Tracked(t, l, cs) && InForm(t, l.w, cs) && Enabled(l, Decision(id))
    requires Proper(t, l.calls[id].op)
    ensures var c, l1 := l.calls[id], After(t, l, Decision(id));
            InForm(t, After(t, l1, Send(id, true)).w, cs) <==> !(Stale(t, c, l.w.load) && c.op.commits)
  {
    var c, l1 := l.calls[id], After(t, l, Decision(id));
    FormsDiffer(t, cs);
    assert GoodCall(t, c, cs);
    StepKeepsTracked(t, l, Decision(id), cs);
    if l1.calls[id].patch.Some? {
      SendKeepsFormIff(t, l1, id, cs);
      PatchedIsNotStale(t, l.w.rules, c, l.w.load);
    } else {
      QuietDecision(t, l.w, c, cs);
    }
  }

  lemma PatchedIsNotStale(t: Target, rules: seq<R.Virtual>, c: Call, load: Workload)
    requires c.Fetched? && Decide(t, rules, c.seen, c.op).1.Some?
    ensures !Stale(t, c, load)
  {
  }

  // ---- Calls that do not overlap ----

  /** A call to this workload begins only when no other one is under way; no patch fails. */
  ghost predicate Apart(t: Target, l: Live, s: Step) {
    match s
    case Fetch(_, op) => Proper(t, op) && (op.Elsewhere? || forall id | id in l.calls :: l.calls[id].op.Elsewhere?)
    case Decision(_) => true
    case Send(_, ok) => ok
  }

  /** One call to this workload at a time, and it has seen the workload as it is. */
  ghost predicate Single(t: Target, l: Live) {
    && (forall id, other | id in l.calls && other in l.calls &&
          !l.calls[id].op.Elsewhere? && !l.calls[other].op.Elsewhere? :: id == other)
    && (forall id | id in l.calls && l.calls[id].Fetched? && !l.calls[id].op.Elsewhere? :: l.calls[id].seen == l.w.load)
    && (forall id | id in l.calls && l.calls[id].Deciding? && l.calls[id].op.Elsewhere? :: l.calls[id].patch.None?)
  }

  lemma ApartIsOrderly(t: Target, l: Live, s: Step)
    requires Enabled(l, s) && Single(t, l) && Apart(t, l, s)
    ensures Orderly(t, l, s) && Single(t, After(t, l, s))
  {
  }

  ghost predicate ApartRun(t: Target, start: Live, steps: seq<Step>) {
    steps == [] ||
    var init := steps[..|steps| - 1];
    ApartRun(t, start, init) && (Run(t, start, init).Some? ==> Apart(t, Run(t, start, init).value, steps[|steps| - 1]))
  }

  /** The steps of calls that do not overlap keep the form: whenever no patch is on its way, and so whenever
      no call is under way, the template is injected exactly while the node has a rule. */
  lemma {:induction false} ApartRunKeepsForm(t: Target, cs: seq<Container>, start: Live, steps: seq<Step>)
    requires NoSidecar(cs) && Ordered(t, start, cs) && Single(t, start)
    requires Run(t, start, steps).Some? && ApartRun(t, start, steps)
    ensures var l := Run(t, start, steps).value;
            Ordered(t, l, cs) && Single(t, l) && (l.calls == map[] ==> InForm(t, l.w, cs))
  {
    if steps != [] {
      var l, s := Run(t, start, steps[..|steps| - 1]).value, steps[|steps| - 1];
      ApartRunKeepsForm(t, cs, start, steps[..|steps| - 1]);
      ApartIsOrderly(t, l, s);
      StepKeepsOrdered(t, l, s, cs);
    }
    assert Run(t, start, steps).value.calls == map[] ==> forall id :: !Pending(Run(t, start, steps).value, id);
  }

  lemma Extended(t: Target, start: Live, steps: seq<Step>, s: Step, l: Live) returns (steps2: seq<Step>, l2: Live)
    requires Run(t, start, steps) == Some(l) && Enabled(l, s)
    ensures steps2 == steps + [s] && l2 == After(t, l, s) && Run(t, start, steps2) == Some(l2)
  {
    assert (steps + [s])[..|steps|] == steps;
    steps2, l2 := steps + [s], After(t, l, s);
  }

  lemma ThreeSteps(t: Target, l: Live, id: nat, op: Op)
    requires id !in l.calls
    ensures var l1 := After(t, l, Fetch(id, op));
            Enabled(l1, Decision(id)) &&
            var l2 := After(t, l1, Decision(id));
            Enabled(l2, Send(id, true)) &&
            var l3 := After(t, l2, Send(id, true));
            l3.w == Perform(t, l.w, op) && l3.calls == l.calls
  {
    var l2 := After(t, After(t, l, Fetch(id, op)), Decision(id));
    assert l2.calls[id].patch == Decide(t, l.w.rules, l.w.load, op).1;
    assert l2.calls - {id} == l.calls;
  }

  /** Uninterrupted, the three steps of a call are the whole call, whatever else is under way. */
  lemma AloneIsPerform(t: Target, start: Live, steps: seq<Step>, l: Live, id: nat, op: Op)
    returns (steps2: seq<Step>, l2: Live)
    requires Run(t, start, steps) == Some(l) && id !in l.calls
    ensures steps2 == steps + [Fetch(id, op)] + [Decision(id)] + [Send(id, true)] && Run(t, start, steps2) == Some(l2)
    ensures l2.w == Perform(t, l.w, op) && l2.calls == l.calls
  {
    ThreeSteps(t, l, id, op);
    steps2, l2 := Extended(t, start, steps, Fetch(id, op), l);
    steps2, l2 := Extended(t, start, steps2, Decision(id), l2);
    steps2, l2 := Extended(t, start, steps2, Send(id, true), l2);
  }

  // ---- Runs that do not keep the form ----

  /** A workload with one user, in form and nobody busy. */
  function OneUser(t: Target, cs: seq<Container>, a: R.Tun, ports: Option<seq<R.Port>>): Live {
    Live(World([R.Virtual(t.node, ports, [R.Rule(None, a)])], Injected(t, cs)), map[], true)
  }

  lemma OnlyUserDecides(t: Target, cs: seq<Container>, a: R.Tun, ports: Option<seq<R.Port>>)
    returns (steps: seq<Step>, l: Live)
    ensures steps == [Fetch(0, Leave(a.v4, true)), Decision(0)] && Run(t, OneUser(t, cs, a, ports), steps) == Some(l)
    ensures l.w == World([], Injected(t, cs)) && l.settled
    ensures l.calls == map[0 := Deciding(Leave(a.v4, true), Some(LeavePatch(t, Injected(t, cs))), false)]
  {
    var start := OneUser(t, cs, a, ports);
    OnlyRuleDropped(t.node, ports, None, a);
    steps, l := Extended(t, start, [], Fetch(0, Leave(a.v4, true)), start);
    steps, l := Extended(t, start, steps, Decision(0), l);
  }

  /** A first user's leave overlapping a second user's inject can leave a rule without sidecars: the
      inject finds the sidecars still there and sends no patch, then the leave removes them. */
  lemma OverlapLeavesRuleBare(t: Target, cs: seq<Container>, a: R.Tun, b: R.Tun, ports: Option<seq<R.Port>>)
    returns (steps: seq<Step>, l: Live)
    requires NoSidecar(cs)
    ensures Run(t, OneUser(t, cs, a, ports), steps) == Some(l) && l.calls == map[]
    ensures R.RulesOf(l.w.rules, t.node) == [R.Rule(None, b)] && l.w.load == Plain(cs)
  {
    var start := OneUser(t, cs, a, ports);
    steps, l := OnlyUserDecides(t, cs, a, ports);
    FirstRule(t.node, PortsOf(Injected(t, cs).containers), None, b);
    SidecarsAreNamed(t, cs);
    LeaveTurnsInjected(t, cs);
    steps, l := AloneIsPerform(t, start, steps, l, 1, Inject(b, None, true));
    assert l.w.load == Injected(t, cs);
    steps, l := Extended(t, start, steps, Send(0, true), l);
    assert l.calls == map[];
  }

  /** So can an inject that only reads the workload before the leave's patch arrives and decides after it,
      although no decision then falls between another call's first and last step. */
  lemma StaleInjectLeavesRuleBare(t: Target, cs: seq<Container>, a: R.Tun, b: R.Tun, ports: Option<seq<R.Port>>)
    returns (steps: seq<Step>, l: Live)
    requires NoSidecar(cs)
    ensures steps == [Fetch(0, Leave(a.v4, true)), Decision(0), Fetch(1, Inject(b, None, true)), Send(0, true),
                      Decision(1), Send(1, true)]
    ensures Run(t, OneUser(t, cs, a, ports), steps) == Some(l) && l.calls == map[]
    ensures R.RulesOf(l.w.rules, t.node) == [R.Rule(None, b)] && l.w.load == Plain(cs)
  {
    var start := OneUser(t, cs, a, ports);
    steps, l := StaleFetch(t, cs, a, Inject(b, None, true), ports);
    DecidesOnSidecars(t, cs, l, b);
    steps, l := Extended(t, start, steps, Decision(1), l);
    steps, l := Extended(t, start, steps, Send(1, true), l);
  }

  lemma StaleFetch(t: Target, cs: seq<Container>, a: R.Tun, op: Op, ports: Option<seq<R.Port>>)
    returns (steps: seq<Step>, l: Live)
    requires NoSidecar(cs)
    ensures steps == [Fetch(0, Leave(a.v4, true)), Decision(0), Fetch(1, op), Send(0, true)]
    ensures Run(t, OneUser(t, cs, a, ports), steps) == Some(l)
    ensures l.w == World([], Plain(cs)) && l.calls == map[1 := Fetched(op, Injected(t, cs))]
  {
    var start := OneUser(t, cs, a, ports);
    steps, l := OnlyUserDecides(t, cs, a, ports);
    LeaveTurnsInjected(t, cs);
    steps, l := Extended(t, start, steps, Fetch(1, op), l);
    steps, l := Extended(t, start, steps, Send(0, true), l);
  }

  lemma DecidesOnSidecars(t: Target, cs: seq<Container>, l: Live, b: R.Tun)
    requires l.w == World([], Plain(cs)) && l.calls == map[1 := Fetched(Inject(b, None, true), Injected(t, cs))]
    ensures var l1 := After(t, l, Decision(1));
            && R.RulesOf(l1.w.rules, t.node) == [R.Rule(None, b)] && l1.w.load == Plain(cs)
            && l1.calls == map[1 := Deciding(Inject(b, None, true), None, true)]
  {
    FirstRule(t.node, PortsOf(Injected(t, cs).containers), None, b);
    SidecarsAreNamed(t, cs);
  }

  /** A last leave whose patch fails leaves the sidecars without a rule. No number of further leaves changes
      that. The next inject puts the workload back in form, and the leave after it restores the original. */
  lemma FailedRestoreWaitsForNextUser(
    t: Target, cs: seq<Container>, a: R.Tun, b: R.Tun, headers: R.Headers, ports: Option<seq<R.Port>>, leaves: seq<Op>)
    returns (steps: seq<Step>, l: Live)
    requires NoSidecar(cs) && forall op | op in leaves :: op.Leave?
    ensures Run(t, OneUser(t, cs, a, ports), steps) == Some(l) && l.calls == map[]
    ensures !HasRule(t, l.w.rules) && l.w.load == Injected(t, cs)
    ensures PerformAll(t, l.w, leaves) == l.w
    ensures var w1 := Perform(t, l.w, Inject(b, headers, true));
            HasRule(t, w1.rules) && InForm(t, w1, cs) && Perform(t, w1, Leave(b.v4, true)).load == Plain(cs)
  {
    steps, l := OnlyUserDecides(t, cs, a, ports);
    steps, l := Extended(t, OneUser(t, cs, a, ports), steps, Send(0, false), l);
    assert l.calls == map[];
    LeavesChangeNothing(t, l.w, leaves);
    NextUserHeals(t, l.w, cs, b, headers);
  }
}
