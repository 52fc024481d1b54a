/** The mesh rule list stored under the Envoy key of the shared ConfigMap
    (pkg/handler/envoy.go, pkg/util/util.go), kept here in decoded form: YAML
    marshalling and unmarshalling are taken to be inverse to each other. */
module MeshRules {
  import opened Lists

  /** A Go map that may be nil: nil and empty differ, since writing to nil panics. */
  type Headers = Option<map<string, string>>

  datatype Tun = Tun(v4: string, v6: string)
  datatype Rule = Rule(headers: Headers, tun: Tun)
  datatype Port = Port(number: int, protocol: string)
  datatype Virtual = Virtual(uid: string, ports: Option<seq<Port>>, rules: seq<Rule>)

  /** A call either returns, or dies on a write to a nil map. */
  datatype Outcome<+T> = Done(value: T) | Panics

  // ---- Merge ----

  function Entries(h: Headers): map<string, string> {
    if h.None? then map[] else h.value
  }

  function Merge(from: Headers, to: Headers): Outcome<Headers> {
    if from.Some? then Done(Some(from.value + Entries(to)))
    else if Entries(to) == map[] then Done(to)
    else Panics
  }

  /** util.Merge: the keys arrive in any order, and the nil test comes after the loop. */
  method MergeInPlace(from: Headers, to: Headers) returns (r: Outcome<Headers>)
    ensures r == Merge(from, to)
    ensures r.Panics? <==> from.None? && Entries(to) != map[]
    ensures r.Done? ==> (r.value.Some? <==> from.Some? || to.Some?)
    ensures r.Done? ==> forall k :: k in Entries(r.value) <==> k in Entries(from) || k in Entries(to)
    ensures r.Done? ==> forall k | k in Entries(r.value) ::
              Entries(r.value)[k] == if k in Entries(to) then Entries(to)[k] else Entries(from)[k]
  {
    var source := Entries(to);
    var merged := from;
    var rest := source.Keys;
    while rest != {}
      invariant rest <= source.Keys
      invariant from.None? ==> merged.None? && rest == source.Keys
      invariant from.Some? ==> merged.Some?
      invariant from.Some? ==> merged.value.Keys == from.value.Keys + (source.Keys - rest)
      invariant from.Some? ==> forall k | k in merged.value ::
                  merged.value[k] == if k in source && k !in rest then source[k] else from.value[k]
    {
      var k :| k in rest;
      if merged.None? {
        assert k in source;
        return Panics;
      }
      merged := Some(merged.value[k := source[k]]);
      rest := rest - {k};
    }
    if merged.None? {
      assert source == map[];
      return Done(to);
    }
    assert merged.value == from.value + source;
    return Done(merged);
  }

  // ---- Adding a rule ----

  /** Index of the first entry for `node`, or the length of the list. */
  function Find(v: seq<Virtual>, node: string): (i: nat)
    ensures i <= |v|
    ensures i < |v| ==> v[i].uid == node
    ensures forall j | 0 <= j < i :: v[j].uid != node
  {
    if v == [] || v[0].uid == node then 0 else 1 + Find(v[1..], node)
  }

  ghost predicate HasTun(rules: seq<Rule>, tun: Tun) {
    exists r | r in rules :: r.tun == tun
  }

  /** Every rule of this tunnel address gets the new headers merged in. */
  function MergeRules(rules: seq<Rule>, tun: Tun, headers: Headers): Outcome<seq<Rule>> {
    if rules == [] then Done([]) else
      var rest := MergeRules(rules[1..], tun, headers);
      if rules[0].tun != tun then
        if rest.Panics? then Panics else Done([rules[0]] + rest.value)
      else
        var merged := Merge(rules[0].headers, headers);
        if merged.Panics? || rest.Panics? then Panics
        else Done([Rule(merged.value, tun)] + rest.value)
  }

  ghost function AddRule(v: seq<Virtual>, node: string, tun: Tun, headers: Headers, ports: Option<seq<Port>>)
    : Outcome<seq<Virtual>>
  {
    var i := Find(v, node);
    if i == |v| then Done(v + [Virtual(node, ports, [Rule(headers, tun)])])
    else if HasTun(v[i].rules, tun) then
      var merged := MergeRules(v[i].rules, tun, headers);
      if merged.Panics? then Panics else Done(v[i := v[i].(rules := merged.value)])
    else
      Done(v[i := Virtual(node, if v[i].ports.None? then ports else v[i].ports,
                          v[i].rules + [Rule(headers, tun)])])
  }

  /** The list part of addEnvoyConfig. */
  method AddEnvoyConfig(v: seq<Virtual>, node: string, tun: Tun, headers: Headers, ports: Option<seq<Port>>)
    returns (r: Outcome<seq<Virtual>>)
    ensures r == AddRule(v, node, tun, headers, ports)
  {
    var index := -1;
    var i := 0;
    while i < |v| && index < 0
      invariant 0 <= i <= |v|
      invariant index < 0 ==> i <= Find(v, node)
      invariant index >= 0 ==> index == Find(v, node) < |v|
    {
      if node == v[i].uid { index := i; }
      i := i + 1;
    }
    if index < 0 {
      return Done(v + [Virtual(node, ports, [Rule(headers, tun)])]);
    }
    var found, merged := MergeLoop(v[index].rules, tun, headers);
    if merged.Panics? {
      return Panics;
    }
    if found {
      return Done(v[index := v[index].(rules := merged.value)]);
    }
    return Done(v[index := Virtual(node, if v[index].ports.None? then ports else v[index].ports,
                                   v[index].rules + [Rule(headers, tun)])]);
  }

  /** The inner loop of addEnvoyConfig, which rewrites matching rules in place. */
  method MergeLoop(before: seq<Rule>, tun: Tun, headers: Headers) returns (found: bool, r: Outcome<seq<Rule>>)
    ensures r == MergeRules(before, tun, headers)
    ensures r.Panics? ==> HasTun(before, tun)
    ensures r.Done? ==> (found <==> HasTun(before, tun))
  {
    var rules := before;
    found := false;
    var j := 0;
    while j < |rules|
      invariant 0 <= j <= |rules| == |before|
      invariant found <==> HasTun(before[..j], tun)
      invariant forall k | j <= k < |rules| :: rules[k] == before[k]
      invariant MergeRules(before[..j], tun, headers) == Done(rules[..j])
    {
      ghost var head := rules[..j];
      MergeRulesStep(before, j, tun, headers);
      if rules[j].tun == tun {
        found := true;
        var merged := MergeInPlace(rules[j].headers, headers);
        if merged.Panics? {
          return found, Panics;
        }
        rules := rules[j := Rule(merged.value, tun)];
      }
      assert rules[..j + 1] == head + [rules[j]];
      j := j + 1;
    }
    assert before[..j] == before && rules[..j] == rules;
    r := Done(rules);
  }

  lemma MergeRulesStep(rules: seq<Rule>, j: nat, tun: Tun, headers: Headers)
    requires j < |rules| && MergeRules(rules[..j], tun, headers).Done?
    ensures var done := MergeRules(rules[..j], tun, headers).value;
            var merged := Merge(rules[j].headers, headers);
            if rules[j].tun != tun then
              MergeRules(rules[..j + 1], tun, headers) == Done(done + [rules[j]])
            else if merged.Panics? then MergeRules(rules, tun, headers) == Panics && HasTun(rules, tun)
            else MergeRules(rules[..j + 1], tun, headers) == Done(done + [Rule(merged.value, tun)])
    ensures HasTun(rules[..j + 1], tun) <==> HasTun(rules[..j], tun) || rules[j].tun == tun
  {
    assert rules[..j + 1] == rules[..j] + [rules[j]];
    assert rules == rules[..j + 1] + rules[j + 1..];
    MergeRulesAppend(rules[..j], [rules[j]], tun, headers);
    MergeRulesAppend(rules[..j + 1], rules[j + 1..], tun, headers);
    MergeRulesOne(rules[j], tun, headers);
    assert rules[j] in rules && rules[j] in rules[..j + 1];
  }

  lemma {:induction false} MergeRulesAppend(s: seq<Rule>, t: seq<Rule>, tun: Tun, headers: Headers)
    ensures var a, b := MergeRules(s, tun, headers), MergeRules(t, tun, headers);
            MergeRules(s + t, tun, headers)
            == if a.Panics? || b.Panics? then Panics else Done(a.value + b.value)
  {
    if s == [] {
      assert s + t == t;
      assert MergeRules(s, tun, headers) == Done([]);
      var b := MergeRules(t, tun, headers);
      if b.Done? {
        assert [] + b.value == b.value;
      }
    } else {
      assert (s + t)[1..] == s[1..] + t && (s + t)[0] == s[0];
      MergeRulesAppend(s[1..], t, tun, headers);
      var a, b := MergeRules(s[1..], tun, headers), MergeRules(t, tun, headers);
      if a.Done? && b.Done? {
        assert forall x: Rule :: [x] + (a.value + b.value) == [x] + a.value + b.value;
      }
    }
  }

  lemma MergeRulesOne(rule: Rule, tun: Tun, headers: Headers)
    ensures var merged := Merge(rule.headers, headers);
            MergeRules([rule], tun, headers)
            == if rule.tun != tun then Done([rule]) else if merged.Panics? then Panics
               else Done([Rule(merged.value, tun)])
  {
    assert MergeRules([rule][1..], tun, headers) == Done([]);
    assert forall x: Rule :: [x] + [] == [x];
  }

  lemma {:induction false} MergeRulesShape(rules: seq<Rule>, tun: Tun, headers: Headers)
    requires MergeRules(rules, tun, headers).Done?
    ensures var merged := MergeRules(rules, tun, headers).value;
            |merged| == |rules| && forall i | 0 <= i < |rules| :: merged[i].tun == rules[i].tun
  {
    if rules != [] {
      MergeRulesShape(rules[1..], tun, headers);
    }
  }

  lemma {:induction false} MergeRulesPanics(rules: seq<Rule>, tun: Tun, headers: Headers)
    ensures MergeRules(rules, tun, headers).Panics?
       <==> Entries(headers) != map[] && Rule(None, tun) in rules
  {
    if rules != [] {
      MergeRulesPanics(rules[1..], tun, headers);
      assert rules == [rules[0]] + rules[1..];
    }
  }

  /** Joining dies exactly when the caller sends headers and already owns a rule
      at this node that was stored without any. */
  lemma AddRulePanics(v: seq<Virtual>, node: string, tun: Tun, headers: Headers, ports: Option<seq<Port>>)
    ensures AddRule(v, node, tun, headers, ports).Panics?
       <==> Entries(headers) != map[] && Rule(None, tun) in RulesOf(v, node)
  {
    var i := Find(v, node);
    if i < |v| {
      MergeRulesPanics(v[i].rules, tun, headers);
    }
  }

  // ---- What a join changes ----

  /** One rule before and after a join of this client: its own gets the new headers on top of its
      old ones, and has a header map if either had one; any other stays as it is. */
  predicate Joined(was: Rule, now: Rule, tun: Tun, headers: Headers) {
    if was.tun == tun then
      && now.tun == tun && Entries(now.headers) == Entries(was.headers) + Entries(headers)
      && (now.headers.Some? <==> was.headers.Some? || headers.Some?)
    else now == was
  }

  lemma {:induction false} MergeRulesAt(rules: seq<Rule>, tun: Tun, headers: Headers, j: nat)
    requires MergeRules(rules, tun, headers).Done? && j < |rules|
    ensures var merged := MergeRules(rules, tun, headers).value;
            j < |merged| && Joined(rules[j], merged[j], tun, headers)
  {
    if j > 0 {
      MergeRulesAt(rules[1..], tun, headers, j - 1);
    }
  }

  lemma FindSameIds(v: seq<Virtual>, w: seq<Virtual>, uid: string)
    requires |v| == |w| && forall i | 0 <= i < |v| :: v[i].uid == w[i].uid
    ensures Find(v, uid) == Find(w, uid)
  {
  }

  lemma {:induction false} FindAppend(v: seq<Virtual>, more: seq<Virtual>, uid: string)
    ensures Find(v + more, uid) == if Find(v, uid) < |v| then Find(v, uid) else |v| + Find(more, uid)
  {
    if v == [] {
      assert v + more == more;
    } else {
      assert (v + more)[1..] == v[1..] + more;
      FindAppend(v[1..], more, uid);
    }
  }

  /** A join changes the rules of its own node only, and there: the client's rule carries its old
      headers overridden by the new ones, or is new and last; every other rule stays in its place. */
  lemma JoinChangesOwnRule(
    v: seq<Virtual>, node: string, tun: Tun, headers: Headers, ports: Option<seq<Port>>, uid: string)
    requires AddRule(v, node, tun, headers, ports).Done?
    ensures var r := AddRule(v, node, tun, headers, ports).value;
            var was, now := RulesOf(v, uid), RulesOf(r, uid);
            if uid != node then now == was
            else if HasTun(was, tun) then
              |now| == |was| && forall j | 0 <= j < |was| :: Joined(was[j], now[j], tun, headers)
            else now == was + [Rule(headers, tun)]
  {
    var r, i := AddRule(v, node, tun, headers, ports).value, Find(v, node);
    if i == |v| {
      FindAppend(v, [r[i]], uid);
    } else {
      FindSameIds(v, r, uid);
      if HasTun(v[i].rules, tun) {
        MergeRulesShape(v[i].rules, tun, headers);
        forall j | 0 <= j < |v[i].rules|
          ensures Joined(v[i].rules[j], r[i].rules[j], tun, headers)
        {
          MergeRulesAt(v[i].rules, tun, headers, j);
        }
      }
    }
  }

  predicate Mentions(list: seq<Virtual>, uid: string) {
    exists x | x in list :: x.uid == uid
  }

  /** A whole entry before and after a join at its node. A client that is new there gets the last rule, and a
      missing port list is filled for it; the join of one that is not changes its rule's headers and nothing else. */
  ghost predicate EntryJoined(was: Virtual, now: Virtual, tun: Tun, headers: Headers, ports: Option<seq<Port>>) {
    && now.uid == was.uid
    && if forall x | x in was.rules :: x.tun != tun then
         now.rules == was.rules + [Rule(headers, tun)] && now.ports == if was.ports.None? then ports else was.ports
       else
         && now.ports == was.ports && |now.rules| == |was.rules|
         && forall j | 0 <= j < |was.rules| :: Joined(was.rules[j], now.rules[j], tun, headers)
  }

  lemma JoinChangesFirst(v: seq<Virtual>, node: string, tun: Tun, headers: Headers, ports: Option<seq<Port>>)
    requires Find(v, node) < |v| && AddRule(v, node, tun, headers, ports).Done?
    ensures var r, f := AddRule(v, node, tun, headers, ports).value, Find(v, node);
            r == v[f := r[f]] && EntryJoined(v[f], r[f], tun, headers, ports)
  {
    var f := Find(v, node);
    if HasTun(v[f].rules, tun) {
      MergeRulesShape(v[f].rules, tun, headers);
      forall j | 0 <= j < |v[f].rules|
        ensures Joined(v[f].rules[j], MergeRules(v[f].rules, tun, headers).value[j], tun, headers)
      {
        MergeRulesAt(v[f].rules, tun, headers, j);
      }
    }
  }

  /** A list before and after a join. A node without an entry gets one, last and with the given ports. Otherwise
      every entry stays in its place, and all but the node's first stay as they are. */
  ghost predicate ListJoined(
    was: seq<Virtual>, now: seq<Virtual>, node: string, tun: Tun, headers: Headers, ports: Option<seq<Port>>)
  {
    if !Mentions(was, node) then now == was + [Virtual(node, ports, [Rule(headers, tun)])]
    else
      && |now| == |was|
      && forall i | 0 <= i < |was| ::
           if was[i].uid == node && !Mentions(was[..i], node) then EntryJoined(was[i], now[i], tun, headers, ports)
           else now[i] == was[i]
  }

  lemma JoinChangesEntries(v: seq<Virtual>, node: string, tun: Tun, headers: Headers, ports: Option<seq<Port>>)
    requires AddRule(v, node, tun, headers, ports).Done?
    ensures ListJoined(v, AddRule(v, node, tun, headers, ports).value, node, tun, headers, ports)
  {
    var f := Find(v, node);
    assert Mentions(v, node) <==> f < |v|;
    if f < |v| {
      JoinChangesFirst(v, node, tun, headers, ports);
      assert !Mentions(v[..f], node);
      forall i | f < i < |v| ensures Mentions(v[..i], node) {
        assert v[f] in v[..i];
      }
    }
  }

  // ---- Removing a client ----

  function NotFrom(v4: string): Rule -> bool {
    (r: Rule) => r.tun.v4 != v4
  }

  function NotEmptied(node: string): Virtual -> bool {
    (x: Virtual) => !(x.uid == node && x.rules == [])
  }

  function KeepOthers(x: Virtual, node: string, v4: string): (r: Virtual)
    ensures r.uid == x.uid && r.ports == x.ports
  {
    if x.uid == node then x.(rules := Filter(x.rules, NotFrom(v4))) else x
  }

  function Strip(v: seq<Virtual>, node: string, v4: string): (r: seq<Virtual>)
    ensures |r| == |v|
    ensures forall i | 0 <= i < |v| :: r[i] == KeepOthers(v[i], node, v4)
  {
    seq(|v|, i requires 0 <= i < |v| => KeepOthers(v[i], node, v4))
  }

  function RemoveRule(v: seq<Virtual>, node: string, v4: string): seq<Virtual> {
    Filter(Strip(v, node, v4), NotEmptied(node))
  }

  ghost predicate DropsEntry(v: seq<Virtual>, node: string, v4: string) {
    exists x | x in Strip(v, node, v4) :: !NotEmptied(node)(x)
  }

  /** The list part of removeEnvoyConfig: first the rules, then the emptied entries. */
  method RemoveEnvoyConfig(v: seq<Virtual>, node: string, v4: string)
    returns (r: seq<Virtual>, empty: bool)
    ensures r == RemoveRule(v, node, v4)
    ensures empty <==> DropsEntry(v, node, v4)
  {
    r := v;
    var i := 0;
    while i < |r|
      invariant 0 <= i <= |r| == |v|
      invariant r[..i] == Strip(v, node, v4)[..i]
      invariant forall k | i <= k < |r| :: r[k] == v[k]
    {
      ghost var head := r[..i];
      if node == r[i].uid {
        var rules, _ := DeleteUnwanted(r[i].rules, NotFrom(v4));
        r := r[i := r[i].(rules := rules)];
      }
      assert r[..i + 1] == head + [KeepOthers(v[i], node, v4)];
      i := i + 1;
    }
    assert r == Strip(v, node, v4);
    var count: nat;
    r, count := DeleteUnwanted(r, NotEmptied(node));
    empty := count > 0;
  }

  // ---- What every run keeps ----

  function RulesOf(v: seq<Virtual>, node: string): seq<Rule> {
    var i := Find(v, node);
    if i < |v| then v[i].rules else []
  }

  ghost predicate TunsDistinct(rules: seq<Rule>) {
    forall i, j | 0 <= i < j < |rules| :: rules[i].tun != rules[j].tun
  }

  ghost predicate UidsDistinct(v: seq<Virtual>) {
    forall i, j | 0 <= i < j < |v| :: v[i].uid != v[j].uid
  }

  ghost predicate WellFormed(v: seq<Virtual>) {
    && UidsDistinct(v)
    && forall x | x in v :: x.rules != [] && TunsDistinct(x.rules)
  }

  lemma AddKeepsWellFormed(v: seq<Virtual>, node: string, tun: Tun, headers: Headers, ports: Option<seq<Port>>)
    requires WellFormed(v)
    requires AddRule(v, node, tun, headers, ports).Done?
    ensures WellFormed(AddRule(v, node, tun, headers, ports).value)
  {
    var i := Find(v, node);
    if i < |v| {
      assert v[i] in v;
      if HasTun(v[i].rules, tun) {
        MergeRulesShape(v[i].rules, tun, headers);
      } else {
        assert forall k | 0 <= k < |v[i].rules| :: v[i].rules[k] in v[i].rules;
      }
    }
  }

  lemma {:induction false} FilterKeepsTuns(rules: seq<Rule>, p: Rule -> bool)
    requires TunsDistinct(rules)
    ensures TunsDistinct(Filter(rules, p))
  {
    if rules != [] {
      var init, last := rules[..|rules| - 1], rules[|rules| - 1];
      FilterKeepsTuns(init, p);
      FilterMember(init, p);
      var kept := Filter(init, p);
      forall j | 0 <= j < |kept| ensures kept[j].tun != last.tun {
        assert kept[j] in init;
      }
    }
  }

  lemma {:induction false} FilterKeepsUids(v: seq<Virtual>, p: Virtual -> bool)
    requires UidsDistinct(v)
    ensures UidsDistinct(Filter(v, p))
  {
    if v != [] {
      var init, last := v[..|v| - 1], v[|v| - 1];
      FilterKeepsUids(init, p);
      FilterMember(init, p);
      var kept := Filter(init, p);
      forall j | 0 <= j < |kept| ensures kept[j].uid != last.uid {
        assert kept[j] in init;
      }
    }
  }

  lemma RemoveKeepsWellFormed(v: seq<Virtual>, node: string, v4: string)
    requires WellFormed(v)
    ensures WellFormed(RemoveRule(v, node, v4))
  {
    var s := Strip(v, node, v4);
    var keep := NotEmptied(node);
    FilterKeepsUids(s, keep);
    FilterMember(s, keep);
    forall x | x in RemoveRule(v, node, v4) ensures x.rules != [] && TunsDistinct(x.rules) {
      assert x in s;
      var i :| 0 <= i < |s| && s[i] == x;
      assert v[i] in v;
      if v[i].uid == node {
        FilterKeepsTuns(v[i].rules, NotFrom(v4));
      }
    }
  }

  datatype Edit =
    | Join(node: string, tun: Tun, headers: Headers, ports: Option<seq<Port>>)
    | Leave(leaver: string, v4: string)

  /** One call; a call that panics changes nothing, since nothing is written back. */
  ghost function Apply(v: seq<Virtual>, e: Edit): seq<Virtual> {
    match e
    case Join(node, tun, headers, ports) =>
      var r := AddRule(v, node, tun, headers, ports);
      if r.Panics? then v else r.value
    case Leave(node, v4) => RemoveRule(v, node, v4)
  }

  ghost function ApplyAll(v: seq<Virtual>, edits: seq<Edit>): seq<Virtual>
    decreases |edits|
  {
    if edits == [] then v else Apply(ApplyAll(v, edits[..|edits| - 1]), edits[|edits| - 1])
  }

  /** In every run from the empty list, node ids stay distinct, no node has the same
      client twice, and no node is left without a rule. */
  lemma {:induction false} EveryRunWellFormed(edits: seq<Edit>)
    ensures WellFormed(ApplyAll([], edits))
    decreases |edits|
  {
    if edits != [] {
      var before := ApplyAll([], edits[..|edits| - 1]);
      EveryRunWellFormed(edits[..|edits| - 1]);
      match edits[|edits| - 1]
      case Join(node, tun, headers, ports) =>
        if AddRule(before, node, tun, headers, ports).Done? {
          AddKeepsWellFormed(before, node, tun, headers, ports);
        }
      case Leave(node, v4) => RemoveKeepsWellFormed(before, node, v4);
    }
  }

  // ---- Join, then leave ----

  ghost predicate Fresh(v: seq<Virtual>, node: string, v4: string) {
    forall r | r in RulesOf(v, node) :: r.tun.v4 != v4
  }

  /** The one trace a join may leave behind: an entry stored without ports gets them. */
  function FillPorts(v: seq<Virtual>, node: string, ports: Option<seq<Port>>): seq<Virtual> {
    var i := Find(v, node);
    if i < |v| && v[i].ports.None? then v[i := v[i].(ports := ports)] else v
  }

  lemma FindUnique(v: seq<Virtual>, node: string, i: nat)
    requires UidsDistinct(v) && i < |v| && v[i].uid == node
    ensures Find(v, node) == i
  {
  }

  lemma DropsOneEntry(v: seq<Virtual>, node: string, v4: string)
    requires WellFormed(v)
    ensures var i := Find(v, node);
            DropsEntry(v, node, v4) <==> i < |v| && KeepOthers(v[i], node, v4).rules == []
  {
    var i, s := Find(v, node), Strip(v, node, v4);
    if i < |v| && KeepOthers(v[i], node, v4).rules == [] {
      assert s[i] in s && !NotEmptied(node)(s[i]);
    }
    if DropsEntry(v, node, v4) {
      var x :| x in s && !NotEmptied(node)(x);
      var j :| 0 <= j < |s| && s[j] == x;
      FindUnique(v, node, j);
    }
  }

  lemma StripOne(v: seq<Virtual>, node: string, v4: string, i: nat)
    requires i < |v| && v[i].uid == node
    requires forall j | 0 <= j < |v| && j != i :: v[j].uid != node
    ensures var x := KeepOthers(v[i], node, v4);
            RemoveRule(v, node, v4) == if x.rules == [] then v[..i] + v[i + 1..] else v[i := x]
  {
    var x := KeepOthers(v[i], node, v4);
    assert Strip(v, node, v4) == v[i := x];
    FilterAtOne(v[i := x], i, NotEmptied(node));
    assert v[i := x][..i] == v[..i] && v[i := x][i + 1..] == v[i + 1..];
  }

  /** With distinct ids a leave touches one entry, and drops it when nothing is left in it. */
  lemma RemoveAtOneEntry(v: seq<Virtual>, node: string, v4: string)
    requires WellFormed(v)
    ensures var i := Find(v, node);
            if i == |v| then RemoveRule(v, node, v4) == v && !DropsEntry(v, node, v4)
            else
              var x := KeepOthers(v[i], node, v4);
              && (DropsEntry(v, node, v4) <==> x.rules == [])
              && RemoveRule(v, node, v4) == if x.rules == [] then v[..i] + v[i + 1..] else v[i := x]
  {
    var i := Find(v, node);
    DropsOneEntry(v, node, v4);
    if i == |v| {
      assert Strip(v, node, v4) == v;
      FilterKeepsAll(v, NotEmptied(node));
    } else {
      StripOne(v, node, v4, i);
    }
  }

  /** After a leave no rule of that address remains at the node. */
  lemma RemovedHasNone(v: seq<Virtual>, node: string, v4: string)
    ensures forall x | x in RemoveRule(v, node, v4) && x.uid == node :: forall r | r in x.rules :: r.tun.v4 != v4
    ensures Fresh(RemoveRule(v, node, v4), node, v4)
  {
    var s := Strip(v, node, v4);
    FilterMember(s, NotEmptied(node));
    forall x | x in RemoveRule(v, node, v4) && x.uid == node
      ensures forall r | r in x.rules :: r.tun.v4 != v4
    {
      var i :| 0 <= i < |s| && s[i] == x;
      FilterMember(v[i].rules, NotFrom(v4));
    }
  }

  /** A leave leaves the entries of all other nodes alone. */
  lemma LeaveKeepsOtherNodes(v: seq<Virtual>, node: string, v4: string, x: Virtual)
    requires x.uid != node
    ensures x in RemoveRule(v, node, v4) <==> x in v
  {
    var s := Strip(v, node, v4);
    FilterMember(s, NotEmptied(node));
    if x in v {
      var i :| 0 <= i < |v| && v[i] == x;
      assert s[i] == x;
    }
  }

  /** What is left of the node's own entry, if it is still there. */
  lemma LeaveFiltersOwnEntry(v: seq<Virtual>, node: string, v4: string, x: Virtual)
    requires WellFormed(v) && x in RemoveRule(v, node, v4) && x.uid == node
    ensures !DropsEntry(v, node, v4)
    ensures x.rules == Filter(RulesOf(v, node), NotFrom(v4))
  {
    RemoveAtOneEntry(v, node, v4);
  }

  function Elsewhere(node: string): Virtual -> bool {
    (x: Virtual) => x.uid != node
  }

  lemma {:induction false} LeaveKeepsOrder(v: seq<Virtual>, node: string, v4: string)
    ensures Filter(RemoveRule(v, node, v4), Elsewhere(node)) == Filter(v, Elsewhere(node))
  {
    if v != [] {
      var init, last := v[..|v| - 1], v[|v| - 1];
      LeaveKeepsOrder(init, node, v4);
      assert Strip(v, node, v4) == Strip(init, node, v4) + [KeepOthers(last, node, v4)];
      FilterSnoc(Strip(init, node, v4), KeepOthers(last, node, v4), NotEmptied(node));
      FilterSnoc(RemoveRule(init, node, v4), KeepOthers(last, node, v4), Elsewhere(node));
    }
  }

  lemma LeaveFiltersRules(v: seq<Virtual>, node: string, v4: string)
    requires WellFormed(v)
    ensures RulesOf(RemoveRule(v, node, v4), node) == Filter(RulesOf(v, node), NotFrom(v4))
  {
    var now, i := RemoveRule(v, node, v4), Find(v, node);
    RemoveAtOneEntry(v, node, v4);
    if i < |v| {
      if DropsEntry(v, node, v4) {
        DroppedIsGone(v, node, v4);
      } else {
        RemoveKeepsWellFormed(v, node, v4);
        FindUnique(now, node, i);
      }
    }
  }

  lemma LeaveKeepsPorts(v: seq<Virtual>, node: string, v4: string)
    requires WellFormed(v)
    ensures var now := RemoveRule(v, node, v4);
            Mentions(now, node) ==>
              var i, j := Find(now, node), Find(v, node); i < |now| && j < |v| && now[i].ports == v[j].ports
  {
    var i := Find(v, node);
    RemoveAtOneEntry(v, node, v4);
    if DropsEntry(v, node, v4) {
      DroppedIsGone(v, node, v4);
    } else if i < |v| {
      RemoveKeepsWellFormed(v, node, v4);
      FindUnique(RemoveRule(v, node, v4), node, i);
    }
  }

  /** A list before and after a leave. The node keeps its ports and, in their order, the rules of the others, and
      its entry is gone when there are none; the entries of all other nodes stay as they are, in their order. */
  ghost predicate ListLeft(was: seq<Virtual>, now: seq<Virtual>, node: string, v4: string) {
    && RulesOf(now, node) == Filter(RulesOf(was, node), NotFrom(v4))
    && (forall r :: r in RulesOf(now, node) <==> r in RulesOf(was, node) && r.tun.v4 != v4)
    && (Mentions(now, node) <==> RulesOf(now, node) != [])
    && (Mentions(now, node) ==>
          var i, j := Find(now, node), Find(was, node); i < |now| && j < |was| && now[i].ports == was[j].ports)
    && Filter(now, Elsewhere(node)) == Filter(was, Elsewhere(node))
    && (forall x: Virtual | x.uid != node :: x in now <==> x in was)
  }

  lemma LeaveChangesEntries(v: seq<Virtual>, node: string, v4: string)
    requires WellFormed(v)
    ensures ListLeft(v, RemoveRule(v, node, v4), node, v4)
  {
    var now := RemoveRule(v, node, v4);
    RemoveKeepsWellFormed(v, node, v4);
    MentionedHasRules(now, node);
    LeaveKeepsOrder(v, node, v4);
    LeaveFiltersRules(v, node, v4);
    LeaveKeepsPorts(v, node, v4);
    FilterMember(RulesOf(v, node), NotFrom(v4));
    forall x: Virtual | x.uid != node ensures x in now <==> x in v {
      LeaveKeepsOtherNodes(v, node, v4, x);
    }
  }

  lemma FillPortsKeepsRules(v: seq<Virtual>, node: string, ports: Option<seq<Port>>)
    requires WellFormed(v)
    ensures RulesOf(FillPorts(v, node, ports), node) == RulesOf(v, node)
  {
    var i := Find(v, node);
    if i < |v| {
      FindUnique(FillPorts(v, node, ports), node, i);
    }
  }

  lemma AddThenRemoveNew(v: seq<Virtual>, x: Virtual, v4: string)
    requires WellFormed(v) && WellFormed(v + [x])
    requires Find(v, x.uid) == |v|
    requires forall r | r in x.rules :: r.tun.v4 == v4
    ensures RemoveRule(v + [x], x.uid, v4) == v
  {
    var added := v + [x];
    FindUnique(added, x.uid, |v|);
    RemoveAtOneEntry(added, x.uid, v4);
    FilterDropsAll(x.rules, NotFrom(v4));
    assert added[..|v|] + added[|v| + 1..] == v;
  }

  lemma KeepOthersFresh(x: Virtual, rules: seq<Rule>, rule: Rule)
    requires x.rules == rules + [rule]
    requires forall r | r in rules :: r.tun.v4 != rule.tun.v4
    ensures KeepOthers(x, x.uid, rule.tun.v4) == x.(rules := rules)
  {
    FilterKeepsAll(rules, NotFrom(rule.tun.v4));
    FilterSnoc(rules, rule, NotFrom(rule.tun.v4));
  }

  lemma AddThenRemoveOld(v: seq<Virtual>, i: nat, x: Virtual, rule: Rule)
    requires i < |v| && v[i].rules != [] && WellFormed(v[i := x])
    requires x.uid == v[i].uid && x.rules == v[i].rules + [rule]
    requires forall r | r in v[i].rules :: r.tun.v4 != rule.tun.v4
    ensures RemoveRule(v[i := x], x.uid, rule.tun.v4) == v[i := x.(rules := v[i].rules)]
  {
    FindUnique(v[i := x], x.uid, i);
    RemoveAtOneEntry(v[i := x], x.uid, rule.tun.v4);
    KeepOthersFresh(x, v[i].rules, rule);
    assert v[i := x][i := x.(rules := v[i].rules)] == v[i := x.(rules := v[i].rules)];
  }

  lemma AddThenRemoveFresh(v: seq<Virtual>, node: string, tun: Tun, headers: Headers, ports: Option<seq<Port>>)
    requires WellFormed(v) && Fresh(v, node, tun.v4)
    ensures AddRule(v, node, tun, headers, ports).Done?
    ensures RemoveRule(AddRule(v, node, tun, headers, ports).value, node, tun.v4) == FillPorts(v, node, ports)
  {
    var i := Find(v, node);
    var rule := Rule(headers, tun);
    assert i < |v| ==> !HasTun(v[i].rules, tun);
    AddKeepsWellFormed(v, node, tun, headers, ports);
    if i == |v| {
      AddThenRemoveNew(v, Virtual(node, ports, [rule]), tun.v4);
    } else {
      var x := Virtual(node, if v[i].ports.None? then ports else v[i].ports, v[i].rules + [rule]);
      assert v[i] in v;
      AddThenRemoveOld(v, i, x, rule);
    }
  }

  /** A join followed by the same client's leave restores the list, ports aside,
      exactly when that address had no rule at the node before. */
  lemma AddThenRemove(v: seq<Virtual>, node: string, tun: Tun, headers: Headers, ports: Option<seq<Port>>)
    requires WellFormed(v)
    requires AddRule(v, node, tun, headers, ports).Done?
    ensures RemoveRule(AddRule(v, node, tun, headers, ports).value, node, tun.v4) == FillPorts(v, node, ports)
       <==> Fresh(v, node, tun.v4)
  {
    if Fresh(v, node, tun.v4) {
      AddThenRemoveFresh(v, node, tun, headers, ports);
    } else {
      RemovedHasNone(AddRule(v, node, tun, headers, ports).value, node, tun.v4);
      FillPortsKeepsRules(v, node, ports);
    }
  }

  lemma DroppedIsGone(v: seq<Virtual>, node: string, v4: string)
    requires WellFormed(v) && DropsEntry(v, node, v4)
    ensures Find(v, node) < |v|
    ensures !Mentions(RemoveRule(v, node, v4), node)
    ensures forall r | r in RulesOf(v, node) :: r.tun.v4 == v4
  {
    var i := Find(v, node);
    RemoveAtOneEntry(v, node, v4);
    FilterDropsAll(v[i].rules, NotFrom(v4));
    RemovedElsewhere(v, node, i);
  }

  lemma RemovedElsewhere(v: seq<Virtual>, node: string, i: nat)
    requires UidsDistinct(v) && i < |v| && v[i].uid == node
    ensures !Mentions(v[..i] + v[i + 1..], node)
  {
    forall x | x in v[..i] + v[i + 1..] ensures x.uid != node {
      var j :| 0 <= j < |v| && j != i && v[j] == x;
    }
  }

  /** In a well-formed list a node that is mentioned has a rule. */
  lemma MentionedHasRules(v: seq<Virtual>, node: string)
    requires WellFormed(v)
    ensures Mentions(v, node) <==> RulesOf(v, node) != []
  {
    var i := Find(v, node);
    if i < |v| {
      assert v[i] in v;
    }
  }
}
