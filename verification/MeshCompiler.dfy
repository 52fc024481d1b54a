/** The compiler from mesh rules to Envoy resources (pkg/controlplane/cache.go),
    and what the compiled routes do with a request. */
module MeshCompiler {
  import opened Text
  import opened MeshRules

  const ORIGIN := "origin_cluster"

  datatype Transport = TCP | UDP
  datatype Listener = Listener(name: string, transport: Transport, port: nat, routeName: string, tcpCluster: string)
  datatype HeaderMatcher = HeaderMatcher(name: string, exact: string)
  datatype Route = Route(prefix: string, headers: seq<HeaderMatcher>, cluster: string)
  datatype RouteConfig = RouteConfig(name: string, routes: seq<Route>)
  datatype Discovery = EDS | OriginalDst
  datatype Cluster = Cluster(name: string, discovery: Discovery)
  datatype Endpoint = Endpoint(clusterName: string, address: string, port: nat)
  datatype Resources = Resources(
    listeners: seq<Listener>, clusters: seq<Cluster>, routes: seq<RouteConfig>, endpoints: seq<Endpoint>)

  // ---- Constructors ----

  function ListenerName(uid: string, p: Port): string {
    uid + ['_'] + (FormatInt(p.number) + ['_'] + p.protocol)
  }

  function ClusterName(ip: string, number: int): string {
    ip + ['_'] + FormatInt(number)
  }

  /** The conversion uint32(port). */
  function PortValue(number: int): nat {
    number % 0x1_0000_0000
  }

  function ToListener(uid: string, p: Port): Listener {
    Listener(ListenerName(uid, p), if p.protocol == "UDP" then UDP else TCP, PortValue(p.number),
             ListenerName(uid, p), ORIGIN)
  }

  function ToCluster(name: string): Cluster { Cluster(name, EDS) }

  function OriginCluster(): Cluster { Cluster(ORIGIN, OriginalDst) }

  function ToEndPoint(clusterName: string, ip: string, number: int): Endpoint {
    Endpoint(clusterName, ip, PortValue(number))
  }

  function DefaultRoute(): Route { Route("/", [], ORIGIN) }

  function ToMap(hs: seq<HeaderMatcher>): map<string, string> {
    if hs == [] then map[] else
      var last := hs[|hs| - 1];
      ToMap(hs[..|hs| - 1])[last.name := last.exact]
  }

  /** `hs` lists the entries of a header map, each once, in the order the map iteration happened to take. */
  ghost predicate IsListing(hs: seq<HeaderMatcher>, m: map<string, string>) {
    ToMap(hs) == m && |hs| == |m|
  }

  lemma {:induction false} ToMapSize(hs: seq<HeaderMatcher>)
    ensures |ToMap(hs)| <= |hs|
  {
    if hs != [] {
      var init, last := hs[..|hs| - 1], hs[|hs| - 1];
      ToMapSize(init);
      assert ToMap(hs).Keys == ToMap(init).Keys + {last.name};
    }
  }

  /** A listing of a map holds exactly its entries. */
  lemma {:induction false} ListingHolds(hs: seq<HeaderMatcher>, m: map<string, string>)
    requires IsListing(hs, m)
    ensures forall h :: h in hs <==> h.name in m && m[h.name] == h.exact
  {
    if hs != [] {
      var init, last := hs[..|hs| - 1], hs[|hs| - 1];
      ToMapSize(init);
      assert m.Keys == ToMap(init).Keys + {last.name};
      assert last.name !in ToMap(init);
      ListingHolds(init, ToMap(init));
      assert hs == init + [last];
    }
  }

  ghost predicate IsRoute(r: Route, cluster: string, headers: Headers) {
    r.prefix == "/" && r.cluster == cluster && IsListing(r.headers, Entries(headers))
  }

  method ToRoute(cluster: string, headers: Headers) returns (r: Route)
    ensures IsRoute(r, cluster, headers)
  {
    var m := Entries(headers);
    var hs: seq<HeaderMatcher> := [];
    var rest := m.Keys;
    while rest != {}
      invariant rest <= m.Keys
      invariant |hs| + |rest| == |m.Keys|
      invariant ToMap(hs).Keys == m.Keys - rest
      invariant forall k | k in ToMap(hs) :: ToMap(hs)[k] == m[k]
    {
      var k :| k in rest;
      assert (hs + [HeaderMatcher(k, m[k])])[..|hs|] == hs;
      hs := hs + [HeaderMatcher(k, m[k])];
      rest := rest - {k};
    }
    r := Route("/", hs, cluster);
  }

  // ---- Virtual.To ----

  /** Two routes per rule, to its IPv4 and then to its IPv6 cluster. */
  ghost predicate RulesRouted(rr: seq<Route>, rules: seq<Rule>, number: int) {
    if rules == [] then rr == [] else
      var n, last := |rr|, rules[|rules| - 1];
      && n >= 2
      && IsRoute(rr[n - 2], ClusterName(last.tun.v4, number), last.headers)
      && IsRoute(rr[n - 1], ClusterName(last.tun.v6, number), last.headers)
      && RulesRouted(rr[..n - 2], rules[..|rules| - 1], number)
  }

  /** The routes of one port: those of the rules, and the default route last. */
  ghost predicate RoutesFor(rr: seq<Route>, rules: seq<Rule>, number: int) {
    rr != [] && rr[|rr| - 1] == DefaultRoute() && RulesRouted(rr[..|rr| - 1], rules, number)
  }

  function RuleClusters(rules: seq<Rule>, number: int): seq<Cluster> {
    if rules == [] then [] else
      var last := rules[|rules| - 1].tun;
      RuleClusters(rules[..|rules| - 1], number)
      + [ToCluster(ClusterName(last.v4, number)), ToCluster(ClusterName(last.v6, number))]
  }

  function RuleEndpoints(rules: seq<Rule>, number: int): seq<Endpoint> {
    if rules == [] then [] else
      var last := rules[|rules| - 1].tun;
      RuleEndpoints(rules[..|rules| - 1], number)
      + [ToEndPoint(ClusterName(last.v4, number), last.v4, number),
         ToEndPoint(ClusterName(last.v6, number), last.v6, number)]
  }

  function AllClusters(ports: seq<Port>, rules: seq<Rule>): seq<Cluster> {
    if ports == [] then [] else
      AllClusters(ports[..|ports| - 1], rules)
      + (RuleClusters(rules, ports[|ports| - 1].number) + [OriginCluster()])
  }

  function AllEndpoints(ports: seq<Port>, rules: seq<Rule>): seq<Endpoint> {
    if ports == [] then [] else
      AllEndpoints(ports[..|ports| - 1], rules) + RuleEndpoints(rules, ports[|ports| - 1].number)
  }

  function AllListeners(uid: string, ports: seq<Port>): seq<Listener> {
    seq(|ports|, i requires 0 <= i < |ports| => ToListener(uid, ports[i]))
  }

  function PortsOf(v: Virtual): seq<Port> {
    if v.ports.None? then [] else v.ports.value
  }

  ghost predicate AllRouted(cs: seq<RouteConfig>, uid: string, ports: seq<Port>, rules: seq<Rule>) {
    |cs| == |ports| && forall i | 0 <= i < |ports| ::
      cs[i].name == ListenerName(uid, ports[i]) && RoutesFor(cs[i].routes, rules, ports[i].number)
  }

  /** `r` is what compiling `v` yields, for some order of each header map. */
  ghost predicate IsCompilation(v: Virtual, r: Resources) {
    && r.listeners == AllListeners(v.uid, PortsOf(v))
    && r.clusters == AllClusters(PortsOf(v), v.rules)
    && r.endpoints == AllEndpoints(PortsOf(v), v.rules)
    && AllRouted(r.routes, v.uid, PortsOf(v), v.rules)
  }

  /** Virtual.To */
  method To(v: Virtual) returns (r: Resources)
    ensures IsCompilation(v, r)
  {
    var ports := PortsOf(v);
    r := Resources([], [], [], []);
    var i := 0;
    while i < |ports|
      invariant 0 <= i <= |ports|
      invariant r.listeners == AllListeners(v.uid, ports[..i])
      invariant r.clusters == AllClusters(ports[..i], v.rules)
      invariant r.endpoints == AllEndpoints(ports[..i], v.rules)
      invariant AllRouted(r.routes, v.uid, ports[..i], v.rules)
    {
      var listener := ToListener(v.uid, ports[i]);
      var cs, es, rr := RulesTo(v.rules, ports[i].number);
      var config := RouteConfig(listener.routeName, rr + [DefaultRoute()]);
      CompileStep(v.uid, ports, i, v.rules);
      RoutedStep(r.routes, config, v.uid, ports, i, v.rules);
      r := Resources(r.listeners + [listener], r.clusters + (cs + [OriginCluster()]), r.routes + [config],
                     r.endpoints + es);
      i := i + 1;
    }
    assert ports[..i] == ports;
  }

  lemma CompileStep(uid: string, ports: seq<Port>, i: nat, rules: seq<Rule>)
    requires i < |ports|
    ensures AllListeners(uid, ports[..i + 1]) == AllListeners(uid, ports[..i]) + [ToListener(uid, ports[i])]
    ensures AllClusters(ports[..i + 1], rules)
         == AllClusters(ports[..i], rules) + (RuleClusters(rules, ports[i].number) + [OriginCluster()])
    ensures AllEndpoints(ports[..i + 1], rules)
         == AllEndpoints(ports[..i], rules) + RuleEndpoints(rules, ports[i].number)
  {
    assert ports[..i + 1][..i] == ports[..i] && ports[..i + 1][i] == ports[i];
  }

  lemma RoutedStep(cs: seq<RouteConfig>, config: RouteConfig, uid: string, ports: seq<Port>, i: nat, rules: seq<Rule>)
    requires i < |ports| && AllRouted(cs, uid, ports[..i], rules)
    requires config.name == ListenerName(uid, ports[i]) && RoutesFor(config.routes, rules, ports[i].number)
    ensures AllRouted(cs + [config], uid, ports[..i + 1], rules)
  {
    forall k | 0 <= k < i + 1
      ensures (cs + [config])[k].name == ListenerName(uid, ports[..i + 1][k])
      ensures RoutesFor((cs + [config])[k].routes, rules, ports[..i + 1][k].number)
    {
      if k < i {
        assert ports[..i][k] == ports[..i + 1][k] && (cs + [config])[k] == cs[k];
      }
    }
  }

  /** The loop over the rules inside Virtual.To. */
  method RulesTo(rules: seq<Rule>, number: int) returns (cs: seq<Cluster>, es: seq<Endpoint>, rr: seq<Route>)
    ensures cs == RuleClusters(rules, number)
    ensures es == RuleEndpoints(rules, number)
    ensures RoutesFor(rr + [DefaultRoute()], rules, number)
  {
    cs, es, rr := [], [], [];
    var j := 0;
    while j < |rules|
      invariant 0 <= j <= |rules|
      invariant cs == RuleClusters(rules[..j], number)
      invariant es == RuleEndpoints(rules[..j], number)
      invariant RulesRouted(rr, rules[..j], number)
    {
      var v4, v6 := rules[j].tun.v4, rules[j].tun.v6;
      var n4, n6 := ClusterName(v4, number), ClusterName(v6, number);
      RuleListsStep(rules, j, number);
      cs := cs + [ToCluster(n4), ToCluster(n6)];
      es := es + [ToEndPoint(n4, v4, number), ToEndPoint(n6, v6, number)];
      var r4 := ToRoute(n4, rules[j].headers);
      var r6 := ToRoute(n6, rules[j].headers);
      RulesRoutedStep(rr, rules, j, r4, r6, number);
      rr := rr + [r4, r6];
      j := j + 1;
    }
    assert rules[..j] == rules;
    RulesRoutedEnd(rr, rules, number);
  }

  lemma RuleListsStep(rules: seq<Rule>, j: nat, number: int)
    requires j < |rules|
    ensures var v4, v6 := rules[j].tun.v4, rules[j].tun.v6;
            var n4, n6 := ClusterName(v4, number), ClusterName(v6, number);
            && RuleClusters(rules[..j + 1], number) == RuleClusters(rules[..j], number) + [ToCluster(n4), ToCluster(n6)]
            && RuleEndpoints(rules[..j + 1], number)
               == RuleEndpoints(rules[..j], number) + [ToEndPoint(n4, v4, number), ToEndPoint(n6, v6, number)]
  {
    assert rules[..j + 1][..j] == rules[..j];
  }

  lemma RulesRoutedStep(rr: seq<Route>, rules: seq<Rule>, j: nat, r4: Route, r6: Route, number: int)
    requires j < |rules| && RulesRouted(rr, rules[..j], number)
    requires IsRoute(r4, ClusterName(rules[j].tun.v4, number), rules[j].headers)
    requires IsRoute(r6, ClusterName(rules[j].tun.v6, number), rules[j].headers)
    ensures RulesRouted(rr + [r4, r6], rules[..j + 1], number)
  {
    assert (rr + [r4, r6])[..|rr|] == rr && rules[..j + 1][..j] == rules[..j];
  }

  lemma RulesRoutedEnd(rr: seq<Route>, rules: seq<Rule>, number: int)
    requires RulesRouted(rr, rules, number)
    ensures RoutesFor(rr + [DefaultRoute()], rules, number)
  {
    assert (rr + [DefaultRoute()])[..|rr|] == rr;
  }

  // ---- Meaning of routes and of rules ----

  /** A request as the proxy sees it; header names arrive in lower case. */
  datatype Request = Request(path: string, headers: map<string, string>)

  /** Exact match, case ignored. */
  predicate Carries(req: Request, name: string, value: string) {
    Lower(name) in req.headers && Lower(req.headers[Lower(name)]) == Lower(value)
  }

  /** The header is looked up by its name in lower case, and its value compared without regard to case. */
  lemma CarriesIff(req: Request, name: string, key: string, value: string)
    requires EqualFold(key, name) && forall c | c in key :: !('A' <= c <= 'Z')
    ensures Carries(req, name, value) <==> key in req.headers && EqualFold(req.headers[key], value)
  {
    LowerEqualIff(key, name);
    LowerOfLower(key);
    if key in req.headers {
      LowerEqualIff(req.headers[key], value);
    }
  }

  predicate RouteAccepts(r: Route, req: Request) {
    r.prefix <= req.path && forall h | h in r.headers :: Carries(req, h.name, h.exact)
  }

  /** Index of the first route that accepts, or the number of routes. */
  function FirstMatch(rr: seq<Route>, req: Request): (i: nat)
    ensures i <= |rr|
  {
    if rr == [] then 0 else
      var n := |rr| - 1;
      var i := FirstMatch(rr[..n], req);
      if i < n then i else if RouteAccepts(rr[n], req) then n else n + 1
  }

  predicate RuleAccepts(rule: Rule, req: Request) {
    forall k | k in Entries(rule.headers) :: Carries(req, k, Entries(rule.headers)[k])
  }

  function FirstRule(rules: seq<Rule>, req: Request): (i: nat)
    ensures i <= |rules|
  {
    if rules == [] then 0 else
      var n := |rules| - 1;
      var i := FirstRule(rules[..n], req);
      if i < n then i else if RuleAccepts(rules[n], req) then n else n + 1
  }

  /** The first rule that accepts, in so many words. */
  lemma {:induction false} FirstRuleIsFirst(rules: seq<Rule>, req: Request)
    ensures var i := FirstRule(rules, req);
            && (i < |rules| ==> RuleAccepts(rules[i], req))
            && forall j | 0 <= j < i :: !RuleAccepts(rules[j], req)
  {
    if rules != [] {
      FirstRuleIsFirst(rules[..|rules| - 1], req);
    }
  }

  lemma {:induction false} FirstMatchIsFirst(rr: seq<Route>, req: Request)
    ensures var i := FirstMatch(rr, req);
            && (i < |rr| ==> RouteAccepts(rr[i], req))
            && forall j | 0 <= j < i :: !RouteAccepts(rr[j], req)
  {
    if rr != [] {
      FirstMatchIsFirst(rr[..|rr| - 1], req);
    }
  }

  /** The listing order of the headers does not matter to the match. */
  lemma RouteMeansRule(r: Route, cluster: string, rule: Rule, req: Request)
    requires IsRoute(r, cluster, rule.headers)
    ensures RouteAccepts(r, req) <==> "/" <= req.path && RuleAccepts(rule, req)
  {
    var m := Entries(rule.headers);
    ListingHolds(r.headers, m);
    if RouteAccepts(r, req) {
      forall k | k in m ensures Carries(req, k, m[k]) {
        assert HeaderMatcher(k, m[k]) in r.headers;
      }
    }
  }

  lemma FirstMatchOfPair(rr: seq<Route>, req: Request)
    requires |rr| >= 2
    ensures var n := |rr|;
            var i := FirstMatch(rr[..n - 2], req);
            FirstMatch(rr, req) ==
              if i < n - 2 then i
              else if RouteAccepts(rr[n - 2], req) then n - 2
              else if RouteAccepts(rr[n - 1], req) then n - 1
              else n
  {
    var n := |rr|;
    var init := rr[..n - 2];
    FirstMatchSnoc(init, rr[n - 2], req);
    FirstMatchSnoc(init + [rr[n - 2]], rr[n - 1], req);
    assert rr == init + [rr[n - 2]] + [rr[n - 1]];
  }

  lemma FirstMatchSnoc(rr: seq<Route>, r: Route, req: Request)
    ensures var i := FirstMatch(rr, req);
            FirstMatch(rr + [r], req) == if i < |rr| then i else if RouteAccepts(r, req) then |rr| else |rr| + 1
  {
    assert (rr + [r])[..|rr|] == rr;
  }

  /** Both routes of a rule accept what the rule accepts. */
  lemma PairMeansRule(rr: seq<Route>, rules: seq<Rule>, number: int, req: Request)
    requires rules != [] && RulesRouted(rr, rules, number)
    ensures var accepts := "/" <= req.path && RuleAccepts(rules[|rules| - 1], req);
            && RouteAccepts(rr[|rr| - 2], req) == accepts && RouteAccepts(rr[|rr| - 1], req) == accepts
  {
    var n, last := |rr|, rules[|rules| - 1];
    RouteMeansRule(rr[n - 2], ClusterName(last.tun.v4, number), last, req);
    RouteMeansRule(rr[n - 1], ClusterName(last.tun.v6, number), last, req);
  }

  lemma {:induction false} RulesMean(rr: seq<Route>, rules: seq<Rule>, number: int, req: Request)
    requires RulesRouted(rr, rules, number)
    ensures |rr| == 2 * |rules|
    ensures var i := FirstRule(rules, req);
            if "/" <= req.path && i < |rules| then
              FirstMatch(rr, req) == 2 * i && rr[2 * i].cluster == ClusterName(rules[i].tun.v4, number)
            else
              FirstMatch(rr, req) == |rr|
  {
    if rules != [] {
      RulesMean(rr[..|rr| - 2], rules[..|rules| - 1], number, req);
      FirstMatchOfPair(rr, req);
      PairMeansRule(rr, rules, number, req);
    }
  }

  /** Compiling preserves meaning: the first matching route is the IPv4 route of the first
      matching rule, or the default route when no rule matches; a request whose path does not
      start with a slash matches nothing. */
  lemma CompilerPreservesMeaning(rr: seq<Route>, rules: seq<Rule>, number: int, req: Request)
    requires RoutesFor(rr, rules, number)
    ensures |rr| == 2 * |rules| + 1
    ensures var i := FirstRule(rules, req);
            if "/" <= req.path then
              && FirstMatch(rr, req) == 2 * i
              && rr[2 * i].cluster == if i < |rules| then ClusterName(rules[i].tun.v4, number) else ORIGIN
            else
              FirstMatch(rr, req) == |rr|
  {
    RulesMean(rr[..|rr| - 1], rules, number, req);
  }

  /** The first match is at an even index, or there is none. */
  lemma FirstMatchIndex(rr: seq<Route>, rules: seq<Rule>, number: int, req: Request) returns (i: nat)
    requires RoutesFor(rr, rules, number)
    ensures FirstMatch(rr, req) == 2 * i || FirstMatch(rr, req) == 2 * |rules| + 1
  {
    CompilerPreservesMeaning(rr, rules, number, req);
    i := FirstRule(rules, req);
  }

  lemma NotOdd(m: nat, i: nat, n: nat, j: nat)
    requires m == 2 * i || m == 2 * n + 1
    requires j < n
    ensures m != 2 * j + 1
  {
  }

  /** The IPv6 route of the j-th rule, which sits at index 2j + 1, is never taken: the IPv4 route
      in front of it shadows it. */
  lemma Ipv6RouteIsShadowed(rr: seq<Route>, rules: seq<Rule>, number: int, req: Request, j: nat)
    requires RoutesFor(rr, rules, number) && j < |rules|
    ensures FirstMatch(rr, req) != 2 * j + 1
  {
    var i := FirstMatchIndex(rr, rules, number, req);
    NotOdd(FirstMatch(rr, req), i, |rules|, j);
  }

  // ---- Names ----

  lemma ClusterNameInjective(ip: string, number: int, ip': string, number': int)
    requires ClusterName(ip, number) == ClusterName(ip', number')
    ensures ip == ip' && number == number'
  {
    FormatIntChars(number);
    FormatIntChars(number');
    SplitAtLast(ip, FormatInt(number), ip', FormatInt(number'), '_');
    FormatIntInjective(number, number');
  }

  /** No tunnel address, whatever its text, can collide with the pass-through cluster. */
  lemma OriginNameIsFree(ip: string, number: int)
    ensures ClusterName(ip, number) != ORIGIN
  {
    var s, name := FormatInt(number), ClusterName(ip, number);
    FormatIntChars(number);
    assert s[0] in s;
    assert name[|ip|] == '_' && name[|ip| + 1] == s[0];
    assert forall k | 0 <= k < |ORIGIN| && ORIGIN[k] == '_' :: k == 6;
    assert ORIGIN[7] == 'c';
  }

  lemma ListenerNameInjective(uid: string, p: Port, q: Port)
    requires ListenerName(uid, p) == ListenerName(uid, q)
    ensures p == q
  {
    var s, t := FormatInt(p.number) + ['_'] + p.protocol, FormatInt(q.number) + ['_'] + q.protocol;
    assert s == ListenerName(uid, p)[|uid| + 1..] && t == ListenerName(uid, q)[|uid| + 1..];
    FormatIntChars(p.number);
    FormatIntChars(q.number);
    SplitAtFirst(FormatInt(p.number), p.protocol, FormatInt(q.number), q.protocol, '_');
    FormatIntInjective(p.number, q.number);
  }
}
