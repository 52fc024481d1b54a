/** The snapshot handed to a sidecar: resources indexed by name, the consistency check made
    before publishing, and where a request ends up (pkg/controlplane/cache.go,
    pkg/controlplane/processor.go). */
module Snapshots {
  import opened Lists
  import opened MeshRules
  import opened MeshCompiler

  datatype Snapshot = Snapshot(
    version: int,
    listeners: map<string, Listener>, clusters: map<string, Cluster>,
    routes: map<string, RouteConfig>, endpoints: map<string, Endpoint>)

  /** A group of resources keyed by name; a later resource replaces an earlier one. */
  function Index<T>(items: seq<T>, name: T -> string): map<string, T> {
    if items == [] then map[] else
      var last := items[|items| - 1];
      Index(items[..|items| - 1], name)[name(last) := last]
  }

  lemma {:induction false} IndexSound<T>(items: seq<T>, name: T -> string)
    ensures var m := Index(items, name);
            && (forall k | k in m :: m[k] in items && name(m[k]) == k)
            && forall x | x in items :: name(x) in m
  {
    if items != [] {
      var init, last := items[..|items| - 1], items[|items| - 1];
      IndexSound(init, name);
      assert items == init + [last];
    }
  }

  /** Under a name is the last resource that has it. */
  lemma {:induction false} IndexKeepsLast<T>(items: seq<T>, name: T -> string, i: nat)
    requires i < |items| && forall j | i < j < |items| :: name(items[j]) != name(items[i])
    ensures var m := Index(items, name); name(items[i]) in m && m[name(items[i])] == items[i]
  {
    var n := |items| - 1;
    if i < n {
      IndexKeepsLast(items[..n], name, i);
    }
  }

  function Publish(version: int, r: Resources): Snapshot {
    Snapshot(version, Index(r.listeners, LISTENER_NAME), Index(r.clusters, CLUSTER_NAME),
             Index(r.routes, ROUTE_NAME), Index(r.endpoints, ENDPOINT_NAME))
  }

  const LISTENER_NAME := (x: Listener) => x.name
  const CLUSTER_NAME := (x: Cluster) => x.name
  const ROUTE_NAME := (x: RouteConfig) => x.name
  const ENDPOINT_NAME := (x: Endpoint) => x.clusterName

  lemma PublishSound(version: int, r: Resources)
    ensures var s := Publish(version, r);
            && (forall k | k in s.listeners :: s.listeners[k] in r.listeners && s.listeners[k].name == k)
            && (forall k | k in s.clusters :: s.clusters[k] in r.clusters && s.clusters[k].name == k)
            && (forall k | k in s.routes :: s.routes[k] in r.routes && s.routes[k].name == k)
            && (forall k | k in s.endpoints :: s.endpoints[k] in r.endpoints && s.endpoints[k].clusterName == k)
            && (forall x | x in r.listeners :: x.name in s.listeners)
            && (forall x | x in r.clusters :: x.name in s.clusters)
            && (forall x | x in r.routes :: x.name in s.routes)
            && (forall x | x in r.endpoints :: x.clusterName in s.endpoints)
  {
    IndexSound(r.listeners, LISTENER_NAME);
    IndexSound(r.clusters, CLUSTER_NAME);
    IndexSound(r.routes, ROUTE_NAME);
    IndexSound(r.endpoints, ENDPOINT_NAME);
    assert forall x | x in r.listeners :: LISTENER_NAME(x) == x.name;
    assert forall x | x in r.clusters :: CLUSTER_NAME(x) == x.name;
    assert forall x | x in r.routes :: ROUTE_NAME(x) == x.name;
    assert forall x | x in r.endpoints :: ENDPOINT_NAME(x) == x.clusterName;
  }

  /** Names of the endpoint groups that the clusters refer to. */
  function EndpointReferences(s: Snapshot): set<string> {
    set n | n in s.clusters && s.clusters[n].discovery.EDS? :: n
  }

  function RouteReferences(s: Snapshot): set<string> {
    set n | n in s.listeners :: s.listeners[n].routeName
  }

  /** The check of the snapshot library: as many references as resources, and every resource referenced. */
  predicate Consistent(s: Snapshot) {
    && |EndpointReferences(s)| == |s.endpoints| && s.endpoints.Keys <= EndpointReferences(s)
    && |RouteReferences(s)| == |s.routes| && s.routes.Keys <= RouteReferences(s)
  }

  /** `s` serves what `v` compiles to. */
  ghost predicate Serves(v: Virtual, s: Snapshot) {
    exists r :: IsCompilation(v, r) && s == Publish(s.version, r)
  }

  // ---- Which resources there are ----

  ghost predicate IsAddress(rules: seq<Rule>, ip: string) {
    exists rule | rule in rules :: ip == rule.tun.v4 || ip == rule.tun.v6
  }

  ghost predicate IsRuleCluster(rules: seq<Rule>, number: int, c: Cluster) {
    exists ip | IsAddress(rules, ip) :: c == ToCluster(ClusterName(ip, number))
  }

  ghost predicate IsRuleEndpoint(rules: seq<Rule>, number: int, e: Endpoint) {
    exists ip | IsAddress(rules, ip) :: e == ToEndPoint(ClusterName(ip, number), ip, number)
  }

  lemma AddressSplit(rules: seq<Rule>, ip: string)
    requires rules != []
    ensures var last := rules[|rules| - 1].tun;
            IsAddress(rules, ip) <==> IsAddress(rules[..|rules| - 1], ip) || ip == last.v4 || ip == last.v6
  {
    assert rules == rules[..|rules| - 1] + [rules[|rules| - 1]];
  }

  lemma {:induction false} RuleClustersHas(rules: seq<Rule>, number: int, c: Cluster)
    ensures c in RuleClusters(rules, number) <==> IsRuleCluster(rules, number, c)
  {
    if rules != [] {
      RuleClustersHas(rules[..|rules| - 1], number, c);
      forall ip { AddressSplit(rules, ip); }
    }
  }

  lemma {:induction false} RuleEndpointsHas(rules: seq<Rule>, number: int, e: Endpoint)
    ensures e in RuleEndpoints(rules, number) <==> IsRuleEndpoint(rules, number, e)
  {
    if rules != [] {
      RuleEndpointsHas(rules[..|rules| - 1], number, e);
      forall ip { AddressSplit(rules, ip); }
    }
  }

  ghost predicate IsMeshCluster(ports: seq<Port>, rules: seq<Rule>, c: Cluster) {
    exists p | p in ports :: IsRuleCluster(rules, p.number, c)
  }

  ghost predicate IsMeshEndpoint(ports: seq<Port>, rules: seq<Rule>, e: Endpoint) {
    exists p | p in ports :: IsRuleEndpoint(rules, p.number, e)
  }

  lemma {:induction false} AllClustersHas(ports: seq<Port>, rules: seq<Rule>, c: Cluster)
    ensures c in AllClusters(ports, rules)
       <==> (ports != [] && c == OriginCluster()) || IsMeshCluster(ports, rules, c)
  {
    if ports != [] {
      var init, last := ports[..|ports| - 1], ports[|ports| - 1];
      AllClustersHas(init, rules, c);
      RuleClustersHas(rules, last.number, c);
      assert ports == init + [last];
      assert AllClusters(ports, rules) ==
             AllClusters(init, rules) + (RuleClusters(rules, last.number) + [OriginCluster()]);
    }
  }

  lemma {:induction false} AllEndpointsHas(ports: seq<Port>, rules: seq<Rule>, e: Endpoint)
    ensures e in AllEndpoints(ports, rules) <==> IsMeshEndpoint(ports, rules, e)
  {
    if ports != [] {
      var init, last := ports[..|ports| - 1], ports[|ports| - 1];
      AllEndpointsHas(init, rules, e);
      RuleEndpointsHas(rules, last.number, e);
      assert ports == init + [last];
    }
  }

  // ---- Indexing loses nothing ----

  lemma ClusterNamed(v: Virtual, r: Resources, c: Cluster, ip: string, number: int)
    requires IsCompilation(v, r) && c in r.clusters && c.name == ClusterName(ip, number)
    ensures c == ToCluster(ClusterName(ip, number))
  {
    AllClustersHas(PortsOf(v), v.rules, c);
    OriginNameIsFree(ip, number);
  }

  lemma OriginNamed(v: Virtual, r: Resources, c: Cluster)
    requires IsCompilation(v, r) && c in r.clusters && c.name == ORIGIN
    ensures c == OriginCluster()
  {
    AllClustersHas(PortsOf(v), v.rules, c);
    forall ip, number: int ensures ClusterName(ip, number) != ORIGIN { OriginNameIsFree(ip, number); }
  }

  lemma EndpointNamed(v: Virtual, r: Resources, e: Endpoint, ip: string, number: int)
    requires IsCompilation(v, r) && e in r.endpoints && e.clusterName == ClusterName(ip, number)
    ensures e == ToEndPoint(ClusterName(ip, number), ip, number)
  {
    AllEndpointsHas(PortsOf(v), v.rules, e);
    var p :| p in PortsOf(v) && IsRuleEndpoint(v.rules, p.number, e);
    var ip' :| IsAddress(v.rules, ip') && e == ToEndPoint(ClusterName(ip', p.number), ip', p.number);
    ClusterNameInjective(ip', p.number, ip, number);
  }

  lemma RouteNamed(v: Virtual, r: Resources, c: RouteConfig, p: Port)
    requires IsCompilation(v, r) && c in r.routes && c.name == ListenerName(v.uid, p)
    ensures RoutesFor(c.routes, v.rules, p.number)
  {
    var ports := PortsOf(v);
    var k :| 0 <= k < |r.routes| && r.routes[k] == c;
    ListenerNameInjective(v.uid, ports[k], p);
  }

  lemma ListenersIdentified(v: Virtual, r: Resources, x: Listener, y: Listener)
    requires IsCompilation(v, r) && x in r.listeners && y in r.listeners && x.name == y.name
    ensures x == y
  {
    var ports := PortsOf(v);
    var i :| 0 <= i < |ports| && x == ToListener(v.uid, ports[i]);
    var j :| 0 <= j < |ports| && y == ToListener(v.uid, ports[j]);
    ListenerNameInjective(v.uid, ports[i], ports[j]);
  }

  lemma ClustersIdentified(v: Virtual, r: Resources, x: Cluster, y: Cluster)
    requires IsCompilation(v, r) && x in r.clusters && y in r.clusters && x.name == y.name
    ensures x == y
  {
    AllClustersHas(PortsOf(v), v.rules, x);
    if x == OriginCluster() {
      OriginNamed(v, r, y);
    } else {
      var p :| p in PortsOf(v) && IsRuleCluster(v.rules, p.number, x);
      var ip :| IsAddress(v.rules, ip) && x == ToCluster(ClusterName(ip, p.number));
      ClusterNamed(v, r, y, ip, p.number);
    }
  }

  lemma EndpointsIdentified(v: Virtual, r: Resources, x: Endpoint, y: Endpoint)
    requires IsCompilation(v, r) && x in r.endpoints && y in r.endpoints && x.clusterName == y.clusterName
    ensures x == y
  {
    AllEndpointsHas(PortsOf(v), v.rules, x);
    var p :| p in PortsOf(v) && IsRuleEndpoint(v.rules, p.number, x);
    var ip :| IsAddress(v.rules, ip) && x == ToEndPoint(ClusterName(ip, p.number), ip, p.number);
    EndpointNamed(v, r, y, ip, p.number);
  }

  /** Equal names mean equal resources, so keeping one resource per name drops none.
      Route tables of one name may differ in the listing order of headers, and only in that. */
  lemma NamesIdentify(v: Virtual, r: Resources)
    requires IsCompilation(v, r)
    ensures forall x, y | x in r.listeners && y in r.listeners && x.name == y.name :: x == y
    ensures forall x, y | x in r.clusters && y in r.clusters && x.name == y.name :: x == y
    ensures forall x, y | x in r.endpoints && y in r.endpoints && x.clusterName == y.clusterName :: x == y
    ensures forall x, p | x in r.routes && p in PortsOf(v) && x.name == ListenerName(v.uid, p) ::
              RoutesFor(x.routes, v.rules, p.number)
  {
    forall x, y | x in r.listeners && y in r.listeners && x.name == y.name ensures x == y {
      ListenersIdentified(v, r, x, y);
    }
    forall x, y | x in r.clusters && y in r.clusters && x.name == y.name ensures x == y {
      ClustersIdentified(v, r, x, y);
    }
    forall x, y | x in r.endpoints && y in r.endpoints && x.clusterName == y.clusterName ensures x == y {
      EndpointsIdentified(v, r, x, y);
    }
    forall x, p | x in r.routes && p in PortsOf(v) && x.name == ListenerName(v.uid, p)
      ensures RoutesFor(x.routes, v.rules, p.number)
    {
      RouteNamed(v, r, x, p);
    }
  }

  /** Publishing keeps every compiled listener, cluster and endpoint group. */
  lemma PublishKeepsAll(v: Virtual, r: Resources, version: int)
    requires IsCompilation(v, r)
    ensures var s := Publish(version, r);
            && (forall x | x in r.listeners :: x.name in s.listeners && s.listeners[x.name] == x)
            && (forall x | x in r.clusters :: x.name in s.clusters && s.clusters[x.name] == x)
            && (forall x | x in r.endpoints :: x.clusterName in s.endpoints && s.endpoints[x.clusterName] == x)
            && (forall p | p in PortsOf(v) ::
                  var n := ListenerName(v.uid, p);
                  n in s.routes && RoutesFor(s.routes[n].routes, v.rules, p.number))
  {
    NamesIdentify(v, r);
    PublishSound(version, r);
    var s := Publish(version, r);
    var ports := PortsOf(v);
    forall p | p in ports
      ensures var n := ListenerName(v.uid, p);
              n in s.routes && RoutesFor(s.routes[n].routes, v.rules, p.number)
    {
      var i :| 0 <= i < |ports| && ports[i] == p;
      assert r.routes[i] in r.routes;
    }
  }

  // ---- Where a request ends up ----

  datatype Delivery = Unrouted | PassThrough | ToTunnel(address: string, port: nat) | Dangling

  /** What a sidecar holding `s` does with an HTTP request that arrives at a listener. */
  function Deliver(s: Snapshot, listener: string, req: Request): Delivery {
    if listener !in s.listeners || s.listeners[listener].routeName !in s.routes then Dangling else
      var rr := s.routes[s.listeners[listener].routeName].routes;
      var i := FirstMatch(rr, req);
      if i == |rr| then Unrouted
      else if rr[i].cluster !in s.clusters then Dangling
      else if s.clusters[rr[i].cluster].discovery.OriginalDst? then PassThrough
      else if rr[i].cluster !in s.endpoints then Dangling
      else ToTunnel(s.endpoints[rr[i].cluster].address, s.endpoints[rr[i].cluster].port)
  }

  /** What the rules themselves ask for. */
  function Intended(rules: seq<Rule>, p: Port, req: Request): Delivery {
    var i := FirstRule(rules, req);
    if !("/" <= req.path) then Unrouted
    else if i < |rules| then ToTunnel(rules[i].tun.v4, PortValue(p.number))
    else PassThrough
  }

  lemma AddressResolves(v: Virtual, r: Resources, version: int, p: Port, ip: string)
    requires IsCompilation(v, r) && p in PortsOf(v) && IsAddress(v.rules, ip)
    ensures var s, n := Publish(version, r), ClusterName(ip, p.number);
            && n in s.clusters && s.clusters[n] == ToCluster(n)
            && n in s.endpoints && s.endpoints[n] == ToEndPoint(n, ip, p.number)
  {
    var n := ClusterName(ip, p.number);
    PublishKeepsAll(v, r, version);
    AllClustersHas(PortsOf(v), v.rules, ToCluster(n));
    assert IsRuleCluster(v.rules, p.number, ToCluster(n));
    AllEndpointsHas(PortsOf(v), v.rules, ToEndPoint(n, ip, p.number));
    assert IsRuleEndpoint(v.rules, p.number, ToEndPoint(n, ip, p.number));
  }

  lemma OriginResolves(v: Virtual, r: Resources, version: int)
    requires IsCompilation(v, r) && PortsOf(v) != []
    ensures var s := Publish(version, r); ORIGIN in s.clusters && s.clusters[ORIGIN] == OriginCluster()
  {
    PublishKeepsAll(v, r, version);
    AllClustersHas(PortsOf(v), v.rules, OriginCluster());
  }

  lemma PortResolves(v: Virtual, r: Resources, version: int, p: Port)
    requires IsCompilation(v, r) && p in PortsOf(v)
    ensures var s, n := Publish(version, r), ListenerName(v.uid, p);
            && n in s.listeners && s.listeners[n] == ToListener(v.uid, p)
            && n in s.routes && RoutesFor(s.routes[n].routes, v.rules, p.number)
  {
    PublishKeepsAll(v, r, version);
    var ports := PortsOf(v);
    var k :| 0 <= k < |ports| && ports[k] == p;
    assert r.listeners[k] in r.listeners && r.listeners[k] == ToListener(v.uid, p);
  }

  lemma PortOfListener(v: Virtual, r: Resources, version: int, n: string) returns (p: Port)
    requires IsCompilation(v, r) && n in Publish(version, r).listeners
    ensures p in PortsOf(v) && Publish(version, r).listeners[n] == ToListener(v.uid, p)
  {
    PublishSound(version, r);
    var l := Publish(version, r).listeners[n];
    var k :| 0 <= k < |r.listeners| && r.listeners[k] == l;
    p := PortsOf(v)[k];
  }

  /** The number an int32 becomes as a uint32. */
  function AsUint32(number: int): int {
    if number < 0 then number + 0x1_0000_0000 else number
  }

  lemma PortValueIs(number: int)
    requires -0x8000_0000 <= number < 0x8000_0000
    ensures PortValue(number) == AsUint32(number)
  {
  }

  lemma ListenerIs(uid: string, p: Port)
    ensures var l := ToListener(uid, p);
            && l.name == ListenerName(uid, p) && l.routeName == ListenerName(uid, p)
            && (l.transport.UDP? <==> p.protocol == "UDP") && l.tcpCluster == "origin_cluster"
            && (-0x8000_0000 <= p.number < 0x8000_0000 ==> l.port == AsUint32(p.number))
  {
    if -0x8000_0000 <= p.number < 0x8000_0000 {
      PortValueIs(p.number);
    }
  }

  /** Every port has its listener: under its own name, on the port's number and transport, with the route table
      of the same name for HTTP and the original destination for anything else. */
  lemma PublishedListener(v: Virtual, r: Resources, version: int, p: Port)
    requires IsCompilation(v, r) && p in PortsOf(v)
    ensures var s, n := Publish(version, r), ListenerName(v.uid, p);
            n in s.listeners &&
            var l := s.listeners[n];
            && l.name == n && l.routeName == n
            && (l.transport.UDP? <==> p.protocol == "UDP") && l.tcpCluster == "origin_cluster"
            && (-0x8000_0000 <= p.number < 0x8000_0000 ==> l.port == AsUint32(p.number))
  {
    PortResolves(v, r, version, p);
    ListenerIs(v.uid, p);
  }

  /** There are no other listeners than those of the ports. */
  lemma ListenersArePorts(v: Virtual, r: Resources, version: int, n: string) returns (p: Port)
    requires IsCompilation(v, r) && n in Publish(version, r).listeners
    ensures p in PortsOf(v) && n == ListenerName(v.uid, p)
  {
    PublishSound(version, r);
    p := PortOfListener(v, r, version, n);
    ListenerIs(v.uid, p);
  }

  lemma RouteChosen(v: Virtual, r: Resources, version: int, p: Port, req: Request)
    requires IsCompilation(v, r) && p in PortsOf(v)
    ensures var s, n := Publish(version, r), ListenerName(v.uid, p);
            && n in s.listeners && s.listeners[n].routeName == n && n in s.routes
            && var rr, i := s.routes[n].routes, FirstRule(v.rules, req);
               if "/" <= req.path then
                 && FirstMatch(rr, req) < |rr|
                 && rr[FirstMatch(rr, req)].cluster
                    == if i < |v.rules| then ClusterName(v.rules[i].tun.v4, p.number) else ORIGIN
               else FirstMatch(rr, req) == |rr|
  {
    PortResolves(v, r, version, p);
    CompilerPreservesMeaning(Publish(version, r).routes[ListenerName(v.uid, p)].routes, v.rules, p.number, req);
  }

  /** End to end: through listener, route table, cluster and endpoint lookup, every request
      reaches exactly the client its rules ask for, on the port it was sent to. */
  lemma DeliveredAsIntended(v: Virtual, r: Resources, version: int, p: Port, req: Request)
    requires IsCompilation(v, r) && p in PortsOf(v)
    ensures Deliver(Publish(version, r), ListenerName(v.uid, p), req) == Intended(v.rules, p, req)
  {
    RouteChosen(v, r, version, p, req);
    OriginResolves(v, r, version);
    var i := FirstRule(v.rules, req);
    if i < |v.rules| {
      assert v.rules[i] in v.rules;
      AddressResolves(v, r, version, p, v.rules[i].tun.v4);
    }
  }

  /** A request that a rule takes goes to that client's IPv4 address, on the number of the port it was sent to. */
  lemma DeliveredOnPort(v: Virtual, r: Resources, version: int, p: Port, req: Request)
    requires IsCompilation(v, r) && p in PortsOf(v) && -0x8000_0000 <= p.number < 0x8000_0000
    ensures var d, i := Deliver(Publish(version, r), ListenerName(v.uid, p), req), FirstRule(v.rules, req);
            if "/" <= req.path && i < |v.rules| then d == ToTunnel(v.rules[i].tun.v4, AsUint32(p.number))
            else !d.ToTunnel?
  {
    DeliveredAsIntended(v, r, version, p, req);
    PortValueIs(p.number);
  }

  // ---- Snapshots are closed ----

  lemma EndpointNamesAgree(v: Virtual, r: Resources, version: int)
    requires IsCompilation(v, r)
    ensures var s := Publish(version, r); s.endpoints.Keys == EndpointReferences(s)
  {
    var s := Publish(version, r);
    var ports := PortsOf(v);
    PublishSound(version, r);
    forall n | n in s.endpoints ensures n in EndpointReferences(s) {
      AllEndpointsHas(ports, v.rules, s.endpoints[n]);
      var p :| p in ports && IsRuleEndpoint(v.rules, p.number, s.endpoints[n]);
      var ip :| IsAddress(v.rules, ip) && s.endpoints[n] == ToEndPoint(ClusterName(ip, p.number), ip, p.number);
      AddressResolves(v, r, version, p, ip);
    }
    forall n | n in EndpointReferences(s) ensures n in s.endpoints {
      AllClustersHas(ports, v.rules, s.clusters[n]);
      var p :| p in ports && IsRuleCluster(v.rules, p.number, s.clusters[n]);
      var ip :| IsAddress(v.rules, ip) && s.clusters[n] == ToCluster(ClusterName(ip, p.number));
      AddressResolves(v, r, version, p, ip);
    }
  }

  lemma PortOfRoute(v: Virtual, r: Resources, version: int, n: string) returns (p: Port)
    requires IsCompilation(v, r) && n in Publish(version, r).routes
    ensures p in PortsOf(v) && n == ListenerName(v.uid, p)
  {
    PublishSound(version, r);
    var c := Publish(version, r).routes[n];
    var k :| 0 <= k < |r.routes| && r.routes[k] == c;
    p := PortsOf(v)[k];
  }

  lemma RouteNamesAgree(v: Virtual, r: Resources, version: int)
    requires IsCompilation(v, r)
    ensures var s := Publish(version, r); s.routes.Keys == RouteReferences(s)
  {
    var s := Publish(version, r);
    forall n | n in s.routes ensures n in RouteReferences(s) {
      var p := PortOfRoute(v, r, version, n);
      PortResolves(v, r, version, p);
    }
    forall n | n in RouteReferences(s) ensures n in s.routes {
      var l :| l in s.listeners && s.listeners[l].routeName == n;
      var p := PortOfListener(v, r, version, l);
      PortResolves(v, r, version, p);
    }
  }

  lemma {:induction false} RulesTarget(rr: seq<Route>, rules: seq<Rule>, number: int, j: nat) returns (ip: string)
    requires RulesRouted(rr, rules, number) && j < |rr|
    ensures IsAddress(rules, ip) && rr[j].cluster == ClusterName(ip, number)
  {
    var n, last := |rr|, rules[|rules| - 1];
    if j >= n - 2 {
      ip := if j == n - 2 then last.tun.v4 else last.tun.v6;
      assert last in rules;
    } else {
      ip := RulesTarget(rr[..n - 2], rules[..|rules| - 1], number, j);
      assert forall rule | rule in rules[..|rules| - 1] :: rule in rules;
    }
  }

  lemma TargetDefined(v: Virtual, r: Resources, version: int, p: Port, rr: seq<Route>, j: nat)
    requires IsCompilation(v, r) && p in PortsOf(v)
    requires RoutesFor(rr, v.rules, p.number) && j < |rr|
    ensures rr[j].cluster in Publish(version, r).clusters
  {
    if j < |rr| - 1 {
      var ip := RulesTarget(rr[..|rr| - 1], v.rules, p.number, j);
      AddressResolves(v, r, version, p, ip);
    } else {
      OriginResolves(v, r, version);
    }
  }

  lemma RouteTargetDefined(v: Virtual, r: Resources, version: int, n: string, j: nat)
    requires IsCompilation(v, r)
    requires n in Publish(version, r).routes && j < |Publish(version, r).routes[n].routes|
    ensures Publish(version, r).routes[n].routes[j].cluster in Publish(version, r).clusters
  {
    var p := PortOfRoute(v, r, version, n);
    PortResolves(v, r, version, p);
    TargetDefined(v, r, version, p, Publish(version, r).routes[n].routes, j);
  }

  /** Every compiled snapshot is closed: it passes the library's check, and every cluster that a
      route or a listener names is defined, so no request is ever left dangling. */
  lemma SnapshotIsClosed(v: Virtual, r: Resources, version: int)
    requires IsCompilation(v, r)
    ensures var s := Publish(version, r);
            && Consistent(s)
            && s.endpoints.Keys == EndpointReferences(s) && s.routes.Keys == RouteReferences(s)
            && (forall n, j | n in s.routes && 0 <= j < |s.routes[n].routes| ::
                  s.routes[n].routes[j].cluster in s.clusters)
            && (forall n | n in s.listeners :: s.listeners[n].tcpCluster in s.clusters)
  {
    var s := Publish(version, r);
    EndpointNamesAgree(v, r, version);
    RouteNamesAgree(v, r, version);
    assert |s.endpoints| == |s.endpoints.Keys| && |s.routes| == |s.routes.Keys|;
    forall n, j | n in s.routes && 0 <= j < |s.routes[n].routes|
      ensures s.routes[n].routes[j].cluster in s.clusters
    {
      RouteTargetDefined(v, r, version, n, j);
    }
    forall n | n in s.listeners ensures s.listeners[n].tcpCluster in s.clusters {
      var p := PortOfListener(v, r, version, n);
      OriginResolves(v, r, version);
    }
  }

  // ---- Leaving is isolated ----

  lemma {:induction false} FirstRuleAfterRemoval(rules: seq<Rule>, v4: string, req: Request)
    ensures var kept := Filter(rules, NotFrom(v4));
            var i, k := FirstRule(rules, req), FirstRule(kept, req);
            && (i == |rules| ==> k == |kept|)
            && (i < |rules| && rules[i].tun.v4 != v4 ==> k < |kept| && kept[k] == rules[i])
  {
    if rules != [] {
      var init, last := rules[..|rules| - 1], rules[|rules| - 1];
      FirstRuleAfterRemoval(init, v4, req);
      var kept := Filter(init, NotFrom(v4));
      assert (kept + [last])[..|kept|] == kept;
    }
  }

  /** What removing a client does to one node's requests: none is sent to it any more, and every
      request that some other rule (or no rule) would have taken goes where it went before. */
  lemma LeavingIsIsolated(rules: seq<Rule>, v4: string, p: Port, req: Request)
    ensures var kept := Filter(rules, NotFrom(v4));
            && (Intended(kept, p, req).ToTunnel? ==> Intended(kept, p, req).address != v4)
            && (Intended(rules, p, req) != ToTunnel(v4, PortValue(p.number)) ==>
                  Intended(kept, p, req) == Intended(rules, p, req))
  {
    var kept := Filter(rules, NotFrom(v4));
    FirstRuleAfterRemoval(rules, v4, req);
    FilterMember(rules, NotFrom(v4));
    var k := FirstRule(kept, req);
    assert k < |kept| ==> kept[k] in kept;
  }

  /** The same through the stored list and the compiler: after removeEnvoyConfig, other nodes'
      entries stand as they were, and a sidecar served from what is left of this node's entry is
      isolated as above. */
  lemma LeaveThenCompile(
    v: seq<Virtual>, node: string, v4: string, x: Virtual, r: Resources, version: int, p: Port, req: Request)
    requires WellFormed(v) && x in RemoveRule(v, node, v4)
    requires IsCompilation(x, r) && p in PortsOf(x)
    ensures x.uid != node ==> x in v
    ensures x.uid == node ==>
              var was := RulesOf(v, node);
              var d := Deliver(Publish(version, r), ListenerName(node, p), req);
              && !DropsEntry(v, node, v4)
              && (d.ToTunnel? ==> d.address != v4)
              && (Intended(was, p, req) != ToTunnel(v4, PortValue(p.number)) ==> d == Intended(was, p, req))
  {
    if x.uid == node {
      LeaveFiltersOwnEntry(v, node, v4, x);
      DeliveredAsIntended(x, r, version, p, req);
      LeavingIsIsolated(RulesOf(v, node), v4, p, req);
    } else {
      LeaveKeepsOtherNodes(v, node, v4, x);
    }
  }
}
