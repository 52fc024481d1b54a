/** The processor that turns each version of the rule file into published snapshots, with a
    cache that skips unchanged entries (pkg/controlplane/processor.go). */
module Processors {
  import opened Lists
  import opened MeshRules
  import opened MeshCompiler
  import opened Snapshots

  const MAX_INT64: int := 0x7fff_ffff_ffff_ffff

  function LastEntry(list: seq<Virtual>, uid: string): (x: Virtual)
    requires Mentions(list, uid)
    ensures x in list && x.uid == uid
  {
    var last := list[|list| - 1];
    if last.uid == uid then last else
      assert list == list[..|list| - 1] + [last];
      LastEntry(list[..|list| - 1], uid)
  }

  /** What processing a list without any cache amounts to: every node named in it is served its
      last entry, and every other node keeps what it had. */
  ghost predicate ServesList(before: map<string, Snapshot>, list: seq<Virtual>, after: map<string, Snapshot>) {
    && (forall uid | uid != "" && Mentions(list, uid) :: uid in after && Serves(LastEntry(list, uid), after[uid]))
    && (forall uid | uid == "" || !Mentions(list, uid) :: SameAt(before, after, uid))
  }

  ghost predicate SameAt(before: map<string, Snapshot>, after: map<string, Snapshot>, uid: string) {
    (uid in before <==> uid in after) && (uid in before ==> before[uid] == after[uid])
  }

  /** Whatever the cache still holds for a node is what that node is being served. */
  ghost predicate CacheAgrees(cache: map<string, Virtual>, served: map<string, Snapshot>) {
    forall uid | uid in cache :: cache[uid].uid == uid && uid in served && Serves(cache[uid], served[uid])
  }

  ghost predicate VersionsDiffer(version: int, published: seq<int>) {
    && 0 <= version <= MAX_INT64
    && (forall i | 0 <= i < |published| :: 1 <= published[i] <= MAX_INT64)
    && (forall i | 0 < i < |published| :: published[i] != published[i - 1])
    && (published != [] ==> published[|published| - 1] == version)
  }

  lemma CacheAgreesSet(cache: map<string, Virtual>, served: map<string, Snapshot>, config: Virtual, s: Snapshot)
    requires CacheAgrees(cache, served) && Serves(config, s) && config.uid != ""
    ensures CacheAgrees(cache[config.uid := config], served[config.uid := s])
    ensures EntryServed(served, config, served[config.uid := s])
  {
  }

  lemma VersionsDifferStep(version: int, published: seq<int>, next: int)
    requires VersionsDiffer(version, published) && 1 <= next <= MAX_INT64 && next != version
    ensures VersionsDiffer(next, published + [next])
  {
  }

  ghost predicate EntryServed(before: map<string, Snapshot>, x: Virtual, after: map<string, Snapshot>) {
    && (forall uid | uid != x.uid || uid == "" :: SameAt(before, after, uid))
    && (x.uid != "" ==> x.uid in after && Serves(x, after[x.uid]))
  }

  class Processor {
    var version: int
    var expireCache: map<string, Virtual>
    var served: map<string, Snapshot>
    /** Versions in the order they were published. */
    ghost var published: seq<int>

    ghost predicate Valid()
      reads this
    {
      VersionsDiffer(version, published) && CacheAgrees(expireCache, served)
    }

    constructor (seed: nat)
      requires seed < 1000
      ensures Valid() && expireCache == map[] && served == map[] && published == [] && version == seed
    {
      version, expireCache, served, published := seed, map[], map[], [];
    }

    method NewVersion() returns (v: int)
      requires 0 <= version <= MAX_INT64
      modifies this`version
      ensures v == version && 1 <= v <= MAX_INT64 && v != old(version)
      ensures v == if old(version) == MAX_INT64 then 1 else old(version) + 1
    {
      if version == MAX_INT64 {
        version := 0;
      }
      version := version + 1;
      v := version;
    }

    /** One change of the rule file; `None` is a file that cannot be parsed. Cache entries may
        expire at any moment, and each lookup sees either the entry or its absence. */
    method ProcessFile(file: Option<seq<Virtual>>)
      requires Valid()
      modifies this
      ensures Valid()
      ensures file.None? ==> served == old(served) && version == old(version) && published == old(published)
      ensures file.Some? ==> ServesList(old(served), file.value, served)
      ensures old(published) <= published
    {
      if file.None? {
        return;
      }
      var list := file.value;
      var i := 0;
      while i < |list|
        invariant 0 <= i <= |list|
        invariant Valid()
        invariant ServesList(old(served), list[..i], served)
        invariant old(published) <= published
      {
        ghost var before := served;
        ProcessEntry(list[i]);
        ServesStep(old(served), list, i, before, served);
        i := i + 1;
      }
      assert list[..i] == list;
    }

    method ProcessEntry(config: Virtual)
      requires Valid()
      modifies this
      ensures Valid()
      ensures EntryServed(old(served), config, served)
      ensures old(published) <= published
    {
      if config.uid == "" {
        return;
      }
      var expired: bool := *;
      if !expired && config.uid in expireCache && expireCache[config.uid] == config {
        return;
      }
      Publication(config);
    }

    /** The body of the loop for an entry that has to be compiled again. The consistency check
        before publishing never fails. */
    method Publication(config: Virtual)
      requires Valid() && config.uid != ""
      modifies this
      ensures Valid()
      ensures EntryServed(old(served), config, served)
      ensures published == old(published) + [version]
    {
      var v := NewVersion();
      VersionsDifferStep(old(version), published, v);
      var snapshot := Compile(config, v);
      CacheAgreesSet(expireCache, served, config, snapshot);
      served, expireCache := served[config.uid := snapshot], expireCache[config.uid := config];
      published := published + [v];
    }
  }

  /** Compiling and indexing one entry; the result always passes the consistency check. */
  method Compile(config: Virtual, version: int) returns (s: Snapshot)
    ensures s.version == version && Serves(config, s)
  {
    var resources := To(config);
    s := Publish(version, resources);
    assert Consistent(s) by { SnapshotIsClosed(config, resources, version); }
  }

  lemma ServesStep(
    start: map<string, Snapshot>, list: seq<Virtual>, i: nat,
    before: map<string, Snapshot>, after: map<string, Snapshot>)
    requires i < |list| && ServesList(start, list[..i], before) && EntryServed(before, list[i], after)
    ensures ServesList(start, list[..i + 1], after)
  {
    var more := list[..i + 1];
    assert more == list[..i] + [list[i]];
    assert more[..i] == list[..i];
    forall uid | uid != "" && Mentions(more, uid)
      ensures uid in after && Serves(LastEntry(more, uid), after[uid])
    {
      if uid != list[i].uid {
        assert Mentions(list[..i], uid);
        assert SameAt(before, after, uid);
      }
    }
    forall uid | uid == "" || !Mentions(more, uid) ensures SameAt(start, after, uid) {
      assert list[i] in more;
      assert uid != "" ==> forall x | x in list[..i] :: x in more;
      assert uid != "" ==> !Mentions(list[..i], uid);
      assert SameAt(start, before, uid) && SameAt(before, after, uid);
    }
  }

  /** Requests at a served node go where its rules say. */
  lemma ServedAsIntended(x: Virtual, s: Snapshot, p: Port, req: Request)
    requires Serves(x, s) && p in PortsOf(x)
    ensures Deliver(s, ListenerName(x.uid, p), req) == Intended(x.rules, p, req)
  {
    var r :| IsCompilation(x, r) && s == Publish(s.version, r);
    DeliveredAsIntended(x, r, s.version, p, req);
  }

  /** When the last rule of a node goes, its entry leaves the file and the processor no longer
      looks at it: the sidecar keeps the old snapshot and still sends matching requests to the
      client that left. */
  lemma LastLeaveIsNotPublished(
    v: seq<Virtual>, node: string, v4: string, before: map<string, Snapshot>, after: map<string, Snapshot>,
    p: Port, req: Request)
    requires WellFormed(v) && Find(v, node) < |v| && DropsEntry(v, node, v4)
    requires node in before && Serves(v[Find(v, node)], before[node]) && p in PortsOf(v[Find(v, node)])
    requires ServesList(before, RemoveRule(v, node, v4), after)
    ensures node in after && after[node] == before[node]
    ensures Deliver(after[node], ListenerName(node, p), req) == Intended(RulesOf(v, node), p, req)
    ensures "/" <= req.path && FirstRule(RulesOf(v, node), req) < |RulesOf(v, node)| ==>
              Deliver(after[node], ListenerName(node, p), req) == ToTunnel(v4, PortValue(p.number))
  {
    DroppedKeepsSnapshot(v, node, v4, before, after);
    DroppedHadOneClient(v, node, v4);
    StaleDelivery(v[Find(v, node)], before[node], v4, p, req);
  }

  lemma DroppedHadOneClient(v: seq<Virtual>, node: string, v4: string)
    requires WellFormed(v) && DropsEntry(v, node, v4) && Find(v, node) < |v|
    ensures OnlyFrom(v[Find(v, node)].rules, v4)
  {
    DroppedIsGone(v, node, v4);
  }

  ghost predicate OnlyFrom(rules: seq<Rule>, v4: string) {
    forall r | r in rules :: r.tun.v4 == v4
  }

  lemma StaleDelivery(x: Virtual, s: Snapshot, v4: string, p: Port, req: Request)
    requires Serves(x, s) && p in PortsOf(x) && OnlyFrom(x.rules, v4)
    ensures Deliver(s, ListenerName(x.uid, p), req) == Intended(x.rules, p, req)
    ensures "/" <= req.path && FirstRule(x.rules, req) < |x.rules| ==>
              Intended(x.rules, p, req) == ToTunnel(v4, PortValue(p.number))
  {
    ServedAsIntended(x, s, p, req);
    var k := FirstRule(x.rules, req);
    assert k < |x.rules| ==> x.rules[k] in x.rules;
  }

  lemma DroppedKeepsSnapshot(
    v: seq<Virtual>, node: string, v4: string, before: map<string, Snapshot>, after: map<string, Snapshot>)
    requires WellFormed(v) && DropsEntry(v, node, v4) && node in before
    requires ServesList(before, RemoveRule(v, node, v4), after)
    ensures node in after && after[node] == before[node]
  {
    DroppedIsGone(v, node, v4);
    assert SameAt(before, after, node);
  }

  lemma KeptIsServed(
    v: seq<Virtual>, node: string, v4: string, before: map<string, Snapshot>, after: map<string, Snapshot>)
    returns (x: Virtual)
    requires WellFormed(v) && node != "" && Find(v, node) < |v| && !DropsEntry(v, node, v4)
    requires ServesList(before, RemoveRule(v, node, v4), after)
    ensures node in after && Serves(x, after[node])
    ensures x.uid == node && x.ports == v[Find(v, node)].ports && x.rules == Filter(RulesOf(v, node), NotFrom(v4))
  {
    var i, list := Find(v, node), RemoveRule(v, node, v4);
    RemoveAtOneEntry(v, node, v4);
    assert list[i] in list && list[i].uid == node;
    x := LastEntry(list, node);
    OneEntryPerNode(list, v, node, v4, x);
  }

  lemma OneEntryPerNode(list: seq<Virtual>, v: seq<Virtual>, node: string, v4: string, x: Virtual)
    requires WellFormed(v) && list == RemoveRule(v, node, v4) && x in list && x.uid == node && Find(v, node) < |v|
    ensures x == KeepOthers(v[Find(v, node)], node, v4)
  {
    RemoveAtOneEntry(v, node, v4);
  }

  /** The processed leave, whole: once the file without the client's rules has been processed, some request
      at the node still goes to the client exactly when the leave dropped the node's entry. The port and
      the request req, which went to the client before, are any that show there was something to stop. */
  lemma LeaverIsServedIff(
    v: seq<Virtual>, node: string, v4: string, before: map<string, Snapshot>, after: map<string, Snapshot>,
    p: Port, req: Request)
    requires WellFormed(v) && node != "" && Find(v, node) < |v|
    requires node in before && Serves(v[Find(v, node)], before[node]) && p in PortsOf(v[Find(v, node)])
    requires Intended(RulesOf(v, node), p, req) == ToTunnel(v4, PortValue(p.number))
    requires ServesList(before, RemoveRule(v, node, v4), after)
    ensures node in after
    ensures (exists q :: Deliver(after[node], ListenerName(node, p), q) == ToTunnel(v4, PortValue(p.number)))
       <==> DropsEntry(v, node, v4)
  {
    if DropsEntry(v, node, v4) {
      DroppedKeepsSnapshot(v, node, v4, before, after);
      ServedAsIntended(v[Find(v, node)], before[node], p, req);
    } else {
      var x := KeptIsServed(v, node, v4, before, after);
      forall q
        ensures Deliver(after[node], ListenerName(node, p), q) != ToTunnel(v4, PortValue(p.number))
      {
        ServedAsIntended(x, after[node], p, q);
        LeavingIsIsolated(RulesOf(v, node), v4, p, q);
      }
    }
  }
}
