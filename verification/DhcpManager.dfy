/** The DHCP manager's calls and the count update as programs over the API server
    (pkg/handler/dhcp.go, pkg/handler/cleaner.go), tied to the functions the store's clients apply. */
module DhcpManager {
  import opened Lists
  import opened Allocator
  import opened ConfigStore

  /** The server's side of one ConfigMap: Update only with the current version, Patch always. */
  class ApiServer {
    var version: nat
    var cm: ConfigMap

    constructor (cm: ConfigMap)
      ensures this.cm == cm && version == 0
    {
      this.cm, version := cm, 0;
    }

    method Get() returns (v: nat, c: ConfigMap)
      ensures v == version && c == cm
    {
      v, c := version, cm;
    }

    method Update(v: nat, c: ConfigMap) returns (ok: bool)
      modifies this
      ensures ok <==> v == old(version)
      ensures ok ==> cm == c && version == old(version) + 1
      ensures !ok ==> cm == old(cm) && version == old(version)
    {
      ok := v == version;
      if ok {
        cm, version := c, version + 1;
      }
    }

    /** The writes of other clients that arrive at this moment, one after another. */
    method Meanwhile(writes: seq<ConfigMap>)
      modifies this
      ensures cm == Latest(old(cm), writes) && version == old(version) + |writes|
    {
      var i := 0;
      while i < |writes|
        invariant 0 <= i <= |writes|
        invariant cm == Latest(old(cm), writes[..i]) && version == old(version) + i
      {
        cm, version := writes[i], version + 1;
        i := i + 1;
      }
      assert writes[..i] == writes;
    }

    method PatchCount(n: int)
      modifies this
      ensures cm == old(cm).(refCount := Some(n)) && version == old(version) + 1
    {
      cm, version := cm.(refCount := Some(n)), version + 1;
    }
  }

  function Latest(cm: ConfigMap, writes: seq<ConfigMap>): ConfigMap {
    if writes == [] then cm else writes[|writes| - 1]
  }

  datatype Outcome = Rented(pair: Pair) | Full | Conflict

  /** No offset of this family is left for a client with these local addresses. */
  ghost predicate Exhausted(bits: Bits, local: set<nat>) {
    forall i | 0 <= i < SIZE :: i in bits || i in local
  }

  /** RentIPBaseNICAddress and RentIPRandom, with other clients' writes between Get and Update. */
  method RentIP(server: ApiServer, local4: set<nat>, local6: set<nat>, writes: seq<ConfigMap>) returns (r: Outcome)
    modifies server
    ensures r.Rented? ==> writes == []
                          && Compute(Rent(local4, local6), old(server.cm)) == Write(server.cm, Some(r.pair))
                          && TakesLeast(Marks(old(server.cm).dhcp), Marks(server.cm.dhcp), local4, r.pair.v4)
                          && TakesLeast(Marks(old(server.cm).dhcp6), Marks(server.cm.dhcp6), local6, r.pair.v6)
                          && server.version == old(server.version) + 1
    ensures !r.Rented? ==> server.cm == Latest(old(server.cm), writes)
                           && server.version == old(server.version) + |writes|
    ensures r.Full? <==> Exhausted(Marks(old(server.cm).dhcp), local4) || Exhausted(Marks(old(server.cm).dhcp6), local6)
    ensures r.Conflict? <==> !r.Full? && writes != []
  {
    var v, cm := server.Get();
    server.Meanwhile(writes);
    var v4, bits4 := RentOffset(Marks(cm.dhcp), local4);
    if v4.None? {
      return Full;
    }
    var v6, bits6 := RentOffset(Marks(cm.dhcp6), local6);
    if v6.None? {
      return Full;
    }
    var ok := server.Update(v, cm.(dhcp := Some(bits4), dhcp6 := Some(bits6)));
    RentTakesFree(cm, local4, local6);
    r := if ok then Rented(Pair(v4.value, v6.value)) else Conflict;
  }

  /** ReleaseIP, likewise; nothing at all is written for an empty list. */
  method ReleaseIP(server: ApiServer, ips: seq<Ip>, writes: seq<ConfigMap>) returns (ok: bool)
    modifies server
    ensures ok <==> ips == [] || writes == []
    ensures ips == [] ==> server.cm == old(server.cm) && server.version == old(server.version)
    ensures ips != [] && ok ==> Compute(Release(ips), old(server.cm)) == Write(server.cm, None)
                                && server.version == old(server.version) + 1
    ensures !ok ==> server.cm == Latest(old(server.cm), writes) && server.version == old(server.version) + |writes|
  {
    if ips == [] {
      return true;
    }
    var v, cm := server.Get();
    server.Meanwhile(writes);
    var out := cm.(dhcp := Some(Marks(cm.dhcp)), dhcp6 := Some(Marks(cm.dhcp6)));
    var i := 0;
    while i < |ips|
      invariant 0 <= i <= |ips|
      invariant out.dhcp.Some? && out.dhcp6.Some?
      invariant out == ReleaseIn(cm, ips[..i])
    {
      assert ips[..i + 1][..i] == ips[..i];
      match ips[i] {
        case V4(d) => out := out.(dhcp := Some(Unmark(Marks(out.dhcp), ClearsV4(d))));
        case V6(d) => out := out.(dhcp6 := Some(Unmark(Marks(out.dhcp6), ClearsV6(d))));
      }
      i := i + 1;
    }
    assert ips[..i] == ips;
    ok := server.Update(v, out);
  }

  /** updateRefCount, with other clients' writes before its patch and before it reads the count back.
      The patch names no version, so it meets no conflict. */
  method UpdateRefCount(server: ApiServer, inc: int, writes: seq<ConfigMap>, more: seq<ConfigMap>) returns (count: int)
    modifies server
    ensures var patched := Latest(old(server.cm), writes).(refCount := Some(Counted(old(server.cm), inc)));
            server.cm == Latest(patched, more)
    ensures server.version == old(server.version) + |writes| + 1 + |more|
    ensures count == CountOf(server.cm)
  {
    var _, cm := server.Get();
    server.Meanwhile(writes);
    var n := CountOf(cm) + inc;
    if n < 0 {
      n := 0;
    }
    server.PatchCount(n);
    server.Meanwhile(more);
    var _, after := server.Get();
    count := CountOf(after);
  }
}
