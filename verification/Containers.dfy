/** Edits of a workload's pod template: taking the probes out and putting them back
    (pkg/handler/remote.go), and adding and removing the sidecars (pkg/mesh/controller.go). */
module Containers {
  import opened Lists
  import opened Text
  import MeshRules

  /** A probe, by its JSON text. */
  type Probe = string

  datatype Probes = Probes(readiness: Option<Probe>, liveness: Option<Probe>, startup: Option<Probe>)

  const NONE := Probes(None, None, None)

  /** body is everything else in the container. */
  datatype Container = Container(name: string, ports: seq<MeshRules.Port>, body: string, probes: Probes)

  class PodTemplate {
    var containers: seq<Container>

    constructor (cs: seq<Container>)
      ensures containers == cs
    {
      containers := cs;
    }
  }

  // ---- Paths ----

  datatype Kind = Readiness | Liveness | Startup

  function KindName(k: Kind): string {
    match k
    case Readiness => "readinessProbe"
    case Liveness => "livenessProbe"
    case Startup => "startupProbe"
  }

  /** strings.Join */
  function Join(parts: seq<string>, sep: string): string {
    if parts == [] then ""
    else if |parts| == 1 then parts[0]
    else Join(parts[..|parts| - 1], sep) + sep + parts[|parts| - 1]
  }

  function PathTo(path: seq<string>, i: nat, k: Kind): string {
    "/" + Join(path + ["spec", "containers", FormatInt(i), KindName(k)], "/")
  }

  lemma JoinSnoc(parts: seq<string>, last: string, sep: string)
    requires parts != []
    ensures Join(parts + [last], sep) == Join(parts, sep) + sep + last
  {
    assert (parts + [last])[..|parts|] == parts;
  }

  lemma JoinTwoMore(base: seq<string>, a: string, b: string, sep: string)
    requires base != []
    ensures Join(base + [a, b], sep) == Join(base, sep) + sep + a + sep + b
  {
    JoinSnoc(base, a, sep);
    JoinSnoc(base + [a], b, sep);
    assert base + [a, b] == base + [a] + [b];
  }

  lemma PathEndsInIndexAndKind(path: seq<string>, i: nat, k: Kind)
    ensures PathTo(path, i, k) ==
            "/" + Join(path + ["spec", "containers"], "/") + "/" + (FormatInt(i) + "/" + KindName(k))
  {
    var base, index, kind := path + ["spec", "containers"], FormatInt(i), KindName(k);
    JoinTwoMore(base, index, kind, "/");
    assert base + [index, kind] == path + ["spec", "containers", index, kind];
  }

  /** A JSON pointer (RFC 6901) to the member these names lead to. */
  function Pointer(parts: seq<string>): string {
    if parts == [] then "" else Pointer(parts[..|parts| - 1]) + "/" + parts[|parts| - 1]
  }

  lemma {:induction false} JoinIsPointer(parts: seq<string>)
    requires parts != []
    ensures "/" + Join(parts, "/") == Pointer(parts)
  {
    var n := |parts| - 1;
    if n == 0 {
      assert Pointer(parts[..n]) == "";
      assert "" + "/" + parts[0] == "/" + parts[0];
    } else {
      var init := Join(parts[..n], "/");
      JoinIsPointer(parts[..n]);
      assert "/" + (init + "/" + parts[n]) == ("/" + init) + "/" + parts[n];
    }
  }

  /** Every path is the pointer, behind the template's own, to the probe of its kind in its container. */
  lemma PathIsPointer(path: seq<string>, i: nat, k: Kind)
    ensures var probe := match k
                         case Readiness => "readinessProbe"
                         case Liveness => "livenessProbe"
                         case Startup => "startupProbe";
            PathTo(path, i, k) == Pointer(path + ["spec", "containers", Decimal(i), probe])
  {
    JoinIsPointer(path + ["spec", "containers", FormatInt(i), KindName(k)]);
  }

  /** Different probes have different paths. */
  lemma PathInjective(path: seq<string>, i: nat, k: Kind, j: nat, l: Kind)
    requires PathTo(path, i, k) == PathTo(path, j, l)
    ensures i == j && k == l
  {
    PathEndsInIndexAndKind(path, i, k);
    PathEndsInIndexAndKind(path, j, l);
    var base := "/" + Join(path + ["spec", "containers"], "/") + "/";
    var s, t := FormatInt(i) + "/" + KindName(k), FormatInt(j) + "/" + KindName(l);
    assert s == (base + s)[|base|..] && t == (base + t)[|base|..];
    FormatIntChars(i);
    FormatIntChars(j);
    SplitAtFirst(FormatInt(i), KindName(k), FormatInt(j), KindName(l), '/');
    FormatIntInjective(i, j);
  }

  // ---- Taking probes out and putting them back ----

  /** One replace operation of a JSON patch; None is a null or an empty value. */
  datatype P = P(path: string, value: Option<Probe>)

  function EntriesFor(path: seq<string>, i: nat, pr: Probes): seq<P> {
    [P(PathTo(path, i, Readiness), pr.readiness),
     P(PathTo(path, i, Liveness), pr.liveness),
     P(PathTo(path, i, Startup), pr.startup)]
  }

  /** The operations that give container i the probes ps[i], for every i. */
  function Entries(path: seq<string>, ps: seq<Probes>): (r: seq<P>)
    ensures |r| == 3 * |ps|
  {
    if ps == [] then [] else Entries(path, ps[..|ps| - 1]) + EntriesFor(path, |ps| - 1, ps[|ps| - 1])
  }

  function ProbesOf(cs: seq<Container>): (r: seq<Probes>)
    ensures |r| == |cs|
  {
    if cs == [] then [] else ProbesOf(cs[..|cs| - 1]) + [cs[|cs| - 1].probes]
  }

  lemma {:induction false} ProbesOfAt(cs: seq<Container>, i: nat)
    requires i < |cs|
    ensures ProbesOf(cs)[i] == cs[i].probes
  {
    if i < |cs| - 1 {
      ProbesOfAt(cs[..|cs| - 1], i);
    }
  }

  function Blank(n: nat): (r: seq<Probes>)
    ensures |r| == n
  {
    if n == 0 then [] else Blank(n - 1) + [NONE]
  }

  lemma {:induction false} BlankAt(n: nat, i: nat)
    requires i < n
    ensures Blank(n)[i] == NONE
  {
    if i < n - 1 {
      BlankAt(n - 1, i);
    }
  }

  /** patch */
  method Patch(cs: seq<Container>, path: seq<string>) returns (remove: seq<P>, restore: seq<P>)
    ensures remove == Entries(path, Blank(|cs|))
    ensures restore == Entries(path, ProbesOf(cs))
  {
    remove, restore := [], [];
    var i := 0;
    while i < |cs|
      invariant 0 <= i <= |cs|
      invariant remove == Entries(path, Blank(i))
      invariant restore == Entries(path, ProbesOf(cs[..i]))
    {
      var c := cs[i];
      remove := remove + [P(PathTo(path, i, Readiness), None),
                          P(PathTo(path, i, Liveness), None),
                          P(PathTo(path, i, Startup), None)];
      restore := restore + [P(PathTo(path, i, Readiness), c.probes.readiness),
                            P(PathTo(path, i, Liveness), c.probes.liveness),
                            P(PathTo(path, i, Startup), c.probes.startup)];
      assert Blank(i + 1)[..i] == Blank(i);
      assert cs[..i + 1][..i] == cs[..i] && ProbesOf(cs[..i + 1])[..i] == ProbesOf(cs[..i]);
      i := i + 1;
    }
    assert cs[..i] == cs;
  }

  /** What one operation does to the probes of container i. */
  function SetOne(pr: Probes, path: seq<string>, i: nat, p: P): Probes {
    if p.path == PathTo(path, i, Readiness) then pr.(readiness := p.value)
    else if p.path == PathTo(path, i, Liveness) then pr.(liveness := p.value)
    else if p.path == PathTo(path, i, Startup) then pr.(startup := p.value)
    else pr
  }

  function SetAll(pr: Probes, path: seq<string>, i: nat, ps: seq<P>): Probes {
    if ps == [] then pr else SetOne(SetAll(pr, path, i, ps[..|ps| - 1]), path, i, ps[|ps| - 1])
  }

  function Assigned(cs: seq<Container>, path: seq<string>, ps: seq<P>): seq<Container> {
    seq(|cs|, i requires 0 <= i < |cs| => cs[i].(probes := SetAll(cs[i].probes, path, i, ps)))
  }

  /** fromPatchToProbe */
  method FromPatchToProbe(spec: PodTemplate, path: seq<string>, ps: seq<P>)
    modifies spec
    ensures spec.containers == Restored(old(spec.containers), path, ps)
    ensures |ps| != 3 * |old(spec.containers)| ==> spec.containers == old(spec.containers)
  {
    if |ps| != 3 * |spec.containers| {
      return;
    }
    ghost var cs := spec.containers;
    var i := 0;
    while i < |spec.containers|
      invariant 0 <= i <= |spec.containers| == |cs|
      invariant spec.containers == Assigned(cs, path, ps)[..i] + cs[i..]
    {
      AssignOneMore(cs, path, ps, i);
      var probes := SetProbes(spec.containers[i].probes, path, i, ps);
      spec.containers := spec.containers[i := spec.containers[i].(probes := probes)];
      i := i + 1;
    }
  }

  lemma AssignOneMore(cs: seq<Container>, path: seq<string>, ps: seq<P>, i: nat)
    requires i < |cs|
    ensures var all := Assigned(cs, path, ps);
            var now := all[..i] + cs[i..];
            && now[i] == cs[i]
            && now[i := cs[i].(probes := SetAll(cs[i].probes, path, i, ps))] == all[..i + 1] + cs[i + 1..]
  {
  }

  /** The inner loop of fromPatchToProbe, for container i. */
  method SetProbes(before: Probes, path: seq<string>, i: nat, ps: seq<P>) returns (pr: Probes)
    ensures pr == SetAll(before, path, i, ps)
  {
    var readiness, liveness, startup := PathTo(path, i, Readiness), PathTo(path, i, Liveness), PathTo(path, i, Startup);
    pr := before;
    var n := 0;
    while n < |ps|
      invariant 0 <= n <= |ps|
      invariant pr == SetAll(before, path, i, ps[..n])
    {
      assert ps[..n + 1][..n] == ps[..n];
      if ps[n].path == readiness {
        pr := pr.(readiness := ps[n].value);
      } else if ps[n].path == liveness {
        pr := pr.(liveness := ps[n].value);
      } else if ps[n].path == startup {
        pr := pr.(startup := ps[n].value);
      }
      n := n + 1;
    }
    assert ps[..n] == ps;
  }

  function Restored(cs: seq<Container>, path: seq<string>, ps: seq<P>): seq<Container> {
    if |ps| == 3 * |cs| then Assigned(cs, path, ps) else cs
  }

  lemma SetSnoc(pr: Probes, path: seq<string>, i: nat, ps: seq<P>, p: P)
    ensures SetAll(pr, path, i, ps + [p]) == SetOne(SetAll(pr, path, i, ps), path, i, p)
  {
    assert (ps + [p])[..|ps|] == ps;
  }

  lemma SetThree(pr: Probes, path: seq<string>, i: nat, ps: seq<P>, j: nat, to: Probes)
    ensures SetAll(pr, path, i, ps + EntriesFor(path, j, to)) == if i == j then to else SetAll(pr, path, i, ps)
  {
    var e := EntriesFor(path, j, to);
    assert ps + e == ps + [e[0]] + [e[1]] + [e[2]];
    SetSnoc(pr, path, i, ps, e[0]);
    SetSnoc(pr, path, i, ps + [e[0]], e[1]);
    SetSnoc(pr, path, i, ps + [e[0]] + [e[1]], e[2]);
    SetEach(SetAll(pr, path, i, ps), path, i, j, to);
  }

  lemma SetEach(pr: Probes, path: seq<string>, i: nat, j: nat, to: Probes)
    ensures var e := EntriesFor(path, j, to);
            SetOne(SetOne(SetOne(pr, path, i, e[0]), path, i, e[1]), path, i, e[2]) == if i == j then to else pr
  {
    forall k, l | PathTo(path, i, k) == PathTo(path, j, l)
      ensures i == j && k == l
    {
      PathInjective(path, i, k, j, l);
    }
  }

  /** A full set of operations gives every container exactly the probes it names. */
  lemma {:induction false} EntriesSet(pr: Probes, path: seq<string>, i: nat, ps: seq<Probes>)
    ensures SetAll(pr, path, i, Entries(path, ps)) == if i < |ps| then ps[i] else pr
  {
    if ps != [] {
      EntriesSet(pr, path, i, ps[..|ps| - 1]);
      SetThree(pr, path, i, Entries(path, ps[..|ps| - 1]), |ps| - 1, ps[|ps| - 1]);
    }
  }

  // ---- Sidecars ----

  const VPN := "vpn"
  const ENVOY := "envoy-proxy"

  predicate IsSidecar(c: Container) {
    c.name == ENVOY || c.name == VPN
  }

  function NotSidecar(): Container -> bool {
    c => !IsSidecar(c)
  }

  function Sidecars(node: string): seq<Container> {
    [Container(VPN, [], "kubevpn serve", NONE), Container(ENVOY, [], node, NONE)]
  }

  /** RemoveContainers */
  method RemoveContainers(spec: PodTemplate)
    modifies spec
    ensures spec.containers == Filter(old(spec.containers), NotSidecar())
    ensures forall c :: c in spec.containers <==>
              c in old(spec.containers) && c.name != "vpn" && c.name != "envoy-proxy"
  {
    FilterMember(spec.containers, NotSidecar());
    var cs, _ := DeleteUnwanted(spec.containers, NotSidecar());
    spec.containers := cs;
  }

  /** AddMeshContainer */
  method AddMeshContainer(spec: PodTemplate, node: string)
    modifies spec
    ensures spec.containers == Filter(old(spec.containers), NotSidecar()) + Sidecars(node)
    ensures var n := |spec.containers|;
            n >= 2 && spec.containers[n - 2].name == "vpn" && spec.containers[n - 1].name == "envoy-proxy"
  {
    RemoveContainers(spec);
    spec.containers := spec.containers + [Sidecars(node)[0]];
    spec.containers := spec.containers + [Sidecars(node)[1]];
  }
}
