/**
 The cluster Services that expose an application. A deploy groups its ports by suffix, one
 Service per group, and overwrites Services of the same name; the ports are read back
 either for one application or for all of them in a single pass.
 */
module ServicePorts {
  import opened Text
  import HelmNames

  datatype Port = Port(suffix: string, port: int, protocol: string, target: int)

  datatype CorePort = CorePort(name: string, port: int, udp: bool, target: int)

  // `app` is the application the Service belongs to, "" when it carries none.
  datatype CoreService = CoreService(
    name: string,
    managed: bool,
    app: string,
    creator: string,
    ports: seq<CorePort>
  )

  datatype Spec = Spec(name: string, image: string, creator: string, containerPort: int, ports: seq<Port>)

  datatype Error = Missing | BadProtocol | BadPort | Foreign | Unavailable

  datatype Result = Ok | Err(error: Error)

  /******* Reading ports *******/

  function SiblingName(name: string, suffix: string): string {
    if suffix == "" then name else name + "-" + suffix
  }

  function SuffixOf(svcName: string, name: string): string {
    if svcName != name then TrimPrefix(svcName, name + "-") else ""
  }

  function Decode(p: CorePort, suffix: string): Port {
    Port(suffix, p.port, if p.udp then "udp" else "tcp", p.target)
  }

  function DecodeAll(ports: seq<CorePort>, suffix: string): (out: seq<Port>)
    ensures |out| == |ports|
  {
    if ports == [] then []
    else DecodeAll(ports[..|ports| - 1], suffix) + [Decode(ports[|ports| - 1], suffix)]
  }

  // portsFromService
  function ServicePorts(svc: CoreService, name: string): seq<Port> {
    DecodeAll(svc.ports, SuffixOf(svc.name, name))
  }

  method PortsFromService(svc: CoreService, name: string) returns (out: seq<Port>)
    ensures out == ServicePorts(svc, name)
  {
    out := [];
    var suffix := "";
    if svc.name != name {
      suffix := TrimPrefix(svc.name, name + "-");
    }
    for i := 0 to |svc.ports|
      invariant out == DecodeAll(svc.ports[..i], suffix)
    {
      assert svc.ports[..i + 1][..i] == svc.ports[..i];
      var proto := "tcp";
      if svc.ports[i].udp {
        proto := "udp";
      }
      out := out + [Port(suffix, svc.ports[i].port, proto, svc.ports[i].target)];
    }
    assert svc.ports[..|svc.ports|] == svc.ports;
  }

  predicate Labelled(svc: CoreService, name: string) {
    svc.managed && svc.app == name
  }

  // What one Service contributes to an application's ports.
  function Share(svc: CoreService, name: string): seq<Port> {
    if Labelled(svc, name) then ServicePorts(svc, name) else []
  }

  function PortsOf(svcs: seq<CoreService>, name: string): seq<Port> {
    if svcs == [] then [] else PortsOf(svcs[..|svcs| - 1], name) + Share(svcs[|svcs| - 1], name)
  }

  method PortsFor(svcs: seq<CoreService>, name: string) returns (out: seq<Port>)
    ensures out == PortsOf(svcs, name)
  {
    hide ServicePorts;
    out := [];
    for i := 0 to |svcs|
      invariant out == PortsOf(svcs[..i], name)
    {
      assert svcs[..i + 1][..i] == svcs[..i];
      if svcs[i].managed && svcs[i].app == name {
        var more := PortsFromService(svcs[i], name);
        out := out + more;
      }
    }
    assert svcs[..|svcs|] == svcs;
  }

  /******* The one-pass view *******/

  function KeyOf(svc: CoreService): string {
    if svc.app == "" then svc.name else svc.app
  }

  function BulkShare(svc: CoreService, name: string): seq<Port> {
    if svc.managed && KeyOf(svc) == name then ServicePorts(svc, name) else []
  }

  function BulkPortsOf(svcs: seq<CoreService>, name: string): seq<Port> {
    if svcs == [] then [] else BulkPortsOf(svcs[..|svcs| - 1], name) + BulkShare(svcs[|svcs| - 1], name)
  }

  function At(index: map<string, seq<Port>>, name: string): seq<Port> {
    if name in index then index[name] else []
  }

  method PortsByService(svcs: seq<CoreService>) returns (index: map<string, seq<Port>>)
    ensures forall name :: At(index, name) == BulkPortsOf(svcs, name)
  {
    hide ServicePorts;
    index := map[];
    for i := 0 to |svcs|
      invariant forall name :: At(index, name) == BulkPortsOf(svcs[..i], name)
    {
      assert svcs[..i + 1][..i] == svcs[..i];
      var svc := svcs[i];
      if svc.managed {
        var name := svc.app;
        if name == "" {
          name := svc.name;
        }
        var more := PortsFromService(svc, name);
        index := index[name := At(index, name) + more];
      }
    }
    assert svcs[..|svcs|] == svcs;
  }

  // The one exception: a managed Service without a label counts in the one-pass view as
  // the application of its own name, and nowhere in the single view.
  predicate Unlabelled(svc: CoreService, name: string) {
    svc.managed && svc.app == "" && svc.name == name && svc.ports != []
  }

  lemma {:induction false} BulkHasMore(svcs: seq<CoreService>, name: string)
    requires name != ""
    ensures |PortsOf(svcs, name)| <= |BulkPortsOf(svcs, name)|
    ensures (exists svc :: svc in svcs && Unlabelled(svc, name)) <==> |PortsOf(svcs, name)| < |BulkPortsOf(svcs, name)|
    ensures (exists svc :: svc in svcs && Unlabelled(svc, name)) <==> PortsOf(svcs, name) != BulkPortsOf(svcs, name)
  {
    if svcs != [] {
      var front, last := svcs[..|svcs| - 1], svcs[|svcs| - 1];
      BulkHasMore(front, name);
      assert forall svc :: svc in svcs <==> svc in front || svc == last;
      if !Unlabelled(last, name) {
        assert Share(last, name) == BulkShare(last, name);
      }
    }
  }

  // For every application the two views agree exactly when no managed Service of its name
  // exposes ports without carrying a label.
  lemma ViewsAgreeIffLabelled(svcs: seq<CoreService>, name: string)
    requires name != ""
    ensures BulkPortsOf(svcs, name) == PortsOf(svcs, name) <==> forall svc :: svc in svcs ==> !Unlabelled(svc, name)
  {
    BulkHasMore(svcs, name);
  }

  // The input that shows the difference.
  lemma UnlabelledServiceCountsOnce()
    ensures var svcs := [CoreService("web", true, "", "", [CorePort("tcp-80", 80, false, 8080)])];
            PortsOf(svcs, "web") == [] && BulkPortsOf(svcs, "web") == [Port("", 80, "tcp", 8080)]
  {
    var svc := CoreService("web", true, "", "", [CorePort("tcp-80", 80, false, 8080)]);
    assert [svc][..0] == [] && svc.ports[..0] == [];
    assert DecodeAll(svc.ports, "") == DecodeAll([], "") + [Decode(svc.ports[0], "")];
  }

  /******* Sibling names *******/

  lemma SuffixRoundTrip(name: string, suffix: string)
    ensures SuffixOf(SiblingName(name, suffix), name) == suffix
  {
    if suffix != "" {
      assert SiblingName(name, suffix)[..|name| + 1] == name + "-";
      assert SiblingName(name, suffix)[|name| + 1..] == suffix;
    }
  }

  lemma SiblingsAreDistinct(name: string, s: string, t: string)
    ensures SiblingName(name, s) == SiblingName(name, t) <==> s == t
  {
    SuffixRoundTrip(name, s);
    SuffixRoundTrip(name, t);
  }

  // `other` continues `name` by a dash and the beginning of `suffix`; `rest` is the end of it.
  predicate Continues(other: string, name: string, suffix: string, rest: string) {
    && suffix != "" && |name| < |other| && other[..|name|] == name && other[|name|] == '-'
    && suffix == SiblingName(other[|name| + 1..], rest)
  }

  // Services of different applications have one name exactly when the name of one
  // application continues the other's.
  lemma SiblingsMeetIff(name: string, suffix: string, other: string, rest: string)
    requires name != other
    ensures SiblingName(name, suffix) == SiblingName(other, rest) <==>
            Continues(other, name, suffix, rest) || Continues(name, other, rest, suffix)
  {
    if |name| < |other| {
      LongerNameMeetsIff(name, suffix, other, rest);
    } else if |other| < |name| {
      LongerNameMeetsIff(other, rest, name, suffix);
    } else {
      var one, two := SiblingName(name, suffix), SiblingName(other, rest);
      assert one[..|name|] == name && two[..|name|] == other;
      assert one[..|name|] != two[..|name|];
    }
  }

  lemma LongerNameMeetsIff(name: string, suffix: string, other: string, rest: string)
    requires |name| < |other|
    ensures SiblingName(name, suffix) == SiblingName(other, rest) <==> Continues(other, name, suffix, rest)
  {
    var one, two := SiblingName(name, suffix), SiblingName(other, rest);
    var tail := other[|name| + 1..];
    assert two == other[..|name|] + [other[|name|]] + SiblingName(tail, rest);
    assert two[..|name|] == other[..|name|] && two[|name|] == other[|name|];
    assert two[|name| + 1..] == SiblingName(tail, rest);
    if suffix != "" {
      assert one[..|name|] == name && one[|name|] == '-' && one[|name| + 1..] == suffix;
    }
    if Continues(other, name, suffix, rest) {
      assert one == other[..|name|] + [other[|name|]] + suffix;
    }
  }

  /******* Deploy *******/

  function Normal(p: Port, containerPort: int): Port {
    p.(protocol := if p.protocol == "" then "tcp" else p.protocol,
       target := if p.target == 0 then containerPort else p.target)
  }

  predicate Legal(p: Port) {
    (p.protocol == "" || p.protocol == "tcp" || p.protocol == "udp") && (p.port == 80 || p.port == 443)
  }

  function ContainerPort(s: Spec): int {
    if s.containerPort == 0 then 8080 else s.containerPort
  }

  // The ports a deploy exposes: its own, or one public port.
  function Requested(s: Spec): seq<Port> {
    if s.ports == [] then [Port("", 80, "tcp", ContainerPort(s))] else s.ports
  }

  function NormalAll(ports: seq<Port>, containerPort: int): (out: seq<Port>)
    ensures |out| == |ports|
  {
    if ports == [] then []
    else NormalAll(ports[..|ports| - 1], containerPort) + [Normal(ports[|ports| - 1], containerPort)]
  }

  lemma {:induction false} NormalAt(ports: seq<Port>, containerPort: int, i: nat)
    requires i < |ports|
    ensures var p := NormalAll(ports, containerPort)[i];
            && p.suffix == ports[i].suffix && p.port == ports[i].port
            && p.protocol == (if ports[i].protocol == "" then "tcp" else ports[i].protocol)
            && p.target == if ports[i].target == 0 then containerPort else ports[i].target
  {
    if i < |ports| - 1 { NormalAt(ports[..|ports| - 1], containerPort, i); }
  }

  // The ports a deploy asks for: one public port when the spec names none, and else the
  // spec's, over TCP and to the container port where it does not say. That is 8080 by default.
  lemma RequestedPortsAre(s: Spec)
    ensures var ports := NormalAll(Requested(s), ContainerPort(s));
            && (s.ports == [] ==> ports == [Port("", 80, "tcp", ContainerPort(s))])
            && (s.ports != [] ==>
                  && |ports| == |s.ports|
                  && forall i :: 0 <= i < |ports| ==> Completes(ports[i], s.ports[i], ContainerPort(s)))
    ensures ContainerPort(s) == if s.containerPort == 0 then 8080 else s.containerPort
  {
    hide ContainerPort;
    if s.ports == [] {
      OnePort(Port("", 80, "tcp", ContainerPort(s)), ContainerPort(s));
    } else {
      forall i | 0 <= i < |s.ports|
        ensures Completes(NormalAll(s.ports, ContainerPort(s))[i], s.ports[i], ContainerPort(s))
      {
        NormalAt(s.ports, ContainerPort(s), i);
      }
    }
    DefaultContainerPort(s);
  }

  // `p` is `q` with what it leaves open filled in.
  ghost predicate Completes(p: Port, q: Port, containerPort: int) {
    && p.suffix == q.suffix && p.port == q.port
    && p.protocol == (if q.protocol == "" then "tcp" else q.protocol)
    && p.target == if q.target == 0 then containerPort else q.target
  }

  lemma DefaultContainerPort(s: Spec)
    ensures ContainerPort(s) == if s.containerPort == 0 then 8080 else s.containerPort
  {
  }

  lemma OnePort(p: Port, containerPort: int)
    requires p.protocol == "tcp" && p.target == containerPort
    ensures NormalAll([p], containerPort) == [p]
  {
    assert [p][..0] == [] && NormalAll([], containerPort) == [];
  }

  lemma RequestedIsLegalIff(s: Spec)
    ensures (forall p :: p in Requested(s) ==> Legal(p)) <==>
            forall p :: p in s.ports ==> p.protocol in {"", "tcp", "udp"} && p.port in {80, 443}
  {
    hide ContainerPort;
    forall p: Port ensures Legal(p) <==> p.protocol in {"", "tcp", "udp"} && p.port in {80, 443} {}
  }

  type Groups = map<string, seq<Port>>

  ghost predicate GroupsOk(groups: Groups, order: seq<string>) {
    && (forall i, j :: 0 <= i < j < |order| ==> order[i] != order[j])
    && (forall suffix :: suffix in groups <==> suffix in order)
    && (forall suffix :: suffix in groups ==>
          forall p :: p in groups[suffix] ==> p.suffix == suffix && (p.protocol == "tcp" || p.protocol == "udp"))
  }

  function In(groups: Groups, suffix: string): seq<Port> {
    if suffix in groups then groups[suffix] else []
  }

  function GroupSum(groups: Groups, order: seq<string>): multiset<Port> {
    if order == [] then multiset{}
    else GroupSum(groups, order[..|order| - 1]) + multiset(In(groups, order[|order| - 1]))
  }

  lemma {:induction false} GroupSumUpdate(groups: Groups, order: seq<string>, suffix: string, more: seq<Port>)
    requires forall i, j :: 0 <= i < j < |order| ==> order[i] != order[j]
    ensures GroupSum(groups[suffix := In(groups, suffix) + more], order)
         == GroupSum(groups, order) + if suffix in order then multiset(more) else multiset{}
  {
    if order != [] {
      var n := |order| - 1;
      assert order == order[..n] + [order[n]];
      GroupSumUpdate(groups, order[..n], suffix, more);
      var after := groups[suffix := In(groups, suffix) + more];
      if order[n] == suffix {
        assert suffix !in order[..n];
        assert multiset(In(after, suffix)) == multiset(In(groups, suffix)) + multiset(more);
      } else {
        assert In(after, order[n]) == In(groups, order[n]);
      }
    }
  }

  // `order` lists the suffixes of the ports, each once.
  ghost predicate Covers(ports: seq<Port>, order: seq<string>) {
    && (forall i, j :: 0 <= i < j < |order| ==> order[i] != order[j])
    && (forall suffix :: suffix in order <==> exists p :: p in ports && p.suffix == suffix)
  }

  method Group(s: Spec) returns (r: Result, groups: Groups, order: seq<string>)
    ensures r.Ok? <==> forall p :: p in Requested(s) ==> Legal(p)
    ensures r.Err? ==> r.error == BadProtocol || r.error == BadPort
    ensures r.Ok? ==> GroupsOk(groups, order) && Covers(Requested(s), order)
    ensures r.Ok? ==> GroupSum(groups, order) == multiset(NormalAll(Requested(s), ContainerPort(s)))
  {
    hide GroupSum, GroupsOk, NormalAll, Covers;
    var ports, containerPort := Requested(s), ContainerPort(s);
    groups, order := map[], [];
    NoGroups();
    for i := 0 to |ports|
      invariant forall p :: p in ports[..i] ==> Legal(p)
      invariant GroupsOk(groups, order) && Covers(ports[..i], order)
      invariant GroupSum(groups, order) == multiset(NormalAll(ports[..i], containerPort))
    {
      NormalGrows(ports, i, containerPort);
      var p := ports[i];
      assert p in ports && ports[..i + 1] == ports[..i] + [p];
      if p.protocol == "" {
        p := p.(protocol := "tcp");
      }
      if p.protocol != "tcp" && p.protocol != "udp" {
        return Err(BadProtocol), groups, order;
      }
      if p.port != 80 && p.port != 443 {
        return Err(BadPort), groups, order;
      }
      if p.target == 0 {
        p := p.(target := containerPort);
      }
      assert p == Normal(ports[i], containerPort);
      groups, order := AddPort(groups, order, p, ports[..i], ports[i]);
    }
    assert ports[..|ports|] == ports;
    r := Ok;
  }

  lemma NormalGrows(ports: seq<Port>, i: nat, containerPort: int)
    requires i < |ports|
    ensures NormalAll(ports[..i + 1], containerPort)
         == NormalAll(ports[..i], containerPort) + [Normal(ports[i], containerPort)]
  {
    assert ports[..i + 1][..i] == ports[..i];
  }

  lemma NoGroups()
    ensures GroupsOk(map[], []) && Covers([], []) && GroupSum(map[], []) == multiset{}
    ensures forall c :: NormalAll([], c) == []
  {
  }

  method AddPort(groups: Groups, order: seq<string>, p: Port, ghost done: seq<Port>, ghost next: Port)
    returns (groups': Groups, order': seq<string>)
    requires GroupsOk(groups, order) && Covers(done, order) && next.suffix == p.suffix
    requires p.protocol == "tcp" || p.protocol == "udp"
    ensures GroupsOk(groups', order') && Covers(done + [next], order')
    ensures GroupSum(groups', order') == GroupSum(groups, order) + multiset{p}
  {
    hide Covers, GroupSum;
    order' := order;
    if p.suffix !in groups {
      order' := order + [p.suffix];
    }
    groups' := groups[p.suffix := In(groups, p.suffix) + [p]];
    GroupSumAdd(groups, order, p);
    CoversMore(done, order, next);
  }

  lemma GroupSumAdd(groups: Groups, order: seq<string>, p: Port)
    requires GroupsOk(groups, order)
    ensures var more := if p.suffix in groups then order else order + [p.suffix];
            GroupSum(groups[p.suffix := In(groups, p.suffix) + [p]], more) == GroupSum(groups, order) + multiset{p}
  {
    GroupSumUpdate(groups, order, p.suffix, [p]);
    if p.suffix !in groups {
      assert (order + [p.suffix])[..|order|] == order;
    }
  }

  lemma CoversMore(done: seq<Port>, order: seq<string>, next: Port)
    requires Covers(done, order)
    ensures Covers(done + [next], if next.suffix in order then order else order + [next.suffix])
  {
  }

  // corePorts
  function CorePorts(ports: seq<Port>): seq<CorePort> {
    if ports == [] then []
    else
      var p := ports[|ports| - 1];
      CorePorts(ports[..|ports| - 1])
      + [CorePort(p.protocol + "-" + HelmNames.Itoa(p.port), p.port, p.protocol == "udp", p.target)]
  }

  lemma {:induction false} PortsRoundTrip(ports: seq<Port>, suffix: string)
    requires forall p :: p in ports ==> p.suffix == suffix && (p.protocol == "tcp" || p.protocol == "udp")
    ensures DecodeAll(CorePorts(ports), suffix) == ports
  {
    hide HelmNames.Itoa;
    if ports != [] {
      var n := |ports| - 1;
      PortsRoundTrip(ports[..n], suffix);
      assert CorePorts(ports)[..|CorePorts(ports)| - 1] == CorePorts(ports[..n]);
      assert ports == ports[..n] + [ports[n]];
    }
  }

  function NewService(s: Spec, suffix: string, ports: seq<Port>): CoreService {
    CoreService(SiblingName(s.name, suffix), true, s.name, s.creator, CorePorts(ports))
  }

  lemma NewServiceShare(s: Spec, suffix: string, ports: seq<Port>, app: string)
    requires forall p :: p in ports ==> p.suffix == suffix && (p.protocol == "tcp" || p.protocol == "udp")
    ensures Share(NewService(s, suffix, ports), app) == if app == s.name then ports else []
  {
    PortsRoundTrip(ports, suffix);
    SuffixRoundTrip(s.name, suffix);
  }

  predicate DistinctNames(svcs: seq<CoreService>) {
    forall i, j :: 0 <= i < j < |svcs| ==> svcs[i].name != svcs[j].name
  }

  // Creates a Service or replaces the one of its name.
  function Upsert(svcs: seq<CoreService>, svc: CoreService): seq<CoreService> {
    if svcs == [] then [svc]
    else if svcs[|svcs| - 1].name == svc.name then svcs[..|svcs| - 1] + [svc]
    else Upsert(svcs[..|svcs| - 1], svc) + [svcs[|svcs| - 1]]
  }

  // What the Services named `name` contribute to an application.
  function NamedPorts(svcs: seq<CoreService>, name: string, app: string): seq<Port> {
    if svcs == [] then []
    else
      var last := svcs[|svcs| - 1];
      NamedPorts(svcs[..|svcs| - 1], name, app) + if last.name == name then Share(last, app) else []
  }

  lemma {:induction false} NothingNamed(svcs: seq<CoreService>, name: string, app: string)
    requires forall svc :: svc in svcs ==> svc.name != name
    ensures NamedPorts(svcs, name, app) == []
  {
    if svcs != [] { NothingNamed(svcs[..|svcs| - 1], name, app); }
  }

  lemma {:induction false} UpsertPorts(svcs: seq<CoreService>, svc: CoreService, app: string)
    requires DistinctNames(svcs)
    ensures multiset(PortsOf(Upsert(svcs, svc), app)) + multiset(NamedPorts(svcs, svc.name, app))
         == multiset(PortsOf(svcs, app)) + multiset(Share(svc, app))
  {
    hide Share, NamedPorts, PortsOf;
    if svcs == [] {
      PortsGrow(svcs, svc, app);
      NothingNamed(svcs, svc.name, app);
      assert svcs + [svc] == [svc];
    } else {
      var front, last := svcs[..|svcs| - 1], svcs[|svcs| - 1];
      assert front + [last] == svcs;
      PortsGrow(front, last, app);
      NamedGrows(front, last, svc.name, app);
      if last.name == svc.name {
        PortsGrow(front, svc, app);
        NothingNamed(front, svc.name, app);
        assert [] + Share(last, app) == Share(last, app);
      } else {
        PortsGrow(Upsert(front, svc), last, app);
        UpsertPorts(front, svc, app);
        assert NamedPorts(svcs, svc.name, app) == NamedPorts(front, svc.name, app);
        AddToBoth(multiset(PortsOf(Upsert(front, svc), app)), multiset(NamedPorts(front, svc.name, app)),
                  multiset(PortsOf(front, app)), multiset(Share(svc, app)), multiset(Share(last, app)));
      }
    }
  }

  lemma AddToBoth(a: multiset<Port>, b: multiset<Port>, c: multiset<Port>, d: multiset<Port>, e: multiset<Port>)
    requires a + b == c + d
    ensures (a + e) + b == (c + e) + d
  {
    assert (a + e) + b == (a + b) + e;
  }

  lemma Chain(p': multiset<Port>, n: multiset<Port>, p: multiset<Port>, s: multiset<Port>,
              o: multiset<Port>, w: multiset<Port>, g: multiset<Port>)
    requires p' + n == p + s && p + o == w + g
    ensures p' + (o + n) == w + (g + s)
  {
    assert p' + (o + n) == (p' + n) + o;
    assert (p + s) + o == (p + o) + s;
    assert (w + g) + s == w + (g + s);
  }

  lemma PortsGrow(front: seq<CoreService>, svc: CoreService, app: string)
    ensures PortsOf(front + [svc], app) == PortsOf(front, app) + Share(svc, app)
  {
    assert (front + [svc])[..|front|] == front;
  }

  lemma Cancel(a: multiset<Port>, b: multiset<Port>, c: multiset<Port>)
    ensures a + c == b + c <==> a == b
  {
    if a + c == b + c {
      forall p ensures a[p] == b[p] { assert (a + c)[p] == (b + c)[p]; }
    }
  }

  lemma {:induction false} UpsertNamed(svcs: seq<CoreService>, svc: CoreService, name: string, app: string)
    requires name != svc.name
    ensures NamedPorts(Upsert(svcs, svc), name, app) == NamedPorts(svcs, name, app)
  {
    hide Share;
    if svcs == [] {
      assert Upsert(svcs, svc)[..0] == [];
    } else {
      var front, last := svcs[..|svcs| - 1], svcs[|svcs| - 1];
      var more := Upsert(svcs, svc);
      if last.name == svc.name {
        assert more[..|more| - 1] == front;
      } else {
        assert more[..|more| - 1] == Upsert(front, svc);
        UpsertNamed(front, svc, name, app);
      }
    }
  }

  lemma {:induction false} UpsertIsDistinct(svcs: seq<CoreService>, svc: CoreService)
    requires DistinctNames(svcs)
    ensures DistinctNames(Upsert(svcs, svc))
    ensures forall x :: x in Upsert(svcs, svc) ==> x == svc || x in svcs
  {
    if svcs != [] {
      var front, last := svcs[..|svcs| - 1], svcs[|svcs| - 1];
      UpsertIsDistinct(front, svc);
      if last.name != svc.name {
        forall x | x in Upsert(front, svc) ensures x.name != last.name {
          if x != svc {
            var i :| 0 <= i < |front| && front[i] == x;
            assert svcs[i] == x;
          }
        }
      }
    }
  }

  // What the groups' Services held before.
  function Overwritten(svcs: seq<CoreService>, base: string, order: seq<string>, app: string): multiset<Port> {
    if order == [] then multiset{}
    else
      Overwritten(svcs, base, order[..|order| - 1], app)
      + multiset(NamedPorts(svcs, SiblingName(base, order[|order| - 1]), app))
  }

  predicate Writes(s: Spec, name: string) {
    exists p :: p in Requested(s) && SiblingName(s.name, p.suffix) == name
  }

  // An application's ports on the Services a deploy leaves alone.
  function UntouchedPorts(svcs: seq<CoreService>, s: Spec, app: string): seq<Port> {
    if svcs == [] then []
    else
      UntouchedPorts(svcs[..|svcs| - 1], s, app)
      + if Writes(s, svcs[|svcs| - 1].name) then [] else Share(svcs[|svcs| - 1], app)
  }

  // One of the suffixes gives the name.
  predicate Hit(base: string, order: seq<string>, name: string) {
    exists suffix :: suffix in order && SiblingName(base, suffix) == name
  }

  lemma HitsNothing(base: string, name: string)
    ensures !Hit(base, [], name)
  {
  }

  lemma HitLast(base: string, order: seq<string>, name: string)
    requires order != [] && forall i, j :: 0 <= i < j < |order| ==> order[i] != order[j]
    ensures var n := |order| - 1;
            && (Hit(base, order, name) <==> Hit(base, order[..n], name) || SiblingName(base, order[n]) == name)
            && !(Hit(base, order[..n], name) && SiblingName(base, order[n]) == name)
  {
    hide SiblingName;
    var n := |order| - 1;
    assert order == order[..n] + [order[n]];
    forall suffix | suffix in order[..n] ensures SiblingName(base, suffix) != SiblingName(base, order[n]) {
      SiblingsAreDistinct(base, suffix, order[n]);
    }
  }

  lemma NamedGrows(front: seq<CoreService>, svc: CoreService, name: string, app: string)
    ensures NamedPorts(front + [svc], name, app)
         == NamedPorts(front, name, app) + if svc.name == name then Share(svc, app) else []
  {
    assert (front + [svc])[..|front|] == front;
  }

  lemma {:induction false} OverwrittenGrows(front: seq<CoreService>, svc: CoreService, base: string,
                                            order: seq<string>, app: string)
    requires forall i, j :: 0 <= i < j < |order| ==> order[i] != order[j]
    ensures var more := if Hit(base, order, svc.name) then multiset(Share(svc, app)) else multiset{};
            Overwritten(front + [svc], base, order, app) == Overwritten(front, base, order, app) + more
  {
    hide Share, SiblingName, NamedPorts, Hit, Overwritten;
    OverwrittenUnfolds(front, base, order, app);
    OverwrittenUnfolds(front + [svc], base, order, app);
    if order == [] {
      HitsNothing(base, svc.name);
    } else {
      var n := |order| - 1;
      OverwrittenGrows(front, svc, base, order[..n], app);
      NamedSumGrows(front, svc, SiblingName(base, order[n]), app);
      HitLast(base, order, svc.name);
      var rest, share := Overwritten(front, base, order[..n], app), multiset(Share(svc, app));
      var named := multiset(NamedPorts(front, SiblingName(base, order[n]), app));
      assert (rest + share) + named == (rest + named) + share;
      assert rest + (named + share) == (rest + named) + share;
    }
  }

  lemma OverwrittenUnfolds(svcs: seq<CoreService>, base: string, order: seq<string>, app: string)
    ensures order == [] ==> Overwritten(svcs, base, order, app) == multiset{}
    ensures order != [] ==>
              (var n := |order| - 1;
               var named := multiset(NamedPorts(svcs, SiblingName(base, order[n]), app));
               Overwritten(svcs, base, order, app) == Overwritten(svcs, base, order[..n], app) + named)
  {
  }

  lemma NamedSumGrows(front: seq<CoreService>, svc: CoreService, name: string, app: string)
    ensures multiset(NamedPorts(front + [svc], name, app))
         == multiset(NamedPorts(front, name, app)) + if svc.name == name then multiset(Share(svc, app)) else multiset{}
  {
    hide Share;
    NamedGrows(front, svc, name, app);
  }

  lemma WritesIsHit(s: Spec, order: seq<string>, name: string)
    requires Covers(Requested(s), order)
    ensures Writes(s, name) <==> Hit(s.name, order, name)
  {
    hide SiblingName, Requested;
    if p :| p in Requested(s) && SiblingName(s.name, p.suffix) == name {
      assert p.suffix in order;
    }
  }

  // What a deploy leaves alone and what it overwrites make up everything.
  lemma {:induction false} OverwrittenOrUntouched(svcs: seq<CoreService>, s: Spec, order: seq<string>, app: string)
    requires Covers(Requested(s), order)
    ensures multiset(PortsOf(svcs, app))
         == multiset(UntouchedPorts(svcs, s, app)) + Overwritten(svcs, s.name, order, app)
  {
    hide Share, SiblingName, Requested, NamedPorts, Writes, Hit, Overwritten;
    if svcs == [] {
      NothingOverwritten(s.name, order, app);
    } else {
      var front, last := svcs[..|svcs| - 1], svcs[|svcs| - 1];
      OverwrittenOrUntouched(front, s, order, app);
      OverwrittenGrows(front, last, s.name, order, app);
      assert front + [last] == svcs;
      WritesIsHit(s, order, last.name);
      var kept, lost := multiset(UntouchedPorts(front, s, app)), Overwritten(front, s.name, order, app);
      var share := multiset(Share(last, app));
      assert multiset(PortsOf(svcs, app)) == (kept + lost) + share;
      if Writes(s, last.name) {
        assert multiset(UntouchedPorts(svcs, s, app)) == kept;
        assert (kept + lost) + share == kept + (lost + share);
      } else {
        assert (kept + lost) + share == (kept + share) + lost;
      }
    }
  }

  lemma {:induction false} NothingOverwritten(base: string, order: seq<string>, app: string)
    ensures Overwritten([], base, order, app) == multiset{}
  {
    if order != [] { NothingOverwritten(base, order[..|order| - 1], app); }
  }

  // A deploy writes over a Service of another application exactly when one name continues
  // the other; over its primary Service, when it is named like one of the siblings.
  lemma OtherIsWrittenIff(s: Spec, other: string, rest: string)
    requires other != s.name
    ensures Writes(s, SiblingName(other, rest)) <==>
            exists p: Port :: p in Requested(s)
              && (Continues(other, s.name, p.suffix, rest) || Continues(s.name, other, rest, p.suffix))
    ensures Writes(s, other) <==>
            exists p: Port :: p in Requested(s) && p.suffix != "" && other == s.name + "-" + p.suffix
  {
    forall p: Port ensures SiblingName(s.name, p.suffix) == SiblingName(other, rest) <==>
                     Continues(other, s.name, p.suffix, rest) || Continues(s.name, other, rest, p.suffix)
    {
      SiblingsMeetIff(s.name, p.suffix, other, rest);
    }
  }

  // A Service through which an application exposes ports, and that a deploy overwrites.
  predicate Taken(svc: CoreService, s: Spec, app: string) {
    Labelled(svc, app) && svc.ports != [] && Writes(s, svc.name)
  }

  // One that a deploy leaves alone.
  predicate Stays(svc: CoreService, s: Spec, app: string) {
    Labelled(svc, app) && svc.ports != [] && !Writes(s, svc.name)
  }

  lemma ShareIsEmptyIff(svc: CoreService, s: Spec, app: string)
    ensures Share(svc, app) != [] <==> Taken(svc, s, app) || Stays(svc, s, app)
    ensures !(Taken(svc, s, app) && Stays(svc, s, app))
    ensures Taken(svc, s, app) || Stays(svc, s, app) ==> (Taken(svc, s, app) <==> Writes(s, svc.name))
  {
    hide Writes;
  }

  lemma {:induction false} UntouchedIsAllIff(svcs: seq<CoreService>, s: Spec, app: string)
    ensures |UntouchedPorts(svcs, s, app)| <= |PortsOf(svcs, app)|
    ensures (forall svc :: svc in svcs ==> !Taken(svc, s, app)) <==>
            |UntouchedPorts(svcs, s, app)| == |PortsOf(svcs, app)|
    ensures (forall svc :: svc in svcs ==> !Taken(svc, s, app)) ==> UntouchedPorts(svcs, s, app) == PortsOf(svcs, app)
    ensures (forall svc :: svc in svcs ==> !Stays(svc, s, app)) <==> UntouchedPorts(svcs, s, app) == []
  {
    hide Writes, Share, Taken, Stays;
    if svcs != [] {
      var front, last := svcs[..|svcs| - 1], svcs[|svcs| - 1];
      UntouchedIsAllIff(front, s, app);
      ShareIsEmptyIff(last, s, app);
      assert svcs == front + [last];
      assert forall svc :: svc in svcs <==> svc in front || svc == last;
      var kept := if Writes(s, last.name) then [] else Share(last, app);
      assert |kept| <= |Share(last, app)| && (|kept| == |Share(last, app)| <==> !Taken(last, s, app));
      assert kept == [] <==> !Stays(last, s, app);
    }
  }

  // What follows for the ports read back, `after` being those a deploy leaves behind.
  lemma DeployEffects(svcs: seq<CoreService>, s: Spec, app: string, after: multiset<Port>, requested: multiset<Port>)
    requires after == multiset(UntouchedPorts(svcs, s, app)) + if app == s.name then requested else multiset{}
    ensures app != s.name ==>
              (after == multiset(PortsOf(svcs, app)) <==> forall svc :: svc in svcs ==> !Taken(svc, s, app))
    ensures app == s.name ==> (after == requested <==> forall svc :: svc in svcs ==> !Stays(svc, s, app))
  {
    hide UntouchedPorts, PortsOf, Taken, Stays;
    UntouchedIsAllIff(svcs, s, app);
    var rest := UntouchedPorts(svcs, s, app);
    assert |multiset(rest)| == |rest| && |multiset(PortsOf(svcs, app))| == |PortsOf(svcs, app)|;
    if app == s.name {
      Cancel(multiset(rest), multiset{}, requested);
      assert multiset{} + requested == requested;
      assert |rest| > 0 ==> rest[0] in multiset(rest);
    }
  }

  // The precheck: a Service may be written when it is absent or the tenant's own.
  predicate Writable(svcs: seq<CoreService>, name: string, creator: string) {
    forall svc :: svc in svcs && svc.name == name ==> svc.managed && (creator == "" || svc.creator == creator)
  }

  lemma WritesAreInOrder(s: Spec, order: seq<string>)
    requires Covers(Requested(s), order)
    ensures forall name :: Writes(s, name) ==> exists suffix :: suffix in order && name == SiblingName(s.name, suffix)
  {
    hide SiblingName, Requested;
    forall name | Writes(s, name) ensures exists suffix :: suffix in order && name == SiblingName(s.name, suffix) {
      var p :| p in Requested(s) && SiblingName(s.name, p.suffix) == name;
      assert p.suffix in order;
    }
  }

  lemma WritableIff(s: Spec, order: seq<string>, svcs: seq<CoreService>)
    requires Covers(Requested(s), order)
    ensures (forall suffix :: suffix in order ==> Writable(svcs, SiblingName(s.name, suffix), s.creator)) <==>
            forall svc :: svc in svcs && Writes(s, svc.name) ==>
              svc.managed && (s.creator == "" || svc.creator == s.creator)
  {
    hide SiblingName, Requested;
    if forall suffix :: suffix in order ==> Writable(svcs, SiblingName(s.name, suffix), s.creator) {
      forall svc | svc in svcs && Writes(s, svc.name)
        ensures svc.managed && (s.creator == "" || svc.creator == s.creator)
      {
        var p :| p in Requested(s) && SiblingName(s.name, p.suffix) == svc.name;
        assert p.suffix in order;
      }
    }
  }

  // After `i` of the groups have been written over `was`.
  ghost predicate Progress(was: seq<CoreService>, now: seq<CoreService>, s: Spec,
                           groups: Groups, order: seq<string>, i: nat)
    requires GroupsOk(groups, order) && i <= |order|
  {
    && (forall app ::
          multiset(PortsOf(now, app)) + Overwritten(was, s.name, order[..i], app)
          == multiset(PortsOf(was, app)) + if app == s.name then GroupSum(groups, order[..i]) else multiset{})
    && (forall j, app :: i <= j < |order| ==>
          NamedPorts(now, SiblingName(s.name, order[j]), app) == NamedPorts(was, SiblingName(s.name, order[j]), app))
  }

  ghost predicate OwnUpTo(svcs: seq<CoreService>, s: Spec, order: seq<string>) {
    forall svc, suffix :: svc in svcs && suffix in order && svc.name == SiblingName(s.name, suffix) ==>
      svc.managed && svc.app == s.name && svc.creator == s.creator
  }

  lemma {:induction false} UpsertMembers(svcs: seq<CoreService>, svc: CoreService)
    ensures forall x :: x in Upsert(svcs, svc) ==> x == svc || x in svcs
    ensures DistinctNames(svcs) ==> forall x :: x in Upsert(svcs, svc) && x.name == svc.name ==> x == svc
  {
    if svcs != [] {
      var front, last := svcs[..|svcs| - 1], svcs[|svcs| - 1];
      UpsertMembers(front, svc);
      if last.name == svc.name && DistinctNames(svcs) {
        forall x | x in front ensures x.name != svc.name {
          var i :| 0 <= i < |front| && front[i] == x;
          assert svcs[i] == x;
        }
      }
    }
  }

  lemma OwnGrows(svcs: seq<CoreService>, s: Spec, order: seq<string>, suffix: string, ports: seq<Port>)
    requires DistinctNames(svcs) && OwnUpTo(svcs, s, order)
    ensures OwnUpTo(Upsert(svcs, NewService(s, suffix, ports)), s, order + [suffix])
  {
    hide SiblingName, DistinctNames;
    UpsertMembers(svcs, NewService(s, suffix, ports));
  }

  lemma InGroups(groups: Groups, order: seq<string>, i: nat)
    requires GroupsOk(groups, order) && i < |order|
    ensures order[i] in groups
  {
  }

  lemma ProgressStarts(was: seq<CoreService>, s: Spec, groups: Groups, order: seq<string>)
    requires GroupsOk(groups, order)
    ensures Progress(was, was, s, groups, order, 0)
  {
  }

  lemma ProgressEnds(was: seq<CoreService>, now: seq<CoreService>, s: Spec, groups: Groups, order: seq<string>)
    requires GroupsOk(groups, order) && Progress(was, now, s, groups, order, |order|)
    ensures forall app ::
              multiset(PortsOf(now, app)) + Overwritten(was, s.name, order, app)
              == multiset(PortsOf(was, app)) + if app == s.name then GroupSum(groups, order) else multiset{}
  {
    assert order[..|order|] == order;
  }

  lemma ProgressStep(was: seq<CoreService>, now: seq<CoreService>, s: Spec, groups: Groups, order: seq<string>, i: nat)
    requires GroupsOk(groups, order) && i < |order| && DistinctNames(now)
    requires Progress(was, now, s, groups, order, i)
    ensures order[i] in groups
    ensures Progress(was, Upsert(now, NewService(s, order[i], groups[order[i]])), s, groups, order, i + 1)
  {
    hide PortsOf, Share, NamedPorts, Upsert, DistinctNames, DecodeAll, CorePorts;
    var svc := NewService(s, order[i], groups[order[i]]);
    assert order[i] in order;
    assert order[..i + 1][..i] == order[..i];
    forall app ensures
      multiset(PortsOf(Upsert(now, svc), app)) + Overwritten(was, s.name, order[..i + 1], app)
      == multiset(PortsOf(was, app)) + if app == s.name then GroupSum(groups, order[..i + 1]) else multiset{}
    {
      UpsertPorts(now, svc, app);
      NewServiceShare(s, order[i], groups[order[i]], app);
      Chain(multiset(PortsOf(Upsert(now, svc), app)), multiset(NamedPorts(now, svc.name, app)),
            multiset(PortsOf(now, app)), multiset(Share(svc, app)),
            Overwritten(was, s.name, order[..i], app), multiset(PortsOf(was, app)),
            if app == s.name then GroupSum(groups, order[..i]) else multiset{});
    }
    forall j, app | i + 1 <= j < |order|
      ensures NamedPorts(Upsert(now, svc), SiblingName(s.name, order[j]), app)
           == NamedPorts(was, SiblingName(s.name, order[j]), app)
    {
      SiblingsAreDistinct(s.name, order[i], order[j]);
      UpsertNamed(now, svc, SiblingName(s.name, order[j]), app);
    }
  }

  class Cluster {
    var services: seq<CoreService>
    var deployments: map<string, Spec>
    ghost var faults: nat

    ghost predicate Valid()
      reads this`services
    {
      DistinctNames(services)
    }

    constructor ()
      ensures Valid() && services == []
    {
      services, deployments, faults := [], map[], 0;
    }

    method Online() returns (ok: bool)
      modifies this`faults
      ensures faults == if ok then old(faults) else old(faults) + 1
    {
      ok := *;
      if !ok { faults := faults + 1; }
    }

    method ApplyDeployment(s: Spec) returns (ok: bool)
      modifies this`deployments, this`faults
      ensures ok ==> deployments == old(deployments)[s.name := s]
      ensures !ok ==> deployments == old(deployments) || deployments == old(deployments)[s.name := s]
      ensures faults == if ok then old(faults) else old(faults) + 1
    {
      var sent := *;
      ok := Online();
      if sent || ok { deployments := deployments[s.name := s]; }
    }

    // Creates or updates one Service; a failed call may have been carried out.
    method ApplyService(svc: CoreService) returns (ok: bool)
      requires Valid()
      modifies this`services, this`faults
      ensures Valid()
      ensures faults == if ok then old(faults) else old(faults) + 1
      ensures ok ==> services == Upsert(old(services), svc)
      ensures !ok ==> services == old(services) || services == Upsert(old(services), svc)
    {
      var sent := Online();
      if !sent { return false; }
      UpsertIsDistinct(services, svc);
      services := Upsert(services, svc);
      ok := Online();
    }

    method Precheck(s: Spec, order: seq<string>) returns (r: Result)
      modifies this`faults
      ensures faults >= old(faults) && (r == Err(Unavailable) ==> faults > old(faults))
      ensures r.Ok? ==> forall suffix :: suffix in order ==> Writable(services, SiblingName(s.name, suffix), s.creator)
      ensures r == Err(Foreign) ==>
                exists suffix :: suffix in order && !Writable(services, SiblingName(s.name, suffix), s.creator)
      ensures r.Err? ==> r.error == Foreign || r.error == Unavailable
    {
      hide SiblingName;
      for i := 0 to |order|
        invariant faults == old(faults)
        invariant forall suffix :: suffix in order[..i] ==> Writable(services, SiblingName(s.name, suffix), s.creator)
      {
        assert order[..i + 1] == order[..i] + [order[i]];
        var got := Online();
        if !got { return Err(Unavailable); }
        if exists cur :: cur in services && cur.name == SiblingName(s.name, order[i])
                         && (!cur.managed || (s.creator != "" && cur.creator != s.creator)) {
          assert order[i] in order;
          return Err(Foreign);
        }
      }
      assert order[..|order|] == order;
      r := Ok;
    }

    // After a deploy an application exposes what it did on the Services left alone and,
    // if it is the one deployed, exactly the requested ports besides.
    method Deploy(s: Spec) returns (r: Result)
      requires Valid()
      modifies this
      ensures Valid() && faults >= old(faults)
      ensures r.Ok? ==>
                && s.name != "" && s.image != ""
                && (forall p :: p in Requested(s) ==> Legal(p))
                && (forall svc :: svc in old(services) && Writes(s, svc.name) ==>
                      svc.managed && (s.creator == "" || svc.creator == s.creator))
                && (forall svc :: svc in services && Writes(s, svc.name) ==>
                      svc.managed && svc.app == s.name && svc.creator == s.creator)
                && (forall app ::
                      multiset(PortsOf(services, app)) == multiset(UntouchedPorts(old(services), s, app))
                        + if app == s.name then multiset(NormalAll(Requested(s), ContainerPort(s))) else multiset{})
                && (multiset(PortsOf(services, s.name)) == multiset(NormalAll(Requested(s), ContainerPort(s)))
                    <==> forall svc :: svc in old(services) ==> !Stays(svc, s, s.name))
                && (forall app :: app != s.name ==>
                      (multiset(PortsOf(services, app)) == multiset(PortsOf(old(services), app))
                       <==> forall svc :: svc in old(services) ==> !Taken(svc, s, app)))
      ensures r.Ok? ==> deployments == old(deployments)[s.name := s]
      ensures services != old(services) ==> deployments == old(deployments)[s.name := s]
      ensures r.Err? && r.error != Unavailable ==> services == old(services) && deployments == old(deployments)
      ensures r.Err? ==>
                match r.error
                case Missing => s.name == "" || s.image == ""
                case Foreign => exists svc :: svc in old(services) && Writes(s, svc.name)
                                  && !(svc.managed && (s.creator == "" || svc.creator == s.creator))
                case Unavailable => faults > old(faults)
                case _ => exists p :: p in Requested(s) && !Legal(p)
    {
      hide PortsOf, UntouchedPorts, NormalAll, GroupSum, GroupsOk, Writable, Requested, SiblingName;
      hide Legal, Taken, Stays;
      if s.name == "" || s.image == "" { return Err(Missing); }
      var grouped, groups, order := Group(s);
      if grouped.Err? { return grouped; }
      var checked := Precheck(s, order);
      WritableIff(s, order, services);
      WritesAreInOrder(s, order);
      if checked.Err? { return checked; }
      var deployed := ApplyDeployment(s);
      if !deployed { return Err(Unavailable); }
      var written := WriteGroups(s, groups, order);
      if !written { return Err(Unavailable); }
      forall app ensures multiset(PortsOf(services, app)) == multiset(UntouchedPorts(old(services), s, app))
                        + if app == s.name then multiset(NormalAll(Requested(s), ContainerPort(s))) else multiset{}
      {
        OverwrittenOrUntouched(old(services), s, order, app);
        Cancel(multiset(PortsOf(services, app)),
               multiset(UntouchedPorts(old(services), s, app))
                 + if app == s.name then multiset(NormalAll(Requested(s), ContainerPort(s))) else multiset{},
               Overwritten(old(services), s.name, order, app));
      }
      forall app
        ensures app != s.name ==>
                  (multiset(PortsOf(services, app)) == multiset(PortsOf(old(services), app))
                   <==> forall svc :: svc in old(services) ==> !Taken(svc, s, app))
        ensures app == s.name ==>
                  (multiset(PortsOf(services, app)) == multiset(NormalAll(Requested(s), ContainerPort(s)))
                   <==> forall svc :: svc in old(services) ==> !Stays(svc, s, app))
      {
        DeployEffects(old(services), s, app, multiset(PortsOf(services, app)),
                      multiset(NormalAll(Requested(s), ContainerPort(s))));
      }
      r := Ok;
    }

    method WriteGroups(s: Spec, groups: Groups, order: seq<string>) returns (ok: bool)
      requires Valid() && GroupsOk(groups, order)
      modifies this`services, this`faults
      ensures ok ==> OwnUpTo(services, s, order)
      ensures Valid() && faults >= old(faults) && (!ok ==> faults > old(faults))
      ensures ok ==> forall app ::
                multiset(PortsOf(services, app)) + Overwritten(old(services), s.name, order, app)
                == multiset(PortsOf(old(services), app)) + if app == s.name then GroupSum(groups, order) else multiset{}
    {
      hide PortsOf, GroupSum, Overwritten, DistinctNames, Upsert, NewService, Progress, GroupsOk, SiblingName;
      ProgressStarts(services, s, groups, order);
      for i := 0 to |order|
        invariant Valid() && faults == old(faults)
        invariant OwnUpTo(services, s, order[..i])
        invariant Progress(old(services), services, s, groups, order, i)
      {
        InGroups(groups, order, i);
        var svc := NewService(s, order[i], groups[order[i]]);
        ghost var before := services;
        var applied := ApplyService(svc);
        if !applied { return false; }
        assert order[..i + 1] == order[..i] + [order[i]];
        OwnGrows(before, s, order[..i], order[i], groups[order[i]]);
        ProgressStep(old(services), before, s, groups, order, i);
      }
      assert order[..|order|] == order;
      ProgressEnds(old(services), services, s, groups, order);
      ok := true;
    }
  }

  // What a tenant deployed it can deploy again.
  method Redeploy(cluster: Cluster, s: Spec) returns (first: Result, second: Result)
    requires cluster.Valid()
    modifies cluster
    ensures cluster.Valid()
    ensures first.Ok? ==> second != Err(Foreign)
    ensures first.Ok? && cluster.faults == old(cluster.faults) ==> second.Ok?
  {
    first := cluster.Deploy(s);
    second := cluster.Deploy(s);
  }
}
