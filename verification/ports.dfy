/** internal/discovery/ports.go and publishedPorts of internal/daemon/docker_runtime.go: which host
    port a container is reached on. */
module Ports {
  import opened Strings
  import opened Ordering
  import opened Discovery

  datatype Selection = Selection(port: PublishedPort, source: string)

  const PREFERRED := [443, 8443, 80, 8080, 8000, 3000, 5173, 8025]

  // ----- Selecting among published ports -----

  function TcpPorts(ports: seq<PublishedPort>): seq<PublishedPort> {
    if ports == [] then []
    else
      var last := ports[|ports| - 1];
      TcpPorts(ports[..|ports| - 1]) + if last.protocol == "tcp" then [last] else []
  }

  lemma {:induction false} TcpPortsMeaning(ports: seq<PublishedPort>)
    ensures forall p :: p in TcpPorts(ports) <==> p in ports && p.protocol == "tcp"
  {
    if ports != [] {
      TcpPortsMeaning(ports[..|ports| - 1]);
      assert ports == ports[..|ports| - 1] + [ports[|ports| - 1]];
    }
  }

  // The first published port with the given number.
  function LookupPort(ports: seq<PublishedPort>, value: int): (r: Option<PublishedPort>)
    ensures r.Some? ==> r.value in ports && r.value.hostPort == value
    ensures r.None? ==> forall p :: p in ports ==> p.hostPort != value
    ensures r.Some? ==> exists i :: 0 <= i < |ports| && ports[i] == r.value
                                    && forall j :: 0 <= j < i ==> ports[j].hostPort != value
  {
    if ports == [] then None
    else if ports[0].hostPort == value then Some(ports[0])
    else LookupPort(ports[1..], value)
  }

  function HostPorts(ports: seq<PublishedPort>): set<int> {
    set p | p in ports :: p.hostPort
  }

  // The first preferred number that is available.
  function Preferred(available: set<int>, i: nat): Option<int>
    requires i <= |PREFERRED|
    decreases |PREFERRED| - i
  {
    if i == |PREFERRED| then None
    else if PREFERRED[i] in available then Some(PREFERRED[i])
    else Preferred(available, i + 1)
  }

  // The choice as a function of the set of available TCP host ports, and of the one that is
  // first when nothing else decides.
  function Choice(available: set<int>, first: int, wanted: Option<int>, configured: int): (int, string) {
    if wanted.Some? && wanted.value in available then (wanted.value, "label")
    else if configured > 0 && configured in available then (configured, "override")
    else match Preferred(available, 0)
      case Some(p) => (p, "preference")
      case None => (first, "first-published")
  }

  // The four rules in turn: the labelled port, the configured one, the first available of the
  // preferred ones, the first published one.
  lemma ChoiceMeaning(available: set<int>, first: int, wanted: Option<int>, configured: int)
    ensures var (port, source) := Choice(available, first, wanted, configured);
            var labelled := wanted.Some? && wanted.value in available;
            var overridden := configured > 0 && configured in available;
            var order := [443, 8443, 80, 8080, 8000, 3000, 5173, 8025];
            && (labelled ==> source == "label" && Some(port) == wanted)
            && (!labelled && overridden ==> source == "override" && port == configured)
            && (!labelled && !overridden ==>
                  && (forall i :: 0 <= i < 8 && order[i] in available
                                  && (forall j :: 0 <= j < i ==> order[j] !in available) ==>
                        source == "preference" && port == order[i])
                  && ((forall i :: 0 <= i < 8 ==> order[i] !in available) ==>
                        source == "first-published" && port == first))
  {
    var order := [443, 8443, 80, 8080, 8000, 3000, 5173, 8025];
    PreferredMeaning(available, 0);
    if i :| 0 <= i < 8 && order[i] in available && forall j :: 0 <= j < i ==> order[j] !in available {
      PreferredFirst(available, 0, i);
    }
  }

  lemma {:induction false} PreferredMeaning(available: set<int>, i: nat)
    requires i <= |PREFERRED|
    ensures Preferred(available, i).None? <==> forall k :: i <= k < |PREFERRED| ==> PREFERRED[k] !in available
    decreases |PREFERRED| - i
  {
    if i < |PREFERRED| { PreferredMeaning(available, i + 1); }
  }

  lemma {:induction false} PreferredFirst(available: set<int>, i: nat, k: nat)
    requires i <= k < |PREFERRED| && PREFERRED[k] in available
    requires forall j :: i <= j < k ==> PREFERRED[j] !in available
    ensures Preferred(available, i) == Some(PREFERRED[k])
    decreases k - i
  {
    if i < k { PreferredFirst(available, i + 1, k); }
  }

  ghost predicate IsChoice(ports: seq<PublishedPort>, wanted: Option<int>, configured: int, r: Option<Selection>) {
    var tcp := TcpPorts(ports);
    && (r.Some? <==> tcp != [])
    && (r.Some? ==> r.value.port in tcp
                    && (r.value.port.hostPort, r.value.source) ==
                       Choice(HostPorts(tcp), tcp[0].hostPort, wanted, configured))
  }

  function FirstPreferred(tcp: seq<PublishedPort>, i: nat): Option<PublishedPort>
    requires i <= |PREFERRED|
    decreases |PREFERRED| - i
  {
    if i == |PREFERRED| then None
    else if LookupPort(tcp, PREFERRED[i]).Some? then LookupPort(tcp, PREFERRED[i])
    else FirstPreferred(tcp, i + 1)
  }

  // The same selection for use in specifications: it also says which of several bindings of the
  // chosen number is taken.
  function SelectPort(ports: seq<PublishedPort>, wanted: Option<int>, configured: int): Option<Selection> {
    var tcp := TcpPorts(ports);
    if tcp == [] then None
    else if wanted.Some? && LookupPort(tcp, wanted.value).Some? then
      Some(Selection(LookupPort(tcp, wanted.value).value, "label"))
    else if configured > 0 && LookupPort(tcp, configured).Some? then
      Some(Selection(LookupPort(tcp, configured).value, "override"))
    else match FirstPreferred(tcp, 0)
      case Some(p) => Some(Selection(p, "preference"))
      case None => Some(Selection(tcp[0], "first-published"))
  }

  lemma {:induction false} FirstPreferredMeaning(tcp: seq<PublishedPort>, i: nat)
    requires i <= |PREFERRED|
    ensures var r := FirstPreferred(tcp, i);
            && (r.Some? ==> r.value in tcp && Preferred(HostPorts(tcp), i) == Some(r.value.hostPort))
            && (r.None? ==> Preferred(HostPorts(tcp), i).None?)
    decreases |PREFERRED| - i
  {
    if i < |PREFERRED| {
      LookupMeaning(tcp, PREFERRED[i]);
      FirstPreferredMeaning(tcp, i + 1);
    }
  }

  lemma LookupMeaning(tcp: seq<PublishedPort>, value: int)
    ensures LookupPort(tcp, value).Some? <==> value in HostPorts(tcp)
  {
    if value in HostPorts(tcp) {
      var p :| p in tcp && p.hostPort == value;
    }
  }

  lemma SelectPortIsChoice(ports: seq<PublishedPort>, wanted: Option<int>, configured: int)
    ensures IsChoice(ports, wanted, configured, SelectPort(ports, wanted, configured))
  {
    var tcp := TcpPorts(ports);
    if wanted.Some? { LookupMeaning(tcp, wanted.value); }
    LookupMeaning(tcp, configured);
    FirstPreferredMeaning(tcp, 0);
  }

  method SelectPublishedPort(ports: seq<PublishedPort>, wanted: Option<int>, configured: int)
    returns (r: Option<Selection>)
    ensures IsChoice(ports, wanted, configured, r)
    ensures r == SelectPort(ports, wanted, configured)
  {
    var tcp := [];
    for i := 0 to |ports|
      invariant tcp == TcpPorts(ports[..i])
    {
      assert ports[..i + 1][..i] == ports[..i];
      if ports[i].protocol == "tcp" {
        tcp := tcp + [ports[i]];
      }
    }
    assert ports[..|ports|] == ports;
    SelectPortIsChoice(ports, wanted, configured);
    if |tcp| == 0 {
      return None;
    }
    if wanted.Some? {
      var port := LookupPort(tcp, wanted.value);
      if port.Some? {
        return Some(Selection(port.value, "label"));
      }
    }
    if configured > 0 {
      var port := LookupPort(tcp, configured);
      if port.Some? {
        return Some(Selection(port.value, "override"));
      }
    }
    for i := 0 to |PREFERRED|
      invariant FirstPreferred(tcp, 0) == FirstPreferred(tcp, i)
    {
      var port := LookupPort(tcp, PREFERRED[i]);
      if port.Some? {
        return Some(Selection(port.value, "preference"));
      }
    }
    return Some(Selection(tcp[0], "first-published"));
  }

  // ----- The ports that a scan reports -----

  datatype Binding = Binding(hostIp: string, hostPort: string)

  // The protocol part of a port spec such as "80/tcp"; None when there is no slash.
  function Protocol(spec: string): Option<string> {
    var port := Before(spec, '/');
    if |port| == |spec| then None else Some(spec[|port| + 1..])
  }

  function BindingPort(protocol: string, b: Binding): seq<PublishedPort> {
    match Atoi(TrimSpace(b.hostPort))
    case Some(n) => if n > 0 then [PublishedPort(b.hostIp, n, ToLower(protocol))] else []
    case None => []
  }

  function BindingPorts(protocol: string, bs: seq<Binding>): seq<PublishedPort> {
    if bs == [] then []
    else BindingPorts(protocol, bs[..|bs| - 1]) + BindingPort(protocol, bs[|bs| - 1])
  }

  function SpecPorts(spec: string, bs: seq<Binding>): seq<PublishedPort> {
    if Protocol(spec).None? then [] else BindingPorts(Protocol(spec).value, bs)
  }

  // A spec such as "80/tcp": a container port, the first slash, and a protocol.
  predicate SpecReads(spec: string, port: string, protocol: string) {
    '/' !in port && spec == port + "/" + protocol
  }

  // A port comes from a spec and one of its bindings: its number is the binding's, positive, its
  // protocol that of the spec, in lower case.
  lemma SpecPortsMeaning(spec: string, bs: seq<Binding>, p: PublishedPort)
    ensures p in SpecPorts(spec, bs) <==>
            && p.hostPort > 0
            && (exists b :: b in bs && b.hostIp == p.hostIp && Atoi(TrimSpace(b.hostPort)) == Some(p.hostPort))
            && exists port, protocol :: SpecReads(spec, port, protocol) && p.protocol == ToLower(protocol)
  {
    SpecProtocol(spec);
    hide Protocol, TrimSpace, Atoi, BindingPorts, ToLower, SpecReads;
    if Protocol(spec).Some? {
      BindingPortsMeaning(Protocol(spec).value, bs, p);
      var port :| SpecReads(spec, port, Protocol(spec).value);
    }
  }

  lemma SpecProtocol(spec: string)
    ensures forall port, protocol :: SpecReads(spec, port, protocol) ==> Protocol(spec) == Some(protocol)
    ensures Protocol(spec).Some? ==> exists port :: SpecReads(spec, port, Protocol(spec).value)
  {
    forall port, protocol | SpecReads(spec, port, protocol) ensures Protocol(spec) == Some(protocol) {
      BeforeConcat(port, '/', protocol);
      assert spec[|port| + 1..] == protocol;
    }
    if Protocol(spec).Some? {
      BeforeIsFront(spec, '/');
      assert SpecReads(spec, Before(spec, '/'), Protocol(spec).value);
    }
  }

  lemma {:induction false} BindingPortsMeaning(protocol: string, bs: seq<Binding>, p: PublishedPort)
    ensures p in BindingPorts(protocol, bs) <==>
            && p.hostPort > 0 && p.protocol == ToLower(protocol)
            && exists b :: b in bs && b.hostIp == p.hostIp && Atoi(TrimSpace(b.hostPort)) == Some(p.hostPort)
  {
    hide Atoi, TrimSpace, ToLower;
    if bs != [] {
      var front, last := bs[..|bs| - 1], bs[|bs| - 1];
      BindingPortsMeaning(protocol, front, p);
      assert bs == front + [last];
      assert p in BindingPorts(protocol, bs) <==>
             p in BindingPorts(protocol, front) || p in BindingPort(protocol, last);
    }
  }

  // No binding is reported twice, and they come in order.
  lemma {:induction false} BindingPortsInOrder(protocol: string, a: seq<Binding>, b: seq<Binding>)
    ensures BindingPorts(protocol, a + b) == BindingPorts(protocol, a) + BindingPorts(protocol, b)
    ensures |BindingPorts(protocol, a)| <= |a|
  {
    hide Atoi, TrimSpace, ToLower;
    if b != [] {
      var n := |b| - 1;
      assert (a + b)[..|a + b| - 1] == a + b[..n];
      BindingPortsInOrder(protocol, a, b[..n]);
    } else {
      assert a + b == a;
      if a != [] { BindingPortsInOrder(protocol, a[..|a| - 1], []); }
    }
  }

  // All ports of the given specs, counted with multiplicity, in no order.
  ghost function PortBag(network: map<string, seq<Binding>>, specs: set<string>): multiset<PublishedPort>
    requires specs <= network.Keys
  {
    if specs == {} then multiset{}
    else
      var spec :| spec in specs;
      multiset(SpecPorts(spec, network[spec])) + PortBag(network, specs - {spec})
  }

  lemma {:induction false} PortBagOneMore(network: map<string, seq<Binding>>, specs: set<string>, spec: string)
    requires specs <= network.Keys && spec in specs
    ensures PortBag(network, specs) == multiset(SpecPorts(spec, network[spec])) + PortBag(network, specs - {spec})
    decreases specs
  {
    var picked :| picked in specs && PortBag(network, specs) ==
                  multiset(SpecPorts(picked, network[picked])) + PortBag(network, specs - {picked});
    if picked != spec {
      PortBagOneMore(network, specs - {picked}, spec);
      PortBagOneMore(network, specs - {spec}, picked);
      assert specs - {picked} - {spec} == specs - {spec} - {picked};
    }
  }

  predicate PortBefore(a: PublishedPort, b: PublishedPort) {
    if a.hostPort == b.hostPort then Less(a.protocol, b.protocol) else a.hostPort < b.hostPort
  }

  // No pair is out of order: what sort.Slice promises, which leaves ties in any order.
  ghost predicate PortsInOrder(ports: seq<PublishedPort>) {
    forall i, j :: 0 <= i < j < |ports| ==> !PortBefore(ports[j], ports[i])
  }

  // Sorted means by number, and ports with one number by protocol.
  lemma InOrderMeaning(ports: seq<PublishedPort>)
    ensures PortsInOrder(ports) <==>
            forall i, j :: 0 <= i < j < |ports| ==>
              ports[i].hostPort < ports[j].hostPort
              || (ports[i].hostPort == ports[j].hostPort && AtMost(ports[i].protocol, ports[j].protocol))
  {
    forall i, j | 0 <= i < j < |ports|
      ensures Less(ports[j].protocol, ports[i].protocol) <==> !AtMost(ports[i].protocol, ports[j].protocol)
    {
      LessTotal(ports[i].protocol, ports[j].protocol);
      LessIrreflexive(ports[i].protocol);
      if Less(ports[j].protocol, ports[i].protocol) { LessAsymmetric(ports[j].protocol, ports[i].protocol); }
    }
  }

  lemma PortOrderTransitive(a: PublishedPort, b: PublishedPort, c: PublishedPort)
    requires !PortBefore(b, a) && !PortBefore(c, b)
    ensures !PortBefore(c, a)
  {
    if a.hostPort == b.hostPort == c.hostPort && Less(c.protocol, a.protocol) {
      LessTotal(a.protocol, b.protocol);
      if a.protocol != b.protocol { LessTransitive(c.protocol, a.protocol, b.protocol); }
    }
  }

  function InsertPort(p: PublishedPort, ports: seq<PublishedPort>): (r: seq<PublishedPort>)
    ensures multiset(r) == multiset(ports) + multiset{p}
  {
    if ports == [] || !PortBefore(ports[0], p) then [p] + ports
    else
      assert ports == [ports[0]] + ports[1..];
      [ports[0]] + InsertPort(p, ports[1..])
  }

  lemma {:induction false} InsertPortInOrder(p: PublishedPort, ports: seq<PublishedPort>)
    requires PortsInOrder(ports)
    ensures PortsInOrder(InsertPort(p, ports))
  {
    if ports == [] {
    } else if !PortBefore(ports[0], p) {
      forall j | 0 <= j < |ports| ensures !PortBefore(ports[j], p) {
        if j > 0 { PortOrderTransitive(p, ports[0], ports[j]); }
      }
    } else {
      var rest := InsertPort(p, ports[1..]);
      InsertPortInOrder(p, ports[1..]);
      if PortBefore(p, ports[0]) { LessAsymmetric(p.protocol, ports[0].protocol); }
      forall j | 0 <= j < |rest| ensures !PortBefore(rest[j], ports[0]) {
        assert rest[j] in multiset(rest);
        if rest[j] != p { assert rest[j] in multiset(ports[1..]); }
      }
    }
  }

  method SortPorts(ports: seq<PublishedPort>) returns (sorted: seq<PublishedPort>)
    ensures multiset(sorted) == multiset(ports)
    ensures PortsInOrder(sorted)
  {
    sorted := [];
    for i := 0 to |ports|
      invariant multiset(sorted) == multiset(ports[..i])
      invariant PortsInOrder(sorted)
    {
      assert ports[..i + 1] == ports[..i] + [ports[i]];
      InsertPortInOrder(ports[i], sorted);
      sorted := InsertPort(ports[i], sorted);
    }
    assert ports[..|ports|] == ports;
  }

  // Every binding with a positive host port is reported once, sorted, whatever the map order.
  method PublishedPorts(network: map<string, seq<Binding>>) returns (ports: seq<PublishedPort>)
    ensures multiset(ports) == PortBag(network, network.Keys)
    ensures PortsInOrder(ports)
    ensures forall p :: p in ports ==> p.hostPort > 0
  {
    ports := [];
    var pending := network.Keys;
    while pending != {}
      invariant pending <= network.Keys
      invariant multiset(ports) + PortBag(network, pending) == PortBag(network, network.Keys)
      invariant forall p :: p in ports ==> p.hostPort > 0
    {
      var spec :| spec in pending;
      PortBagOneMore(network, pending, spec);
      var extra := PortsOfSpec(spec, network[spec]);
      ports, pending := ports + extra, pending - {spec};
    }
    var sorted := SortPorts(ports);
    forall p | p in sorted ensures p.hostPort > 0 {
      assert p in multiset(sorted);
      assert p in multiset(ports);
    }
    ports := sorted;
  }

  method PortsOfSpec(spec: string, bindings: seq<Binding>) returns (ports: seq<PublishedPort>)
    ensures ports == SpecPorts(spec, bindings)
    ensures forall p :: p in ports ==> p.hostPort > 0
  {
    ports := [];
    var protocol := Protocol(spec);
    if protocol.None? || |bindings| == 0 {
      return;
    }
    for i := 0 to |bindings|
      invariant ports == BindingPorts(protocol.value, bindings[..i])
      invariant forall p :: p in ports ==> p.hostPort > 0
    {
      assert bindings[..i + 1][..i] == bindings[..i];
      var hostPort := Atoi(TrimSpace(bindings[i].hostPort));
      if hostPort.None? || hostPort.value <= 0 {
        continue;
      }
      ports := ports + [PublishedPort(bindings[i].hostIp, hostPort.value, ToLower(protocol.value))];
    }
    assert bindings[..|bindings|] == bindings;
  }

  // ----- The choice depends only on the bag of ports -----

  lemma {:induction false} FirstTcpIsLeast(ports: seq<PublishedPort>)
    requires PortsInOrder(ports) && TcpPorts(ports) != []
    ensures forall p :: p in TcpPorts(ports) ==> TcpPorts(ports)[0].hostPort <= p.hostPort
  {
    var n := |ports| - 1;
    var front, last := ports[..n], ports[n];
    if TcpPorts(front) != [] {
      FirstTcpIsLeast(front);
      TcpPortsMeaning(front);
      var first := TcpPorts(front)[0];
      assert first in TcpPorts(front);
      var i :| 0 <= i < n && ports[i] == first;
      assert !PortBefore(last, ports[i]);
    }
  }

  // Whatever order the bindings were ranged over in and however ties were sorted, the host port
  // and its provenance are the same; without a better reason it is the least TCP port.
  lemma PortChoiceIsDetermined(a: seq<PublishedPort>, b: seq<PublishedPort>, wanted: Option<int>, configured: int,
                               ra: Option<Selection>, rb: Option<Selection>)
    requires multiset(a) == multiset(b) && PortsInOrder(a) && PortsInOrder(b)
    requires IsChoice(a, wanted, configured, ra) && IsChoice(b, wanted, configured, rb)
    ensures ra.Some? == rb.Some?
    ensures ra.Some? ==> ra.value.port.hostPort == rb.value.port.hostPort && ra.value.source == rb.value.source
    ensures ra.Some? && ra.value.source == "first-published" ==>
              forall p :: p in a && p.protocol == "tcp" ==> ra.value.port.hostPort <= p.hostPort
  {
    SameTcpPorts(a, b);
    if ra.Some? {
      SourceTellsRule(HostPorts(TcpPorts(a)), TcpPorts(a)[0].hostPort, wanted, configured);
      FirstTcpIsLeast(a);
      TcpPortsMeaning(a);
      hide TcpPorts, HostPorts, Choice;
    }
  }

  lemma SameTcpPorts(a: seq<PublishedPort>, b: seq<PublishedPort>)
    requires multiset(a) == multiset(b) && PortsInOrder(a) && PortsInOrder(b)
    ensures TcpPorts(a) == [] <==> TcpPorts(b) == []
    ensures HostPorts(TcpPorts(a)) == HostPorts(TcpPorts(b))
    ensures TcpPorts(a) != [] ==> TcpPorts(a)[0].hostPort == TcpPorts(b)[0].hostPort
  {
    var ta, tb := TcpPorts(a), TcpPorts(b);
    SamePortMembers(a, b);
    if ta != [] { assert ta[0] in tb; }
    if tb != [] { assert tb[0] in ta; }
    if ta != [] {
      FirstTcpIsLeast(a);
      FirstTcpIsLeast(b);
    }
  }

  lemma SamePortMembers(a: seq<PublishedPort>, b: seq<PublishedPort>)
    requires multiset(a) == multiset(b)
    ensures forall p :: p in TcpPorts(a) <==> p in TcpPorts(b)
  {
    TcpPortsMeaning(a);
    TcpPortsMeaning(b);
    assert forall p :: p in a <==> p in multiset(a);
    assert forall p :: p in b <==> p in multiset(b);
  }

  lemma SourceTellsRule(available: set<int>, first: int, wanted: Option<int>, configured: int)
    ensures Choice(available, first, wanted, configured).1 == "first-published" ==>
              Choice(available, first, wanted, configured).0 == first
  {
    var source := Choice(available, first, wanted, configured).1;
    assert source == "label" ==> source[0] == 'l';
    assert source == "override" ==> source[0] == 'o';
    assert source == "preference" ==> source[0] == 'p';
  }
}
