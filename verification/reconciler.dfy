/** internal/daemon/reconciler.go with internal/registry/snapshot.go: from a container scan to a
    published routing snapshot. */
module Reconcile {
  import opened Strings
  import opened RouteModel
  import opened Discovery
  import opened Ports
  import opened Domains
  import opened Conflicts

  datatype ContainerState = ContainerState(id: string, name: string, running: bool, labels: map<string, string>,
                                           ports: seq<PublishedPort>)

  datatype ServiceOverride = ServiceOverride(enable: Option<bool>, domain: string, domains: seq<string>,
                                             root: Option<bool>, port: Option<int>, scheme: string,
                                             priority: Option<int>)

  datatype Options = Options(suffix: string, rootServices: seq<string>, ignoredServices: seq<string>,
                             ignoredPorts: seq<int>, overrides: map<string, map<string, ServiceOverride>>)

  // ----- What one container contributes -----

  function AsContainer(c: ContainerState): Container {
    Container(c.id, c.name, c.labels)
  }

  function CandidateOf(c: ContainerState): Candidate {
    BuildCandidateBase(AsContainer(c))
  }

  function ServicePreferences(opts: Options, project: string, service: string): RoutePreferences {
    if project !in opts.overrides || service !in opts.overrides[project] then NO_PREFERENCES
    else
      var o := opts.overrides[project][service];
      RoutePreferences(o.enable, o.domain, o.domains, o.root, o.port, o.scheme, o.priority)
  }

  function LabelPreferences(l: RouteOptions): RoutePreferences {
    RoutePreferences(l.enabled, if l.domain.Some? then l.domain.value else "", l.domains, l.root, l.port,
                     if l.scheme.Some? then l.scheme.value else "", l.priority)
  }

  function LabelsOf(c: ContainerState): RouteOptions {
    LabelOptions(NO_OPTIONS, c.labels)
  }

  function PreferencesOf(opts: Options, c: ContainerState): RoutePreferences {
    var candidate := CandidateOf(c);
    Merged(ServicePreferences(opts, candidate.project, candidate.service), LabelPreferences(LabelsOf(c)))
  }

  function OrZero(n: Option<int>): int {
    if n.Some? then n.value else 0
  }

  function PortOf(opts: Options, c: ContainerState): Option<Selection> {
    SelectPort(c.ports, LabelsOf(c).port, OrZero(PreferencesOf(opts, c).port))
  }

  // The enable label and the enable override play no part in this.
  predicate Routed(opts: Options, c: ContainerState) {
    && PortOf(opts, c).Some?
    && c.running
    && CandidateOf(c).service !in opts.ignoredServices
    && PortOf(opts, c).value.port.hostPort !in opts.ignoredPorts
  }

  function DomainsFor(opts: Options, c: ContainerState): seq<string> {
    var candidate := CandidateOf(c);
    DomainsOf(candidate.project, candidate.service, PreferencesOf(opts, c),
              DomainOptions(opts.suffix, opts.rootServices))
  }

  function ClaimFor(opts: Options, c: ContainerState, domain: string): Route
    requires Routed(opts, c)
  {
    var prefs := PreferencesOf(opts, c);
    var selected := PortOf(opts, c).value;
    var domains := DomainsFor(opts, c);
    Route(domain, domains, domains, CandidateOf(c),
          Upstream("127.0.0.1", selected.port.hostPort, if prefs.scheme != "" then prefs.scheme else "http"),
          OrZero(prefs.priority), selected.source)
  }

  function ClaimsOf(opts: Options, c: ContainerState): seq<Route> {
    if !Routed(opts, c) then []
    else
      var domains := DomainsFor(opts, c);
      seq(|domains|, i requires 0 <= i < |domains| => ClaimFor(opts, c, domains[i]))
  }

  function WarningsOf(opts: Options, c: ContainerState): seq<Warning> {
    LabelWarnings(AsContainer(c)) +
    (if Routed(opts, c)
     then DomainWarnings(PreferencesOf(opts, c), DomainOptions(opts.suffix, opts.rootServices)) else [])
  }

  function AllClaims(opts: Options, cs: seq<ContainerState>): seq<Route> {
    if cs == [] then [] else AllClaims(opts, cs[..|cs| - 1]) + ClaimsOf(opts, cs[|cs| - 1])
  }

  function AllWarnings(opts: Options, cs: seq<ContainerState>): seq<Warning> {
    if cs == [] then [] else AllWarnings(opts, cs[..|cs| - 1]) + WarningsOf(opts, cs[|cs| - 1])
  }

  // ----- What a scan is built into -----

  ghost function RoutingTable(claims: seq<Route>): map<string, Route> {
    map h | h in ClaimedNames(claims) && ClaimsFor(claims, h) != [] :: WinnerFor(claims, h)
  }

  // The snapshot is the pipeline applied to this scan; only the order of the conflicts is open.
  ghost predicate IsBuild(opts: Options, cs: seq<ContainerState>, snapshot: Snapshot) {
    var claims := AllClaims(opts, cs);
    && snapshot.routes == RoutingTable(claims)
    && snapshot.warnings == AllWarnings(opts, cs)
    && ConflictsExactly(claims, ClaimedNames(claims), snapshot.conflicts)
  }

  // ----- The snapshot builder -----

  // The counter is an atomic 64-bit word.
  const WORD := 0x1_0000_0000_0000_0000

  function NextCount(n: nat): nat {
    (n + 1) % WORD
  }

  function ByHost(routes: seq<Route>): map<string, Route> {
    if routes == [] then map[]
    else ByHost(routes[..|routes| - 1])[routes[|routes| - 1].hostname := routes[|routes| - 1]]
  }

  class Builder {
    var counter: nat

    constructor ()
      ensures counter == 0
    {
      counter := 0;
    }

    method Build(routes: seq<Route>, conflicts: seq<Conflict>, warnings: seq<Warning>, now: nat) returns (s: Snapshot)
      modifies this
      ensures counter == NextCount(old(counter))
      ensures s == Snapshot(counter, now, ByHost(routes), warnings, conflicts)
    {
      counter := NextCount(counter);
      var byHost: map<string, Route> := map[];
      for i := 0 to |routes|
        invariant byHost == ByHost(routes[..i])
      {
        assert routes[..i + 1][..i] == routes[..i];
        byHost := byHost[routes[i].hostname := routes[i]];
      }
      assert routes[..|routes|] == routes;
      s := Snapshot(counter, now, byHost, warnings, conflicts);
    }
  }

  lemma {:induction false} ByHostMeaning(routes: seq<Route>)
    requires forall i, j :: 0 <= i < j < |routes| ==> routes[i].hostname != routes[j].hostname
    ensures forall r :: r in routes ==> r.hostname in ByHost(routes) && ByHost(routes)[r.hostname] == r
    ensures forall h :: h in ByHost(routes) ==> exists r :: r in routes && r.hostname == h
  {
    if routes != [] {
      var front, last := routes[..|routes| - 1], routes[|routes| - 1];
      ByHostMeaning(front);
      assert routes == front + [last];
      assert last in routes;
      forall h | h in ByHost(routes) && h != last.hostname ensures exists r :: r in routes && r.hostname == h {
        var r :| r in front && r.hostname == h;
        assert r in routes;
      }
    }
  }

  lemma ActiveIsTable(claims: seq<Route>, active: seq<Route>)
    requires ActiveExactly(claims, ClaimedNames(claims), active)
    ensures ByHost(active) == RoutingTable(claims)
  {
    ByHostMeaning(active);
    var table, built := RoutingTable(claims), ByHost(active);
    forall h | h in table ensures h in built && built[h] == table[h] {
      var r :| r in active && r.hostname == h;
      assert IsWinner(claims, r);
    }
    forall h | h in built ensures h in table {
      var r :| r in active && r.hostname == h;
      assert IsWinner(claims, r);
    }
  }

  lemma ResolutionIsBuild(opts: Options, cs: seq<ContainerState>, active: seq<Route>, snap: Snapshot)
    requires IsResolution(AllClaims(opts, cs), active, snap.conflicts)
    requires snap.routes == ByHost(active) && snap.warnings == AllWarnings(opts, cs)
    ensures IsBuild(opts, cs, snap)
  {
    ActiveIsTable(AllClaims(opts, cs), active);
  }

  // ----- The reconciler -----

  class Reconciler {
    const builder: Builder
    const opts: Options
    var snapshot: Snapshot
    var lastSync: nat
    var routingPaused: bool

    constructor (opts: Options)
      ensures this.opts == opts && fresh(builder) && builder.counter == 0
      ensures snapshot == Snapshot(0, 0, map[], [], []) && lastSync == 0 && !routingPaused
    {
      this.opts := opts;
      builder := new Builder();
      snapshot, lastSync, routingPaused := Snapshot(0, 0, map[], [], []), 0, false;
    }

    method RebuildSnapshot(containers: seq<ContainerState>, now: nat)
      modifies this`snapshot, this`lastSync, builder
      ensures IsBuild(opts, containers, snapshot)
      ensures builder.counter == NextCount(old(builder.counter))
      ensures snapshot.version == builder.counter && snapshot.createdAt == lastSync == now
    {
      var routes, warnings := Gather(containers);
      var active, conflicts := ResolveConflicts(routes);
      var snap := builder.Build(active, conflicts, warnings, now);
      ResolutionIsBuild(opts, containers, active, snap);
      snapshot := snap;
      lastSync := snap.createdAt;
    }

    // The source's loop over the containers.
    method Gather(containers: seq<ContainerState>) returns (routes: seq<Route>, warnings: seq<Warning>)
      ensures routes == AllClaims(opts, containers) && warnings == AllWarnings(opts, containers)
    {
      routes, warnings := [], [];
      for i := 0 to |containers|
        invariant routes == AllClaims(opts, containers[..i])
        invariant warnings == AllWarnings(opts, containers[..i])
      {
        assert containers[..i + 1][..i] == containers[..i];
        var claims, said := Contribute(containers[i]);
        routes, warnings := routes + claims, warnings + said;
      }
      assert containers[..|containers|] == containers;
    }

    method Contribute(c: ContainerState) returns (routes: seq<Route>, warnings: seq<Warning>)
      ensures routes == ClaimsOf(opts, c) && warnings == WarningsOf(opts, c)
    {
      hide LabelOptions, LabelWarnings, Merged, ServicePreferences, SelectPort, BuildCandidateBase, DomainsOf,
           DomainWarnings, PreferencesOf;
      var candidate, prefs, selected;
      candidate, prefs, selected, warnings := Examine(c);
      if selected.None? {
        return [], warnings;
      }
      var domains, domainWarnings := GenerateDomains(candidate.project, candidate.service, prefs,
                                                     DomainOptions(opts.suffix, opts.rootServices));
      warnings := warnings + domainWarnings;
      var scheme := "http";
      if prefs.scheme != "" {
        scheme := prefs.scheme;
      }
      var priority := 0;
      if prefs.priority.Some? {
        priority := prefs.priority.value;
      }
      routes := Claim(domains, candidate, Upstream("127.0.0.1", selected.value.port.hostPort, scheme),
                      priority, selected.value.source);
      assert routes == ClaimsOf(opts, c);
    }

    method Claim(domains: seq<string>, candidate: Candidate, upstream: Upstream, priority: int, source: string)
      returns (routes: seq<Route>)
      ensures |routes| == |domains|
      ensures forall i :: 0 <= i < |domains| ==>
                routes[i] == Route(domains[i], domains, domains, candidate, upstream, priority, source)
    {
      routes := [];
      for i := 0 to |domains|
        invariant |routes| == i
        invariant forall k :: 0 <= k < i ==>
                    routes[k] == Route(domains[k], domains, domains, candidate, upstream, priority, source)
      {
        routes := routes + [Route(domains[i], domains, domains, candidate, upstream, priority, source)];
      }
    }

    // The first half of the loop body: nothing is selected when the container is skipped.
    method Examine(c: ContainerState)
      returns (candidate: Candidate, prefs: RoutePreferences, selected: Option<Selection>, warnings: seq<Warning>)
      ensures candidate == CandidateOf(c) && prefs == PreferencesOf(opts, c)
      ensures selected == if Routed(opts, c) then PortOf(opts, c) else None
      ensures warnings == LabelWarnings(AsContainer(c))
    {
      hide LabelOptions, LabelWarnings, Merged, ServicePreferences, LabelPreferences, SelectPort, IsChoice,
           BuildCandidateBase;
      candidate := BuildCandidateBase(AsContainer(c));
      var routeOpts;
      routeOpts, warnings := ApplyLabelFields(NO_OPTIONS, AsContainer(c), []);
      var configPrefs := ServicePreferences(opts, candidate.project, candidate.service);
      var overrideWarnings;
      prefs, overrideWarnings := MergeOverrides(configPrefs, LabelPreferences(routeOpts));
      warnings := warnings + overrideWarnings;
      var configPort := 0;
      if prefs.port.Some? {
        configPort := prefs.port.value;
      }
      selected := SelectPublishedPort(c.ports, routeOpts.port, configPort);
      assert selected == PortOf(opts, c);
      if selected.None? {
        return;
      }
      var hostPort := selected.value.port.hostPort;
      assert hostPort in [hostPort];
      var eligible := IsEligible(CandidateInput(candidate.service, c.running, None, None, [hostPort]),
                                 opts.ignoredServices, opts.ignoredPorts);
      if !eligible {
        selected := None;
      }
    }

    method SetRoutingPaused(paused: bool)
      modifies this`routingPaused
      ensures routingPaused == paused
    {
      routingPaused := paused;
    }

    // Reconciler.HandleEvent: the switch over the event names.
    method HandleEvent(event: string, containers: seq<ContainerState>, now: nat) returns (ok: bool)
      modifies this`snapshot, this`lastSync, builder
      ensures ok <==> event in HANDLED_EVENTS
      ensures ok ==> IsBuild(opts, containers, snapshot) && lastSync == snapshot.createdAt == now
      ensures ok ==> snapshot.version == builder.counter == NextCount(old(builder.counter))
      ensures !ok ==> snapshot == old(snapshot) && lastSync == old(lastSync) && builder.counter == old(builder.counter)
    {
      ok := event in HANDLED_EVENTS;
      if ok {
        RebuildSnapshot(containers, now);
      }
    }
  }

  const HANDLED_EVENTS := ["start", "stop", "die", "destroy", "rename", "update"]
}
