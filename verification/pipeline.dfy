/** What holds of every snapshot that the reconciler builds from a scan. */
module Pipeline {
  import opened Strings
  import opened RouteModel
  import opened Discovery
  import opened Ports
  import opened Domains
  import opened Conflicts
  import opened Reconcile

  // ----- Where claims come from -----

  lemma ClaimsOfMeaning(opts: Options, c: ContainerState, r: Route)
    ensures r in ClaimsOf(opts, c) <==>
            Routed(opts, c) && r.hostname in DomainsFor(opts, c) && r == ClaimFor(opts, c, r.hostname)
  {
    var domains := DomainsFor(opts, c);
    var claims := ClaimsOf(opts, c);
    if Routed(opts, c) && r.hostname in domains && r == ClaimFor(opts, c, r.hostname) {
      var i :| 0 <= i < |domains| && domains[i] == r.hostname;
      assert claims[i] == r;
    }
  }

  ghost predicate ClaimedBy(opts: Options, c: ContainerState, r: Route) {
    Routed(opts, c) && r.hostname in DomainsFor(opts, c) && r == ClaimFor(opts, c, r.hostname)
  }

  lemma {:induction false} ClaimHasContainer(opts: Options, cs: seq<ContainerState>, r: Route)
    returns (c: ContainerState)
    requires r in AllClaims(opts, cs)
    ensures c in cs && ClaimedBy(opts, c, r)
  {
    var n := |cs| - 1;
    if r in ClaimsOf(opts, cs[n]) {
      c := cs[n];
      ClaimsOfMeaning(opts, c, r);
    } else {
      c := ClaimHasContainer(opts, cs[..n], r);
    }
  }

  lemma {:induction false} ContainerClaims(opts: Options, cs: seq<ContainerState>, c: ContainerState, d: string)
    requires c in cs && Routed(opts, c) && d in DomainsFor(opts, c)
    ensures ClaimFor(opts, c, d) in AllClaims(opts, cs)
  {
    var n := |cs| - 1;
    if cs[n] == c {
      ClaimsOfMeaning(opts, c, ClaimFor(opts, c, d));
    } else {
      assert c in cs[..n];
      ContainerClaims(opts, cs[..n], c, d);
    }
  }

  lemma RouteIsWinner(opts: Options, cs: seq<ContainerState>, s: Snapshot, h: string)
    requires IsBuild(opts, cs, s) && h in s.routes
    ensures s.routes[h] in AllClaims(opts, cs) && s.routes[h].hostname == h
  {
    WinnerClaims(AllClaims(opts, cs), h);
  }

  lemma ClaimedIsRouted(opts: Options, cs: seq<ContainerState>, s: Snapshot, r: Route)
    requires IsBuild(opts, cs, s) && r in AllClaims(opts, cs)
    ensures r.hostname in s.routes
  {
    ClaimsForMeaning(AllClaims(opts, cs), r.hostname);
  }

  // ----- Closure -----

  // The hostnames that the winning routes serve are together exactly the routed hostnames, also
  // when a container wins some of its domains and loses others.
  lemma ServedHostnamesAreRouted(opts: Options, cs: seq<ContainerState>, s: Snapshot)
    requires IsBuild(opts, cs, s)
    ensures (set k, d | k in s.routes && d in s.routes[k].servedHostnames :: d) == s.routes.Keys
  {
    forall k, d | k in s.routes && d in s.routes[k].servedHostnames ensures d in s.routes {
      RouteIsWinner(opts, cs, s, k);
      var c := ClaimHasContainer(opts, cs, s.routes[k]);
      ContainerClaims(opts, cs, c, d);
      ClaimedIsRouted(opts, cs, s, ClaimFor(opts, c, d));
    }
    forall k | k in s.routes ensures k in s.routes[k].servedHostnames {
      RouteIsWinner(opts, cs, s, k);
      var c := ClaimHasContainer(opts, cs, s.routes[k]);
    }
  }

  // ----- Provenance -----

  // A scan reports only positive host ports (what PublishedPorts ensures).
  ghost predicate Scanned(cs: seq<ContainerState>) {
    forall c :: c in cs ==> forall p :: p in c.ports ==> p.hostPort > 0
  }

  ghost predicate Publishes(c: ContainerState, hostPort: int) {
    exists p :: p in c.ports && p.protocol == "tcp" && p.hostPort == hostPort
  }

  // Every routed hostname is claimed by a running container of the scan that is not ignored, is
  // proxied to a TCP port which that container publishes on the loopback address, and an
  // explicit hostname passed the public-suffix test.
  lemma RouteProvenance(opts: Options, cs: seq<ContainerState>, s: Snapshot, h: string) returns (c: ContainerState)
    requires IsBuild(opts, cs, s) && h in s.routes
    ensures c in cs && c.running && ClaimedBy(opts, c, s.routes[h])
    ensures s.routes[h].hostname == h && h in s.routes[h].domains && s.routes[h].servedHostnames == s.routes[h].domains
    ensures s.routes[h].winner == CandidateOf(c) && CandidateOf(c).service !in opts.ignoredServices
    ensures s.routes[h].upstream.host == "127.0.0.1" && s.routes[h].upstream.scheme != ""
    ensures Publishes(c, s.routes[h].upstream.port) && s.routes[h].upstream.port !in opts.ignoredPorts
    ensures Scanned(cs) ==> s.routes[h].upstream.port > 0
    ensures IsPublicDomain(h) ==>
              PreferencesOf(opts, c).domain == "" &&
              h == DefaultDomain(CandidateOf(c).project, CandidateOf(c).service, PreferencesOf(opts, c),
                                 DomainOptions(opts.suffix, opts.rootServices))
  {
    RouteIsWinner(opts, cs, s, h);
    c := ClaimHasContainer(opts, cs, s.routes[h]);
    SelectedIsPublished(opts, c);
    ExplicitDomainsPassed(CandidateOf(c).project, CandidateOf(c).service, PreferencesOf(opts, c),
                          DomainOptions(opts.suffix, opts.rootServices), h);
  }

  // A claim goes to the port that the choice among the published TCP ports picks, and says why.
  lemma ClaimIsChoice(opts: Options, c: ContainerState, d: string)
    requires Routed(opts, c)
    ensures var tcp, wanted, o := TcpPorts(c.ports), LabelsOf(c).port, OverrideFor(opts, c);
            var configured := if wanted.None? && o.Some? then OrZero(o.value.port) else OrZero(wanted);
            tcp != []
            && (ClaimFor(opts, c, d).upstream.port, ClaimFor(opts, c, d).portSource) ==
               Choice(HostPorts(tcp), tcp[0].hostPort, wanted, configured)
  {
    SelectPortIsChoice(c.ports, LabelsOf(c).port, OrZero(PreferencesOf(opts, c).port));
    hide LabelsOf, CandidateOf, SelectPort, TcpPorts, Choice, HostPorts, DomainsFor;
  }

  // The warnings of a snapshot: those about the labels of any container, routed or not, and those
  // about the domains of the routed ones.
  lemma {:induction false} WarningsMeaning(opts: Options, cs: seq<ContainerState>, w: Warning)
    ensures w in AllWarnings(opts, cs) <==>
            exists c :: c in cs &&
              (w in LabelWarnings(AsContainer(c))
               || (Routed(opts, c)
                   && w in DomainWarnings(PreferencesOf(opts, c), DomainOptions(opts.suffix, opts.rootServices))))
  {
    hide LabelWarnings, DomainWarnings, Routed, PreferencesOf, AsContainer;
    if cs != [] {
      var front, last := cs[..|cs| - 1], cs[|cs| - 1];
      WarningsMeaning(opts, front, w);
      assert cs == front + [last];
      assert w in AllWarnings(opts, cs) <==> w in AllWarnings(opts, front) || w in WarningsOf(opts, last);
    }
  }

  // The same of a built snapshot.
  lemma SnapshotWarnings(opts: Options, cs: seq<ContainerState>, s: Snapshot, w: Warning)
    requires IsBuild(opts, cs, s)
    ensures w in s.warnings <==>
            exists c :: c in cs &&
              (w in LabelWarnings(AsContainer(c))
               || (Routed(opts, c)
                   && w in DomainWarnings(PreferencesOf(opts, c), DomainOptions(opts.suffix, opts.rootServices))))
  {
    WarningsMeaning(opts, cs, w);
    hide LabelWarnings, DomainWarnings, Routed, PreferencesOf, AsContainer, AllWarnings;
  }

  // A built snapshot reports a conflict for exactly the hostnames claimed at least twice, once
  // each; its winner is the one that is routed.
  lemma SnapshotConflicts(opts: Options, cs: seq<ContainerState>, s: Snapshot, h: string)
    requires IsBuild(opts, cs, s)
    ensures (exists c :: c in s.conflicts && c.hostname == h) <==> |ClaimsFor(AllClaims(opts, cs), h)| > 1
    ensures forall c :: c in s.conflicts && c.hostname == h ==>
              && h in s.routes && c.winner == s.routes[h].winner
              && multiset([c.winner] + c.losers) == multiset(WinnersOf(ClaimsFor(AllClaims(opts, cs), h)))
    ensures forall i, j :: 0 <= i < j < |s.conflicts| ==> s.conflicts[i].hostname != s.conflicts[j].hostname
  {
    hide AllClaims, ClaimsFor, WinnersOf, StableSort;
    var claims := AllClaims(opts, cs);
    forall c | c in s.conflicts ensures IsConflict(claims, c) {
    }
    if |ClaimsFor(claims, h)| > 1 {
      ClaimsForMeaning(claims, h);
      ClaimsAreConserved(claims, h);
      assert Contested(claims, h);
    }
  }

  lemma SelectedIsPublished(opts: Options, c: ContainerState)
    requires PortOf(opts, c).Some?
    ensures PortOf(opts, c).value.port in c.ports && PortOf(opts, c).value.port.protocol == "tcp"
  {
    SelectPortIsChoice(c.ports, LabelsOf(c).port, OrZero(PreferencesOf(opts, c).port));
    TcpPortsMeaning(c.ports);
  }

  // Because the merge lets a port label overwrite the configured port, the configured port
  // decides exactly when there is no valid label and it is positive and published. A valid label
  // for an unpublished port therefore disables the configured port.
  lemma OverrideNeedsNoLabel(opts: Options, c: ContainerState)
    requires PortOf(opts, c).Some?
    ensures var candidate := CandidateOf(c);
            var configured := ServicePreferences(opts, candidate.project, candidate.service).port;
            PortOf(opts, c).value.source == "override" <==>
            LabelsOf(c).port.None? && configured.Some? && configured.value > 0 && Publishes(c, configured.value)
  {
    var tcp := TcpPorts(c.ports);
    var wanted, effective := LabelsOf(c).port, OrZero(PreferencesOf(opts, c).port);
    SelectPortIsChoice(c.ports, wanted, effective);
    TcpPortsMeaning(c.ports);
    OverrideSource(HostPorts(tcp), tcp[0].hostPort, wanted, effective);
    PublishedMeaning(c, effective);
  }

  lemma PublishedMeaning(c: ContainerState, port: int)
    ensures Publishes(c, port) <==> port in HostPorts(TcpPorts(c.ports))
  {
    TcpPortsMeaning(c.ports);
    if Publishes(c, port) {
      var p :| p in c.ports && p.protocol == "tcp" && p.hostPort == port;
      assert p in TcpPorts(c.ports);
    }
  }

  lemma OverrideSource(available: set<int>, first: int, wanted: Option<int>, configured: int)
    ensures Choice(available, first, wanted, configured).1 == "override" <==>
            !(wanted.Some? && wanted.value in available) && configured > 0 && configured in available
  {
    assert "label"[0] == 'l' && "override"[0] == 'o' && "preference"[0] == 'p' && "first-published"[0] == 'f';
  }

  // The override that the configuration holds for a container's service.
  function OverrideFor(opts: Options, c: ContainerState): Option<ServiceOverride> {
    var candidate := CandidateOf(c);
    if candidate.project in opts.overrides && candidate.service in opts.overrides[candidate.project]
    then Some(opts.overrides[candidate.project][candidate.service]) else None
  }

  // ----- The port that decides -----

  // The number that port selection picks, from what labels, configuration and bindings say; only
  // a configured port without a valid label counts.
  ghost function PickedNumber(opts: Options, c: ContainerState): int
    requires TcpPorts(c.ports) != []
  {
    var wanted, o := LabelsOf(c).port, OverrideFor(opts, c);
    var configured := if wanted.None? && o.Some? then OrZero(o.value.port) else OrZero(wanted);
    Choice(HostPorts(TcpPorts(c.ports)), TcpPorts(c.ports)[0].hostPort, wanted, configured).0
  }

  // What the documentation of ignored_ports describes: those ports are skipped.
  ghost predicate HasUsablePort(opts: Options, c: ContainerState) {
    exists p :: p in c.ports && p.protocol == "tcp" && p.hostPort !in opts.ignoredPorts
  }

  // A running container of a service that is not ignored is routed exactly when it publishes a
  // TCP port and the number picked among all of them is not ignored.
  lemma RoutedIffPicked(opts: Options, c: ContainerState)
    requires c.running && CandidateOf(c).service !in opts.ignoredServices
    ensures Routed(opts, c) <==> TcpPorts(c.ports) != [] && PickedNumber(opts, c) !in opts.ignoredPorts
  {
    SelectPortIsChoice(c.ports, LabelsOf(c).port, OrZero(PreferencesOf(opts, c).port));
    hide LabelsOf, CandidateOf, SelectPort, TcpPorts, Choice, HostPorts;
  }

  // So ignored ports are merely skipped, as documented, exactly when a container that publishes a
  // port which is not ignored has such a port picked for it.
  lemma IgnoredPortsSkippedIff(opts: Options, c: ContainerState)
    requires c.running && CandidateOf(c).service !in opts.ignoredServices
    ensures (Routed(opts, c) <==> HasUsablePort(opts, c)) <==>
            (HasUsablePort(opts, c) ==> TcpPorts(c.ports) != [] && PickedNumber(opts, c) !in opts.ignoredPorts)
  {
    RoutedIffPicked(opts, c);
    TcpPortsMeaning(c.ports);
    if Routed(opts, c) {
      SelectedIsPublished(opts, c);
      var p := PortOf(opts, c).value.port;
      assert p in c.ports && p.protocol == "tcp" && p.hostPort !in opts.ignoredPorts;
    }
  }

  // The documented behaviour fails for a container that publishes an ignored 443 and a 9000.
  lemma IgnoredPortHidesTheOthers(opts: Options, c: ContainerState)
    requires c.running && CandidateOf(c).service !in opts.ignoredServices && opts.ignoredPorts == [443]
    requires LabelsOf(c).port.None? && OverrideFor(opts, c).None?
    requires c.ports == [PublishedPort("", 443, "tcp"), PublishedPort("", 9000, "tcp")]
    ensures HasUsablePort(opts, c) && !Routed(opts, c)
  {
    var p, q := c.ports[0], c.ports[1];
    assert q in c.ports && q.hostPort !in opts.ignoredPorts;
    TcpPortsMeaning(c.ports);
    assert p in TcpPorts(c.ports);
    RoutedIffPicked(opts, c);
    hide LabelsOf, CandidateOf, TcpPorts, Routed;
    assert 443 in HostPorts(TcpPorts(c.ports));
    assert PREFERRED[0] == 443;
  }

  lemma SuchAContainerExists() returns (opts: Options, c: ContainerState)
    ensures c.running && CandidateOf(c).service !in opts.ignoredServices && opts.ignoredPorts == [443]
    ensures LabelsOf(c).port.None? && OverrideFor(opts, c).None?
    ensures c.ports == [PublishedPort("", 443, "tcp"), PublishedPort("", 9000, "tcp")]
  {
    opts := Options("test", [], [], [443], map[]);
    c := ContainerState("1", "acme-web-1", true, map[],
                        [PublishedPort("", 443, "tcp"), PublishedPort("", 9000, "tcp")]);
    hide CandidateOf;
  }

  // ----- The two enable switches -----

  // A claim without its container's labels.
  function Unlabelled(r: Route): Route {
    r.(winner := r.winner.(labels := map[]))
  }

  function WithLabel(c: ContainerState, value: string): ContainerState {
    c.(labels := c.labels[ENABLE_LABEL := value])
  }

  // Whatever the enable label says, a container is routed or not as before, by the same port, and
  // makes the same claims but for the labels that they carry along.
  lemma EnableLabelIsIgnored(opts: Options, c: ContainerState, value: string)
    ensures var d := WithLabel(c, value);
            && Routed(opts, d) == Routed(opts, c) && PortOf(opts, d) == PortOf(opts, c)
            && DomainsFor(opts, d) == DomainsFor(opts, c)
            && |ClaimsOf(opts, d)| == |ClaimsOf(opts, c)|
            && forall i :: 0 <= i < |ClaimsOf(opts, c)| ==>
               Unlabelled(ClaimsOf(opts, d)[i]) == Unlabelled(ClaimsOf(opts, c)[i])
  {
    var d := WithLabel(c, value);
    EnableInOptions(c.labels, value);
    EnableInCandidate(c, value);
    hide LabelOptions, CandidateOf, SelectPort, DomainsOf;
    EnableInPreferences(opts, c, d);
    hide PreferencesOf, PortOf, DomainsFor;
    assert Routed(opts, d) == Routed(opts, c);
    if Routed(opts, c) {
      var domains := DomainsFor(opts, c);
      forall i | 0 <= i < |domains| ensures Unlabelled(ClaimsOf(opts, d)[i]) == Unlabelled(ClaimsOf(opts, c)[i]) {
      }
    }
  }

  // The options with the configured enable switch of one service set or unset.
  function WithEnable(opts: Options, project: string, service: string, enable: Option<bool>): Options
    requires project in opts.overrides && service in opts.overrides[project]
  {
    var services := opts.overrides[project];
    opts.(overrides := opts.overrides[project := services[service := services[service].(enable := enable)]])
  }

  // Nor does the enable override of the configuration change anything: not a claim, not a warning.
  lemma EnableOverrideIsIgnored(opts: Options, project: string, service: string, enable: Option<bool>,
                                c: ContainerState)
    requires project in opts.overrides && service in opts.overrides[project]
    ensures var opts' := WithEnable(opts, project, service, enable);
            && Routed(opts', c) == Routed(opts, c) && PortOf(opts', c) == PortOf(opts, c)
            && DomainsFor(opts', c) == DomainsFor(opts, c)
            && ClaimsOf(opts', c) == ClaimsOf(opts, c) && WarningsOf(opts', c) == WarningsOf(opts, c)
  {
    var opts' := WithEnable(opts, project, service, enable);
    EnableInOverride(opts, project, service, enable, c);
    hide PreferencesOf, LabelsOf, CandidateOf, SelectPort, LabelWarnings, DomainsOf, DomainWarnings, WithEnable;
    SameDomains(opts, opts', c);
    assert PortOf(opts', c) == PortOf(opts, c);
    if Routed(opts, c) {
      assert forall d :: ClaimFor(opts', c, d) == ClaimFor(opts, c, d);
    }
  }

  lemma EnableInOverride(opts: Options, project: string, service: string, enable: Option<bool>, c: ContainerState)
    requires project in opts.overrides && service in opts.overrides[project]
    ensures var opts' := WithEnable(opts, project, service, enable);
            && PreferencesOf(opts', c) == PreferencesOf(opts, c).(enable := PreferencesOf(opts', c).enable)
            && opts' == opts.(overrides := opts'.overrides)
  {
    hide LabelsOf, CandidateOf;
  }

  lemma SameDomains(opts: Options, opts': Options, c: ContainerState)
    requires PreferencesOf(opts', c) == PreferencesOf(opts, c).(enable := PreferencesOf(opts', c).enable)
    requires opts' == opts.(overrides := opts'.overrides)
    ensures DomainsFor(opts', c) == DomainsFor(opts, c)
    ensures DomainWarnings(PreferencesOf(opts', c), DomainOptions(opts'.suffix, opts'.rootServices)) ==
            DomainWarnings(PreferencesOf(opts, c), DomainOptions(opts.suffix, opts.rootServices))
  {
    hide PreferencesOf, CandidateOf, IsPublicDomain, AcceptedExtras, ExtraWarnings;
  }

  lemma {:induction false} EnableInAllClaims(opts: Options, project: string, service: string, enable: Option<bool>,
                                             cs: seq<ContainerState>)
    requires project in opts.overrides && service in opts.overrides[project]
    ensures var opts' := WithEnable(opts, project, service, enable);
            AllClaims(opts', cs) == AllClaims(opts, cs) && AllWarnings(opts', cs) == AllWarnings(opts, cs)
  {
    hide ClaimsOf, WarningsOf, WithEnable;
    if cs != [] {
      EnableInAllClaims(opts, project, service, enable, cs[..|cs| - 1]);
      EnableOverrideIsIgnored(opts, project, service, enable, cs[|cs| - 1]);
    }
  }

  // No snapshot tells whether a service is disabled in the configuration.
  lemma EnableOverrideNeverShows(opts: Options, project: string, service: string, enable: Option<bool>,
                                 cs: seq<ContainerState>, s: Snapshot)
    requires project in opts.overrides && service in opts.overrides[project]
    ensures IsBuild(WithEnable(opts, project, service, enable), cs, s) <==> IsBuild(opts, cs, s)
  {
    EnableInAllClaims(opts, project, service, enable, cs);
    hide AllClaims, AllWarnings, WithEnable, ConflictsExactly;
  }

  lemma EnableInOptions(labels: map<string, string>, value: string)
    ensures var a, b := LabelOptions(NO_OPTIONS, labels), LabelOptions(NO_OPTIONS, labels[ENABLE_LABEL := value]);
            b == a.(enabled := b.enabled)
  {
    OneLabelOneField(NO_OPTIONS, labels, ENABLE_LABEL, value);
    hide LabelOptions;
  }

  lemma EnableInCandidate(c: ContainerState, value: string)
    ensures var d := c.(labels := c.labels[ENABLE_LABEL := value]);
            CandidateOf(d) == CandidateOf(c).(labels := d.labels)
  {
    LabelsDiffer();
    hide ParseContainerName, TrimSpace;
  }

  lemma EnableInPreferences(opts: Options, c: ContainerState, d: ContainerState)
    requires CandidateOf(d).project == CandidateOf(c).project && CandidateOf(d).service == CandidateOf(c).service
    requires LabelsOf(d) == LabelsOf(c).(enabled := LabelsOf(d).enabled) && d.ports == c.ports
    ensures PreferencesOf(opts, d) == PreferencesOf(opts, c).(enable := PreferencesOf(opts, d).enable)
    ensures PortOf(opts, d) == PortOf(opts, c)
    ensures DomainsFor(opts, d) == DomainsFor(opts, c)
  {
    hide CandidateOf, LabelsOf, ServicePreferences, SelectPort, IsPublicDomain, AcceptedExtras;
  }

  lemma LabelsDiffer()
    ensures ENABLE_LABEL !in {PROJECT_LABEL, SERVICE_LABEL, DOMAIN_LABEL, DOMAINS_LABEL, ROOT_LABEL, PORT_LABEL,
            SCHEME_LABEL, PRIORITY_LABEL}
  {
    assert ENABLE_LABEL[9] == 'e' && DOMAIN_LABEL[9] == 'd' && DOMAINS_LABEL[9] == 'd' && ROOT_LABEL[9] == 'r'
           && PORT_LABEL[9] == 'p' && SCHEME_LABEL[9] == 's' && PRIORITY_LABEL[9] == 'p'
           && PROJECT_LABEL[0] == SERVICE_LABEL[0] == 'c' && ENABLE_LABEL[0] == 'd';
  }

  // Label over configuration over built-in default, for everything a route takes from them.
  lemma LabelsBeatConfig(opts: Options, c: ContainerState, d: string)
    requires Routed(opts, c)
    ensures var r, l, o := ClaimFor(opts, c, d), LabelsOf(c), OverrideFor(opts, c);
            && r.priority == (if l.priority.Some? then l.priority.value
                              else if o.Some? && o.value.priority.Some? then o.value.priority.value else 0)
            && r.upstream.scheme == (if l.scheme.Some? then l.scheme.value
                                     else if o.Some? && o.value.scheme != "" then o.value.scheme else "http")
  {
    LabelSchemeIsKnown(c);
    hide LabelsOf, CandidateOf, PortOf, DomainsFor;
  }

  lemma LabelSchemeIsKnown(c: ContainerState)
    ensures LabelsOf(c).scheme.Some? ==> LabelsOf(c).scheme.value == "http" || LabelsOf(c).scheme.value == "https"
  {
  }

  // ----- Independence of the scan order -----

  ghost predicate DistinctNames(cs: seq<ContainerState>) {
    forall c, d :: c in cs && d in cs && StrippedName(c.name) == StrippedName(d.name) ==> c == d
  }

  lemma TiedClaimsAreEqual(opts: Options, cs: seq<ContainerState>)
    requires DistinctNames(cs)
    ensures TiesIdentical(AllClaims(opts, cs))
  {
    var claims := AllClaims(opts, cs);
    forall x, y | x in claims && y in claims && x.hostname == y.hostname && Tied(x, y) ensures x == y {
      var c := ClaimHasContainer(opts, cs, x);
      var d := ClaimHasContainer(opts, cs, y);
    }
  }

  lemma {:induction false} AllClaimsConcat(opts: Options, a: seq<ContainerState>, b: seq<ContainerState>)
    ensures AllClaims(opts, a + b) == AllClaims(opts, a) + AllClaims(opts, b)
  {
    if b == [] {
      assert a + b == a;
    } else {
      var n := |b| - 1;
      assert (a + b)[..|a + b| - 1] == a + b[..n];
      AllClaimsConcat(opts, a, b[..n]);
      Regrouped(AllClaims(opts, a), AllClaims(opts, b[..n]), ClaimsOf(opts, b[n]));
    }
  }

  lemma {:induction false} AllWarningsConcat(opts: Options, a: seq<ContainerState>, b: seq<ContainerState>)
    ensures AllWarnings(opts, a + b) == AllWarnings(opts, a) + AllWarnings(opts, b)
  {
    if b == [] {
      assert a + b == a;
    } else {
      var n := |b| - 1;
      assert (a + b)[..|a + b| - 1] == a + b[..n];
      AllWarningsConcat(opts, a, b[..n]);
      Regrouped(AllWarnings(opts, a), AllWarnings(opts, b[..n]), WarningsOf(opts, b[n]));
    }
  }

  lemma Regrouped<T>(a: seq<T>, b: seq<T>, c: seq<T>)
    ensures (a + b) + c == a + (b + c)
    ensures multiset(a + (b + c)) == multiset(a + c) + multiset(b)
  {
  }

  lemma OneContainer(opts: Options, c: ContainerState)
    ensures AllClaims(opts, [c]) == ClaimsOf(opts, c) && AllWarnings(opts, [c]) == WarningsOf(opts, c)
  {
    assert [c][..0] == [];
  }

  lemma AllClaimsAround(opts: Options, front: seq<ContainerState>, c: ContainerState, back: seq<ContainerState>)
    ensures multiset(AllClaims(opts, front + ([c] + back))) ==
            multiset(AllClaims(opts, front + back)) + multiset(ClaimsOf(opts, c))
  {
    AllClaimsConcat(opts, front, back);
    AllClaimsConcat(opts, front, [c] + back);
    AllClaimsConcat(opts, [c], back);
    OneContainer(opts, c);
    Regrouped(AllClaims(opts, front), ClaimsOf(opts, c), AllClaims(opts, back));
  }

  lemma AllWarningsAround(opts: Options, front: seq<ContainerState>, c: ContainerState, back: seq<ContainerState>)
    ensures multiset(AllWarnings(opts, front + ([c] + back))) ==
            multiset(AllWarnings(opts, front + back)) + multiset(WarningsOf(opts, c))
  {
    AllWarningsConcat(opts, front, back);
    AllWarningsConcat(opts, front, [c] + back);
    AllWarningsConcat(opts, [c], back);
    OneContainer(opts, c);
    Regrouped(AllWarnings(opts, front), WarningsOf(opts, c), AllWarnings(opts, back));
  }

  // A permutation b of x followed by tail has x somewhere, and the rest permutes tail.
  lemma FindIn<T>(x: T, tail: seq<T>, b: seq<T>) returns (front: seq<T>, back: seq<T>)
    requires multiset(b) == multiset([x] + tail)
    ensures b == front + ([x] + back) && multiset(tail) == multiset(front + back)
  {
    assert x in multiset([x] + tail);
    assert x in multiset(b);
    var j :| 0 <= j < |b| && b[j] == x;
    front, back := b[..j], b[j + 1..];
    assert b == front + ([x] + back);
    assert multiset(b) == multiset(front + back) + multiset{x};
    assert multiset([x] + tail) == multiset(tail) + multiset{x};
    assert multiset(tail) == multiset(b) - multiset{x};
  }

  lemma {:induction false} PermutedScan(opts: Options, a: seq<ContainerState>, b: seq<ContainerState>)
    requires multiset(a) == multiset(b)
    ensures multiset(AllClaims(opts, a)) == multiset(AllClaims(opts, b))
    ensures multiset(AllWarnings(opts, a)) == multiset(AllWarnings(opts, b))
    decreases |a|
  {
    if a == [] {
      BagOfNone(b);
    } else {
      var x, tail := a[0], a[1..];
      assert a == [x] + tail == [] + ([x] + tail);
      var front, back := FindIn(x, tail, b);
      PermutedScan(opts, tail, front + back);
      MoveFirst(opts, x, tail, front, back);
    }
  }

  lemma MoveFirst(opts: Options, x: ContainerState, tail: seq<ContainerState>, front: seq<ContainerState>,
                  back: seq<ContainerState>)
    requires multiset(AllClaims(opts, tail)) == multiset(AllClaims(opts, front + back))
    requires multiset(AllWarnings(opts, tail)) == multiset(AllWarnings(opts, front + back))
    ensures multiset(AllClaims(opts, [] + ([x] + tail))) == multiset(AllClaims(opts, front + ([x] + back)))
    ensures multiset(AllWarnings(opts, [] + ([x] + tail))) == multiset(AllWarnings(opts, front + ([x] + back)))
  {
    assert [] + tail == tail;
    AllClaimsAround(opts, [], x, tail);
    AllClaimsAround(opts, front, x, back);
    AllWarningsAround(opts, [], x, tail);
    AllWarningsAround(opts, front, x, back);
  }

  // The same container, its ports listed in another order that sorting them can give.
  ghost predicate PortsRelisted(c: ContainerState, d: ContainerState) {
    d == c.(ports := d.ports)
    && (d.ports == c.ports
        || (multiset(c.ports) == multiset(d.ports) && PortsInOrder(c.ports) && PortsInOrder(d.ports)))
  }

  lemma RelistedPortsAlike(opts: Options, c: ContainerState, d: ContainerState)
    requires PortsRelisted(c, d)
    ensures ClaimsOf(opts, d) == ClaimsOf(opts, c) && WarningsOf(opts, d) == WarningsOf(opts, c)
  {
    var wanted, configured := LabelsOf(c).port, OrZero(PreferencesOf(opts, c).port);
    assert CandidateOf(d) == CandidateOf(c) && LabelsOf(d) == LabelsOf(c)
           && PreferencesOf(opts, d) == PreferencesOf(opts, c);
    if d.ports != c.ports {
      SelectPortIsChoice(c.ports, wanted, configured);
      SelectPortIsChoice(d.ports, wanted, configured);
      PortChoiceIsDetermined(c.ports, d.ports, wanted, configured, PortOf(opts, c), PortOf(opts, d));
    }
    hide LabelsOf, CandidateOf, PreferencesOf, PortOf, LabelWarnings, DomainsOf, DomainWarnings;
    SamePortSameClaims(opts, c, d);
  }

  lemma SamePortSameClaims(opts: Options, c: ContainerState, d: ContainerState)
    requires d.running == c.running && CandidateOf(d) == CandidateOf(c) && AsContainer(d) == AsContainer(c)
    requires PreferencesOf(opts, d) == PreferencesOf(opts, c)
    requires PortOf(opts, d).Some? == PortOf(opts, c).Some?
    requires PortOf(opts, c).Some? ==>
               && PortOf(opts, d).value.port.hostPort == PortOf(opts, c).value.port.hostPort
               && PortOf(opts, d).value.source == PortOf(opts, c).value.source
    ensures ClaimsOf(opts, d) == ClaimsOf(opts, c) && WarningsOf(opts, d) == WarningsOf(opts, c)
  {
    hide CandidateOf, PreferencesOf, PortOf, LabelWarnings, DomainsOf, DomainWarnings;
    if Routed(opts, c) {
      assert forall h :: ClaimFor(opts, d, h) == ClaimFor(opts, c, h);
    }
  }

  ghost predicate AllRelisted(a: seq<ContainerState>, b: seq<ContainerState>) {
    |a| == |b| && forall i :: 0 <= i < |a| ==> PortsRelisted(a[i], b[i])
  }

  lemma {:induction false} RelistedScansAlike(opts: Options, a: seq<ContainerState>, b: seq<ContainerState>)
    requires AllRelisted(a, b)
    ensures AllClaims(opts, b) == AllClaims(opts, a) && AllWarnings(opts, b) == AllWarnings(opts, a)
  {
    if a != [] {
      var n := |a| - 1;
      hide ClaimsOf, WarningsOf, PortsRelisted;
      RelistedScansAlike(opts, a[..n], b[..n]);
      RelistedPortsAlike(opts, a[n], b[n]);
    }
  }

  // Scanning the same containers in another order, with tied ports listed in another order, gives
  // the same routes, the same conflicts (winner, losers in order, tie flag) and the same bag of
  // warnings, in every map order.
  lemma ScanOrderIsIrrelevant(opts: Options, a: seq<ContainerState>, relisted: seq<ContainerState>,
                              b: seq<ContainerState>, sa: Snapshot, sb: Snapshot)
    requires AllRelisted(a, relisted) && multiset(relisted) == multiset(b) && DistinctNames(a)
    requires IsBuild(opts, a, sa) && IsBuild(opts, b, sb)
    ensures sa.routes == sb.routes
    ensures multiset(sa.conflicts) == multiset(sb.conflicts)
    ensures multiset(sa.warnings) == multiset(sb.warnings)
  {
    hide AllClaims, AllWarnings, AllRelisted;
    RelistedScansAlike(opts, a, relisted);
    PermutedScan(opts, relisted, b);
    TiedClaimsAreEqual(opts, a);
    SameBagsSameBuild(opts, a, b, sa, sb);
  }

  lemma SameBagsSameBuild(opts: Options, a: seq<ContainerState>, b: seq<ContainerState>, sa: Snapshot, sb: Snapshot)
    requires multiset(AllClaims(opts, a)) == multiset(AllClaims(opts, b)) && TiesIdentical(AllClaims(opts, a))
    requires multiset(AllWarnings(opts, a)) == multiset(AllWarnings(opts, b))
    requires IsBuild(opts, a, sa) && IsBuild(opts, b, sb)
    ensures sa.routes == sb.routes
    ensures multiset(sa.conflicts) == multiset(sb.conflicts)
    ensures multiset(sa.warnings) == multiset(sb.warnings)
  {
    var ca, cb := AllClaims(opts, a), AllClaims(opts, b);
    forall h ensures StableSort(ClaimsFor(ca, h)) == StableSort(ClaimsFor(cb, h))
      && |ClaimsFor(ca, h)| == |ClaimsFor(cb, h)| {
      ResolutionIgnoresOrder(ca, cb, h);
    }
    SameHostnames(ca, cb);
    SameTable(ca, cb);
    SameConflicts(ca, cb, sa.conflicts, sb.conflicts);
    SameConflicts(cb, ca, sb.conflicts, sa.conflicts);
    SameMembers(sa.conflicts, sb.conflicts);
  }

  lemma SameHostnames(a: seq<Route>, b: seq<Route>)
    requires multiset(a) == multiset(b)
    ensures ClaimedNames(a) == ClaimedNames(b)
  {
    assert forall r :: r in a <==> r in multiset(a);
    assert forall r :: r in b <==> r in multiset(b);
  }

  ghost predicate SortAlike(a: seq<Route>, b: seq<Route>) {
    forall h :: StableSort(ClaimsFor(a, h)) == StableSort(ClaimsFor(b, h)) && |ClaimsFor(a, h)| == |ClaimsFor(b, h)|
  }

  lemma SameTable(a: seq<Route>, b: seq<Route>)
    requires SortAlike(a, b) && ClaimedNames(a) == ClaimedNames(b)
    ensures RoutingTable(a) == RoutingTable(b)
  {
    forall h ensures (ClaimsFor(a, h) != []) == (ClaimsFor(b, h) != []) {
      assert |ClaimsFor(a, h)| == |ClaimsFor(b, h)|;
    }
  }

  lemma SameConflicts(a: seq<Route>, b: seq<Route>, ka: seq<Conflict>, kb: seq<Conflict>)
    requires SortAlike(a, b) && ClaimedNames(a) == ClaimedNames(b)
    requires ConflictsExactly(a, ClaimedNames(a), ka) && ConflictsExactly(b, ClaimedNames(b), kb)
    ensures forall c :: c in ka ==> c in kb
  {
    forall c | c in ka ensures c in kb {
      assert IsConflict(a, c);
      AlikeContested(a, b, c.hostname);
      var d :| d in kb && d.hostname == c.hostname;
      assert IsConflict(b, d);
    }
  }

  lemma AlikeContested(a: seq<Route>, b: seq<Route>, h: string)
    requires SortAlike(a, b) && Contested(a, h)
    ensures Contested(b, h) && ConflictFor(a, h) == ConflictFor(b, h)
    ensures h in ClaimedNames(b)
  {
    assert |ClaimsFor(a, h)| == |ClaimsFor(b, h)|;
    ClaimsForMeaning(b, h);
  }

  lemma {:induction false} SameMembers(a: seq<Conflict>, b: seq<Conflict>)
    requires forall i, j :: 0 <= i < j < |a| ==> a[i].hostname != a[j].hostname
    requires forall i, j :: 0 <= i < j < |b| ==> b[i].hostname != b[j].hostname
    requires forall c :: c in a <==> c in b
    ensures multiset(a) == multiset(b)
  {
    OnceEach(a);
    OnceEach(b);
    forall c ensures multiset(a)[c] == multiset(b)[c] {
      assert c in multiset(a) <==> c in multiset(b);
    }
  }

  lemma {:induction false} OnceEach(a: seq<Conflict>)
    requires forall i, j :: 0 <= i < j < |a| ==> a[i].hostname != a[j].hostname
    ensures forall c :: c in a ==> multiset(a)[c] == 1
  {
    if a != [] {
      var front, last := a[..|a| - 1], a[|a| - 1];
      OnceEach(front);
      assert a == front + [last];
      assert last !in front;
      forall c | c in a ensures multiset(a)[c] == 1 {
        if c != last { assert c in front; }
      }
    }
  }
}
