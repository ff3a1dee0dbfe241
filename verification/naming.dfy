/** Which hostnames a container is published under, from its labels, its name and the configuration, and
    what a whole snapshot looks like for one of them. */
module Naming {
  import opened Strings
  import opened Hostnames
  import opened RouteModel
  import opened Discovery
  import opened Ports
  import opened Domains
  import opened Conflicts
  import opened Reconcile
  import opened Pipeline

  // ----- Precedence -----

  lemma LabelDomainNotBlank(c: ContainerState)
    ensures LabelsOf(c).domain != Some("")
  {
  }

  // For the explicit domain, for the extra ones and for serving the root alike: the label, else
  // the configuration of the service, else nothing is asked for.
  lemma DomainPrecedence(opts: Options, c: ContainerState)
    ensures var prefs, l, o := PreferencesOf(opts, c), LabelsOf(c), OverrideFor(opts, c);
            && prefs.domain == (if l.domain.Some? then l.domain.value else if o.Some? then o.value.domain else "")
            && prefs.domains == (if l.domains != [] then l.domains else if o.Some? then o.value.domains else [])
            && prefs.root == (if l.root.Some? then l.root else if o.Some? then o.value.root else None)
  {
    LabelDomainNotBlank(c);
    hide LabelsOf, CandidateOf;
  }

  // A domain label is the only hostname, whatever the configuration says, unless it looks public.
  lemma LabelledDomainDecides(opts: Options, c: ContainerState, domain: string)
    requires Routed(opts, c) && LabelsOf(c).domain == Some(domain)
    ensures if IsPublicDomain(domain) then ClaimsOf(opts, c) == []
            else |ClaimsOf(opts, c)| == 1 && ClaimsOf(opts, c)[0].hostname == domain
  {
    DomainPrecedence(opts, c);
    LabelDomainNotBlank(c);
    DomainsMeaning(CandidateOf(c).project, CandidateOf(c).service, PreferencesOf(opts, c),
                   DomainOptions(opts.suffix, opts.rootServices));
    hide LabelsOf, CandidateOf, PreferencesOf, IsPublicDomain, PortOf, DomainsOf;
  }

  // A routed container of a Compose service that asks for no particular hostnames claims exactly
  // one: project and suffix when it is to serve the root, because it says so or is a root service;
  // otherwise service, project and suffix, in this order.
  lemma ComposeServiceClaims(opts: Options, c: ContainerState, project: string, service: string)
    requires Routed(opts, c) && PROJECT_LABEL in c.labels && SERVICE_LABEL in c.labels
    requires project == TrimSpace(c.labels["com.docker.compose.project"]) != ""
    requires service == TrimSpace(c.labels["com.docker.compose.service"]) != ""
    requires PreferencesOf(opts, c).domain == "" && PreferencesOf(opts, c).domains == []
    ensures |ClaimsOf(opts, c)| == 1
    ensures var suffix, root := if opts.suffix == "" then "test" else opts.suffix, PreferencesOf(opts, c).root;
            ClaimsOf(opts, c)[0].hostname ==
            if root == Some(true) || (root == None && service in opts.rootServices) then project + "." + suffix
            else service + "." + project + "." + suffix
    ensures ClaimsOf(opts, c)[0].winner.project == project && ClaimsOf(opts, c)[0].winner.service == service
  {
    CandidateSource(AsContainer(c));
    DefaultDomainLabels(project, service, PreferencesOf(opts, c), DomainOptions(opts.suffix, opts.rootServices));
    hide PreferencesOf, IsPublicDomain, PortOf, Labels, TrimSpace, BuildCandidateBase, DefaultDomain;
    assert AcceptedExtras([]) == [];
  }

  // ----- One container, end to end -----

  const WEB := ContainerState("1f", "/acme-web-1", true,
                              map["com.docker.compose.project" := "acme", "com.docker.compose.service" := "web"],
                              [PublishedPort("0.0.0.0", 8080, "tcp")])

  const WEB_CANDIDATE := Candidate("1f", "acme-web-1", "acme", "web", ComposeLabels, WEB.labels)

  const WEB_ROUTE := Route("web.acme.test", ["web.acme.test"], ["web.acme.test"], WEB_CANDIDATE,
                           Upstream("127.0.0.1", 8080, "http"), 0, "preference")

  lemma WebLabels()
    ensures LabelsOf(WEB) == NO_OPTIONS
  {
    LabelKeys();
    NoLabels(NO_OPTIONS);
    ComposeKeysDiffer();
    var one := map["com.docker.compose.project" := "acme"];
    assert map[]["com.docker.compose.project" := "acme"] == one;
    OneLabelOneField(NO_OPTIONS, map[], "com.docker.compose.project", "acme");
    OneLabelOneField(NO_OPTIONS, one, "com.docker.compose.service", "web");
    assert one["com.docker.compose.service" := "web"] == WEB.labels;
    hide LabelOptions;
  }

  lemma ComposeKeysDiffer()
    ensures "com.docker.compose.project" !in LABEL_KEYS && "com.docker.compose.service" !in LABEL_KEYS
  {
    forall i | 0 <= i < 7 ensures LABEL_KEYS[i][0] == 'd' {
    }
    assert "com.docker.compose.project"[0] == 'c' && "com.docker.compose.service"[0] == 'c';
  }

  lemma WebCandidate()
    ensures CandidateOf(WEB) == WEB_CANDIDATE
  {
    hide BuildCandidateBase, TrimSpace;
    CandidateSource(AsContainer(WEB));
    WebLabelValues();
    assert WEB.name[0] == '/' && WEB.name[1..] == "acme-web-1";
  }

  lemma WebLabelValues()
    ensures "com.docker.compose.project" in WEB.labels && "com.docker.compose.service" in WEB.labels
    ensures TrimSpace(WEB.labels["com.docker.compose.project"]) == "acme"
    ensures TrimSpace(WEB.labels["com.docker.compose.service"]) == "web"
  {
    assert "com.docker.compose.project"[19] == 'p' && "com.docker.compose.service"[19] == 's';
    TrimKeeps("acme", IsSpace);
    TrimKeeps("web", IsSpace);
  }

  lemma WebPort(opts: Options)
    requires opts.overrides == map[]
    ensures PreferencesOf(opts, WEB) == NO_PREFERENCES
    ensures PortOf(opts, WEB) == Some(Selection(WEB.ports[0], "preference"))
  {
    WebLabels();
    hide LabelsOf, CandidateOf, SelectPort;
    LonePort(WEB.ports[0]);
  }

  lemma LonePort(p: PublishedPort)
    requires p.hostPort == 8080 && p.protocol == "tcp"
    ensures SelectPort([p], None, 0) == Some(Selection(p, "preference"))
  {
    SelectPortIsChoice([p], None, 0);
    assert [p][..0] == [];
    assert TcpPorts([p]) == [p];
    assert HostPorts([p]) == {8080};
    hide SelectPort, TcpPorts, Choice;
    ChoiceMeaning({8080}, 8080, None, 0);
  }

  // A running web service of the project acme that publishes 8080, with nothing configured but the
  // default suffix, is published as exactly web.acme.test, on that port of the loopback address.
  lemma WebIsRouted(opts: Options, s: Snapshot)
    requires opts.suffix == "test" && opts.rootServices == [] && opts.overrides == map[]
    requires "web" !in opts.ignoredServices && 8080 !in opts.ignoredPorts
    requires IsBuild(opts, [WEB], s)
    ensures s.routes == map["web.acme.test" := WEB_ROUTE] && s.conflicts == [] && s.warnings == []
  {
    WebClaims(opts);
    OneContainer(opts, WEB);
    WebWarnings(opts);
    hide ClaimsOf, WarningsOf, AllClaims, AllWarnings;
    LoneClaim(WEB_ROUTE, s.conflicts);
  }

  lemma WebDomains(opts: Options)
    requires opts.suffix == "test" && opts.rootServices == [] && opts.overrides == map[]
    ensures DomainsFor(opts, WEB) == ["web.acme.test"]
  {
    hide PreferencesOf, CandidateOf, PortOf, DefaultDomain;
    WebCandidate();
    WebPort(opts);
    WebDefault();
  }

  lemma WebDefault()
    ensures DefaultDomain("acme", "web", NO_PREFERENCES, DomainOptions("test", [])) == "web.acme.test"
  {
    assert "web" + "." + "acme" + "." + "test" == "web.acme.test";
  }

  lemma WebClaims(opts: Options)
    requires opts.suffix == "test" && opts.rootServices == [] && opts.overrides == map[]
    requires "web" !in opts.ignoredServices && 8080 !in opts.ignoredPorts
    ensures Routed(opts, WEB) && ClaimsOf(opts, WEB) == [WEB_ROUTE]
  {
    WebCandidate();
    WebPort(opts);
    WebDomains(opts);
    hide PreferencesOf, CandidateOf, PortOf, DomainsFor;
    assert ClaimFor(opts, WEB, "web.acme.test") == WEB_ROUTE;
  }

  lemma WebWarnings(opts: Options)
    requires opts.suffix == "test" && opts.rootServices == [] && opts.overrides == map[]
    ensures WarningsOf(opts, WEB) == []
  {
    WebPort(opts);
    LabelKeys();
    ComposeKeysDiffer();
    forall i | 0 <= i < 7 ensures LABEL_KEYS[i] !in WEB.labels {
    }
    assert ENABLE_LABEL == LABEL_KEYS[0] && ROOT_LABEL == LABEL_KEYS[3] && PORT_LABEL == LABEL_KEYS[4]
           && SCHEME_LABEL == LABEL_KEYS[5] && PRIORITY_LABEL == LABEL_KEYS[6];
    TrimKeeps("", IsSpace);
    hide PreferencesOf, Routed;
  }

  lemma LoneClaim(r: Route, conflicts: seq<Conflict>)
    requires ConflictsExactly([r], ClaimedNames([r]), conflicts)
    ensures RoutingTable([r]) == map[r.hostname := r] && conflicts == []
  {
    LoneTable(r);
    forall c ensures c !in conflicts {
      ClaimsForOne(r, c.hostname);
      hide ClaimsFor, ClaimedNames, ConflictFor;
    }
    NoMembers(conflicts);
  }

  lemma LoneTable(r: Route)
    ensures RoutingTable([r]) == map[r.hostname := r]
  {
    LoneWinner(r);
    LoneName(r);
    hide ClaimsFor, WinnerFor, ClaimedNames;
  }

  lemma LoneWinner(r: Route)
    ensures ClaimsFor([r], r.hostname) == [r] && WinnerFor([r], r.hostname) == r
  {
    ClaimsForOne(r, r.hostname);
    hide ClaimsFor;
    assert [r][1..] == [];
    assert StableSort([r]) == InsertClaim(r, StableSort([]));
  }

  lemma LoneName(r: Route)
    ensures ClaimedNames([r]) == {r.hostname}
  {
    assert r in [r];
  }

  lemma NoMembers<T(!new)>(s: seq<T>)
    ensures (forall x :: x !in s) ==> s == []
  {
    if s != [] { assert s[0] in s; }
  }
}
