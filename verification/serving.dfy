/** internal/dns/server.go and internal/proxy/http.go: which names the listeners claim and what
    they answer, and that DNS, HTTP, TLS and the planner agree about it. */
module Serving {
  import opened Strings
  import opened Hostnames
  import opened RouteModel
  import opened Inventory
  import opened PlanProperties
  import opened TlsListener
  import opened CertificateRuntime
  import opened CertificateTheorems
  import opened Reconcile
  import opened Pipeline

  // ----- Lookup -----

  datatype HostnameLookup = HostnameLookup(managed: bool, route: Option<Route>)

  function LookupHostname(host: string, suffix: string, routes: map<string, Route>): HostnameLookup {
    if !ListenerManages(host, suffix) then HostnameLookup(false, None)
    else if Normalize(host) in routes then HostnameLookup(true, Some(routes[Normalize(host)]))
    else HostnameLookup(true, None)
  }

  // ----- DNS -----

  datatype Question = Question(name: string, isA: bool)

  datatype ARecord = ARecord(name: string, ttl: nat, address: string)

  datatype Response = Response(authoritative: bool, answers: seq<ARecord>)

  // Only the first question counts.
  method BuildResponse(questions: seq<Question>, suffix: string) returns (resp: Response)
    ensures resp.answers ==
            if questions != [] && questions[0].isA && ListenerManages(Normalize(questions[0].name), suffix)
            then [ARecord(questions[0].name, 30, "127.0.0.1")] else []
    ensures resp.authoritative <==> resp.answers != []
    ensures resp.answers != [] <==>
            && questions != [] && questions[0].isA && ListenerSuffix(suffix) != ""
            && exists front :: Labels(Normalize(Normalize(questions[0].name))) == front + Labels(ListenerSuffix(suffix))
  {
    if |questions| > 0 { ManagedMeaning(Normalize(questions[0].name), suffix); }
    hide ListenerManages, ListenerSuffix, Normalize;
    resp := Response(false, []);
    if |questions| == 0 {
      return;
    }
    var q := questions[0];
    if !q.isA {
      return;
    }
    var host := Normalize(q.name);
    if !ListenerManages(host, suffix) {
      return;
    }
    resp := resp.(authoritative := true);
    resp := resp.(answers := resp.answers + [ARecord(q.name, 30, "127.0.0.1")]);
  }

  // ----- HTTP -----

  function CanonicalHost(hostPort: string): string {
    TrimDots(ToLower(Before(TrimSpace(hostPort), ':')))
  }

  datatype Target = Target(scheme: string, host: string, port: int)

  function UpstreamURL(u: Upstream): Option<Target> {
    var scheme := TrimSpace(u.scheme);
    var host := TrimSpace(u.host);
    if host == "" || u.port <= 0 then None
    else Some(Target(if scheme == "" then "http" else scheme, host, u.port))
  }

  datatype Outcome = NotClaimed | Paused(host: string) | NoRoute(host: string) | Proxied(target: Target)

  // What a request for a host comes to.
  function Answer(hostHeader: string, suffix: string, routes: map<string, Route>, paused: bool): Outcome {
    var host := CanonicalHost(hostHeader);
    var lookup := LookupHostname(host, suffix, routes);
    if !lookup.managed then NotClaimed
    else if paused then Paused(host)
    else if lookup.route.None? then NoRoute(host)
    else match UpstreamURL(lookup.route.value.upstream)
      case None => NoRoute(host)
      case Some(target) => Proxied(target)
  }

  // Exactly when each of the four answers is given; the pause flag is looked at before the routes.
  lemma AnswerCases(hostHeader: string, suffix: string, routes: map<string, Route>, paused: bool)
    ensures var host, answer := CanonicalHost(hostHeader), Answer(hostHeader, suffix, routes, paused);
            var claimed := ListenerManages(host, suffix);
            var usable := Normalize(host) in routes && TrimSpace(routes[Normalize(host)].upstream.host) != ""
                          && routes[Normalize(host)].upstream.port > 0;
            && (answer.NotClaimed? <==> !claimed)
            && (answer == Paused(host) <==> claimed && paused)
            && (answer == NoRoute(host) <==> claimed && !paused && !usable)
            && (answer.Proxied? <==> claimed && !paused && usable)
            && (answer.Proxied? ==> answer.target.port == routes[Normalize(host)].upstream.port)
  {
    hide CanonicalHost, ListenerManages, Normalize, TrimSpace;
  }

  class ResponseWriter {
    var status: Option<nat>
    var body: string
    var forwarded: Option<Target>

    constructor ()
      ensures status == None && body == "" && forwarded == None
    {
      status, body, forwarded := None, "", None;
    }

    method Write(code: nat, text: string)
      modifies this
      ensures status == Some(code) && body == text && forwarded == old(forwarded)
    {
      status, body := Some(code), text;
    }

    method Forward(target: Target)
      modifies this
      ensures forwarded == Some(target) && status == old(status) && body == old(body)
    {
      forwarded := Some(target);
    }
  }

  function NoRouteText(host: string): string {
    "No route is active for " + host + " in devproxy."
  }

  function PausedText(host: string): string {
    "Routing is paused for " + host + " in devproxy."
  }

  // A 503 while paused, a 404 without a route, a forwarded request, or nothing at all.
  method HandleHTTP(w: ResponseWriter, hostHeader: string, suffix: string, routes: map<string, Route>, paused: bool)
    returns (handled: bool)
    modifies w
    ensures var host := CanonicalHost(hostHeader);
            && (handled <==> ListenerManages(host, suffix))
            && (!handled ==> w.status == old(w.status) && w.body == old(w.body) && w.forwarded == old(w.forwarded))
            && (handled && paused ==>
                  && w.status == Some(503) && w.body == "Routing is paused for " + host + " in devproxy."
                  && w.forwarded == old(w.forwarded))
            && (handled && !paused && Normalize(host) !in routes ==>
                  && w.status == Some(404) && w.body == "No route is active for " + host + " in devproxy."
                  && w.forwarded == old(w.forwarded))
            && (handled && !paused && Normalize(host) in routes ==>
                  var u := routes[Normalize(host)].upstream;
                  if TrimSpace(u.host) == "" || u.port <= 0 then
                    w.status == Some(404) && w.forwarded == old(w.forwarded)
                  else
                    && w.status == old(w.status) && w.body == old(w.body)
                    && w.forwarded == Some(Target(if TrimSpace(u.scheme) == "" then "http" else TrimSpace(u.scheme),
                                                  TrimSpace(u.host), u.port)))
    ensures var outcome := Answer(hostHeader, suffix, routes, paused);
            && (handled <==> outcome != NotClaimed)
            && w.status == (match outcome
                            case Paused(_) => Some(503)
                            case NoRoute(_) => Some(404)
                            case _ => old(w.status))
            && w.forwarded == (match outcome case Proxied(target) => Some(target) case _ => old(w.forwarded))
            && (outcome.Paused? ==> w.body == PausedText(outcome.host))
            && (outcome.NoRoute? ==> w.body == NoRouteText(outcome.host))
  {
    var host := CanonicalHost(hostHeader);
    var lookup := LookupHostname(host, suffix, routes);
    if !lookup.managed {
      return false;
    }
    if paused {
      w.Write(503, PausedText(host));
      return true;
    }
    if lookup.route.None? {
      w.Write(404, NoRouteText(host));
      return true;
    }
    var target := UpstreamURL(lookup.route.value.upstream);
    if target.None? {
      w.Write(404, NoRouteText(host));
      return true;
    }
    w.Forward(target.value);
    return true;
  }

  // ----- Agreement -----

  // Two names that the listeners do not claim under the suffix "test".
  lemma ExampleIsUnmanaged()
    ensures !ListenerManages("example.com.", "test")
  {
    PlainNormal("example.com.", "example.com", ".");
    hide Normalize, ListenerManages;
    assert "example.com"[10] == 'm' && ".test"[4] == 't';
    OutsideTest("example.com.", "example.com");
  }

  lemma UndottedIsUnmanaged()
    ensures !ListenerManages("mytest", "test")
  {
    PlainNormal("mytest", "mytest", "");
    hide Normalize, ListenerManages;
    assert "mytest"[1] == 'y' && ".test"[0] == '.';
    OutsideTest("mytest", "mytest");
  }

  lemma OutsideTest(raw: string, name: string)
    requires Normalize(raw) == name && name != "test" && !HasSuffix(name, ".test")
    ensures !ListenerManages(raw, "test")
  {
    TestSuffix();
    hide Normalize, PlannerSuffix, ListenerSuffix;
    SameSuffix("test");
  }

  lemma PlainNormal(raw: string, name: string, dots: string)
    requires raw == name + dots && name != "" && ToLower(name) == name
    requires CleanEnds(raw, IsSpace) && CleanEnds(name, IsDot)
    requires forall i :: 0 <= i < |dots| ==> dots[i] == '.'
    ensures Normalize(raw) == name
  {
    TrimKeeps(raw, IsSpace);
    ToLowerConcat(name, dots);
    assert ToLower(dots) == dots && raw == "" + name + dots;
    TrimPadded("", name, dots, IsDot);
  }

  // For a name without a colon the three listeners make the same claim, whatever the routes, the
  // pause flag and the certificates are.
  lemma ListenersAgree(name: string, suffix: string, routes: map<string, Route>, paused: bool,
                       certificates: CertMap, selection: Selection)
    requires ':' !in name
    requires IsSelection(certificates, suffix, name, selection)
    ensures Answer(name, suffix, routes, paused) != NotClaimed <==> ListenerManages(Normalize(name), suffix)
    ensures selection != NoManagedRoute <==> ListenerManages(Normalize(name), suffix)
  {
    NoColonInTrimmed(name);
  }

  lemma NoColonInTrimmed(name: string)
    requires ':' !in name
    ensures CanonicalHost(name) == Normalize(name)
  {
    var i := TrimIsSlice(name, IsSpace);
  }

  // A planned hostname is claimed by the listeners, although planner and listeners normalise the
  // suffix differently.
  lemma PlannedIsManaged(host: string, suffix: string)
    requires Normalized(host) && ProjectRoot(host, suffix).Some?
    ensures ListenerManages(host, suffix)
  {
    var sfx := PlannerSuffix(suffix);
    var m := SuffixBegins(host, suffix);
    PlannerSuffixTail(suffix);
    hide Normalize, ProjectRoot, PlannerSuffix, ListenerSuffix, Normalized;
    var k := NormalizeStopsAt(host, m);
    SameSuffix(suffix);
    TailUnder(host, m, k, sfx);
  }

  lemma TailUnder(host: string, m: nat, k: nat, sfx: string)
    requires k <= m && 0 < m < |host| && host[m..] == sfx && host[m - 1] == '.'
    ensures host[k..] == sfx || HasSuffix(host[k..], "." + sfx)
  {
    if k < m {
      assert host[k..] == host[k..m - 1] + ("." + sfx);
      SuffixOfConcat(host[k..m - 1], "." + sfx);
    }
  }

  lemma SuffixBegins(host: string, suffix: string) returns (m: nat)
    requires Normalized(host) && ProjectRoot(host, suffix).Some?
    ensures PlannerSuffix(suffix) != "" && SingleLabel(PlannerSuffix(suffix))
    ensures 0 < m < |host| && host[m..] == PlannerSuffix(suffix) && host[m - 1] == '.' && host[m] != '.'
    ensures host[|host| - 1] == ("." + PlannerSuffix(suffix))[|PlannerSuffix(suffix)|]
  {
    var project := RootParts(host, suffix);
    RootIsTail(host, suffix);
    hide ProjectRoot, PlannerSuffix;
    m := TailBegins(host, project, PlannerSuffix(suffix));
  }

  lemma TailBegins(host: string, project: string, sfx: string) returns (m: nat)
    requires Normalized(host) && SingleLabel(sfx)
    requires var root := project + "." + sfx; |root| <= |host| && root == host[|host| - |root|..]
    requires project != ""
    ensures sfx != "" && 0 < m < |host| && host[m..] == sfx && host[m - 1] == '.' && host[m] != '.'
  {
    var root := project + "." + sfx;
    m := |host| - |sfx|;
    assert root[|project|] == '.';
    if sfx != "" { assert sfx[0] in sfx; }
  }

  lemma SameSuffix(suffix: string)
    requires PlannerSuffix(suffix) != "" && SingleLabel(PlannerSuffix(suffix))
    ensures ListenerSuffix(suffix) == PlannerSuffix(suffix)
  {
    var low := ToLower(TrimSpace(suffix));
    var sfx := PlannerSuffix(suffix);
    assert sfx[0] in sfx && sfx[|sfx| - 1] in sfx;
    if HasPrefix(low, ".") {
      assert low == "." + sfx + "";
      TrimPadded(".", sfx, "", IsDot);
    } else {
      TrimKeeps(sfx, IsDot);
    }
  }

  // With a managed suffix of several labels the listeners still claim names, but nothing is ever
  // planned for them, so no certificate is ever issued.
  lemma SeveralLabelSuffixPlansNothing(routes: map<string, Route>, suffix: string)
    requires !SingleLabel(PlannerSuffix(suffix))
    ensures PlannedHosts(routes, suffix) == {}
  {
    PlannedAreNormalized(routes, suffix);
    forall h | ProjectRoot(h, suffix).Some? ensures false {
      var _ := RootParts(h, suffix);
    }
  }

  // ----- Spellings -----

  // The header, apart from surrounding space, is a case variant of the name with dots around it
  // and possibly a port behind it.
  ghost predicate Spells(header: string, before: string, variant: string, after: string, port: string, name: string) {
    && TrimSpace(header) == before + variant + after + port
    && ToLower(variant) == name
    && (forall i :: 0 <= i < |before| ==> before[i] == '.') && (forall i :: 0 <= i < |after| ==> after[i] == '.')
    && (port == "" || port[0] == ':')
  }

  lemma SpellingIsCanonicalised(header: string, before: string, variant: string, after: string, port: string,
                                name: string)
    requires Spells(header, before, variant, after, port, name)
    requires name != "" && CleanEnds(name, IsDot) && ':' !in name
    ensures CanonicalHost(header) == name
  {
    var core := before + variant + after;
    CutsPort(core, port, variant, name, before, after);
    ToLowerConcat(before + variant, after);
    ToLowerConcat(before, variant);
    assert ToLower(before) == before && ToLower(after) == after;
    TrimPadded(before, name, after, IsDot);
  }

  lemma CutsPort(core: string, port: string, variant: string, name: string, before: string, after: string)
    requires core == before + variant + after && ToLower(variant) == name && ':' !in name
    requires (forall i :: 0 <= i < |before| ==> before[i] == '.') && (forall i :: 0 <= i < |after| ==> after[i] == '.')
    requires port == "" || port[0] == ':'
    ensures Before(core + port, ':') == core
  {
    forall i | 0 <= i < |variant| ensures variant[i] != ':' {
      assert ToLower(variant)[i] == LowerChar(variant[i]);
    }
    assert ':' !in core;
    if port == "" {
      assert core + port == core;
    } else {
      assert core + port == core + ":" + port[1..];
      BeforeConcat(core, ':', port[1..]);
    }
  }

  function SchemeOrHttp(scheme: string): string {
    if TrimSpace(scheme) == "" then "http" else TrimSpace(scheme)
  }

  lemma LoopbackResolves(u: Upstream)
    requires u.host == "127.0.0.1" && u.port > 0
    ensures UpstreamURL(u) == Some(Target(SchemeOrHttp(u.scheme), "127.0.0.1", u.port))
  {
    TrimKeeps(u.host, IsSpace);
  }

  lemma RouteUpstream(opts: Options, cs: seq<ContainerState>, s: Snapshot, name: string)
    requires IsBuild(opts, cs, s) && Scanned(cs) && name in s.routes
    ensures s.routes[name].upstream.host == "127.0.0.1" && s.routes[name].upstream.port > 0
  {
    var c := RouteProvenance(opts, cs, s, name);
  }

  lemma AnswerForCanonical(header: string, name: string, suffix: string, routes: map<string, Route>, paused: bool)
    requires CanonicalHost(header) == name && Canonical(name) && ListenerManages(name, suffix) && name in routes
    requires UpstreamURL(routes[name].upstream).Some?
    ensures Answer(header, suffix, routes, paused) ==
            if paused then Paused(name) else Proxied(UpstreamURL(routes[name].upstream).value)
  {
  }

  // Every spelling of a routed canonical name gets the same answer: a 503 while paused, otherwise
  // that route's upstream. On a scanned snapshot a claimed route never lacks an upstream.
  lemma SpellingInvariance(opts: Options, cs: seq<ContainerState>, s: Snapshot, name: string, suffix: string,
                           paused: bool, header: string, before: string, variant: string, after: string, port: string)
    requires IsBuild(opts, cs, s) && Scanned(cs) && name in s.routes
    requires Canonical(name) && ':' !in name && ListenerManages(name, suffix)
    requires Spells(header, before, variant, after, port, name)
    ensures var u := s.routes[name].upstream;
            Answer(header, suffix, s.routes, paused) ==
            if paused then Paused(name) else Proxied(Target(SchemeOrHttp(u.scheme), "127.0.0.1", u.port))
  {
    ManagedIsNotEmpty(name, suffix);
    CanonicalShape(name);
    SpellingIsCanonicalised(header, before, variant, after, port, name);
    RouteUpstream(opts, cs, s, name);
    LoopbackResolves(s.routes[name].upstream);
    AnswerForCanonical(header, name, suffix, s.routes, paused);
  }

  ghost predicate LookedUpAs(header: string, name: string, suffix: string) {
    ListenerManages(CanonicalHost(header), suffix) && Normalize(CanonicalHost(header)) == name
  }

  // A name can be what some request is looked up under exactly when it is in lower case, without
  // dots at its ends and without a colon, and managed. Names with spaces can be such names.
  lemma ReachableIff(name: string, suffix: string)
    ensures (exists header :: LookedUpAs(header, name, suffix)) <==>
            Normalized(name) && ':' !in name && UnderSuffix(name, suffix)
  {
    if header :| LookedUpAs(header, name, suffix) {
      NormalizeGives(CanonicalHost(header));
      NoNewColon(Before(TrimSpace(header), ':'));
      NormalizeAddsNoColon(CanonicalHost(header));
    }
    if Normalized(name) && ':' !in name && UnderSuffix(name, suffix) {
      PaddedHeader(name);
      assert LookedUpAs(". ." + name + ". .", name, suffix);
    }
  }

  // Dots and spaces around a name protect its own end spaces from being trimmed.
  lemma PaddedHeader(name: string)
    requires Normalized(name) && name != "" && ':' !in name
    ensures Normalize(CanonicalHost(". ." + name + ". .")) == name
  {
    var inner := "." + name + ".";
    var middle := " " + inner + " ";
    var header := "." + middle + ".";
    assert header == ". ." + name + ". .";
    LowerAround(name);
    hide ToLower, Trim;
    TrimPadded(".", middle, ".", IsDot);
    TrimPadded(" ", inner, " ", IsSpace);
    TrimPadded(".", name, ".", IsDot);
    TrimKeeps(header, IsSpace);
  }

  lemma LowerAround(name: string)
    requires ToLower(name) == name
    ensures ToLower("." + name + ".") == "." + name + "."
    ensures ToLower("." + (" " + ("." + name + ".") + " ") + ".") == "." + (" " + ("." + name + ".") + " ") + "."
  {
  }

  // On a built snapshot a routed name is therefore reached by some request exactly under that
  // condition. An explicit domain written with capitals is published but unreachable.
  lemma RoutedReachableIff(opts: Options, cs: seq<ContainerState>, s: Snapshot, name: string, suffix: string)
    requires IsBuild(opts, cs, s) && name in s.routes
    ensures (exists header ::
               LookupHostname(CanonicalHost(header), suffix, s.routes).route == Some(s.routes[name])) <==>
            Normalized(name) && ':' !in name && UnderSuffix(name, suffix)
  {
    hide IsBuild, CanonicalHost, Normalized, UnderSuffix, Normalize;
    ReachableIff(name, suffix);
    forall header
      ensures LookupHostname(CanonicalHost(header), suffix, s.routes).route == Some(s.routes[name]) <==>
              LookedUpAs(header, name, suffix)
    {
      var host := Normalize(CanonicalHost(header));
      RouteIsWinner(opts, cs, s, name);
      if host in s.routes { RouteIsWinner(opts, cs, s, host); }
    }
  }

  lemma NoNewColon(s: string)
    requires ':' !in s
    ensures ':' !in TrimDots(ToLower(s))
  {
    var low := ToLower(s);
    forall i | 0 <= i < |low| ensures low[i] != ':' {
      assert low[i] == LowerChar(s[i]);
    }
    var i := TrimIsSlice(low, IsDot);
  }

  lemma NormalizeAddsNoColon(s: string)
    requires ':' !in s
    ensures ':' !in Normalize(s)
  {
    var i := TrimIsSlice(s, IsSpace);
    NoNewColon(TrimSpace(s));
  }

  // ----- Routes, refreshes and certificates together -----

  lemma KeyIsServed(opts: Options, cs: seq<ContainerState>, s: Snapshot, key: string)
    requires IsBuild(opts, cs, s) && key in s.routes
    ensures key in ServedHosts(s.routes[key])
  {
    var c := RouteProvenance(opts, cs, s, key);
  }

  // The hostnames that the certificate plan of a built snapshot covers are exactly the normalised
  // routed names that have a project root.
  lemma PlanCoversRoutedNames(opts: Options, cs: seq<ContainerState>, s: Snapshot, suffix: string)
    requires IsBuild(opts, cs, s)
    ensures PlannedHosts(s.routes, suffix) ==
            set k | k in s.routes && ProjectRoot(Normalize(k), suffix).Some? :: Normalize(k)
  {
    hide IsBuild, ProjectRoot, Normalize;
    forall k | k in s.routes && ProjectRoot(Normalize(k), suffix).Some?
      ensures Normalize(k) in PlannedHosts(s.routes, suffix)
    {
      KeyIsServed(opts, cs, s, k);
      ServedIsPlanned(s.routes, suffix, k, k);
    }
    PlannedAreNormalized(s.routes, suffix);
    forall h | h in PlannedHosts(s.routes, suffix) ensures exists k :: k in s.routes && h == Normalize(k) {
      var k :| k in s.routes && h in PlannedIn(ServedHosts(s.routes[k]), suffix);
      var d :| d in ServedHosts(s.routes[k]) && h == Normalize(d);
      ServedIsRouted(opts, cs, s, k, d);
    }
  }

  lemma ServedIsRouted(opts: Options, cs: seq<ContainerState>, s: Snapshot, k: string, d: string)
    requires IsBuild(opts, cs, s) && k in s.routes && d in ServedHosts(s.routes[k])
    ensures d in s.routes
  {
    hide IsBuild;
    KeyIsServed(opts, cs, s, k);
    ServedHostnamesAreRouted(opts, cs, s);
    assert d in (set a, b | a in s.routes && b in s.routes[a].servedHostnames :: b);
  }

  // After a successful refresh on a built snapshot, every routed hostname that the listeners
  // manage is served a certificate covering it exactly when the planner finds its project root.
  lemma RoutedHostsGetCertificates(opts: Options, cs: seq<ContainerState>, snapshot: Snapshot, cfg: Config,
                                   s: CertState, w: World, s': CertState, key: string, serverName: string, r: Selection)
    requires IsBuild(opts, cs, snapshot) && key in snapshot.routes && w.routes == snapshot.routes
    requires cfg.fixed == map[] && CertInvariant(cfg, s) && HonestWorld(cfg, s.stored, w)
    requires Refreshes(cfg, s, w, s') && Succeeds(cfg, s.stored, w)
    requires Normalize(serverName) == Normalize(key) && ListenerManages(Normalize(key), cfg.suffix)
    requires IsSelection(s'.listener, cfg.suffix, serverName, r)
    ensures r.Selected? <==> ProjectRoot(Normalize(key), cfg.suffix).Some?
    ensures r.Selected? ==> CertificateCoversHost(r.cert, Normalize(key))
  {
    KeyIsServed(opts, cs, snapshot, key);
    ServedHostsGetCertificates(cfg, s, w, s', key, key, serverName, r);
  }
}
