/** Which certificates are issued again when the daemon refreshes them for an unchanged snapshot, and
    runs in which the assumptions of the certificate theorems hold. */
module Reissuing {
  import opened Strings
  import opened Ordering
  import opened Hostnames
  import opened RouteModel
  import opened Inventory
  import opened PlanProperties
  import opened MkCert
  import opened TlsListener
  import opened CertificateRuntime
  import opened CertificateTheorems

  // ----- Refreshing twice -----

  // What issuing for a decision would be filed under.
  function FiledUnder(d: Decision, dir: string, issue: Issuer): string
    requires issue(dir, d.requiredSans).Issued?
  {
    FileIssued(d, issue(dir, d.requiredSans).cert).projectRoot
  }

  // Planning again over what a preparation produced, a root is in the store exactly when its own
  // certificate was filed under it.
  lemma RootInIndex(routes: map<string, Route>, suffix: string, existing: map<string, StoredCertificate>,
                    dir: string, issue: Issuer, i: nat)
    requires WhitespaceFree(routes, suffix) && HonestIssuer(issue) && StoreValid(existing, suffix)
    requires PreparedFor(routes, suffix, existing, dir, issue).Some?
    requires i < |Plan(PlannedHosts(routes, suffix), suffix, existing)|
    ensures var cs := PreparedFor(routes, suffix, existing, dir, issue).value;
            var root := Plan(PlannedHosts(routes, suffix), suffix, existing)[i].projectRoot;
            && (root in Index(cs) <==> cs[i].projectRoot == root)
            && (root in Index(cs) ==> Index(cs)[root] == cs[i])
  {
    var hosts := PlannedHosts(routes, suffix);
    var cs := PreparedFor(routes, suffix, existing, dir, issue).value;
    var root := Plan(hosts, suffix, existing)[i].projectRoot;
    PreparedDistinct(routes, suffix, existing, dir, issue);
    IndexMeaning(cs);
    if root in Index(cs) {
      var j :| 0 <= j < |cs| && cs[j].projectRoot == root;
      PreparedServes(routes, suffix, existing, dir, issue, j);
      RootOfItself(hosts, suffix, existing, i);
      if j < i { RootsIncrease(hosts, suffix, existing, j, i); }
      if i < j { RootsIncrease(hosts, suffix, existing, i, j); }
    }
  }

  lemma RootOfItself(hosts: set<string>, suffix: string, existing: map<string, StoredCertificate>, i: nat)
    requires i < |Plan(hosts, suffix, existing)|
    ensures var root := Plan(hosts, suffix, existing)[i].projectRoot; ProjectRoot(root, suffix) == Some(root)
  {
    DecisionAt(hosts, suffix, existing, i);
    var root := Plan(hosts, suffix, existing)[i].projectRoot;
    var h :| h in hosts && ProjectRoot(h, suffix) == Some(root);
    RootOfRoot(h, suffix);
  }

  // Two plans for the same hosts differ at most in what they reuse.
  lemma PlansAgree(hosts: set<string>, suffix: string, a: map<string, StoredCertificate>,
                   b: map<string, StoredCertificate>, i: nat)
    requires i < |Plan(hosts, suffix, a)|
    ensures |Plan(hosts, suffix, a)| == |Plan(hosts, suffix, b)|
    ensures var d, d' := Plan(hosts, suffix, a)[i], Plan(hosts, suffix, b)[i];
            && d'.projectRoot == d.projectRoot && d'.requiredSans == d.requiredSans && d'.hostnames == d.hostnames
            && (d'.reuseExisting <==> d.projectRoot in b && CoversAll(b[d.projectRoot].sans, d.hostnames))
  {
  }

  // Planning again reuses a decision exactly when its certificate was filed under its root.
  lemma SecondPlanReuses(routes: map<string, Route>, suffix: string, existing: map<string, StoredCertificate>,
                         dir: string, issue: Issuer, i: nat)
    requires WhitespaceFree(routes, suffix) && HonestIssuer(issue) && StoreValid(existing, suffix)
    requires PreparedFor(routes, suffix, existing, dir, issue).Some?
    requires i < |Plan(PlannedHosts(routes, suffix), suffix, existing)|
    ensures var cs := PreparedFor(routes, suffix, existing, dir, issue).value;
            var d := Plan(PlannedHosts(routes, suffix), suffix, existing)[i];
            && |Plan(PlannedHosts(routes, suffix), suffix, Index(cs))| ==
               |Plan(PlannedHosts(routes, suffix), suffix, existing)|
            && var d' := Plan(PlannedHosts(routes, suffix), suffix, Index(cs))[i];
            && (d'.reuseExisting <==> cs[i].projectRoot == d.projectRoot)
            && (d'.reuseExisting ==> d'.projectRoot in Index(cs))
            && PrepareOne(d', Index(cs), dir, issue) == Some(cs[i])
  {
    var hosts := PlannedHosts(routes, suffix);
    var cs := PreparedFor(routes, suffix, existing, dir, issue).value;
    var d := Plan(hosts, suffix, existing)[i];
    PlansAgree(hosts, suffix, existing, Index(cs), i);
    PreparedServes(routes, suffix, existing, dir, issue, i);
    RootInIndex(routes, suffix, existing, dir, issue, i);
    SameOutcome(d, Plan(hosts, suffix, Index(cs))[i], suffix, existing, Index(cs), dir, issue);
  }

  lemma SameOutcome(d: Decision, d': Decision, suffix: string, existing: map<string, StoredCertificate>,
                    index: map<string, StoredCertificate>, dir: string, issue: Issuer)
    requires StoreValid(existing, suffix)
    requires d.reuseExisting ==> d.projectRoot in existing
    requires d'.projectRoot == d.projectRoot && d'.requiredSans == d.requiredSans
    requires PrepareOne(d, existing, dir, issue).Some?
    requires var c := PrepareOne(d, existing, dir, issue).value;
             && (d'.reuseExisting <==> c.projectRoot == d.projectRoot)
             && (d'.reuseExisting ==> d.projectRoot in index && index[d.projectRoot] == c)
    ensures PrepareOne(d', index, dir, issue) == PrepareOne(d, existing, dir, issue)
  {
    if d.reuseExisting { ReusedKeepsRoot(existing, suffix, d); }
  }

  lemma ReusedKeepsRoot(existing: map<string, StoredCertificate>, suffix: string, d: Decision)
    requires StoreValid(existing, suffix) && d.projectRoot in existing
    ensures existing[d.projectRoot].projectRoot == d.projectRoot
  {
  }

  lemma SecondPreparation(routes: map<string, Route>, suffix: string, existing: map<string, StoredCertificate>,
                          dir: string, issue: Issuer)
    requires WhitespaceFree(routes, suffix) && HonestIssuer(issue) && StoreValid(existing, suffix)
    requires PreparedFor(routes, suffix, existing, dir, issue).Some?
    ensures var cs := PreparedFor(routes, suffix, existing, dir, issue).value;
            PreparedFor(routes, suffix, Index(cs), dir, issue) == Some(cs)
  {
    var hosts := PlannedHosts(routes, suffix);
    var cs := PreparedFor(routes, suffix, existing, dir, issue).value;
    var second := Plan(hosts, suffix, Index(cs));
    PlanReuseKnown(hosts, suffix, Index(cs));
    forall i | 0 <= i < |second| ensures PrepareOne(second[i], Index(cs), dir, issue) == Some(cs[i]) {
      SecondPlanReuses(routes, suffix, existing, dir, issue, i);
    }
    var again := Prepared(second, Index(cs), dir, issue);
    assert again.value == cs;
  }

  // A second refresh in an unchanged world succeeds and changes nothing.
  lemma RefreshIsFixpoint(cfg: Config, s: CertState, w: World, s1: CertState, s2: CertState)
    requires cfg.fixed == map[] && CertInvariant(cfg, s) && HonestWorld(cfg, s.stored, w)
    requires Refreshes(cfg, s, w, s1) && Succeeds(cfg, s.stored, w)
    requires Refreshes(cfg, s1, w, s2)
    ensures Succeeds(cfg, s1.stored, w) && s2 == s1
  {
    SecondPreparation(w.routes, cfg.suffix, s.stored, OutputDir(cfg.dir), w.issue);
  }

  // The second refresh calls the issuer again for exactly those decisions that the first one
  // issued but filed under another name than the root. An issuer that files under the root (or
  // leaves the name blank) is therefore never called again.
  lemma ReissuedAgain(cfg: Config, s: CertState, w: World, s1: CertState, i: nat)
    requires cfg.fixed == map[] && CertInvariant(cfg, s) && HonestWorld(cfg, s.stored, w)
    requires Refreshes(cfg, s, w, s1) && Succeeds(cfg, s.stored, w)
    requires i < |Plan(PlannedHosts(w.routes, cfg.suffix), cfg.suffix, s.stored)|
    ensures |Plan(PlannedHosts(w.routes, cfg.suffix), cfg.suffix, s1.stored)| ==
            |Plan(PlannedHosts(w.routes, cfg.suffix), cfg.suffix, s.stored)|
    ensures var first := Plan(PlannedHosts(w.routes, cfg.suffix), cfg.suffix, s.stored)[i];
            var second := Plan(PlannedHosts(w.routes, cfg.suffix), cfg.suffix, s1.stored)[i];
            && (!first.reuseExisting ==> w.issue(OutputDir(cfg.dir), first.requiredSans).Issued?)
            && (!second.reuseExisting <==>
                !first.reuseExisting && FiledUnder(first, OutputDir(cfg.dir), w.issue) != first.projectRoot)
  {
    var first := Plan(PlannedHosts(w.routes, cfg.suffix), cfg.suffix, s.stored)[i];
    SecondPlanReuses(w.routes, cfg.suffix, s.stored, OutputDir(cfg.dir), w.issue, i);
    if first.reuseExisting { ReusedKeepsRoot(s.stored, cfg.suffix, first); }
  }

  // The root gets an explicit certificate and some host of it sorts before the root.
  ghost predicate ExplicitWithEarlierHost(d: Decision) {
    !WildcardEligible(d.projectRoot, d.hostnames) && exists h :: h in d.hostnames && Less(h, d.projectRoot)
  }

  // With mkcert, starting from an empty store, the roots issued again are exactly those in the
  // explicit form that have a host sorting before the root.
  lemma MkCertReissues(cfg: Config, s: CertState, w: World, s1: CertState, run: Runner, i: nat)
    requires cfg.fixed == map[] && CertInvariant(cfg, s) && HonestWorld(cfg, s.stored, w)
    requires s.stored == map[] && w.issue == MkCertIssuer(run)
    requires Refreshes(cfg, s, w, s1) && Succeeds(cfg, s.stored, w)
    requires i < |Plan(PlannedHosts(w.routes, cfg.suffix), cfg.suffix, s1.stored)|
    ensures var d := Plan(PlannedHosts(w.routes, cfg.suffix), cfg.suffix, s1.stored)[i];
            !d.reuseExisting <==> ExplicitWithEarlierHost(d)
  {
    var hosts := PlannedHosts(w.routes, cfg.suffix);
    PlansAgree(hosts, cfg.suffix, s1.stored, s.stored, i);
    ReissuedAgain(cfg, s, w, s1, i);
    PlannedHostnamesClean(w.routes, cfg.suffix, s.stored, i);
    var first := Plan(hosts, cfg.suffix, s.stored)[i];
    MkCertFilesUnder(first, cfg.suffix, OutputDir(cfg.dir), run);
    FirstSAN(first.projectRoot, first.hostnames);
  }

  lemma MkCertFilesUnder(d: Decision, suffix: string, dir: string, run: Runner)
    requires d.requiredSans == RequiredSANs(d.projectRoot, d.hostnames)
    requires d.hostnames != [] && forall h :: h in d.hostnames ==>
             CleanHost(h) && ProjectRoot(h, suffix) == Some(d.projectRoot)
    requires MkCertIssuer(run)(dir, d.requiredSans).Issued?
    ensures d.requiredSans != [] && FiledUnder(d, dir, MkCertIssuer(run)) == d.requiredSans[0]
  {
    RequiredSANsShape(d.projectRoot, d.hostnames, suffix);
    FirstIsCanonical(d.requiredSans);
    MkCertPrimary(run, dir, d.requiredSans);
  }

  lemma FirstIsCanonical(sans: seq<string>)
    requires sans != [] && forall s :: s in sans ==> Canonical(s)
    ensures Normalize(sans[0]) == sans[0]
  {
    assert sans[0] in sans;
  }

  lemma MkCertPrimary(run: Runner, dir: string, sans: seq<string>)
    requires MkCertIssuer(run)(dir, sans).Issued?
    ensures sans != [] && MkCertIssuer(run)(dir, sans).cert.projectRoot == Normalize(sans[0]) != ""
  {
  }

  lemma FirstSAN(root: string, hosts: seq<string>)
    ensures RequiredSANs(root, hosts) != []
    ensures RequiredSANs(root, hosts)[0] != root <==>
            !WildcardEligible(root, hosts) && exists h :: h in hosts && Less(h, root)
  {
    var names := Elements(hosts) + {root};
    ListingHead(names, root);
    LessIrreflexive(root);
    forall h | h in hosts ensures h in names && (Less(h, root) <==> !AtMost(root, h)) {
      LessTotal(h, root);
      if Less(h, root) { LessAsymmetric(h, root); }
    }
  }

  // ----- Every further refresh -----

  // What the daemon holds before its first preparation.
  const NOTHING := CertState(map[], map[], false)

  // A run in which nothing outside ever changes.
  ghost predicate IsUnchangedRun(cfg: Config, w: World, states: seq<CertState>) {
    && states != [] && IsStart(cfg, w, states[0])
    && forall i :: 1 <= i < |states| ==> RefreshesAgain(cfg, w, states, i)
  }

  ghost predicate RefreshesAgain(cfg: Config, w: World, states: seq<CertState>, i: nat)
    requires 1 <= i < |states|
  {
    Refreshes(cfg, states[i - 1], w, states[i])
  }

  lemma StartIsRefresh(cfg: Config, w: World, s: CertState)
    requires cfg.fixed == map[] && IsStart(cfg, w, s)
    ensures CertInvariant(cfg, NOTHING) && HonestWorld(cfg, NOTHING.stored, w)
    ensures Succeeds(cfg, NOTHING.stored, w) && Refreshes(cfg, NOTHING, w, s)
  {
    hide HonestWorld, Succeeds, Installed;
  }

  // However often certificates are refreshed in an unchanged world, nothing changes.
  lemma {:induction false} UnchangedRunStays(cfg: Config, w: World, states: seq<CertState>, n: nat)
    requires cfg.fixed == map[] && IsUnchangedRun(cfg, w, states) && n < |states|
    ensures states[n] == states[0]
  {
    hide Refreshes, IsStart;
    if n > 0 {
      UnchangedRunStays(cfg, w, states, n - 1);
      assert RefreshesAgain(cfg, w, states, n);
      AgainStays(cfg, w, states[0], states[n]);
    }
  }

  lemma AgainStays(cfg: Config, w: World, s: CertState, s': CertState)
    requires cfg.fixed == map[] && IsStart(cfg, w, s) && Refreshes(cfg, s, w, s')
    ensures s' == s
  {
    hide HonestWorld, Succeeds, Refreshes, CertInvariant, IsStart;
    StartIsRefresh(cfg, w, s);
    RefreshIsFixpoint(cfg, NOTHING, w, s, s');
  }

  // With mkcert, every single refresh after the start issues again exactly the explicit-form
  // roots that have a host sorting before the root, however many refreshes there were before.
  lemma MkCertReissuesEveryTime(cfg: Config, w: World, states: seq<CertState>, run: Runner, n: nat, i: nat)
    requires cfg.fixed == map[] && w.issue == MkCertIssuer(run)
    requires IsUnchangedRun(cfg, w, states) && 1 <= n < |states|
    requires i < |Plan(PlannedHosts(w.routes, cfg.suffix), cfg.suffix, states[n - 1].stored)|
    ensures var d := Plan(PlannedHosts(w.routes, cfg.suffix), cfg.suffix, states[n - 1].stored)[i];
            !d.reuseExisting <==> ExplicitWithEarlierHost(d)
  {
    hide IsStart, IsUnchangedRun, PlannedHosts, Plan, ExplicitWithEarlierHost, MkCertIssuer;
    UnchangedRunStays(cfg, w, states, n - 1);
    UnchangedStart(cfg, w, states);
    FirstReissues(cfg, w, states[0], run, i);
  }

  lemma UnchangedStart(cfg: Config, w: World, states: seq<CertState>)
    requires IsUnchangedRun(cfg, w, states)
    ensures states != [] && IsStart(cfg, w, states[0])
  {
  }

  lemma FirstReissues(cfg: Config, w: World, s: CertState, run: Runner, i: nat)
    requires cfg.fixed == map[] && w.issue == MkCertIssuer(run) && IsStart(cfg, w, s)
    requires i < |Plan(PlannedHosts(w.routes, cfg.suffix), cfg.suffix, s.stored)|
    ensures var d := Plan(PlannedHosts(w.routes, cfg.suffix), cfg.suffix, s.stored)[i];
            !d.reuseExisting <==> ExplicitWithEarlierHost(d)
  {
    hide HonestWorld, Succeeds, Refreshes, CertInvariant, IsStart, PlannedHosts, Plan, ExplicitWithEarlierHost,
         MkCertIssuer;
    StartIsRefresh(cfg, w, s);
    MkCertReissues(cfg, NOTHING, w, s, run, i);
  }

  // A start in an unchanged world goes on for as many refreshes as wanted.
  lemma StartGoesOn(cfg: Config, w: World, s: CertState, n: nat)
    requires cfg.fixed == map[] && IsStart(cfg, w, s)
    ensures IsUnchangedRun(cfg, w, seq(n + 1, i => s))
  {
    StartIsRefresh(cfg, w, s);
    SecondPreparation(w.routes, cfg.suffix, map[], OutputDir(cfg.dir), w.issue);
    hide PreparedFor, HonestWorld;
    var states := seq(n + 1, i => s);
    forall i | 1 <= i < |states| ensures RefreshesAgain(cfg, w, states, i) {
    }
  }

  // ----- A project with one host -----

  const ALWAYS_RUNS: Runner := (args: seq<string>) => Ran

  // A loader that finds a certificate for these names.
  function LoaderOf(sans: seq<string>): Loader {
    (certPath: string, keyPath: string) => Some(TlsCertificate([], Some(sans)))
  }

  lemma PlanForOne(host: string, root: string, suffix: string)
    requires ProjectRoot(host, suffix) == Some(root)
    ensures Plan({host}, suffix, map[]) == [Decision(root, [host], RequiredSANs(root, [host]), false, NewProjectRoot)]
  {
    hide ProjectRoot, RequiredSANs;
    assert RootsOf({host}, suffix) == {root} && HostsUnder({host}, suffix, root) == {host};
    LoneListing(host);
    LoneListing(root);
  }

  lemma LoneListing(s: string)
    ensures Listing({s}) == [s]
  {
    assert Elements([s]) == {s};
    StrictlySortedUnique(Listing({s}), [s]);
  }

  lemma OneHostPlanned(host: string, suffix: string)
    requires CleanHost(host) && ProjectRoot(host, suffix).Some?
    ensures PlannedIn([host], suffix) == {host}
  {
    CleanIsCanonical(host);
    FirstIsCanonical([host]);
    PlannableMeaning(host, suffix);
    hide ProjectRoot, Plannable, Canonical, Normalize, CleanHost;
    assert host in [host];
  }

  lemma OneRoutePlanned(routes: map<string, Route>, key: string, host: string, suffix: string)
    requires routes.Keys == {key} && ServedHosts(routes[key]) == [host]
    requires CleanHost(host) && ProjectRoot(host, suffix).Some?
    ensures PlannedHosts(routes, suffix) == {host}
  {
    OneHostPlanned(host, suffix);
    hide ProjectRoot, PlannedIn, ServedHosts, CleanHost;
    assert key in routes && host in PlannedIn(ServedHosts(routes[key]), suffix);
    assert forall k :: k in routes.Keys ==> k == key;
  }

  lemma SANsForOne(host: string, root: string, suffix: string) returns (sans: seq<string>)
    requires CleanHost(host) && ProjectRoot(host, suffix) == Some(root)
    ensures sans == RequiredSANs(root, [host]) && sans != []
    ensures Canonical(sans[0]) && sans[0] != ""
  {
    sans := RequiredSANs(root, [host]);
    RequiredSANsShape(root, [host], suffix);
    hide RequiredSANs, CleanHost, Canonical;
    assert root in sans && sans[0] in sans;
    assert ProjectRoot("", suffix).None?;
  }

  lemma IssuedAlways(sans: seq<string>, dir: string) returns (cert: IssuedCertificate)
    requires sans != [] && Canonical(sans[0]) && sans[0] != ""
    ensures MkCertIssuer(ALWAYS_RUNS)(dir, sans) == Issued(cert)
    ensures cert.projectRoot == sans[0] && cert.sans == sans
  {
    cert := Issue(ALWAYS_RUNS, dir, sans).cert;
  }

  lemma PreparedForOne(d: Decision, dir: string, issue: Issuer, c: StoredCertificate)
    requires !d.reuseExisting && PrepareOne(d, map[], dir, issue) == Some(c)
    ensures Prepared([d], map[], dir, issue) == Some([c])
  {
    var ds := [d];
    var prepared := Prepared(ds, map[], dir, issue);
    assert prepared.Some? && |prepared.value| == 1;
    assert PrepareOne(ds[0], map[], dir, issue) == Some(prepared.value[0]);
    assert prepared.value == [c];
  }

  // What the start on a snapshot that serves one host prepares.
  lemma OnePrepared(cfg: Config, routes: map<string, Route>, key: string, host: string, root: string)
    returns (c: StoredCertificate)
    requires routes.Keys == {key} && ServedHosts(routes[key]) == [host]
    requires CleanHost(host) && ProjectRoot(host, cfg.suffix) == Some(root)
    ensures PreparedFor(routes, cfg.suffix, map[], OutputDir(cfg.dir), MkCertIssuer(ALWAYS_RUNS)) == Some([c])
    ensures RequiredSANs(root, [host]) != []
    ensures c.projectRoot == RequiredSANs(root, [host])[0] && c.sans == RequiredSANs(root, [host])
    ensures c.projectRoot != "" && Canonical(c.projectRoot)
  {
    OneRoutePlanned(routes, key, host, cfg.suffix);
    PlanForOne(host, root, cfg.suffix);
    var sans := SANsForOne(host, root, cfg.suffix);
    var issued := IssuedAlways(sans, OutputDir(cfg.dir));
    hide Plan, PlannedHosts, CleanHost, ProjectRoot, Prepared, MkCertIssuer, OutputDir, RequiredSANs, Canonical;
    var d := Decision(root, [host], sans, false, NewProjectRoot);
    c := FileIssued(d, issued);
    PreparedForOne(d, OutputDir(cfg.dir), MkCertIssuer(ALWAYS_RUNS), c);
  }

  lemma LoadOne(c: StoredCertificate, load: Loader)
    requires c.projectRoot != "" && Canonical(c.projectRoot) && load(c.certPath, c.keyPath).Some?
    ensures StoredInventory([c], load) ==
            Some(map[c.projectRoot := EnsureParsedLeaf(load(c.certPath, c.keyPath).value)])
    ensures Index([c]) == map[c.projectRoot := c]
  {
    assert [c][..0] == [];
  }

  lemma OneInstalled(cfg: Config, w: World, c: StoredCertificate) returns (s: CertState)
    requires cfg.fixed == map[] && c.projectRoot != "" && Canonical(c.projectRoot)
    requires PreparedFor(w.routes, cfg.suffix, map[], OutputDir(cfg.dir), w.issue) == Some([c])
    requires w.load(c.certPath, c.keyPath).Some?
    ensures Succeeds(cfg, map[], w) && Installed(cfg, map[], w, s)
    ensures s.ready && s.stored == map[c.projectRoot := c]
  {
    LoadOne(c, w.load);
    hide PreparedFor, StoredInventory, Index, Canonical, OutputDir;
    s := CertState(Index([c]), StoredInventory([c], w.load).value, true);
  }

  lemma OneHonest(cfg: Config, w: World, c: StoredCertificate)
    requires PreparedFor(w.routes, cfg.suffix, map[], OutputDir(cfg.dir), w.issue) == Some([c])
    requires w.load(c.certPath, c.keyPath) == Some(TlsCertificate([], Some(c.sans)))
    requires HonestIssuer(w.issue) && WhitespaceFree(w.routes, cfg.suffix)
    ensures HonestWorld(cfg, map[], w)
  {
    hide PreparedFor, HonestIssuer, WhitespaceFree, OutputDir;
  }

  lemma CleanHostsOnly(routes: map<string, Route>, suffix: string, host: string)
    requires CleanHost(host) && PlannedHosts(routes, suffix) == {host}
    ensures WhitespaceFree(routes, suffix)
  {
    hide PlannedHosts;
  }

  // A snapshot that serves one host with a project root starts an honest run, with mkcert as the
  // issuer: the hypotheses of the certificate theorems do not rule out the ordinary case.
  lemma HostServingStarts(cfg: Config, key: string, route: Route, host: string, root: string)
    returns (w: World, s: CertState)
    requires cfg.fixed == map[] && CleanHost(host) && ProjectRoot(host, cfg.suffix) == Some(root)
    requires ServedHosts(route) == [host]
    ensures w.routes == map[key := route] && w.issue == MkCertIssuer(ALWAYS_RUNS)
    ensures PlannedHosts(w.routes, cfg.suffix) == {host}
    ensures IsStart(cfg, w, s) && s.ready
    ensures RequiredSANs(root, [host]) != [] && s.stored.Keys == {RequiredSANs(root, [host])[0]}
  {
    hide PreparedFor, PlannedHosts, HonestIssuer, HonestWorld, Succeeds, Installed, Canonical, ProjectRoot,
         MkCertIssuer, ServedHosts, OutputDir, CleanHost, WhitespaceFree, RequiredSANs;
    w := World(map[key := route], MkCertIssuer(ALWAYS_RUNS), LoaderOf(RequiredSANs(root, [host])));
    var c := OnePrepared(cfg, w.routes, key, host, root);
    OneRoutePlanned(w.routes, key, host, cfg.suffix);
    CleanHostsOnly(w.routes, cfg.suffix, host);
    MkCertIsHonest(ALWAYS_RUNS);
    s := OneInstalled(cfg, w, c);
    OneHonest(cfg, w, c);
  }

  // ----- A project that mkcert is asked for again on every refresh -----

  const DEEP := "a.b.acme.test"
  const ACME := "acme.test"

  lemma AcmeLabels()
    ensures Labels(ACME) == ["acme", "test"] && |Labels(DEEP)| == 4
  {
    assert ACME == "acme" + "." + "test" && DEEP == "a.b" + "." + ACME && "a.b" == "a" + "." + "b";
    RootLabels("acme", "test");
    RootLabels("a", "b");
    hide Split;
    SplitConcat("a.b", '.', ACME);
  }

  lemma DeepRoot()
    ensures ProjectRoot(DEEP, "test") == Some(ACME)
  {
    TestSuffix();
    hide ProjectRoot, PlannerSuffix;
    assert ACME == "acme" + "." + "test" && DEEP == "a.b" + ("." + ACME);
    SuffixOfConcat("a.b", "." + ACME);
    RootFromParts(DEEP, "test", "acme");
  }

  lemma DeepIsClean()
    ensures CleanHost(DEEP) && Less(DEEP, ACME)
  {
    assert ToLower(DEEP) == DEEP;
    assert DEEP[0] == 'a' && DEEP[1] == '.' && ACME[0] == 'a' && ACME[1] == 'c' && DEEP[12] == 't';
  }

  // The plan made for a refresh of this state asks for a new certificate for the root.
  ghost predicate ReissuesFor(cfg: Config, w: World, s: CertState, root: string) {
    exists d :: d in Plan(PlannedHosts(w.routes, cfg.suffix), cfg.suffix, s.stored)
                && d.projectRoot == root && !d.reuseExisting
  }

  // For the lone host a.b.acme.test there is a run of any length in which every refresh calls
  // mkcert for acme.test again: its certificate is filed under the host, never under the root.
  lemma DeepHostReissuedForever(cfg: Config, key: string, route: Route, n: nat)
    returns (w: World, states: seq<CertState>)
    requires cfg.fixed == map[] && cfg.suffix == "test" && ServedHosts(route) == [DEEP]
    ensures |states| == n + 1 && IsUnchangedRun(cfg, w, states) && w.issue == MkCertIssuer(ALWAYS_RUNS)
    ensures forall i :: 0 <= i < |states| ==> ReissuesFor(cfg, w, states[i], ACME)
  {
    hide PlannedHosts, ProjectRoot, IsUnchangedRun, IsStart, CleanHost, RequiredSANs, MkCertIssuer, ServedHosts,
         ReissuesFor;
    var s;
    w, s := DeepStart(cfg, key, route);
    StartGoesOn(cfg, w, s, n);
    states := seq(n + 1, i => s);
  }

  lemma DeepStart(cfg: Config, key: string, route: Route) returns (w: World, s: CertState)
    requires cfg.fixed == map[] && cfg.suffix == "test" && ServedHosts(route) == [DEEP]
    ensures IsStart(cfg, w, s) && w.issue == MkCertIssuer(ALWAYS_RUNS) && ReissuesFor(cfg, w, s, ACME)
  {
    hide PlannedHosts, ProjectRoot, IsStart, CleanHost, RequiredSANs, MkCertIssuer, ServedHosts, Plan;
    DeepRoot();
    DeepIsClean();
    DeepSANs();
    w, s := HostServingStarts(cfg, key, route, DEEP, ACME);
    LoneDecision(s.stored, DEEP, ACME, cfg.suffix);
  }

  lemma DeepSANs()
    ensures RequiredSANs(ACME, [DEEP]) != [] && RequiredSANs(ACME, [DEEP])[0] != ACME
  {
    AcmeLabels();
    DeepIsClean();
    assert DEEP in [DEEP] && [DEEP][0] != ACME;
    FirstSAN(ACME, [DEEP]);
  }

  lemma LoneDecision(stored: map<string, StoredCertificate>, host: string, root: string, suffix: string)
    requires ProjectRoot(host, suffix) == Some(root) && root !in stored
    ensures exists d :: d in Plan({host}, suffix, stored) && d.projectRoot == root && !d.reuseExisting
  {
    var i := PositionOf({host}, suffix, stored, host);
    DecisionAt({host}, suffix, stored, i);
    var d := Plan({host}, suffix, stored)[i];
    assert d in Plan({host}, suffix, stored);
  }
}
