/** What holds between the planner, the two copies of the certificates and the TLS selection,
    over every run of refreshes and for every order in which Go ranges over a map. */
module CertificateTheorems {
  import opened Strings
  import opened Ordering
  import opened Hostnames
  import opened RouteModel
  import opened Inventory
  import opened PlanProperties
  import opened MkCert
  import opened TlsListener
  import opened CertificateRuntime

  // ----- Invariants -----

  // Every name of the certificate is canonical and under one root; it is filed under a name of its own.
  ghost predicate ValidFor(c: StoredCertificate, suffix: string, root: string) {
    c.projectRoot in c.sans && forall s :: s in c.sans ==> Canonical(s) && ProjectRoot(s, suffix) == Some(root)
  }

  ghost predicate StoreValid(stored: map<string, StoredCertificate>, suffix: string) {
    forall k :: k in stored ==>
      stored[k].projectRoot == k && ProjectRoot(k, suffix).Some?
        && ValidFor(stored[k], suffix, ProjectRoot(k, suffix).value)
  }

  // The listener's map is the map that a loader builds from the stored certificates.
  ghost predicate LoadedFrom(listener: CertMap, stored: map<string, StoredCertificate>, load: Loader) {
    listener.Keys == stored.Keys && forall k :: k in stored ==> HoldsLoaded(listener[k], stored[k], load)
  }

  ghost predicate HoldsLoaded(cert: TlsCertificate, c: StoredCertificate, load: Loader) {
    load(c.certPath, c.keyPath).Some? && cert == EnsureParsedLeaf(load(c.certPath, c.keyPath).value)
  }

  // The listener holds, under the same roots, certificates for the names that are stored there.
  ghost predicate Mirrors(listener: CertMap, stored: map<string, StoredCertificate>) {
    listener.Keys == stored.Keys && forall k :: k in stored ==> listener[k].leaf == Some(stored[k].sans)
  }

  ghost predicate CertInvariant(cfg: Config, s: CertState) {
    StoreValid(s.stored, cfg.suffix) && Mirrors(s.listener, s.stored) && (s.ready ==> s.stored != map[])
  }

  // ----- What is assumed of the world -----

  ghost predicate WhitespaceFree(routes: map<string, Route>, suffix: string) {
    forall h :: h in PlannedHosts(routes, suffix) ==> NoSpaces(h)
  }

  // A loaded leaf carries the names that were stored with its paths.
  ghost predicate FaithfulLoads(stored: seq<StoredCertificate>, load: Loader) {
    forall i :: 0 <= i < |stored| && load(stored[i].certPath, stored[i].keyPath).Some? ==>
      EnsureParsedLeaf(load(stored[i].certPath, stored[i].keyPath).value).leaf == Some(stored[i].sans)
  }

  ghost predicate HonestWorld(cfg: Config, existing: map<string, StoredCertificate>, w: World) {
    && WhitespaceFree(w.routes, cfg.suffix)
    && HonestIssuer(w.issue)
    && var prepared := PreparedFor(w.routes, cfg.suffix, existing, OutputDir(cfg.dir), w.issue);
       prepared.Some? ==> FaithfulLoads(prepared.value, w.load)
  }

  // ----- What one preparation produces -----

  lemma PlannedHostnamesClean(routes: map<string, Route>, suffix: string, existing: map<string, StoredCertificate>,
                              i: nat)
    requires WhitespaceFree(routes, suffix)
    requires i < |Plan(PlannedHosts(routes, suffix), suffix, existing)|
    ensures var d := Plan(PlannedHosts(routes, suffix), suffix, existing)[i];
            d.hostnames != [] && forall h :: h in d.hostnames ==>
              CleanHost(h) && ProjectRoot(h, suffix) == Some(d.projectRoot)
  {
    var hosts := PlannedHosts(routes, suffix);
    DecisionAt(hosts, suffix, existing, i);
    PlannedAreNormalized(routes, suffix);
    var d := Plan(hosts, suffix, existing)[i];
    forall h | h in d.hostnames ensures CleanHost(h) && ProjectRoot(h, suffix) == Some(d.projectRoot) {
      assert h in Elements(d.hostnames);
    }
  }

  lemma ReusedIsValid(existing: map<string, StoredCertificate>, suffix: string, root: string)
    requires StoreValid(existing, suffix) && root in existing && ProjectRoot(root, suffix) == Some(root)
    ensures ValidFor(existing[root], suffix, root)
  {
  }

  lemma IssuedIsValid(d: Decision, suffix: string, dir: string, issue: Issuer)
    requires HonestIssuer(issue) && issue(dir, d.requiredSans).Issued?
    requires d.projectRoot in d.requiredSans
    requires forall s :: s in d.requiredSans ==> Canonical(s) && ProjectRoot(s, suffix) == Some(d.projectRoot)
    ensures var c := FileIssued(d, issue(dir, d.requiredSans).cert);
            c.sans == d.requiredSans && ValidFor(c, suffix, d.projectRoot)
  {
  }

  lemma DecisionServes(d: Decision, suffix: string, existing: map<string, StoredCertificate>, dir: string,
                       issue: Issuer)
    requires HonestIssuer(issue) && StoreValid(existing, suffix)
    requires d.reuseExisting ==> d.projectRoot in existing && CoversAll(existing[d.projectRoot].sans, d.hostnames)
    requires d.requiredSans == RequiredSANs(d.projectRoot, d.hostnames)
    requires d.hostnames != [] && forall h :: h in d.hostnames ==>
             CleanHost(h) && ProjectRoot(h, suffix) == Some(d.projectRoot)
    requires PrepareOne(d, existing, dir, issue).Some?
    ensures var c := PrepareOne(d, existing, dir, issue).value;
            ValidFor(c, suffix, d.projectRoot) && CoversAll(c.sans, d.hostnames)
  {
    if d.reuseExisting {
      assert d.hostnames[0] in d.hostnames;
      RootOfRoot(d.hostnames[0], suffix);
      ReusedIsValid(existing, suffix, d.projectRoot);
    } else {
      RequiredSANsShape(d.projectRoot, d.hostnames, suffix);
      RequiredSANsCover(d.projectRoot, d.hostnames, suffix);
      IssuedIsValid(d, suffix, dir, issue);
    }
  }

  // Each decision ends with a certificate that is valid for its root and covers its hostnames.
  lemma PreparedServes(routes: map<string, Route>, suffix: string, existing: map<string, StoredCertificate>,
                       dir: string, issue: Issuer, i: nat)
    requires WhitespaceFree(routes, suffix) && HonestIssuer(issue) && StoreValid(existing, suffix)
    requires PreparedFor(routes, suffix, existing, dir, issue).Some?
    requires i < |Plan(PlannedHosts(routes, suffix), suffix, existing)|
    ensures var d := Plan(PlannedHosts(routes, suffix), suffix, existing)[i];
            var c := PreparedFor(routes, suffix, existing, dir, issue).value[i];
            ValidFor(c, suffix, d.projectRoot) && CoversAll(c.sans, d.hostnames)
  {
    DecisionAt(PlannedHosts(routes, suffix), suffix, existing, i);
    PlannedHostnamesClean(routes, suffix, existing, i);
    DecisionServes(Plan(PlannedHosts(routes, suffix), suffix, existing)[i], suffix, existing, dir, issue);
  }

  // Certificates of one preparation are filed under different, canonical names.
  ghost predicate DistinctlyFiled(cs: seq<StoredCertificate>) {
    DistinctRoots(cs) && forall i :: 0 <= i < |cs| ==> Canonical(cs[i].projectRoot)
  }

  ghost predicate DistinctRoots(cs: seq<StoredCertificate>) {
    && (forall i :: 0 <= i < |cs| ==> cs[i].projectRoot != "")
    && (forall i, j :: 0 <= i < j < |cs| ==> cs[i].projectRoot != cs[j].projectRoot)
  }

  lemma PreparedDistinct(routes: map<string, Route>, suffix: string, existing: map<string, StoredCertificate>,
                         dir: string, issue: Issuer)
    requires WhitespaceFree(routes, suffix) && HonestIssuer(issue) && StoreValid(existing, suffix)
    requires PreparedFor(routes, suffix, existing, dir, issue).Some?
    ensures DistinctlyFiled(PreparedFor(routes, suffix, existing, dir, issue).value)
  {
    var hosts := PlannedHosts(routes, suffix);
    var cs := PreparedFor(routes, suffix, existing, dir, issue).value;
    forall i | 0 <= i < |cs| ensures cs[i].projectRoot != "" && Canonical(cs[i].projectRoot) {
      PreparedServes(routes, suffix, existing, dir, issue, i);
    }
    forall i, j | 0 <= i < j < |cs| ensures cs[i].projectRoot != cs[j].projectRoot {
      PreparedServes(routes, suffix, existing, dir, issue, i);
      PreparedServes(routes, suffix, existing, dir, issue, j);
      RootsIncrease(hosts, suffix, existing, i, j);
    }
  }

  lemma IndexLast(cs: seq<StoredCertificate>)
    requires cs != [] ==> cs[|cs| - 1].projectRoot != ""
    ensures Index(cs) == if cs == [] then map[] else Index(cs[..|cs| - 1])[cs[|cs| - 1].projectRoot := cs[|cs| - 1]]
  {
  }

  lemma {:induction false} IndexMeaning(cs: seq<StoredCertificate>)
    requires DistinctRoots(cs)
    ensures forall i :: 0 <= i < |cs| ==> cs[i].projectRoot in Index(cs) && Index(cs)[cs[i].projectRoot] == cs[i]
    ensures forall k :: k in Index(cs) ==> exists i :: 0 <= i < |cs| && cs[i].projectRoot == k
  {
    IndexLast(cs);
    hide Index;
    if cs != [] {
      var n, last := |cs| - 1, cs[|cs| - 1];
      var front := cs[..n];
      IndexMeaning(front);
      assert forall i :: 0 <= i < n ==> front[i] == cs[i];
      forall k | k in Index(cs) && k != last.projectRoot ensures exists i :: 0 <= i < |cs| && cs[i].projectRoot == k {
        var i :| 0 <= i < |front| && front[i].projectRoot == k;
        assert cs[i] == front[i];
      }
    }
  }

  lemma InventoryLast(cs: seq<StoredCertificate>, load: Loader)
    requires StoredInventory(cs, load).Some?
    requires cs != [] ==> cs[|cs| - 1].projectRoot != "" && Canonical(cs[|cs| - 1].projectRoot)
    ensures cs != [] ==>
              var last, before := cs[|cs| - 1], StoredInventory(cs[..|cs| - 1], load);
              && before.Some? && load(last.certPath, last.keyPath).Some?
              && StoredInventory(cs, load).value ==
                 before.value[last.projectRoot := EnsureParsedLeaf(load(last.certPath, last.keyPath).value)]
  {
  }

  lemma LoadOneMore(listener: CertMap, stored: map<string, StoredCertificate>, load: Loader, c: StoredCertificate)
    requires LoadedFrom(listener, stored, load) && load(c.certPath, c.keyPath).Some?
    ensures LoadedFrom(listener[c.projectRoot := EnsureParsedLeaf(load(c.certPath, c.keyPath).value)],
                       stored[c.projectRoot := c], load)
  {
    hide EnsureParsedLeaf;
  }

  // What is loaded from a list of certificates is what is loaded from its index.
  lemma {:induction false} InventoryMeaning(cs: seq<StoredCertificate>, load: Loader)
    requires DistinctlyFiled(cs) && StoredInventory(cs, load).Some?
    ensures LoadedFrom(StoredInventory(cs, load).value, Index(cs), load)
  {
    if cs == [] {
      return;
    }
    FrontFacts(cs);
    IndexLast(cs);
    InventoryLast(cs, load);
    hide Index, StoredInventory, EnsureParsedLeaf, LoadedFrom, Canonical, DistinctlyFiled;
    var front, last := cs[..|cs| - 1], cs[|cs| - 1];
    InventoryMeaning(front, load);
    LoadOneMore(StoredInventory(front, load).value, Index(front), load, last);
  }

  lemma FrontFacts(cs: seq<StoredCertificate>)
    requires DistinctlyFiled(cs) && cs != []
    ensures DistinctlyFiled(cs[..|cs| - 1])
    ensures cs[|cs| - 1].projectRoot != "" && Canonical(cs[|cs| - 1].projectRoot)
  {
    hide Canonical;
    assert forall i :: 0 <= i < |cs| - 1 ==> cs[..|cs| - 1][i] == cs[i];
  }

  // A faithful loader makes the listener hold the stored names.
  lemma LoadedMirrors(listener: CertMap, cs: seq<StoredCertificate>, load: Loader)
    requires DistinctRoots(cs) && LoadedFrom(listener, Index(cs), load) && FaithfulLoads(cs, load)
    ensures Mirrors(listener, Index(cs))
  {
    IndexMeaning(cs);
    hide Index, EnsureParsedLeaf;
    forall k | k in Index(cs) ensures listener[k].leaf == Some(Index(cs)[k].sans) {
      var i :| 0 <= i < |cs| && cs[i].projectRoot == k;
      assert HoldsLoaded(listener[k], cs[i], load);
    }
  }

  // ----- The run invariant -----

  lemma IndexIsValid(routes: map<string, Route>, suffix: string, existing: map<string, StoredCertificate>,
                     dir: string, issue: Issuer)
    requires WhitespaceFree(routes, suffix) && HonestIssuer(issue) && StoreValid(existing, suffix)
    requires PreparedFor(routes, suffix, existing, dir, issue).Some?
    ensures StoreValid(Index(PreparedFor(routes, suffix, existing, dir, issue).value), suffix)
  {
    var cs := PreparedFor(routes, suffix, existing, dir, issue).value;
    PreparedDistinct(routes, suffix, existing, dir, issue);
    IndexMeaning(cs);
    var stored := Index(cs);
    forall k | k in stored
      ensures stored[k].projectRoot == k && ProjectRoot(k, suffix).Some?
              && ValidFor(stored[k], suffix, ProjectRoot(k, suffix).value)
    {
      var i :| 0 <= i < |cs| && cs[i].projectRoot == k;
      PreparedServes(routes, suffix, existing, dir, issue, i);
    }
  }

  // A successful preparation, from any valid store, establishes the invariant, and the listener
  // holds exactly what was loaded from the new store.
  lemma InstallEstablishes(cfg: Config, existing: map<string, StoredCertificate>, w: World, s: CertState)
    requires cfg.fixed == map[] && StoreValid(existing, cfg.suffix) && HonestWorld(cfg, existing, w)
    requires Installed(cfg, existing, w, s)
    ensures CertInvariant(cfg, s) && LoadedFrom(s.listener, s.stored, w.load)
  {
    var dir := OutputDir(cfg.dir);
    var cs := PreparedFor(w.routes, cfg.suffix, existing, dir, w.issue).value;
    IndexIsValid(w.routes, cfg.suffix, existing, dir, w.issue);
    PreparedDistinct(w.routes, cfg.suffix, existing, dir, w.issue);
    hide StoreValid, PreparedFor, Index, StoredInventory, Mirrors, LoadedFrom;
    InventoryMeaning(cs, w.load);
    LoadedMirrors(s.listener, cs, w.load);
    IndexMeaning(cs);
    if s.ready { assert cs[0].projectRoot in Index(cs); }
  }

  lemma RefreshKeeps(cfg: Config, s: CertState, w: World, s': CertState)
    requires cfg.fixed == map[] && CertInvariant(cfg, s) && HonestWorld(cfg, s.stored, w)
    requires Refreshes(cfg, s, w, s')
    ensures CertInvariant(cfg, s')
  {
    if Succeeds(cfg, s.stored, w) { InstallEstablishes(cfg, s.stored, w, s'); }
  }

  // A run: the start on a first world, then one refresh per further world.
  ghost predicate IsRun(cfg: Config, worlds: seq<World>, states: seq<CertState>) {
    && |states| == |worlds| > 0
    && IsStart(cfg, worlds[0], states[0])
    && forall i :: 1 <= i < |states| ==> IsRefresh(cfg, worlds, states, i)
  }

  ghost predicate IsStart(cfg: Config, w: World, s: CertState) {
    Succeeds(cfg, map[], w) && Installed(cfg, map[], w, s) && HonestWorld(cfg, map[], w)
  }

  ghost predicate IsRefresh(cfg: Config, worlds: seq<World>, states: seq<CertState>, i: nat)
    requires 1 <= i < |states| == |worlds|
  {
    Refreshes(cfg, states[i - 1], worlds[i], states[i]) && HonestWorld(cfg, states[i - 1].stored, worlds[i])
  }

  // The start or refresh number i went through.
  ghost predicate WentThrough(cfg: Config, worlds: seq<World>, states: seq<CertState>, i: nat)
    requires i < |states| == |worlds|
  {
    i == 0 || Succeeds(cfg, states[i - 1].stored, worlds[i])
  }

  // Number j is the last one up to n that went through, and what is held now was loaded then.
  ghost predicate HeldSince(cfg: Config, worlds: seq<World>, states: seq<CertState>, n: nat, j: int)
    requires n < |states| == |worlds|
  {
    && 0 <= j <= n && WentThrough(cfg, worlds, states, j)
    && (forall k :: j < k <= n ==> !WentThrough(cfg, worlds, states, k))
    && LoadedFrom(states[n].listener, states[n].stored, worlds[j].load)
  }

  lemma StartEstablishes(cfg: Config, worlds: seq<World>, states: seq<CertState>)
    requires cfg.fixed == map[] && IsRun(cfg, worlds, states)
    ensures CertInvariant(cfg, states[0]) && HeldSince(cfg, worlds, states, 0, 0)
  {
    InstallEstablishes(cfg, map[], worlds[0], states[0]);
  }

  lemma StepKeeps(cfg: Config, worlds: seq<World>, states: seq<CertState>, n: nat, j: int) returns (j': int)
    requires cfg.fixed == map[] && 1 <= n < |states| == |worlds|
    requires CertInvariant(cfg, states[n - 1]) && HeldSince(cfg, worlds, states, n - 1, j)
    requires IsRefresh(cfg, worlds, states, n)
    ensures CertInvariant(cfg, states[n]) && HeldSince(cfg, worlds, states, n, j')
  {
    hide StoreValid, Mirrors, HonestWorld, Installed, LoadedFrom, Succeeds;
    RefreshKeeps(cfg, states[n - 1], worlds[n], states[n]);
    if Succeeds(cfg, states[n - 1].stored, worlds[n]) {
      InstallEstablishes(cfg, states[n - 1].stored, worlds[n], states[n]);
      j' := n;
    } else {
      j' := j;
    }
  }

  // Readiness says exactly that the last refresh went through and that there is a certificate.
  lemma {:induction false} ReadyMeaning(cfg: Config, worlds: seq<World>, states: seq<CertState>, n: nat)
    requires cfg.fixed == map[] && IsRun(cfg, worlds, states) && n < |states|
    ensures states[n].ready <==> WentThrough(cfg, worlds, states, n) && states[n].stored != map[]
  {
    hide CertInvariant, HonestWorld, PreparedFor;
    if n == 0 {
      InstalledReady(cfg, map[], worlds[0], states[0]);
    } else {
      RunInvariant(cfg, worlds, states, n - 1);
      assert IsRefresh(cfg, worlds, states, n);
      StoreOf(cfg, states[n - 1]);
      if Succeeds(cfg, states[n - 1].stored, worlds[n]) {
        InstalledReady(cfg, states[n - 1].stored, worlds[n], states[n]);
      }
    }
  }

  lemma StoreOf(cfg: Config, s: CertState)
    requires CertInvariant(cfg, s)
    ensures StoreValid(s.stored, cfg.suffix)
  {
  }

  lemma InstalledReady(cfg: Config, existing: map<string, StoredCertificate>, w: World, s: CertState)
    requires cfg.fixed == map[] && StoreValid(existing, cfg.suffix) && HonestWorld(cfg, existing, w)
    requires Installed(cfg, existing, w, s)
    ensures s.ready <==> s.stored != map[]
  {
    var cs := PreparedFor(w.routes, cfg.suffix, existing, OutputDir(cfg.dir), w.issue).value;
    PreparedDistinct(w.routes, cfg.suffix, existing, OutputDir(cfg.dir), w.issue);
    IndexMeaning(cs);
    hide Index, PreparedFor;
    if cs != [] { assert cs[0].projectRoot in Index(cs); }
  }

  // After any number of refreshes, whichever of them failed to issue or to load, the store is
  // valid, readiness means that there is a certificate, and the listener's map is the map loaded
  // from the stored certificates by the last refresh that went through.
  lemma {:induction false} RunInvariant(cfg: Config, worlds: seq<World>, states: seq<CertState>, n: nat)
    requires cfg.fixed == map[] && IsRun(cfg, worlds, states) && n < |states|
    ensures CertInvariant(cfg, states[n]) && exists j :: HeldSince(cfg, worlds, states, n, j)
  {
    hide IsStart, IsRefresh, CertInvariant, HeldSince;
    if n == 0 {
      StartEstablishes(cfg, worlds, states);
    } else {
      RunInvariant(cfg, worlds, states, n - 1);
      assert IsRefresh(cfg, worlds, states, n);
      var j :| HeldSince(cfg, worlds, states, n - 1, j);
      j := StepKeeps(cfg, worlds, states, n, j);
    }
  }

  // A run of which nothing is assumed but that each refresh does what the code does.
  ghost predicate IsPlainRun(cfg: Config, worlds: seq<World>, states: seq<CertState>) {
    && |states| == |worlds| > 0
    && Succeeds(cfg, map[], worlds[0]) && Installed(cfg, map[], worlds[0], states[0])
    && forall i :: 1 <= i < |states| ==> RefreshesAt(cfg, worlds, states, i)
  }

  ghost predicate RefreshesAt(cfg: Config, worlds: seq<World>, states: seq<CertState>, i: nat)
    requires 1 <= i < |states| == |worlds|
  {
    Refreshes(cfg, states[i - 1], worlds[i], states[i])
  }

  // With fixed certificates the stored ones are never loaded: in every run, after every refresh,
  // the listener holds the fixed certificates under their normalised names, and the runtime is
  // ready exactly when the last refresh could issue what it needed.
  lemma {:induction false} FixedCertificatesWin(cfg: Config, worlds: seq<World>, states: seq<CertState>, n: nat)
    requires cfg.fixed != map[] && IsPlainRun(cfg, worlds, states) && n < |states|
    ensures IsStaticInventory(cfg.fixed, states[n].listener)
    ensures states[n].ready <==> n == 0 || Succeeds(cfg, states[n - 1].stored, worlds[n])
  {
    hide IsStaticInventory, PreparedFor, Index;
    if n > 0 {
      FixedCertificatesWin(cfg, worlds, states, n - 1);
      assert RefreshesAt(cfg, worlds, states, n);
    }
  }

  lemma FixedNeverFailToLoad(cfg: Config, existing: map<string, StoredCertificate>, w: World)
    requires cfg.fixed != map[]
    ensures Succeeds(cfg, existing, w) <==>
            FailedRoots(Plan(PlannedHosts(w.routes, cfg.suffix), cfg.suffix, existing),
                        OutputDir(cfg.dir), w.issue) == []
  {
    hide Plan, PlannedHosts, OutputDir;
    PlanReuseKnown(PlannedHosts(w.routes, cfg.suffix), cfg.suffix, existing);
    NoneFailed(Plan(PlannedHosts(w.routes, cfg.suffix), cfg.suffix, existing), existing, OutputDir(cfg.dir), w.issue);
  }

  // ----- When a refresh succeeds, and what it then holds -----

  // The certificate that one decision needs can be had: the stored pair is found, or a new one is
  // issued and its pair, the certificate first, is found.
  ghost predicate Obtainable(d: Decision, existing: map<string, StoredCertificate>, dir: string, w: World) {
    if d.reuseExisting then
      d.projectRoot in existing && w.load(existing[d.projectRoot].certPath, existing[d.projectRoot].keyPath).Some?
    else
      && w.issue(dir, d.requiredSans).Issued?
      && w.load(w.issue(dir, d.requiredSans).cert.certPath, w.issue(dir, d.requiredSans).cert.keyPath).Some?
  }

  // A refresh without fixed certificates succeeds exactly when every certificate in the plan can be had.
  lemma SucceedsIff(cfg: Config, existing: map<string, StoredCertificate>, w: World)
    requires cfg.fixed == map[] && StoreValid(existing, cfg.suffix)
    ensures Succeeds(cfg, existing, w) <==>
            forall d :: d in Plan(PlannedHosts(w.routes, cfg.suffix), cfg.suffix, existing) ==>
              Obtainable(d, existing, if cfg.dir != "" then cfg.dir else ".", w)
  {
    hide Plan, PlannedHosts, StoredInventory, Prepared, StoreValid, Obtainable, ReuseKnown;
    var hosts := PlannedHosts(w.routes, cfg.suffix);
    var ds := Plan(hosts, cfg.suffix, existing);
    PlanReuseKnown(hosts, cfg.suffix, existing);
    forall d | d in ds ensures d.projectRoot != "" {
      var i :| 0 <= i < |ds| && ds[i] == d;
      NamedRoot(hosts, cfg.suffix, existing, i);
    }
    AllObtainable(ds, existing, cfg, w);
  }

  lemma AllObtainable(ds: seq<Decision>, existing: map<string, StoredCertificate>, cfg: Config, w: World)
    requires ReuseKnown(ds, existing) && StoreValid(existing, cfg.suffix)
    requires forall d :: d in ds ==> d.projectRoot != ""
    ensures var prepared := Prepared(ds, existing, OutputDir(cfg.dir), w.issue);
            prepared.Some? && StoredInventory(prepared.value, w.load).Some? <==>
            forall d :: d in ds ==> Obtainable(d, existing, OutputDir(cfg.dir), w)
  {
    var prepared := Prepared(ds, existing, OutputDir(cfg.dir), w.issue);
    hide StoredInventory, StoreValid;
    if prepared.None? {
      var i :| 0 <= i < |ds| && PrepareOne(ds[i], existing, OutputDir(cfg.dir), w.issue).None?;
      assert !Obtainable(ds[i], existing, OutputDir(cfg.dir), w);
    } else {
      StoredInventoryIff(prepared.value, w.load);
      hide Obtainable, Prepared;
      forall i | 0 <= i < |ds|
        ensures prepared.value[i].projectRoot != ""
        ensures w.load(prepared.value[i].certPath, prepared.value[i].keyPath).Some? <==>
                Obtainable(ds[i], existing, OutputDir(cfg.dir), w)
      {
        PairIsObtainable(ds, existing, cfg, w, i);
      }
    }
  }

  lemma NamedRoot(hosts: set<string>, suffix: string, existing: map<string, StoredCertificate>, i: nat)
    requires i < |Plan(hosts, suffix, existing)|
    ensures Plan(hosts, suffix, existing)[i].projectRoot != ""
  {
    DecisionAt(hosts, suffix, existing, i);
    var root := Plan(hosts, suffix, existing)[i].projectRoot;
    var h :| h in hosts && ProjectRoot(h, suffix) == Some(root);
    RootIsTail(h, suffix);
  }

  lemma PairIsObtainable(ds: seq<Decision>, existing: map<string, StoredCertificate>, cfg: Config, w: World, i: nat)
    requires ReuseKnown(ds, existing) && StoreValid(existing, cfg.suffix)
    requires Prepared(ds, existing, OutputDir(cfg.dir), w.issue).Some?
    requires i < |ds| && ds[i].projectRoot != ""
    ensures var c := Prepared(ds, existing, OutputDir(cfg.dir), w.issue).value[i];
            && c.projectRoot != ""
            && (w.load(c.certPath, c.keyPath).Some? <==> Obtainable(ds[i], existing, OutputDir(cfg.dir), w))
  {
    PreparedAsIssued(ds, existing, cfg.dir, w.issue, i);
    hide Prepared, StoreValid;
    if ds[i].reuseExisting { StoredUnderRoot(existing, cfg.suffix, ds[i].projectRoot); }
  }

  lemma StoredUnderRoot(existing: map<string, StoredCertificate>, suffix: string, root: string)
    requires StoreValid(existing, suffix) && root in existing
    ensures existing[root].projectRoot == root
  {
  }

  lemma IssuedNames(cfg: Config, existing: map<string, StoredCertificate>, w: World, i: nat)
    requires StoreValid(existing, cfg.suffix) && HonestWorld(cfg, existing, w)
    requires i < |Plan(PlannedHosts(w.routes, cfg.suffix), cfg.suffix, existing)|
    ensures var d := Plan(PlannedHosts(w.routes, cfg.suffix), cfg.suffix, existing)[i];
            var r := w.issue(OutputDir(cfg.dir), d.requiredSans);
            r.Issued? ==> r.cert.sans == d.requiredSans
  {
    PlannedHostnamesClean(w.routes, cfg.suffix, existing, i);
    var d := Plan(PlannedHosts(w.routes, cfg.suffix), cfg.suffix, existing)[i];
    RequiredSANsShape(d.projectRoot, d.hostnames, cfg.suffix);
  }

  // After a successful refresh the listener holds, for every certificate that was issued, what the
  // loader returns for the issuer's certificate path and key path.
  lemma IssuedIsHeld(cfg: Config, existing: map<string, StoredCertificate>, w: World, s: CertState, d: Decision)
    requires cfg.fixed == map[] && StoreValid(existing, cfg.suffix) && HonestWorld(cfg, existing, w)
    requires Installed(cfg, existing, w, s)
    requires d in Plan(PlannedHosts(w.routes, cfg.suffix), cfg.suffix, existing) && !d.reuseExisting
    ensures var r := w.issue(if cfg.dir != "" then cfg.dir else ".", d.requiredSans);
            && r.Issued?
            && var key := if r.cert.projectRoot != "" then r.cert.projectRoot else d.projectRoot;
               && key in s.stored && key in s.listener
               && s.stored[key] == StoredCertificate(key, d.requiredSans, r.cert.certPath, r.cert.keyPath)
               && w.load(r.cert.certPath, r.cert.keyPath).Some?
               && s.listener[key] == EnsureParsedLeaf(w.load(r.cert.certPath, r.cert.keyPath).value)
  {
    var hosts := PlannedHosts(w.routes, cfg.suffix);
    var ds := Plan(hosts, cfg.suffix, existing);
    var i :| 0 <= i < |ds| && ds[i] == d;
    var cs := PreparedFor(w.routes, cfg.suffix, existing, OutputDir(cfg.dir), w.issue).value;
    PlanReuseKnown(hosts, cfg.suffix, existing);
    PreparedAsIssued(ds, existing, cfg.dir, w.issue, i);
    IssuedNames(cfg, existing, w, i);
    PreparedDistinct(w.routes, cfg.suffix, existing, OutputDir(cfg.dir), w.issue);
    IndexMeaning(cs);
    InstallEstablishes(cfg, existing, w, s);
    hide Plan, PlannedHosts, Prepared, StoreValid, CertInvariant, HonestWorld, DistinctlyFiled, Index, IsInventory,
         EnsureParsedLeaf;
    assert HoldsLoaded(s.listener[cs[i].projectRoot], cs[i], w.load);
  }

  // ----- Selection -----

  // Whatever the TLS selection returns covers the host that was asked for, in any map order.
  lemma SelectionCovers(cfg: Config, s: CertState, serverName: string, r: Selection)
    requires CertInvariant(cfg, s) && IsSelection(s.listener, cfg.suffix, serverName, r) && r.Selected?
    ensures CertificateCoversHost(r.cert, Normalize(serverName))
    ensures exists k :: k in s.stored && r.cert.leaf == Some(s.stored[k].sans)
                        && IsCovered(Normalize(serverName), s.stored[k].sans)
  {
    var host := Normalize(serverName);
    hide Normalize, ListenerManages, StoreValid, CertificateCoversHost, IsCovered, WildcardMatches;
    var k :| k in s.listener && r == Selected(s.listener[k]) && EntryServes(k, s.listener[k], host);
    EntryCovers(cfg, s, k, host);
  }

  lemma EntryCovers(cfg: Config, s: CertState, k: string, host: string)
    requires CertInvariant(cfg, s) && k in s.listener && EntryServes(k, s.listener[k], host)
    ensures CertificateCoversHost(s.listener[k], host)
    ensures k in s.stored && s.listener[k].leaf == Some(s.stored[k].sans) && IsCovered(host, s.stored[k].sans)
  {
    var sans := s.stored[k].sans;
    assert k in sans && Canonical(k);
    hide WildcardMatches;
    if KeyServes(k, host) {
      var i :| 0 <= i < |sans| && sans[i] == k;
      assert KeyServes(Normalize(sans[i]), host);
    }
    CoverageAgrees(s.listener[k], host);
  }

  // The planned hosts of a refresh are exactly the served names that have a project root.
  lemma ServedIsPlanned(routes: map<string, Route>, suffix: string, key: string, name: string)
    requires key in routes && name in ServedHosts(routes[key]) && ProjectRoot(Normalize(name), suffix).Some?
    ensures Normalize(name) in PlannedHosts(routes, suffix)
  {
    PlannableMeaning(Normalize(name), suffix);
    assert Normalize(name) in PlannedIn(ServedHosts(routes[key]), suffix);
  }

  // After a successful refresh there is an entry that serves a planned host.
  lemma PlannedHasEntry(cfg: Config, existing: map<string, StoredCertificate>, w: World, s: CertState, h: string)
    returns (k: string)
    requires cfg.fixed == map[] && StoreValid(existing, cfg.suffix) && HonestWorld(cfg, existing, w)
    requires Installed(cfg, existing, w, s)
    requires h in PlannedHosts(w.routes, cfg.suffix)
    ensures k in s.listener && EntryServes(k, s.listener[k], h)
  {
    var dir := OutputDir(cfg.dir);
    var hosts := PlannedHosts(w.routes, cfg.suffix);
    var cs := PreparedFor(w.routes, cfg.suffix, existing, dir, w.issue).value;
    PlannedAreNormalized(w.routes, cfg.suffix);
    var i := PositionOf(hosts, cfg.suffix, existing, h);
    PreparedServes(w.routes, cfg.suffix, existing, dir, w.issue, i);
    var d := Plan(hosts, cfg.suffix, existing)[i];
    CoversAllMeaning(cs[i].sans, d.hostnames);
    InstallEstablishes(cfg, existing, w, s);
    PreparedDistinct(w.routes, cfg.suffix, existing, dir, w.issue);
    IndexMeaning(cs);
    k := cs[i].projectRoot;
    CoverageAgrees(s.listener[k], h);
  }

  // A name without a project root is covered by no certificate of a valid store.
  lemma NoRootNoCover(stored: map<string, StoredCertificate>, suffix: string, k: string, h: string)
    requires StoreValid(stored, suffix) && k in stored && IsCovered(h, stored[k].sans)
    requires h != "" && h[0] != '.'
    ensures ProjectRoot(h, suffix).Some?
  {
    CoveredMeaning(h, stored[k].sans);
    var san :| san in stored[k].sans && SanServes(san, h);
    assert Canonical(san) && ProjectRoot(san, suffix).Some?;
    if san != h {
      StarCoverHasRoot(san, suffix, h);
    }
  }

  lemma StarCoverHasRoot(san: string, suffix: string, h: string)
    requires HasPrefix(san, "*.") && WildcardMatches(h, TrimPrefix(san, "*.")) && ProjectRoot(san, suffix).Some?
    requires h != "" && h[0] != '.'
    ensures ProjectRoot(h, suffix).Some?
  {
    var rest := TrimPrefix(san, "*.");
    WildcardMeaning(h, rest);
    var left :| SingleLabel(left) && h == left + "." + rest;
    assert left != "";
    assert san == "*" + "." + rest;
    SplitConcat("*", '.', rest);
    SplitPlain("*", '.');
    SplitConcat(left, '.', rest);
    SplitPlain(left, '.');
  }

  // End to end: once certificates are installed for a snapshot, for every served name that the
  // listener manages, under every spelling that normalises to it and in every map order, the TLS
  // selection answers with a certificate exactly when the planner can derive a project root from
  // the name, and that certificate covers it.
  lemma InstalledServes(cfg: Config, existing: map<string, StoredCertificate>, w: World, s: CertState,
                        key: string, name: string, serverName: string, r: Selection)
    requires cfg.fixed == map[] && StoreValid(existing, cfg.suffix) && HonestWorld(cfg, existing, w)
    requires Installed(cfg, existing, w, s)
    requires key in w.routes && name in ServedHosts(w.routes[key])
    requires Normalize(serverName) == Normalize(name) && ListenerManages(Normalize(name), cfg.suffix)
    requires IsSelection(s.listener, cfg.suffix, serverName, r)
    ensures r.Selected? <==> ProjectRoot(Normalize(name), cfg.suffix).Some?
    ensures r.Selected? ==> CertificateCoversHost(r.cert, Normalize(name))
    ensures !r.Selected? ==> r == NoCertificate
  {
    var h := Normalize(name);
    InstallEstablishes(cfg, existing, w, s);
    if r.Selected? {
      SelectionCovers(cfg, s, serverName, r);
      var k :| k in s.stored && r.cert.leaf == Some(s.stored[k].sans) && IsCovered(h, s.stored[k].sans);
      NormalizeGives(name);
      ManagedIsNotEmpty(h, cfg.suffix);
      NoRootNoCover(s.stored, cfg.suffix, k, h);
    }
    if ProjectRoot(h, cfg.suffix).Some? {
      ServedIsPlanned(w.routes, cfg.suffix, key, name);
      var k := PlannedHasEntry(cfg, existing, w, s, h);
    }
  }

  // The same for one refresh of a running daemon.
  lemma ServedHostsGetCertificates(cfg: Config, s: CertState, w: World, s': CertState,
                                   key: string, name: string, serverName: string, r: Selection)
    requires cfg.fixed == map[] && CertInvariant(cfg, s) && HonestWorld(cfg, s.stored, w)
    requires Refreshes(cfg, s, w, s') && Succeeds(cfg, s.stored, w)
    requires key in w.routes && name in ServedHosts(w.routes[key])
    requires Normalize(serverName) == Normalize(name) && ListenerManages(Normalize(name), cfg.suffix)
    requires IsSelection(s'.listener, cfg.suffix, serverName, r)
    ensures r.Selected? <==> ProjectRoot(Normalize(name), cfg.suffix).Some?
    ensures r.Selected? ==> CertificateCoversHost(r.cert, Normalize(name))
    ensures !r.Selected? ==> r == NoCertificate
  {
    hide HonestWorld, Succeeds, ListenerManages, IsSelection, ProjectRoot, StoreValid, Mirrors;
    InstalledServes(cfg, s.stored, w, s', key, name, serverName, r);
  }

  lemma ManagedIsNotEmpty(h: string, suffix: string)
    requires ListenerManages(h, suffix)
    ensures h != ""
  {
    TrimKeeps("", IsSpace);
    TrimKeeps("", IsDot);
    assert ToLower("") == "";
  }
}
