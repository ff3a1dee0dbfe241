/** The daemon as a whole: Docker events and refreshes on one side, the routing snapshot and the
    certificates on the other, over every serial run. */
module System {
  import opened Strings
  import opened Hostnames
  import opened RouteModel
  import opened Inventory
  import opened MkCert
  import opened TlsListener
  import opened CertificateRuntime
  import opened CertificateTheorems
  import opened Reconcile
  import opened Daemon
  import opened Watching
  import opened Serving

  datatype SystemState = SystemState(app: AppState, snapshot: Snapshot, certs: CertState)

  datatype Setup = Setup(hasScan: bool, opts: Options, cfg: Config)

  // The network runtime is built for the snapshot that the daemon has by then; prior is what
  // happened to the daemon before.
  ghost predicate Starts(setup: Setup, prior: seq<Action>, w: World, s: SystemState) {
    && s.app == Run(setup.hasScan, START, prior)
    && IsBuild(setup.opts, s.app.applied, s.snapshot) && w.routes == s.snapshot.routes
    && IsStart(setup.cfg, w, s.certs)
  }

  function CertErrorOf(a: Action): Option<string> {
    match a
    case Refresh(_, certs) => certs
    case Resync(_, certs) => certs
    case Event(_, _, certs) => certs
    case _ => None
  }

  // What one action does. A synchronisation rebuilds the snapshot and then refreshes the
  // certificates for it; any other action leaves both alone.
  ghost predicate Performs(setup: Setup, s: SystemState, a: Action, w: World, s': SystemState) {
    && s'.app == Next(setup.hasScan, s.app, a)
    && if SyncedScan(setup.hasScan, a).Some? then
         && IsBuild(setup.opts, s'.app.applied, s'.snapshot) && w.routes == s'.snapshot.routes
         && Refreshes(setup.cfg, s.certs, w, s'.certs)
         && (CertErrorOf(a).None? <==> Succeeds(setup.cfg, s.certs.stored, w))
       else s'.snapshot == s.snapshot && s'.certs == s.certs
  }

  // And what is assumed of the world in which a synchronisation takes place.
  ghost predicate Moves(setup: Setup, s: SystemState, a: Action, w: World, s': SystemState) {
    && Performs(setup, s, a, w, s')
    && (SyncedScan(setup.hasScan, a).Some? ==> HonestWorld(setup.cfg, s.certs.stored, w))
  }

  ghost predicate IsSystemRun(setup: Setup, prior: seq<Action>, actions: seq<Action>, worlds: seq<World>,
                              states: seq<SystemState>) {
    && |worlds| == |states| == |actions| + 1
    && Starts(setup, prior, worlds[0], states[0])
    && forall i :: 0 <= i < |actions| ==> MovesAt(setup, actions, worlds, states, i)
  }

  ghost predicate MovesAt(setup: Setup, actions: seq<Action>, worlds: seq<World>, states: seq<SystemState>, i: nat)
    requires i < |actions| && |worlds| == |states| == |actions| + 1
  {
    Moves(setup, states[i], actions[i], worlds[i + 1], states[i + 1])
  }

  // The most recent certificate refresh, if any, raised no error.
  predicate LastRefreshOk(hasScan: bool, actions: seq<Action>) {
    if actions == [] then true
    else
      var last := actions[|actions| - 1];
      if SyncedScan(hasScan, last).Some? then CertErrorOf(last).None?
      else LastRefreshOk(hasScan, actions[..|actions| - 1])
  }

  // Every managed routed hostname, under every spelling and in every map order, is answered with a
  // covering certificate exactly when it has a project root.
  ghost predicate ServesAll(cfg: Config, routes: map<string, Route>, listener: CertMap) {
    forall key, serverName, r ::
      key in routes && Normalize(serverName) == Normalize(key) && ListenerManages(Normalize(key), cfg.suffix)
      && IsSelection(listener, cfg.suffix, serverName, r) ==>
        && (r.Selected? <==> ProjectRoot(Normalize(key), cfg.suffix).Some?)
        && (r.Selected? ==> CertificateCoversHost(r.cert, Normalize(key)))
  }

  ghost predicate SystemInvariant(setup: Setup, s: SystemState) {
    IsBuild(setup.opts, s.app.applied, s.snapshot) && CertInvariant(setup.cfg, s.certs)
  }

  lemma InstalledServesAll(setup: Setup, existing: map<string, StoredCertificate>, w: World, snapshot: Snapshot,
                           scan: seq<ContainerState>, certs: CertState)
    requires setup.cfg.fixed == map[] && StoreValid(existing, setup.cfg.suffix) && HonestWorld(setup.cfg, existing, w)
    requires Installed(setup.cfg, existing, w, certs) && Succeeds(setup.cfg, existing, w)
    requires IsBuild(setup.opts, scan, snapshot) && w.routes == snapshot.routes
    ensures CertInvariant(setup.cfg, certs) && ServesAll(setup.cfg, snapshot.routes, certs.listener)
  {
    hide IsBuild, HonestWorld, Installed, Succeeds, ListenerManages, IsSelection, ProjectRoot, StoreValid,
         CertInvariant, Normalize, CertificateCoversHost;
    InstallEstablishes(setup.cfg, existing, w, certs);
    forall key, serverName, r |
      key in snapshot.routes && Normalize(serverName) == Normalize(key)
        && ListenerManages(Normalize(key), setup.cfg.suffix)
      && IsSelection(certs.listener, setup.cfg.suffix, serverName, r)
      ensures r.Selected? <==> ProjectRoot(Normalize(key), setup.cfg.suffix).Some?
      ensures r.Selected? ==> CertificateCoversHost(r.cert, Normalize(key))
    {
      KeyIsServed(setup.opts, scan, snapshot, key);
      InstalledServes(setup.cfg, existing, w, certs, key, key, serverName, r);
    }
  }

  lemma StartServes(setup: Setup, prior: seq<Action>, w: World, s: SystemState)
    requires setup.cfg.fixed == map[] && Starts(setup, prior, w, s)
    ensures SystemInvariant(setup, s) && ServesAll(setup.cfg, s.snapshot.routes, s.certs.listener)
    ensures s.app == Run(setup.hasScan, START, prior) && LoadedFrom(s.certs.listener, s.certs.stored, w.load)
  {
    InstallEstablishes(setup.cfg, map[], w, s.certs);
    InstalledServesAll(setup, map[], w, s.snapshot, s.app.applied, s.certs);
  }

  lemma MoveServes(setup: Setup, s: SystemState, a: Action, w: World, s': SystemState)
    requires setup.cfg.fixed == map[] && SystemInvariant(setup, s) && Moves(setup, s, a, w, s')
    ensures SystemInvariant(setup, s')
    ensures SyncedScan(setup.hasScan, a).Some? && CertErrorOf(a).None? ==>
              ServesAll(setup.cfg, s'.snapshot.routes, s'.certs.listener)
    ensures SyncedScan(setup.hasScan, a).None? ==> s'.snapshot == s.snapshot && s'.certs == s.certs
  {
    StepConnected(setup.hasScan, s.app, a);
    hide IsBuild, Next, SyncedScan, CertErrorOf, HonestWorld, Succeeds, Installed, ServesAll, StoreValid, Mirrors;
    if SyncedScan(setup.hasScan, a).Some? {
      RefreshKeeps(setup.cfg, s.certs, w, s'.certs);
      if CertErrorOf(a).None? {
        InstalledServesAll(setup, s.certs.stored, w, s'.snapshot, s'.app.applied, s'.certs);
      }
    }
  }

  // What is held afterwards was loaded by this action, or is what was held before.
  lemma MoveLoads(setup: Setup, s: SystemState, a: Action, w: World, s': SystemState)
    requires setup.cfg.fixed == map[] && SystemInvariant(setup, s) && Moves(setup, s, a, w, s')
    ensures || LoadedFrom(s'.certs.listener, s'.certs.stored, w.load)
            || (s'.certs.listener == s.certs.listener && s'.certs.stored == s.certs.stored)
  {
    hide IsBuild, Next, SyncedScan, CertErrorOf, HonestWorld, Succeeds, Installed, LoadedFrom, StoreValid, Mirrors;
    if SyncedScan(setup.hasScan, a).Some? && Succeeds(setup.cfg, s.certs.stored, w) {
      InstallEstablishes(setup.cfg, s.certs.stored, w, s'.certs);
    }
  }

  // Over every serial run without fixed certificates, in worlds that are honest at every
  // synchronisation, whichever scans, issuances and loads fail: the snapshot is the pipeline
  // applied to the last scan that got through, the certificates stay consistent, and whenever the
  // last certificate refresh raised no error every routed hostname that can have a certificate is
  // served one that covers it.
  lemma {:induction false} EveryRunServes(setup: Setup, prior: seq<Action>, actions: seq<Action>, worlds: seq<World>,
                                          states: seq<SystemState>, n: nat)
    requires setup.cfg.fixed == map[] && IsSystemRun(setup, prior, actions, worlds, states) && n <= |actions|
    ensures SystemInvariant(setup, states[n])
    ensures LastRefreshOk(setup.hasScan, actions[..n]) ==>
              ServesAll(setup.cfg, states[n].snapshot.routes, states[n].certs.listener)
  {
    hide Starts, Moves, SystemInvariant, ServesAll, SyncedScan, CertErrorOf;
    if n == 0 {
      StartServes(setup, prior, worlds[0], states[0]);
    } else {
      EveryRunServes(setup, prior, actions, worlds, states, n - 1);
      assert MovesAt(setup, actions, worlds, states, n - 1);
      assert actions[..n][..n - 1] == actions[..n - 1];
      MoveServes(setup, states[n - 1], actions[n - 1], worlds[n], states[n]);
    }
  }

  // In the same runs, the scan that the snapshot is built from is that of the last successful
  // synchronisation since the daemon came up.
  lemma {:induction false} EveryRunApplies(setup: Setup, prior: seq<Action>, actions: seq<Action>, worlds: seq<World>,
                                           states: seq<SystemState>, n: nat)
    requires IsSystemRun(setup, prior, actions, worlds, states) && n <= |actions|
    ensures states[n].app == Run(setup.hasScan, START, prior + actions[..n])
    ensures AppliedFrom(setup.hasScan, prior + actions[..n], states[n].app.applied)
  {
    hide IsBuild, Next, SyncedScan, CertErrorOf, HonestWorld, Succeeds, Refreshes, IsStart, AppliedFrom;
    if n == 0 {
      assert prior + actions[..0] == prior;
    } else {
      EveryRunApplies(setup, prior, actions, worlds, states, n - 1);
      assert MovesAt(setup, actions, worlds, states, n - 1);
      assert (prior + actions[..n])[..|prior| + n - 1] == prior + actions[..n - 1];
    }
    AppliedMeaning(setup.hasScan, prior + actions[..n]);
  }

  // And the listener's map is the one loaded from the stored certificates at the start or at some
  // synchronisation since.
  lemma {:induction false} EveryRunLoads(setup: Setup, prior: seq<Action>, actions: seq<Action>, worlds: seq<World>,
                                         states: seq<SystemState>, n: nat)
    requires setup.cfg.fixed == map[] && IsSystemRun(setup, prior, actions, worlds, states) && n <= |actions|
    ensures exists j :: 0 <= j <= n && LoadedFrom(states[n].certs.listener, states[n].certs.stored, worlds[j].load)
  {
    hide Starts, Moves, SystemInvariant, ServesAll, LoadedFrom;
    if n == 0 {
      StartServes(setup, prior, worlds[0], states[0]);
    } else {
      EveryRunLoads(setup, prior, actions, worlds, states, n - 1);
      EveryRunServes(setup, prior, actions, worlds, states, n - 1);
      assert MovesAt(setup, actions, worlds, states, n - 1);
      MoveLoads(setup, states[n - 1], actions[n - 1], worlds[n], states[n]);
      var j :| 0 <= j <= n - 1
               && LoadedFrom(states[n - 1].certs.listener, states[n - 1].certs.stored, worlds[j].load);
    }
  }

  // ----- The daemon with its network runtime -----

  class RunningApp {
    const app: App
    const network: NetworkRuntime

    ghost predicate Valid()
      reads app, app.watcher, app.reconciler
    {
      app.Valid()
    }

    ghost function View(): SystemState
      reads app, app.watcher, app.reconciler, network, network.httpsHandler
    {
      SystemState(app.View(), app.reconciler.snapshot, network.View())
    }

    ghost function TheSetup(): Setup {
      Setup(app.hasScan, app.reconciler.opts, network.cfg)
    }

    constructor (app: App, network: NetworkRuntime)
      ensures this.app == app && this.network == network
    {
      this.app, this.network := app, network;
    }

    // The part of Start that builds the network runtime for the current snapshot, from an empty
    // store; prior is what the daemon went through before.
    static method Start(app: App, cfg: Config, issue: Issuer, load: Loader, ghost prior: seq<Action>)
      returns (r: RunningApp?, ghost w: World)
      requires app.Valid() && app.View() == Run(app.hasScan, START, prior)
      ensures w == World(app.reconciler.snapshot.routes, issue, load)
      ensures r != null <==> Succeeds(cfg, map[], w)
      ensures r != null ==> r.app == app && r.network.cfg == cfg && r.Valid()
      ensures r != null && HonestWorld(cfg, map[], w) ==> Starts(r.TheSetup(), prior, w, r.View())
    {
      hide IsBuild, Succeeds, HonestWorld, Installed;
      w := World(app.reconciler.snapshot.routes, issue, load);
      var network := NetworkRuntime.New(cfg, map[], World(app.reconciler.snapshot.routes, issue, load));
      if network == null {
        return null, w;
      }
      r := new RunningApp(app, network);
    }

    // syncNetworkCertificates: refresh for the current snapshot and record the error, which reads
    // as given when there is one.
    method SyncCertificates(issue: Issuer, load: Loader, message: string)
      returns (certs: Option<string>, ghost w: World)
      requires Valid()
      modifies app`issues, network, network.httpsHandler
      ensures Valid() && w == World(app.reconciler.snapshot.routes, issue, load)
      ensures app.View() == WithIssues(old(app.View()), CertIssue(certs))
      ensures Refreshes(network.cfg, old(network.View()), w, network.View())
      ensures certs.None? <==> Succeeds(network.cfg, old(network.storedCerts), w)
    {
      hide IsBuild, Succeeds, Refreshes;
      w := World(app.reconciler.snapshot.routes, issue, load);
      var ok := network.RefreshCertificates(World(app.reconciler.snapshot.routes, issue, load));
      certs := if ok then None else Some(message);
      app.SyncNetworkCertificates(certs);
    }

    method Refresh(scan: ScanResult, issue: Issuer, load: Loader, message: string, now: nat)
      returns (ghost a: Action, ghost w: World)
      requires Valid()
      modifies app`issues, app`applied, app.watcher, app.reconciler`snapshot, app.reconciler`lastSync,
               app.reconciler.builder, network, network.httpsHandler
      ensures Valid() && a.Refresh? && a.scan == scan && w.issue == issue && w.load == load
      ensures Performs(TheSetup(), old(View()), a, w, View())
    {
      hide IsBuild, Succeeds, Refreshes;
      var certs := None;
      var ok := app.RefreshFromDocker(scan, now);
      w := World(map[], issue, load);
      if ok {
        certs, w := SyncCertificates(issue, load, message);
      }
      a := Action.Refresh(scan, certs);
    }

    method Event(name: string, scan: ScanResult, issue: Issuer, load: Loader, message: string, now: nat)
      returns (ghost a: Action, ghost w: World)
      requires Valid()
      modifies app`issues, app`applied, app.watcher, app.reconciler`snapshot, app.reconciler`lastSync,
               app.reconciler.builder, network, network.httpsHandler
      ensures Valid() && a.Event? && a.name == name && a.scan == scan && w.issue == issue && w.load == load
      ensures Performs(TheSetup(), old(View()), a, w, View())
    {
      hide IsBuild, Succeeds, Refreshes;
      var certs := None;
      var synced := app.SyncEvent(name, scan, now);
      w := World(map[], issue, load);
      if synced {
        certs, w := SyncCertificates(issue, load, message);
      }
      a := Action.Event(name, scan, certs);
    }

    method Resync(scan: ScanResult, issue: Issuer, load: Loader, message: string, now: nat)
      returns (ghost a: Action, ghost w: World)
      requires Valid()
      modifies app`issues, app`applied, app.watcher, app.reconciler`snapshot, app.reconciler`lastSync,
               app.reconciler.builder, network, network.httpsHandler
      ensures Valid() && a.Resync? && a.scan == scan && w.issue == issue && w.load == load
      ensures Performs(TheSetup(), old(View()), a, w, View())
    {
      hide IsBuild, Succeeds, Refreshes;
      var certs := None;
      var ok := app.ResyncFromScan(scan, now);
      w := World(map[], issue, load);
      if ok {
        certs, w := SyncCertificates(issue, load, message);
      }
      a := Action.Resync(scan, certs);
    }

    // Everything else that happens leaves the snapshot and the certificates alone.
    method Other(a: Action, now: nat, ghost w: World)
      requires Valid() && !a.Refresh? && !a.Event? && !a.Resync?
      modifies app`issues, app.watcher, app.reconciler`routingPaused
      ensures Valid() && Performs(TheSetup(), old(View()), a, w, View())
    {
      hide IsBuild;
      match a
      case PingFailed(m) => app.RecordWatcherIssue(DockerPing, m, now);
      case ConnectFailed(m) => app.RecordWatcherIssue(DockerEventsConnect, m, now);
      case StreamFailed(m) => app.RecordWatcherIssue(DockerEventsStream, m, now);
      case Note(issue) => app.RecordIssue(issue.kind, issue.message);
      case Pause(p) => app.SetRoutingPaused(p);
    }
  }
}
