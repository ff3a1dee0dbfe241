/** internal/daemon/app.go and events.go with internal/admin/logs.go: the watcher's connection state,
    the resynchronisation with Docker, and the bounded list of session issues. */
module Daemon {
  import opened Strings
  import opened RouteModel
  import opened Reconcile

  // The role and action that an issue is recorded under.
  datatype IssueKind =
    | DockerPing | DockerScan | DockerEventsConnect | DockerEventsStream | DockerReconnectSync | DockerEventSync
    | CertificateRefresh
    | Other(role: string, action: string)

  datatype Issue = Issue(kind: IssueKind, message: string)

  const SESSION_ISSUE_LIMIT := 25

  // ----- The machine that the methods below implement -----

  datatype ScanResult = Containers(list: seq<ContainerState>) | ScanFailed(message: string)

  // What happens to the daemon, together with what the outside world answers. certs is the error of
  // the certificate refresh that follows a rebuild, if there was one.
  datatype Action =
    | PingFailed(message: string)
    | Refresh(scan: ScanResult, certs: Option<string>)
    | ConnectFailed(message: string)
    | StreamFailed(message: string)
    | Resync(scan: ScanResult, certs: Option<string>)
    | Event(name: string, scan: ScanResult, certs: Option<string>)
    | Note(issue: Issue)
    | Pause(paused: bool)

  // applied is the scan that the current snapshot was built from.
  datatype AppState = AppState(connected: bool, applied: seq<ContainerState>, issues: seq<Issue>, paused: bool)

  function Window(history: seq<Issue>): seq<Issue> {
    if |history| > SESSION_ISSUE_LIMIT then history[|history| - SESSION_ISSUE_LIMIT..] else history
  }

  function CertIssue(certs: Option<string>): seq<Issue> {
    if certs.Some? then [Issue(CertificateRefresh, certs.value)] else []
  }

  predicate Supported(event: string) {
    event in SUPPORTED_EVENTS
  }

  const SUPPORTED_EVENTS := ["start", "stop", "die", "destroy", "rename", "update"]

  function EventFailure(name: string, message: string): string {
    "sync " + name + " event: " + message
  }

  function WithIssues(s: AppState, more: seq<Issue>): AppState {
    s.(issues := Window(s.issues + more))
  }

  function Disconnected(s: AppState, kind: IssueKind, message: string): AppState {
    WithIssues(s.(connected := false), [Issue(kind, message)])
  }

  // The snapshot was rebuilt from a whole scan; the certificates were not refreshed yet.
  function Rebuilt(s: AppState, list: seq<ContainerState>): AppState {
    s.(connected := true, applied := list)
  }

  function Synced(s: AppState, list: seq<ContainerState>, certs: Option<string>): AppState {
    WithIssues(Rebuilt(s, list), CertIssue(certs))
  }

  // hasScan says whether the daemon was configured with a Docker scan at all.
  function Next(hasScan: bool, s: AppState, a: Action): AppState {
    match a
    case PingFailed(m) => Disconnected(s, DockerPing, m)
    case ConnectFailed(m) => Disconnected(s, DockerEventsConnect, m)
    case StreamFailed(m) => Disconnected(s, DockerEventsStream, m)
    case Refresh(scan, certs) =>
      if !hasScan then Synced(s, [], certs)
      else (match scan
            case Containers(list) => Synced(s, list, certs)
            case ScanFailed(m) => Disconnected(s, DockerScan, m))
    case Resync(scan, certs) =>
      (match scan
       case Containers(list) => Synced(s, list, certs)
       case ScanFailed(m) => Disconnected(s, DockerReconnectSync, m))
    case Event(name, scan, certs) =>
      if !Supported(name) then s
      else (match scan
            case Containers(list) => Synced(s, list, certs)
            case ScanFailed(m) => Disconnected(s, DockerEventSync, EventFailure(name, m)))
    case Note(issue) => WithIssues(s, [issue])
    case Pause(p) => s.(paused := p)
  }

  function Run(hasScan: bool, s: AppState, actions: seq<Action>): AppState {
    if actions == [] then s
    else Next(hasScan, Run(hasScan, s, actions[..|actions| - 1]), actions[|actions| - 1])
  }

  lemma {:induction false} RunConcat(hasScan: bool, s: AppState, a: seq<Action>, b: seq<Action>)
    ensures Run(hasScan, s, a + b) == Run(hasScan, Run(hasScan, s, a), b)
  {
    if b == [] {
      assert a + b == a;
    } else {
      var n := |b| - 1;
      assert (a + b)[..|a + b| - 1] == a + b[..n];
      RunConcat(hasScan, s, a, b[..n]);
    }
  }

  const START := AppState(true, [], [], false)

  // ----- The source's objects -----

  class Watcher {
    const reconciler: Reconciler
    var connected: bool
    var lastDisconnect: nat
    var lastReconnectSync: nat

    constructor (reconciler: Reconciler)
      ensures this.reconciler == reconciler && connected && lastDisconnect == lastReconnectSync == 0
    {
      this.reconciler := reconciler;
      connected, lastDisconnect, lastReconnectSync := true, 0, 0;
    }

    method OnDisconnect(now: nat)
      modifies this
      ensures !connected && lastDisconnect == now && lastReconnectSync == old(lastReconnectSync)
    {
      connected, lastDisconnect := false, now;
    }

    // The only way from disconnected to connected, and it rebuilds from a whole scan.
    method OnReconnect(containers: seq<ContainerState>, now: nat)
      modifies this, reconciler`snapshot, reconciler`lastSync, reconciler.builder
      ensures connected && lastReconnectSync == now && lastDisconnect == old(lastDisconnect)
      ensures IsBuild(reconciler.opts, containers, reconciler.snapshot)
    {
      reconciler.RebuildSnapshot(containers, now);
      connected, lastReconnectSync := true, now;
    }
  }

  // One subscription to the Docker event stream, as the environment lets it go: no stream at all, or
  // a stream with what a resync finds, the events delivered, and the error that ends it (None when
  // the daemon is shut down).
  datatype Delivery = Delivery(name: string, scan: ScanResult, certs: Option<string>)

  datatype Attempt = NoStream(message: string)
                   | Stream(resync: ScanResult, resyncCerts: Option<string>, events: seq<Delivery>,
                            ending: Option<string>)

  function EventActions(events: seq<Delivery>): seq<Action> {
    seq(|events|, i requires 0 <= i < |events| => Event(events[i].name, events[i].scan, events[i].certs))
  }

  function Ending(ending: Option<string>): seq<Action> {
    if ending.Some? then [StreamFailed(ending.value)] else []
  }

  // What one attempt amounts to, given whether the watcher is connected when the stream opens.
  function AttemptActions(connected: bool, a: Attempt): seq<Action> {
    match a
    case NoStream(m) => [ConnectFailed(m)]
    case Stream(resync, certs, events, ending) =>
      if connected then EventActions(events) + Ending(ending)
      else if resync.ScanFailed? then [Resync(resync, certs)]
      else [Resync(resync, certs)] + (EventActions(events) + Ending(ending))
  }

  function WatchActions(s: AppState, script: seq<Attempt>): seq<Action>
    decreases |script|
  {
    if script == [] then []
    else
      var actions := AttemptActions(s.connected, script[0]);
      if script[0].Stream? && script[0].ending.None? && (s.connected || script[0].resync.Containers?) then actions
      else actions + WatchActions(Run(true, s, actions), script[1..])
  }

  lemma WatchNothing(s: AppState)
    ensures WatchActions(s, []) == [] && Run(true, s, []) == s
  {
  }

  lemma WatchOne(s: AppState, script: seq<Attempt>)
    requires script != []
    ensures var a := script[0];
            var actions := AttemptActions(s.connected, a);
            var stops := a.Stream? && a.ending.None? && (s.connected || a.resync.Containers?);
            WatchActions(s, script) == actions + if stops then [] else WatchActions(Run(true, s, actions), script[1..])
  {
  }

  class App {
    const reconciler: Reconciler
    const watcher: Watcher
    const hasScan: bool
    var issues: seq<Issue>
    ghost var applied: seq<ContainerState>

    ghost predicate Valid()
      reads this, watcher, reconciler
    {
      && watcher.reconciler == reconciler
      && |issues| <= SESSION_ISSUE_LIMIT
      && IsBuild(reconciler.opts, applied, reconciler.snapshot)
    }

    ghost function View(): AppState
      reads this, watcher, reconciler
    {
      AppState(watcher.connected, applied, issues, reconciler.routingPaused)
    }

    ghost function Footprint(): set<object> {
      {this, watcher, reconciler, reconciler.builder}
    }

    constructor (opts: Options, hasScan: bool, now: nat)
      ensures Valid() && View() == START && this.hasScan == hasScan && reconciler.opts == opts
      ensures fresh(Footprint())
    {
      var r := new Reconciler(opts);
      r.RebuildSnapshot([], now);
      reconciler, this.hasScan, issues, applied := r, hasScan, [], [];
      watcher := new Watcher(r);
    }

    method RecordIssue(kind: IssueKind, message: string)
      modifies this`issues
      ensures issues == Window(old(issues) + [Issue(kind, message)])
    {
      issues := issues + [Issue(kind, message)];
      if |issues| > SESSION_ISSUE_LIMIT {
        issues := issues[|issues| - SESSION_ISSUE_LIMIT..];
      }
    }

    method RecordWatcherIssue(kind: IssueKind, message: string, now: nat)
      requires Valid()
      modifies this`issues, watcher
      ensures Valid() && View() == Disconnected(old(View()), kind, message)
    {
      watcher.OnDisconnect(now);
      RecordIssue(kind, message);
    }

    // What syncNetworkCertificates records, given the error of the refresh if there was one.
    method SyncNetworkCertificates(certs: Option<string>)
      requires Valid()
      modifies this`issues
      ensures Valid() && View() == WithIssues(old(View()), CertIssue(certs))
    {
      if certs.Some? {
        RecordIssue(CertificateRefresh, certs.value);
      } else {
        assert issues + [] == issues;
      }
    }

    method Reconnect(list: seq<ContainerState>, now: nat)
      requires Valid()
      modifies this`issues, this`applied, watcher, reconciler`snapshot, reconciler`lastSync, reconciler.builder
      ensures Valid() && View() == Rebuilt(old(View()), list)
    {
      watcher.OnReconnect(list, now);
      applied := list;
    }

    method RefreshFromDocker(scan: ScanResult, now: nat) returns (ok: bool)
      requires Valid()
      modifies this`issues, this`applied, watcher, reconciler`snapshot, reconciler`lastSync, reconciler.builder
      ensures Valid() && (ok <==> !hasScan || scan.Containers?)
      ensures ok ==> View() == Rebuilt(old(View()), if hasScan then scan.list else [])
      ensures !ok ==> View() == Disconnected(old(View()), DockerScan, scan.message)
      ensures !ok ==> reconciler.snapshot == old(reconciler.snapshot)
    {
      hide IsBuild;
      if !hasScan {
        Reconnect([], now);
        return true;
      }
      match scan
      case ScanFailed(m) =>
        watcher.OnDisconnect(now);
        RecordIssue(DockerScan, m);
        return false;
      case Containers(list) =>
        Reconnect(list, now);
        return true;
    }

    method RefreshNow(scan: ScanResult, certs: Option<string>, now: nat) returns (ok: bool)
      requires Valid()
      modifies this`issues, this`applied, watcher, reconciler`snapshot, reconciler`lastSync, reconciler.builder
      ensures Valid() && View() == Next(hasScan, old(View()), Refresh(scan, certs))
      ensures ok <==> !hasScan || scan.Containers?
    {
      hide IsBuild;
      ok := RefreshFromDocker(scan, now);
      if ok {
        SyncNetworkCertificates(certs);
      }
    }

    // watcher.HandleEvent while connected. The source would record "event-ignore" if the event
    // were refused; the two lists of events agree, so it never is.
    method ApplyEvent(name: string, list: seq<ContainerState>, now: nat)
      requires Valid() && watcher.connected && Supported(name)
      modifies this`issues, this`applied, watcher, reconciler`snapshot, reconciler`lastSync, reconciler.builder
      ensures Valid() && View() == Rebuilt(old(View()), list)
    {
      var handled := reconciler.HandleEvent(name, list, now);
      if !handled {
        assert false;
      }
      applied := list;
    }

    // handleDockerEvent up to the certificate refresh, which follows exactly when this returns true.
    method SyncEvent(name: string, scan: ScanResult, now: nat) returns (synced: bool)
      requires Valid()
      modifies this`issues, this`applied, watcher, reconciler`snapshot, reconciler`lastSync, reconciler.builder
      ensures Valid() && (synced <==> Supported(name) && scan.Containers?)
      ensures synced ==> View() == Rebuilt(old(View()), scan.list)
      ensures !synced ==> View() == Next(hasScan, old(View()), Event(name, scan, None))
      ensures !synced ==> reconciler.snapshot == old(reconciler.snapshot)
    {
      hide IsBuild;
      if !Supported(name) {
        return false;
      }
      match scan
      case ScanFailed(m) =>
        RecordWatcherIssue(DockerEventSync, EventFailure(name, m), now);
        return false;
      case Containers(list) =>
        if !watcher.connected {
          Reconnect(list, now);
        } else {
          ApplyEvent(name, list, now);
        }
        return true;
    }

    method HandleDockerEvent(name: string, scan: ScanResult, certs: Option<string>, now: nat)
      requires Valid()
      modifies this`issues, this`applied, watcher, reconciler`snapshot, reconciler`lastSync, reconciler.builder
      ensures Valid() && View() == Next(hasScan, old(View()), Event(name, scan, certs))
    {
      hide IsBuild;
      var synced := SyncEvent(name, scan, now);
      if synced {
        SyncNetworkCertificates(certs);
      }
    }

    // resyncWatcher up to the certificate refresh.
    method ResyncFromScan(scan: ScanResult, now: nat) returns (ok: bool)
      requires Valid()
      modifies this`issues, this`applied, watcher, reconciler`snapshot, reconciler`lastSync, reconciler.builder
      ensures Valid() && (ok <==> scan.Containers?)
      ensures ok ==> View() == Rebuilt(old(View()), scan.list)
      ensures !ok ==> View() == Disconnected(old(View()), DockerReconnectSync, scan.message)
      ensures !ok ==> reconciler.snapshot == old(reconciler.snapshot)
    {
      hide IsBuild;
      match scan
      case ScanFailed(m) =>
        RecordWatcherIssue(DockerReconnectSync, m, now);
        return false;
      case Containers(list) =>
        Reconnect(list, now);
        return true;
    }

    method ResyncWatcher(scan: ScanResult, certs: Option<string>, now: nat) returns (ok: bool)
      requires Valid()
      modifies this`issues, this`applied, watcher, reconciler`snapshot, reconciler`lastSync, reconciler.builder
      ensures Valid() && View() == Next(hasScan, old(View()), Resync(scan, certs))
      ensures ok <==> scan.Containers?
    {
      hide IsBuild;
      ok := ResyncFromScan(scan, now);
      if ok {
        SyncNetworkCertificates(certs);
      }
    }

    method SetRoutingPaused(paused: bool)
      requires Valid()
      modifies reconciler`routingPaused
      ensures Valid() && View() == Next(hasScan, old(View()), Pause(paused))
      ensures reconciler.routingPaused == paused
    {
      hide IsBuild;
      reconciler.SetRoutingPaused(paused);
    }

    // consumeDockerEvents over the events that one stream delivers.
    method ConsumeDockerEvents(events: seq<Delivery>, now: nat)
      requires Valid()
      modifies this`issues, this`applied, watcher, reconciler`snapshot, reconciler`lastSync, reconciler.builder
      ensures Valid()
      ensures View() == Run(hasScan, old(View()), EventActions(events))
    {
      hide IsBuild;
      for i := 0 to |events|
        invariant Valid()
        invariant View() == Run(hasScan, old(View()), EventActions(events[..i]))
      {
        assert EventActions(events[..i + 1])[..i] == EventActions(events[..i]);
        HandleDockerEvent(events[i].name, events[i].scan, events[i].certs, now);
      }
      assert events[..|events|] == events;
    }

    // The retry loop: it implements exactly the runs of the machine that the environment allows.
    method WatchDockerEvents(script: seq<Attempt>, now: nat)
      requires Valid() && hasScan
      modifies this`issues, this`applied, watcher, reconciler`snapshot, reconciler`lastSync, reconciler.builder
      ensures Valid() && View() == Run(true, old(View()), WatchActions(old(View()), script))
    {
      hide IsBuild, WatchActions, AttemptActions, Run;
      ghost var start, total := View(), WatchActions(View(), script);
      ghost var done: seq<Action> := [];
      WatchNothing(start);
      var i := 0;
      while i < |script|
        invariant 0 <= i <= |script|
        invariant Valid()
        invariant View() == Run(true, start, done)
        invariant total == done + WatchActions(View(), script[i..])
      {
        ghost var actions := AttemptActions(watcher.connected, script[i]);
        assert script[i..][0] == script[i] && script[i..][1..] == script[i + 1..];
        WatchOne(View(), script[i..]);
        RunConcat(true, start, done, actions);
        var stop := Attend(script[i], now);
        done := done + actions;
        i := i + 1;
        if stop {
          assert total == done;
          return;
        }
      }
      WatchNothing(View());
      assert script[i..] == [] && total == done;
    }

    method Attend(a: Attempt, now: nat) returns (stop: bool)
      requires Valid() && hasScan
      modifies this`issues, this`applied, watcher, reconciler`snapshot, reconciler`lastSync, reconciler.builder
      ensures Valid()
      ensures View() == Run(true, old(View()), AttemptActions(old(watcher.connected), a))
      ensures stop <==> a.Stream? && a.ending.None? && (old(watcher.connected) || a.resync.Containers?)
    {
      hide IsBuild;
      ghost var s0 := View();
      match a
      case NoStream(m) =>
        RecordWatcherIssue(DockerEventsConnect, m, now);
        RunOne(true, s0, ConnectFailed(m));
        return false;
      case Stream(resync, resyncCerts, events, ending) =>
        if !watcher.connected {
          RunOne(true, s0, Resync(resync, resyncCerts));
          RunConcat(true, s0, [Resync(resync, resyncCerts)], EventActions(events) + Ending(ending));
          var ok := ResyncWatcher(resync, resyncCerts, now);
          if !ok {
            return false;
          }
        }
        stop := Follow(events, ending, now);
    }

    // One open stream, to its end.
    method Follow(events: seq<Delivery>, ending: Option<string>, now: nat) returns (stop: bool)
      requires Valid() && hasScan
      modifies this`issues, this`applied, watcher, reconciler`snapshot, reconciler`lastSync, reconciler.builder
      ensures Valid()
      ensures View() == Run(true, old(View()), EventActions(events) + Ending(ending))
      ensures stop <==> ending.None?
    {
      hide IsBuild;
      ghost var s0 := View();
      RunConcat(true, s0, EventActions(events), Ending(ending));
      ConsumeDockerEvents(events, now);
      ghost var s1 := View();
      if ending.None? {
        return true;
      }
      RunOne(true, s1, StreamFailed(ending.value));
      RecordWatcherIssue(DockerEventsStream, ending.value, now);
      return false;
    }
  }

  lemma RunOne(hasScan: bool, s: AppState, a: Action)
    ensures Run(hasScan, s, [a]) == Next(hasScan, s, a)
    ensures Run(hasScan, s, []) == s
  {
    assert [a][..0] == [];
  }
}
