/** What holds over every serial run of the daemon machine. */
module Watching {
  import opened Strings
  import opened Reconcile
  import opened Daemon

  // ----- Reading a history of actions, without the machine -----

  // The action recorded a Docker failure.
  predicate IsFailure(hasScan: bool, a: Action) {
    match a
    case PingFailed(_) => true
    case ConnectFailed(_) => true
    case StreamFailed(_) => true
    case Refresh(scan, _) => hasScan && scan.ScanFailed?
    case Resync(scan, _) => scan.ScanFailed?
    case Event(name, scan, _) => Supported(name) && scan.ScanFailed?
    case Note(_) => false
    case Pause(_) => false
  }

  // The action rebuilt the snapshot from this scan.
  function SyncedScan(hasScan: bool, a: Action): Option<seq<ContainerState>> {
    match a
    case Refresh(scan, _) => if !hasScan then Some([]) else if scan.Containers? then Some(scan.list) else None
    case Resync(scan, _) => if scan.Containers? then Some(scan.list) else None
    case Event(name, scan, _) => if Supported(name) && scan.Containers? then Some(scan.list) else None
    case _ => None
  }

  // The issue that a failed certificate refresh is recorded as.
  function Reported(certs: Option<string>): seq<Issue> {
    match certs
    case Some(message) => [Issue(CertificateRefresh, message)]
    case None => []
  }

  function Emitted(hasScan: bool, a: Action): seq<Issue> {
    match a
    case PingFailed(m) => [Issue(DockerPing, m)]
    case ConnectFailed(m) => [Issue(DockerEventsConnect, m)]
    case StreamFailed(m) => [Issue(DockerEventsStream, m)]
    case Refresh(scan, certs) =>
      if hasScan && scan.ScanFailed? then [Issue(DockerScan, scan.message)] else Reported(certs)
    case Resync(scan, certs) =>
      if scan.ScanFailed? then [Issue(DockerReconnectSync, scan.message)] else Reported(certs)
    case Event(name, scan, certs) =>
      if !Supported(name) then []
      else if scan.ScanFailed? then [Issue(DockerEventSync, "sync " + name + " event: " + scan.message)]
      else Reported(certs)
    case Note(issue) => [issue]
    case Pause(_) => []
  }

  function History(hasScan: bool, actions: seq<Action>): seq<Issue> {
    if actions == [] then [] else History(hasScan, actions[..|actions| - 1]) + Emitted(hasScan, actions[|actions| - 1])
  }

  // ----- Single steps -----

  // An event that is not supported changes nothing at all.
  lemma UnsupportedChangesNothing(hasScan: bool, s: AppState, name: string, scan: ScanResult, certs: Option<string>)
    ensures !Supported(name) <==> forall scan, certs :: Next(hasScan, s, Event(name, scan, certs)) == s &&
                                                        SyncedScan(hasScan, Event(name, scan, certs)).None?
  {
    if Supported(name) {
      assert SyncedScan(hasScan, Event(name, Containers([]), None)).Some?;
    }
  }

  // Connected turns from false to true only together with a rebuild from a whole scan.
  lemma OnlySyncConnects(hasScan: bool, s: AppState, a: Action)
    requires !s.connected && Next(hasScan, s, a).connected
    ensures SyncedScan(hasScan, a) == Some(Next(hasScan, s, a).applied)
  {
  }

  // ----- Whole runs -----

  // The watcher is connected exactly when every recorded Docker failure has been followed by a
  // successful synchronisation.
  lemma {:induction false} ConnectedMeaning(hasScan: bool, actions: seq<Action>)
    ensures Run(hasScan, START, actions).connected <==>
            forall i :: 0 <= i < |actions| && IsFailure(hasScan, actions[i]) ==>
              exists j :: i < j < |actions| && SyncedScan(hasScan, actions[j]).Some?
  {
    if actions != [] {
      var n := |actions| - 1;
      var front, last := actions[..n], actions[n];
      ConnectedMeaning(hasScan, front);
      StepConnected(hasScan, Run(hasScan, START, front), last);
      assert forall i :: 0 <= i < n ==> front[i] == actions[i];
      hide Next, IsFailure, SyncedScan;
    }
  }

  // What one action does to the connection and to the applied scan.
  lemma StepConnected(hasScan: bool, s: AppState, a: Action)
    ensures Next(hasScan, s, a).connected <==>
            SyncedScan(hasScan, a).Some? || (s.connected && !IsFailure(hasScan, a))
    ensures Next(hasScan, s, a).applied == (match SyncedScan(hasScan, a) case Some(list) => list case None => s.applied)
    ensures SyncedScan(hasScan, a).Some? ==> !IsFailure(hasScan, a)
  {
  }

  // Action j is the last one that synchronised, and it did so from this scan.
  ghost predicate LastSync(hasScan: bool, actions: seq<Action>, j: int, scan: seq<ContainerState>) {
    0 <= j < |actions| && SyncedScan(hasScan, actions[j]) == Some(scan)
    && forall k :: j < k < |actions| ==> SyncedScan(hasScan, actions[k]).None?
  }

  ghost predicate AppliedFrom(hasScan: bool, actions: seq<Action>, applied: seq<ContainerState>) {
    || (applied == [] && forall j :: 0 <= j < |actions| ==> SyncedScan(hasScan, actions[j]).None?)
    || exists j :: LastSync(hasScan, actions, j, applied)
  }

  // The snapshot is built from the scan of the last successful synchronisation, or from nothing
  // before the first one.
  lemma {:induction false} AppliedMeaning(hasScan: bool, actions: seq<Action>)
    ensures AppliedFrom(hasScan, actions, Run(hasScan, START, actions).applied)
  {
    if actions != [] {
      var n := |actions| - 1;
      AppliedMeaning(hasScan, actions[..n]);
      StepConnected(hasScan, Run(hasScan, START, actions[..n]), actions[n]);
      hide Next, SyncedScan, AppliedFrom;
      AppliedOneMore(hasScan, actions, Run(hasScan, START, actions[..n]).applied);
    }
  }

  lemma AppliedOneMore(hasScan: bool, actions: seq<Action>, before: seq<ContainerState>)
    requires actions != [] && AppliedFrom(hasScan, actions[..|actions| - 1], before)
    ensures var last := SyncedScan(hasScan, actions[|actions| - 1]);
            AppliedFrom(hasScan, actions, match last case Some(list) => list case None => before)
  {
    hide SyncedScan;
    var n := |actions| - 1;
    var front, last := actions[..n], SyncedScan(hasScan, actions[n]);
    assert forall i :: 0 <= i < n ==> front[i] == actions[i];
    if last.Some? {
      assert LastSync(hasScan, actions, n, last.value);
    } else if exists j :: LastSync(hasScan, front, j, before) {
      var j :| LastSync(hasScan, front, j, before);
      assert LastSync(hasScan, actions, j, before);
    }
  }

  // Routing is paused exactly when some request to pause was followed by none to resume; nothing
  // else that happens touches the flag.
  lemma {:induction false} PausedMeaning(hasScan: bool, actions: seq<Action>)
    ensures Run(hasScan, START, actions).paused <==>
            exists i :: 0 <= i < |actions| && actions[i] == Pause(true)
                        && forall j :: i < j < |actions| ==> actions[j] != Pause(false)
  {
    if actions != [] {
      var n := |actions| - 1;
      var front, last := actions[..n], actions[n];
      PausedMeaning(hasScan, front);
      StepPaused(hasScan, Run(hasScan, START, front), last);
      assert forall i :: 0 <= i < n ==> front[i] == actions[i];
      hide Next;
      if last != Pause(false) && Run(hasScan, START, front).paused {
        var i :| 0 <= i < n && front[i] == Pause(true) && forall j :: i < j < n ==> front[j] != Pause(false);
        assert actions[i] == Pause(true) && forall j :: i < j < |actions| ==> actions[j] != Pause(false);
      }
    }
  }

  lemma StepPaused(hasScan: bool, s: AppState, a: Action)
    ensures Next(hasScan, s, a).paused <==> a == Pause(true) || (s.paused && a != Pause(false))
    ensures a.Pause? ==> Next(hasScan, s, a) == s.(paused := a == Pause(true))
  {
  }

  // The events that Docker can send and that the daemon acts on.
  lemma SupportedExactly(event: string)
    ensures Supported(event) <==> event in {"start", "stop", "die", "destroy", "rename", "update"}
  {
  }

  // What is stored are the last entries, in order, and never more than 25.
  lemma WindowMeaning(history: seq<Issue>)
    ensures |Window(history)| == (if |history| < 25 then |history| else 25)
    ensures history == history[..|history| - |Window(history)|] + Window(history)
  {
  }

  // The stored issues are the last 25 of everything ever recorded.
  lemma {:induction false} IssuesAreWindow(hasScan: bool, actions: seq<Action>)
    ensures Run(hasScan, START, actions).issues == Window(History(hasScan, actions))
  {
    if actions != [] {
      var n := |actions| - 1;
      var front, last := actions[..n], actions[n];
      IssuesAreWindow(hasScan, front);
      WindowAppend(History(hasScan, front), Emitted(hasScan, last));
      StepIssues(hasScan, Run(hasScan, START, front), last);
    }
  }

  lemma StepIssues(hasScan: bool, s: AppState, a: Action)
    requires |s.issues| <= SESSION_ISSUE_LIMIT
    ensures Next(hasScan, s, a).issues == Window(s.issues + Emitted(hasScan, a))
  {
    assert s.issues + [] == s.issues;
  }

  lemma WindowAppend(history: seq<Issue>, more: seq<Issue>)
    ensures Window(Window(history) + more) == Window(history + more)
    ensures |Window(history)| <= SESSION_ISSUE_LIMIT
  {
    if |history| > SESSION_ISSUE_LIMIT {
      var cut := |history| - SESSION_ISSUE_LIMIT;
      assert history + more == history[..cut] + (Window(history) + more);
      DropFront(history[..cut], Window(history) + more, |more|);
    }
  }

  lemma DropFront(front: seq<Issue>, rest: seq<Issue>, k: nat)
    requires k <= |rest|
    ensures (front + rest)[|front| + k..] == rest[k..]
  {
  }

  // ----- The retry loop -----

  // The kind and message of the failure that ends an attempt, if one does.
  function AttemptFailure(connected: bool, a: Attempt): Option<Issue> {
    match a
    case NoStream(m) => Some(Issue(DockerEventsConnect, m))
    case Stream(resync, _, _, ending) =>
      if !connected && resync.ScanFailed? then Some(Issue(DockerReconnectSync, resync.message))
      else if ending.Some? then Some(Issue(DockerEventsStream, ending.value))
      else None
  }

  // An attempt that fails leaves the watcher disconnected with the failure as the newest issue.
  lemma FailedAttemptDisconnects(s: AppState, a: Attempt)
    requires AttemptFailure(s.connected, a).Some?
    ensures var s' := Run(true, s, AttemptActions(s.connected, a));
            !s'.connected && s'.issues != [] && s'.issues[|s'.issues| - 1] == AttemptFailure(s.connected, a).value
  {
    var actions := AttemptActions(s.connected, a);
    assert actions != [];
    var n := |actions| - 1;
    hide Run;
    LastAction(s, actions);
    DisconnectedLast(Run(true, s, actions[..n]), AttemptFailure(s.connected, a).value);
  }

  lemma LastAction(s: AppState, actions: seq<Action>)
    requires actions != []
    ensures Run(true, s, actions) == Next(true, Run(true, s, actions[..|actions| - 1]), actions[|actions| - 1])
  {
  }

  lemma DisconnectedLast(s: AppState, issue: Issue)
    ensures var s' := Disconnected(s, issue.kind, issue.message);
            !s'.connected && s'.issues != [] && s'.issues[|s'.issues| - 1] == issue
  {
  }

  // The loop goes on after every failed attempt, and ends with the first that does not fail: a
  // stream that was followed until the daemon was shut down.
  lemma ShutdownEndsWatching(s: AppState, a: Attempt, rest: seq<Attempt>)
    ensures var actions := AttemptActions(s.connected, a);
            WatchActions(s, [a] + rest) ==
            if AttemptFailure(s.connected, a).None? then actions
            else actions + WatchActions(Run(true, s, actions), rest)
  {
    assert ([a] + rest)[1..] == rest;
    WatchOne(s, [a] + rest);
    hide Run, AttemptActions;
  }

  // A disconnected watcher synchronises before it takes any event from a stream, and takes none
  // when that fails; a connected one never synchronises anew.
  lemma ResyncComesFirst(connected: bool, a: Attempt)
    requires a.Stream?
    ensures var actions := AttemptActions(connected, a);
            if connected then forall x :: x in actions ==> !x.Resync?
            else
              && actions != [] && actions[0] == Resync(a.resync, a.resyncCerts)
              && (a.resync.ScanFailed? ==> |actions| == 1)
              && (a.resync.Containers? ==> actions[1..] == AttemptActions(true, a))
  {
  }

  // ----- The API view -----

  function Reversed(s: seq<Issue>): (r: seq<Issue>)
    ensures |r| == |s|
    ensures forall i {:trigger r[i]} :: 0 <= i < |s| ==> r[i] == s[|s| - 1 - i]
  {
    seq(|s|, i requires 0 <= i < |s| => s[|s| - 1 - i])
  }

  // admin.BuildSessionIssues: newest first, at most 25.
  method BuildSessionIssues(issues: seq<Issue>) returns (out: seq<Issue>)
    ensures out == Reversed(Window(issues))
  {
    if |issues| == 0 {
      return [];
    }
    var limit := SESSION_ISSUE_LIMIT;
    if |issues| < limit {
      limit := |issues|;
    }
    out := [];
    var i := |issues| - 1;
    while i >= 0 && |out| < limit
      invariant -1 <= i < |issues| && |out| == |issues| - 1 - i <= limit
      invariant forall k :: 0 <= k < |out| ==> out[k] == issues[|issues| - 1 - k]
    {
      out := out + [issues[i]];
      i := i - 1;
    }
    assert |Window(issues)| == limit;
    assert out == Reversed(Window(issues));
  }

  // What the API shows after any run is exactly the reverse of the stored window.
  lemma ViewIsReversedHistory(hasScan: bool, actions: seq<Action>)
    ensures Reversed(Window(Run(hasScan, START, actions).issues)) == Reversed(Window(History(hasScan, actions)))
  {
    IssuesAreWindow(hasScan, actions);
    WindowAppend(History(hasScan, actions), []);
    assert Window(History(hasScan, actions)) + [] == Window(History(hasScan, actions));
    assert History(hasScan, actions) + [] == History(hasScan, actions);
  }
}
