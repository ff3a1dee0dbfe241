/** The certificate side of internal/daemon/network.go: preparing certificates for a snapshot and
    refreshing the two copies of them that the runtime keeps. */
module CertificateRuntime {
  import opened Strings
  import opened RouteModel
  import opened Inventory
  import opened MkCert
  import opened TlsListener

  // ----- Preparing -----

  // The stored form of what was issued for a decision.
  function FileIssued(d: Decision, issued: IssuedCertificate): StoredCertificate {
    StoredCertificate(if issued.projectRoot == "" then d.projectRoot else issued.projectRoot,
                      issued.sans, issued.certPath, issued.keyPath)
  }

  // What becomes of one decision: kept, issued, or failed (None).
  function PrepareOne(d: Decision, existing: map<string, StoredCertificate>, dir: string,
                      issue: Issuer): Option<StoredCertificate>
    requires d.reuseExisting ==> d.projectRoot in existing
  {
    if d.reuseExisting then Some(existing[d.projectRoot])
    else match issue(dir, d.requiredSans)
      case Failed(_) => None
      case Issued(cert) => Some(FileIssued(d, cert))
  }

  ghost predicate ReuseKnown(ds: seq<Decision>, existing: map<string, StoredCertificate>) {
    forall i :: 0 <= i < |ds| && ds[i].reuseExisting ==> ds[i].projectRoot in existing
  }

  // The certificates of all decisions in order, or None when any of them failed.
  ghost function Prepared(ds: seq<Decision>, existing: map<string, StoredCertificate>, dir: string, issue: Issuer)
    : (r: Option<seq<StoredCertificate>>)
    requires ReuseKnown(ds, existing)
    ensures r.Some? <==> forall i :: 0 <= i < |ds| ==> PrepareOne(ds[i], existing, dir, issue).Some?
    ensures r.Some? ==> |r.value| == |ds|
    ensures r.Some? ==> forall i {:trigger r.value[i]} :: 0 <= i < |ds| ==>
              PrepareOne(ds[i], existing, dir, issue) == Some(r.value[i])
  {
    if forall i :: 0 <= i < |ds| ==> PrepareOne(ds[i], existing, dir, issue).Some? then
      Some(seq(|ds|, i requires 0 <= i < |ds| => PrepareOne(ds[i], existing, dir, issue).value))
    else None
  }

  lemma PlanReuseKnown(hosts: set<string>, suffix: string, existing: map<string, StoredCertificate>)
    ensures ReuseKnown(Plan(hosts, suffix, existing), existing)
  {
  }

  // What prepareStoredCertificates comes to on a snapshot.
  ghost function PreparedFor(routes: map<string, Route>, suffix: string, existing: map<string, StoredCertificate>,
                             dir: string, issue: Issuer): Option<seq<StoredCertificate>>
  {
    var ds := Plan(PlannedHosts(routes, suffix), suffix, existing);
    PlanReuseKnown(PlannedHosts(routes, suffix), suffix, existing);
    Prepared(ds, existing, dir, issue)
  }

  function OutputDir(dir: string): string {
    if dir == "" then "." else dir
  }

  // The roots whose certificate could not be issued, in the order of the plan.
  function FailedRoots(ds: seq<Decision>, dir: string, issue: Issuer): seq<string> {
    if ds == [] then []
    else
      var last := ds[|ds| - 1];
      FailedRoots(ds[..|ds| - 1], dir, issue) +
      if !last.reuseExisting && issue(dir, last.requiredSans).Failed? then [last.projectRoot] else []
  }

  lemma {:induction false} FailedRootsMeaning(ds: seq<Decision>, dir: string, issue: Issuer, root: string)
    ensures root in FailedRoots(ds, dir, issue) <==>
            exists d :: d in ds && d.projectRoot == root && !d.reuseExisting && issue(dir, d.requiredSans).Failed?
  {
    if ds != [] {
      FailedRootsMeaning(ds[..|ds| - 1], dir, issue, root);
      assert ds == ds[..|ds| - 1] + [ds[|ds| - 1]];
    }
  }

  // No root failed exactly when every decision could be carried out.
  lemma {:induction false} NoneFailed(ds: seq<Decision>, existing: map<string, StoredCertificate>, dir: string,
                                      issue: Issuer)
    requires ReuseKnown(ds, existing)
    ensures FailedRoots(ds, dir, issue) == [] <==> Prepared(ds, existing, dir, issue).Some?
  {
    if ds != [] {
      var n := |ds| - 1;
      var front := ds[..n];
      assert forall i :: 0 <= i < n ==> front[i] == ds[i];
      NoneFailed(front, existing, dir, issue);
      hide Prepared;
      if FailedRoots(ds, dir, issue) == [] {
        forall i | 0 <= i < |ds| ensures PrepareOne(ds[i], existing, dir, issue).Some? {
          if i < n { assert PrepareOne(front[i], existing, dir, issue).Some?; }
        }
      } else if Prepared(ds, existing, dir, issue).Some? {
        assert PrepareOne(ds[n], existing, dir, issue).Some?;
        assert forall i :: 0 <= i < n ==> PrepareOne(front[i], existing, dir, issue).Some?;
      }
    }
  }

  // What a successful preparation holds at each position, said outright: a reused certificate as it
  // was stored, an issued one with the issuer's names and paths, filed under the issuer's root
  // unless that is blank.
  lemma PreparedAsIssued(ds: seq<Decision>, existing: map<string, StoredCertificate>, dir: string, issue: Issuer,
                         i: nat)
    requires ReuseKnown(ds, existing) && Prepared(ds, existing, OutputDir(dir), issue).Some? && i < |ds|
    ensures var d, c := ds[i], Prepared(ds, existing, OutputDir(dir), issue).value[i];
            if d.reuseExisting then c == existing[d.projectRoot]
            else
              var r := issue(if dir != "" then dir else ".", d.requiredSans);
              && r.Issued? && c.certPath == r.cert.certPath && c.keyPath == r.cert.keyPath && c.sans == r.cert.sans
              && c.projectRoot == (if r.cert.projectRoot != "" then r.cert.projectRoot else d.projectRoot)
  {
    assert PrepareOne(ds[i], existing, OutputDir(dir), issue) ==
           Some(Prepared(ds, existing, OutputDir(dir), issue).value[i]);
  }

  // The error that the source returns counts the failed roots and names the first of them.
  method PrepareStoredCertificates(routes: map<string, Route>, suffix: string, existing: map<string, StoredCertificate>,
                                   certOutputDir: string, issue: Issuer)
    returns (prepared: seq<StoredCertificate>, failures: seq<string>)
    ensures failures == [] <==> PreparedFor(routes, suffix, existing, OutputDir(certOutputDir), issue).Some?
    ensures failures == [] ==> PreparedFor(routes, suffix, existing, OutputDir(certOutputDir), issue) == Some(prepared)
    ensures failures ==
            FailedRoots(Plan(PlannedHosts(routes, suffix), suffix, existing), OutputDir(certOutputDir), issue)
  {
    var decisions := BuildCertificateInventory(routes, suffix, existing);
    PlanReuseKnown(PlannedHosts(routes, suffix), suffix, existing);
    prepared, failures := CarryOut(decisions, existing, OutputDir(certOutputDir), issue);
  }

  method CarryOut(decisions: seq<Decision>, existing: map<string, StoredCertificate>, dir: string, issue: Issuer)
    returns (prepared: seq<StoredCertificate>, failures: seq<string>)
    requires ReuseKnown(decisions, existing)
    ensures failures == [] <==> Prepared(decisions, existing, dir, issue).Some?
    ensures failures == [] ==> Prepared(decisions, existing, dir, issue) == Some(prepared)
    ensures failures == FailedRoots(decisions, dir, issue)
  {
    prepared, failures := [], [];
    for i := 0 to |decisions|
      invariant failures == FailedRoots(decisions[..i], dir, issue)
      invariant failures == [] ==>
                  |prepared| == i && forall k :: 0 <= k < i ==>
                    PrepareOne(decisions[k], existing, dir, issue) == Some(prepared[k])
    {
      assert decisions[..i + 1][..i] == decisions[..i];
      var decision := decisions[i];
      if decision.reuseExisting {
        prepared := prepared + [existing[decision.projectRoot]];
        continue;
      }
      match issue(dir, decision.requiredSans)
      case Failed(_) =>
        failures := failures + [decision.projectRoot];
      case Issued(cert) =>
        prepared := prepared + [FileIssued(decision, cert)];
    }
    assert decisions[..|decisions|] == decisions;
    NoneFailed(decisions, existing, dir, issue);
    if failures == [] {
      assert Prepared(decisions, existing, dir, issue).value == prepared;
    }
  }

  // ----- Indexing -----

  // Later certificates under the same root win.
  ghost function Index(stored: seq<StoredCertificate>): map<string, StoredCertificate> {
    if stored == [] then map[]
    else
      var last := stored[|stored| - 1];
      var before := Index(stored[..|stored| - 1]);
      if last.projectRoot == "" then before else before[last.projectRoot := last]
  }

  lemma {:induction false} IndexKeys(stored: seq<StoredCertificate>, k: string)
    ensures k in Index(stored) <==> k != "" && exists c :: c in stored && c.projectRoot == k
  {
    if stored != [] {
      var front, last := stored[..|stored| - 1], stored[|stored| - 1];
      IndexKeys(front, k);
      assert stored == front + [last];
    }
  }

  lemma {:induction false} IndexLastWins(stored: seq<StoredCertificate>, i: nat)
    requires i < |stored| && stored[i].projectRoot != ""
    requires forall j :: i < j < |stored| ==> stored[j].projectRoot != stored[i].projectRoot
    ensures stored[i].projectRoot in Index(stored) && Index(stored)[stored[i].projectRoot] == stored[i]
  {
    var n := |stored| - 1;
    if i < n {
      var front := stored[..n];
      assert front[i] == stored[i];
      IndexLastWins(front, i);
    }
  }

  method IndexStoredCertificates(stored: seq<StoredCertificate>) returns (indexed: map<string, StoredCertificate>)
    ensures indexed == Index(stored)
  {
    indexed := map[];
    for i := 0 to |stored|
      invariant indexed == Index(stored[..i])
    {
      assert stored[..i + 1][..i] == stored[..i];
      if stored[i].projectRoot == "" {
        continue;
      }
      indexed := indexed[stored[i].projectRoot := stored[i]];
    }
    assert stored[..|stored|] == stored;
  }

  // ----- The runtime's state -----

  datatype CertState = CertState(stored: map<string, StoredCertificate>, listener: CertMap, ready: bool)

  // What the outside world supplies to one refresh: the snapshot it reads, and how issuing and
  // loading behave during it. No two decisions of a plan ask for the same names, so a function
  // of the names describes every behaviour an issuer can show within one refresh.
  datatype World = World(routes: map<string, Route>, issue: Issuer, load: Loader)

  datatype Config = Config(suffix: string, fixed: CertMap, dir: string)

  ghost predicate Succeeds(cfg: Config, existing: map<string, StoredCertificate>, w: World) {
    var prepared := PreparedFor(w.routes, cfg.suffix, existing, OutputDir(cfg.dir), w.issue);
    prepared.Some? && (cfg.fixed == map[] ==> StoredInventory(prepared.value, w.load).Some?)
  }

  // The state that preparing and loading successfully ends in.
  ghost predicate Installed(cfg: Config, existing: map<string, StoredCertificate>, w: World, s: CertState) {
    var prepared := PreparedFor(w.routes, cfg.suffix, existing, OutputDir(cfg.dir), w.issue);
    && prepared.Some?
    && IsInventory(cfg.fixed, prepared.value, w.load, Some(s.listener))
    && s.stored == Index(prepared.value)
    && s.ready == (cfg.fixed != map[] || prepared.value != [])
  }

  // One call of RefreshCertificates. A failure changes neither copy and clears readiness.
  ghost predicate Refreshes(cfg: Config, s: CertState, w: World, s': CertState) {
    if Succeeds(cfg, s.stored, w) then Installed(cfg, s.stored, w, s')
    else s' == s.(ready := false)
  }

  class NetworkRuntime {
    const cfg: Config
    const httpsHandler: HTTPSListener
    var storedCerts: map<string, StoredCertificate>
    var certificateReady: bool

    ghost function View(): CertState
      reads this, httpsHandler
    {
      CertState(storedCerts, httpsHandler.certificates, certificateReady)
    }

    // NewNetworkRuntime: there is no runtime at all when the initial preparation fails.
    static method New(cfg: Config, existing: map<string, StoredCertificate>, w: World) returns (r: NetworkRuntime?)
      ensures r != null <==> Succeeds(cfg, existing, w)
      ensures r != null ==> fresh(r) && fresh(r.httpsHandler) && r.cfg == cfg
      ensures r != null ==> r.httpsHandler.managedSuffix == cfg.suffix
      ensures r != null ==> Installed(cfg, existing, w, r.View())
    {
      var prepared, failures := PrepareStoredCertificates(w.routes, cfg.suffix, existing, cfg.dir, w.issue);
      if failures != [] {
        return null;
      }
      var handler, built := HTTPSListener.New(cfg.suffix, cfg.fixed, prepared, w.load);
      if handler == null {
        return null;
      }
      var stored := IndexStoredCertificates(prepared);
      r := new NetworkRuntime(cfg, handler, stored, |cfg.fixed| > 0 || |prepared| > 0);
    }

    constructor (cfg: Config, handler: HTTPSListener, stored: map<string, StoredCertificate>, ready: bool)
      ensures this.cfg == cfg && httpsHandler == handler && storedCerts == stored && certificateReady == ready
    {
      this.cfg, httpsHandler, storedCerts, certificateReady := cfg, handler, stored, ready;
    }

    method RefreshCertificates(w: World) returns (ok: bool)
      modifies this, httpsHandler
      ensures Refreshes(cfg, old(View()), w, View())
      ensures ok <==> Succeeds(cfg, old(storedCerts), w)
    {
      var prepared, failures := PrepareStoredCertificates(w.routes, cfg.suffix, storedCerts, cfg.dir, w.issue);
      if failures != [] {
        certificateReady := false;
        return false;
      }
      var replaced, built := httpsHandler.ReplaceCertificates(cfg.fixed, prepared, w.load);
      if !replaced {
        certificateReady := false;
        return false;
      }
      storedCerts := IndexStoredCertificates(prepared);
      certificateReady := |cfg.fixed| > 0 || |prepared| > 0;
      return true;
    }
  }
}
