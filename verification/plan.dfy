/** What the certificate plan promises: it partitions the served hostnames by project root, it
    uses a wildcard exactly when one suffices, and what it asks for covers what it serves. */
module PlanProperties {
  import opened Strings
  import opened Ordering
  import opened Hostnames
  import opened RouteModel
  import opened Inventory

  // A hostname is planned for exactly when a project root can be read off it.
  lemma PlannableMeaning(host: string, suffix: string)
    ensures Plannable(host, suffix) <==> ProjectRoot(host, suffix).Some?
  {
    if ProjectRoot(host, suffix).Some? {
      hide ProjectRoot;
      var project := RootParts(host, suffix);
      RootIsTail(host, suffix);
      var dotted := "." + PlannerSuffix(suffix);
      var root := ProjectRoot(host, suffix).value;
      assert root == project + dotted;
      assert host == host[..|host| - |root|] + project + dotted;
      SuffixOfConcat(host[..|host| - |root|] + project, dotted);
    }
  }

  // Why each decision is taken: a root without a stored certificate is new; with one it is kept
  // exactly when that covers every hostname, and its shape has changed otherwise.
  lemma DecisionReasons(hosts: set<string>, suffix: string, existing: map<string, StoredCertificate>, d: Decision)
    requires d in Plan(hosts, suffix, existing)
    ensures d.reason == NewProjectRoot <==> d.projectRoot !in existing
    ensures d.reason == CoveredByExisting <==> d.reuseExisting
    ensures d.reuseExisting <==>
            d.projectRoot in existing && forall h :: h in d.hostnames ==> IsCovered(h, existing[d.projectRoot].sans)
    ensures d.reason == ShapeChanged <==>
            d.projectRoot in existing && exists h :: h in d.hostnames && !IsCovered(h, existing[d.projectRoot].sans)
  {
    if d.projectRoot in existing { CoversAllMeaning(existing[d.projectRoot].sans, d.hostnames); }
    hide IsCovered, CoversAll, RequiredSANs;
  }

  // A route that lists no served hostnames is planned for under its own.
  lemma UnlistedRouteIsPlanned(routes: map<string, Route>, suffix: string, key: string)
    requires key in routes && routes[key].servedHostnames == [] && routes[key].hostname != ""
    requires ProjectRoot(Normalize(routes[key].hostname), suffix).Some?
    ensures Normalize(routes[key].hostname) in PlannedHosts(routes, suffix)
  {
    var h := Normalize(routes[key].hostname);
    PlannableMeaning(h, suffix);
    hide Normalize, ProjectRoot, Plannable;
    assert routes[key].hostname in ServedHosts(routes[key]);
    assert h in PlannedIn(ServedHosts(routes[key]), suffix);
  }

  // ----- Partition -----

  // Position i of the plan is the decision for this root.
  lemma DecisionAt(hosts: set<string>, suffix: string, existing: map<string, StoredCertificate>, i: nat)
    requires i < |Plan(hosts, suffix, existing)|
    ensures var d := Plan(hosts, suffix, existing)[i];
            && d.projectRoot in RootsOf(hosts, suffix)
            && d == Decide(d.projectRoot, Listing(HostsUnder(hosts, suffix, d.projectRoot)), existing)
            && Elements(d.hostnames) == HostsUnder(hosts, suffix, d.projectRoot)
            && StrictlySorted(d.hostnames) && d.hostnames != []
  {
    var roots := Listing(RootsOf(hosts, suffix));
    var root := roots[i];
    assert root in Elements(roots);
    var h :| h in hosts && ProjectRoot(h, suffix) == Some(root);
    assert h in HostsUnder(hosts, suffix, root);
    assert h in Elements(Listing(HostsUnder(hosts, suffix, root)));
  }

  lemma PositionOf(hosts: set<string>, suffix: string, existing: map<string, StoredCertificate>, h: string)
    returns (i: nat)
    requires h in hosts && ProjectRoot(h, suffix).Some?
    ensures i < |Plan(hosts, suffix, existing)|
    ensures var d := Plan(hosts, suffix, existing)[i];
            d.projectRoot == ProjectRoot(h, suffix).value && h in d.hostnames
  {
    var root := ProjectRoot(h, suffix).value;
    var roots := Listing(RootsOf(hosts, suffix));
    assert root in Elements(roots);
    i :| 0 <= i < |roots| && roots[i] == root;
    DecisionAt(hosts, suffix, existing, i);
    assert h in Elements(Plan(hosts, suffix, existing)[i].hostnames);
  }

  lemma RootsIncrease(hosts: set<string>, suffix: string, existing: map<string, StoredCertificate>, i: nat, j: nat)
    requires i < j < |Plan(hosts, suffix, existing)|
    ensures Less(Plan(hosts, suffix, existing)[i].projectRoot, Plan(hosts, suffix, existing)[j].projectRoot)
    ensures Plan(hosts, suffix, existing)[i].projectRoot != Plan(hosts, suffix, existing)[j].projectRoot
  {
    var roots := Listing(RootsOf(hosts, suffix));
    LessAsymmetric(roots[i], roots[j]);
  }

  // Every hostname that has a root is in exactly one decision, the one for that root; nothing
  // else is; roots and hostnames are listed in strictly increasing order.
  lemma PlanIsPartition(hosts: set<string>, suffix: string, existing: map<string, StoredCertificate>)
    ensures var ds := Plan(hosts, suffix, existing);
            && (forall i, j :: 0 <= i < j < |ds| ==> Less(ds[i].projectRoot, ds[j].projectRoot))
            && (forall i :: 0 <= i < |ds| ==> StrictlySorted(ds[i].hostnames) && ds[i].hostnames != [])
            && (forall i, h :: 0 <= i < |ds| && h in ds[i].hostnames ==>
                  h in hosts && ProjectRoot(h, suffix) == Some(ds[i].projectRoot))
            && (forall h :: h in hosts && ProjectRoot(h, suffix).Some? ==>
                  exists i :: 0 <= i < |ds| && h in ds[i].hostnames
                              && forall j :: 0 <= j < |ds| && h in ds[j].hostnames ==> j == i)
  {
    var ds := Plan(hosts, suffix, existing);
    forall i | 0 <= i < |ds|
      ensures StrictlySorted(ds[i].hostnames) && ds[i].hostnames != []
      ensures forall h :: h in ds[i].hostnames ==> h in hosts && ProjectRoot(h, suffix) == Some(ds[i].projectRoot)
    {
      DecisionAt(hosts, suffix, existing, i);
      assert forall h :: h in ds[i].hostnames ==> h in Elements(ds[i].hostnames);
    }
    forall i, j | 0 <= i < j < |ds| ensures Less(ds[i].projectRoot, ds[j].projectRoot) {
      RootsIncrease(hosts, suffix, existing, i, j);
    }
    forall h | h in hosts && ProjectRoot(h, suffix).Some?
      ensures exists i :: 0 <= i < |ds| && h in ds[i].hostnames
                          && forall j :: 0 <= j < |ds| && h in ds[j].hostnames ==> j == i
    {
      var i := PositionOf(hosts, suffix, existing, h);
      forall j | 0 <= j < |ds| && h in ds[j].hostnames ensures j == i {
        DecisionAt(hosts, suffix, existing, j);
        assert h in Elements(ds[j].hostnames);
        if j < i { RootsIncrease(hosts, suffix, existing, j, i); }
        if i < j { RootsIncrease(hosts, suffix, existing, i, j); }
      }
    }
  }

  // ----- The shape of planned hostnames and their roots -----

  // What every planned hostname is, because it went through Normalize.
  predicate Normalized(host: string) {
    ToLower(host) == host && CleanEnds(host, IsDot)
  }

  predicate CleanHost(host: string) {
    Normalized(host) && NoSpaces(host)
  }

  lemma NormalizeGives(raw: string)
    ensures Normalized(Normalize(raw))
  {
    var low := ToLower(TrimSpace(raw));
    ToLowerTwice(TrimSpace(raw));
    var i := TrimIsSlice(low, IsDot);
    var h := low[i..i + |TrimDots(low)|];
    assert ToLower(h) == h;
  }

  lemma CleanIsCanonical(host: string)
    requires CleanHost(host)
    ensures Canonical(host)
  {
    CanonicalShape(host);
  }

  lemma PlannedAreNormalized(routes: map<string, Route>, suffix: string)
    ensures forall h :: h in PlannedHosts(routes, suffix) ==>
              Normalized(h) && ProjectRoot(h, suffix).Some?
  {
    forall h | h in PlannedHosts(routes, suffix) ensures Normalized(h) && ProjectRoot(h, suffix).Some? {
      var k :| k in routes && h in PlannedIn(ServedHosts(routes[k]), suffix);
      var raw :| raw in ServedHosts(routes[k]) && h == Normalize(raw) && Plannable(h, suffix);
      NormalizeGives(raw);
    }
  }

  // A root is the tail of any host under it, and starts with a non-empty label.
  lemma RootIsTail(host: string, suffix: string)
    requires ProjectRoot(host, suffix).Some?
    ensures var root := ProjectRoot(host, suffix).value;
            && |root| <= |host| && root == host[|host| - |root|..]
            && root != "" && root[0] != '.'
            && root[|root| - 1] == ("." + PlannerSuffix(suffix))[|PlannerSuffix(suffix)|]
  {
    var project := RootParts(host, suffix);
    var root := ProjectRoot(host, suffix).value;
    assert root == project + ("." + PlannerSuffix(suffix));
    assert project[0] in project && root[0] == project[0];
    if host != root {
      var front := SuffixFront(host, "." + root);
      assert host == (front + ".") + root;
    }
  }

  lemma PlannerSuffixTail(suffix: string)
    ensures !IsSpace(("." + PlannerSuffix(suffix))[|PlannerSuffix(suffix)|])
  {
    var s := TrimSpace(suffix);
    var low := ToLower(s);
    var sfx := PlannerSuffix(suffix);
    if sfx != "" {
      assert sfx[|sfx| - 1] == low[|low| - 1] == LowerChar(s[|s| - 1]);
    }
  }

  lemma TailIsLower(host: string, i: nat)
    requires i <= |host| && ToLower(host) == host
    ensures ToLower(host[i..]) == host[i..]
  {
    assert forall k :: i <= k < |host| ==> ToLower(host)[k] == LowerChar(host[k]);
  }

  lemma RootShape(host: string, suffix: string)
    requires Normalized(host) && ProjectRoot(host, suffix).Some?
    ensures var root := ProjectRoot(host, suffix).value;
            && Normalized(root) && root != "" && !IsSpace(root[|root| - 1])
            && (NoSpaces(host) ==> CleanHost(root))
  {
    RootIsTail(host, suffix);
    PlannerSuffixTail(suffix);
    var root := ProjectRoot(host, suffix).value;
    TailIsLower(host, |host| - |root|);
  }

  lemma StarIsCanonical(root: string)
    requires Normalized(root) && root != "" && !IsSpace(root[|root| - 1])
    ensures Canonical("*." + root)
  {
    var star := "*." + root;
    ToLowerConcat("*.", root);
    CanonicalShape(star);
  }

  // ----- The wildcard form -----

  lemma StarMatches(root: string)
    ensures |Labels("*." + root)| == |Labels(root)| + 1
    ensures TrimPrefix("*." + root, "*.") == root
  {
    assert "*." + root == "*" + "." + root;
    SplitConcat("*", '.', root);
    SplitPlain("*", '.');
  }

  lemma LabelsUnderRoot(host: string, root: string)
    requires UnderRoot(host, root)
    ensures host == root || |Labels(host)| > |Labels(root)|
  {
    if host != root {
      var front := SuffixFront(host, "." + root);
      assert host == front + "." + root;
      SplitConcat(front, '.', root);
    }
  }

  lemma EligibleMeaning(root: string, hosts: seq<string>)
    requires forall h :: h in hosts ==> UnderRoot(h, root)
    ensures WildcardEligible(root, hosts) <==> forall h :: h in hosts ==> |Labels(h)| <= |Labels(root)| + 1
  {
    forall i | 0 <= i < |hosts| ensures UnderRoot(hosts[i], root)
      && (hosts[i] == root || |Labels(hosts[i])| > |Labels(root)|) {
      LabelsUnderRoot(hosts[i], root);
    }
  }

  // The wildcard is chosen exactly when no host is more than one label below its root.
  lemma WildcardFormIff(root: string, hosts: seq<string>, suffix: string)
    requires forall h :: h in hosts ==> ProjectRoot(h, suffix) == Some(root)
    ensures RequiredSANs(root, hosts) == [root, "*." + root] <==>
            forall h :: h in hosts ==> |Labels(h)| <= |Labels(root)| + 1
  {
    forall h | h in hosts ensures UnderRoot(h, root) {
      var _ := RootParts(h, suffix);
    }
    EligibleMeaning(root, hosts);
    hide ProjectRoot, UnderRoot, WildcardEligible, Labels;
    if !WildcardEligible(root, hosts) {
      var h :| h in hosts && |Labels(h)| > |Labels(root)| + 1;
      assert h in Elements(RequiredSANs(root, hosts));
      StarMatches(root);
    }
  }

  // ----- Coverage of what is asked for -----

  // Every requested name is canonical and lies under the root, and the root is one of them.
  lemma RequiredSANsShape(root: string, hosts: seq<string>, suffix: string)
    requires hosts != []
    requires forall h :: h in hosts ==> CleanHost(h) && ProjectRoot(h, suffix) == Some(root)
    ensures Canonical(root) && root in RequiredSANs(root, hosts)
    ensures forall s :: s in RequiredSANs(root, hosts) ==> Canonical(s) && ProjectRoot(s, suffix) == Some(root)
  {
    hide Canonical, ProjectRoot, Normalized;
    assert hosts[0] in hosts;
    RootNames(hosts[0], suffix);
    var sans := RequiredSANs(root, hosts);
    if !WildcardEligible(root, hosts) {
      assert root in Elements(sans);
      forall s | s in sans ensures Canonical(s) && ProjectRoot(s, suffix) == Some(root) {
        assert s in Elements(sans);
        if s != root { CleanIsCanonical(s); }
      }
    }
  }

  lemma RootNames(host: string, suffix: string)
    requires CleanHost(host) && ProjectRoot(host, suffix).Some?
    ensures var root := ProjectRoot(host, suffix).value;
            && Canonical(root) && ProjectRoot(root, suffix) == Some(root)
            && Canonical("*." + root) && ProjectRoot("*." + root, suffix) == Some(root)
  {
    RootShape(host, suffix);
    CleanIsCanonical(ProjectRoot(host, suffix).value);
    StarIsCanonical(ProjectRoot(host, suffix).value);
    RootOfStar(host, suffix);
  }

  lemma RootOfStar(host: string, suffix: string)
    requires ProjectRoot(host, suffix).Some?
    ensures var root := ProjectRoot(host, suffix).value;
            ProjectRoot(root, suffix) == Some(root) && ProjectRoot("*." + root, suffix) == Some(root)
  {
    var root := ProjectRoot(host, suffix).value;
    RootOfRoot(host, suffix);
    assert "*." + root == "*" + "." + root;
    RootOfChild("*", root, suffix);
  }

  // Whitespace-free hosts under one root are always covered by the names requested for them.
  lemma RequiredSANsCover(root: string, hosts: seq<string>, suffix: string)
    requires hosts != []
    requires forall h :: h in hosts ==> CleanHost(h) && ProjectRoot(h, suffix) == Some(root)
    ensures CoversAll(RequiredSANs(root, hosts), hosts)
  {
    assert hosts[0] in hosts;
    RootShape(hosts[0], suffix);
    if WildcardEligible(root, hosts) {
      WildcardFormCoverage(root, hosts, suffix);
    } else {
      var sans := RequiredSANs(root, hosts);
      forall h | h in hosts ensures IsCovered(h, sans) {
        assert h in Elements(sans);
        CleanIsCanonical(h);
        CoveredMeaning(h, sans);
        assert SanServes(h, h);
      }
      CoversAllMeaning(sans, hosts);
    }
  }

  // In the wildcard form, for any hosts at all, the one name that can escape coverage is the
  // root itself, and it does exactly when it starts with a space (" a.test"), unless its
  // normal form happens to be a wildcard (" *.test").
  lemma WildcardFormCoverage(root: string, hosts: seq<string>, suffix: string)
    requires hosts != [] && WildcardEligible(root, hosts)
    requires forall h :: h in hosts ==> Normalized(h) && ProjectRoot(h, suffix) == Some(root)
    ensures root != ""
    ensures CoversAll(RequiredSANs(root, hosts), hosts) <==>
            (root in hosts ==> !IsSpace(root[0]) || HasPrefix(Normalize(root), "*."))
  {
    assert hosts[0] in hosts;
    RootShape(hosts[0], suffix);
    RootOfRoot(hosts[0], suffix);
    StarIsCanonical(root);
    forall h | h in hosts
      ensures IsCovered(h, [root, "*." + root]) <==>
              h != root || !IsSpace(root[0]) || HasPrefix(Normalize(root), "*.")
    {
      if h == root {
        RootCoverage(root);
      } else {
        var i :| 0 <= i < |hosts| && hosts[i] == h;
        BelowRootCovered(h, root);
      }
    }
    CoversAllMeaning([root, "*." + root], hosts);
  }

  lemma BelowRootCovered(h: string, root: string)
    requires Canonical("*." + root) && WildcardMatches(h, root)
    ensures IsCovered(h, [root, "*." + root])
  {
    StarMatches(root);
    CoveredMeaning(h, [root, "*." + root]);
    assert SanServes("*." + root, h);
  }

  lemma RootCoverage(root: string)
    requires Normalized(root) && root != "" && !IsSpace(root[|root| - 1])
    requires Canonical("*." + root) && |Labels(root)| == 2
    ensures IsCovered(root, [root, "*." + root]) <==> !IsSpace(root[0]) || HasPrefix(Normalize(root), "*.")
  {
    RootServesItself(root);
    StarMissesRoot(root);
    CoveredByTwo(root, root, "*." + root);
  }

  lemma CoveredByTwo(host: string, a: string, b: string)
    ensures IsCovered(host, [a, b]) <==> SanServes(a, host) || SanServes(b, host)
  {
    var sans := [a, b];
    assert a in sans && b in sans;
    CoveredMeaning(host, sans);
  }

  lemma StarMissesRoot(root: string)
    requires Canonical("*." + root)
    ensures !SanServes("*." + root, root)
  {
    StarMatches(root);
  }

  lemma RootServesItself(root: string)
    requires Normalized(root) && root != "" && !IsSpace(root[|root| - 1]) && |Labels(root)| == 2
    ensures SanServes(root, root) <==> !IsSpace(root[0]) || HasPrefix(Normalize(root), "*.")
  {
    CanonicalShape(root);
    if HasPrefix(Normalize(root), "*.") { NormalFormServes(root); }
  }

  // Only leading characters are trimmed off a name that ends cleanly.
  lemma NormalizeDropsFront(host: string) returns (k: nat)
    requires Normalized(host) && host != "" && !IsSpace(host[|host| - 1])
    ensures k <= |host| && Normalize(host) == host[k..]
  {
    hide ToLower, Trim;
    var left := TrimCleanRight(host, IsSpace);
    TailIsLower(host, |host| - |left|);
    var rest := TrimCleanRight(left, IsDot);
    k := |host| - |rest|;
  }

  // What is trimmed off the front stops at a dot that another character follows.
  lemma NormalizeStopsAt(host: string, m: nat) returns (k: nat)
    requires Normalized(host) && 0 < m < |host| && !IsSpace(host[|host| - 1])
    requires host[m - 1] == '.' && host[m] != '.'
    ensures k <= m && Normalize(host) == host[k..]
  {
    hide Trim, ToLower;
    var i := TrimStopsAt(host, IsSpace, m - 1);
    TailIsLower(host, i);
    var j := TrimStopsAt(host[i..], IsDot, m - i);
    k := i + j;
    assert host[i..][j..] == host[k..];
  }

  lemma TrimStopsAt(s: string, cut: char -> bool, m: nat) returns (i: nat)
    requires m < |s| && !cut(s[m]) && !cut(s[|s| - 1])
    ensures i <= m && Trim(s, cut) == s[i..]
  {
    var t := TrimCleanRight(s, cut);
    TrimLeftStops(s, cut, m);
    i := |s| - |t|;
  }

  lemma {:induction false} TrimLeftStops(s: string, cut: char -> bool, m: nat)
    requires m < |s| && !cut(s[m])
    ensures |TrimLeft(s, cut)| >= |s| - m
  {
    if cut(s[0]) {
      TrimLeftStops(s[1..], cut, m - 1);
    }
  }

  lemma TrimCleanRight(s: string, cut: char -> bool) returns (t: string)
    requires s != "" && !cut(s[|s| - 1])
    ensures t == Trim(s, cut) == TrimLeft(s, cut) && 0 < |t| <= |s| && t == s[|s| - |t|..]
  {
    t := TrimLeft(s, cut);
    TrimLeftSlice(s, cut);
    TrimLeftKeepsLast(s, cut);
  }

  lemma NormalFormServes(root: string)
    requires Normalized(root) && root != "" && !IsSpace(root[|root| - 1])
    requires |Labels(root)| == 2 && HasPrefix(Normalize(root), "*.")
    ensures SanServes(root, root)
  {
    hide Normalize, Split, Normalized;
    var k := NormalizeDropsFront(root);
    var rest := TrimPrefix(Normalize(root), "*.");
    StarTail(root, k, rest);
  }

  lemma StarTail(root: string, k: nat, rest: string)
    requires k <= |root| && root[k..] == "*." + rest
    ensures HasSuffix(root, "." + rest) && |Labels(root)| > |Labels(rest)|
  {
    var front := root[..k] + "*";
    assert root == front + "." + rest == front + ("." + rest);
    SuffixOfConcat(front, "." + rest);
    SplitConcat(front, '.', rest);
  }

  // In the explicit form every host that does not start with a space is covered by its own name,
  // so all are covered exactly when some requested name serves each of the others.
  lemma ExplicitFormCoverage(root: string, hosts: seq<string>, suffix: string)
    requires hosts != [] && !WildcardEligible(root, hosts)
    requires forall h :: h in hosts ==> Normalized(h) && ProjectRoot(h, suffix) == Some(root)
    ensures CoversAll(RequiredSANs(root, hosts), hosts) <==>
            forall h :: h in hosts && h != "" && IsSpace(h[0]) ==>
              exists san :: (san in hosts || san == root) && SanServes(san, h)
  {
    hide ProjectRoot, SanServes, CoversAll, IsCovered, Normalized, WildcardEligible;
    var sans := RequiredSANs(root, hosts);
    CoversAllMeaning(sans, hosts);
    forall h | h in hosts
      ensures h != ""
      ensures IsCovered(h, sans) <==> !IsSpace(h[0]) || exists san :: (san in hosts || san == root) && SanServes(san, h)
    {
      CoveredMeaning(h, sans);
      ServesItself(h, suffix);
      forall san ensures san in sans <==> san in hosts || san == root {
        assert san in Elements(sans) <==> san in Elements(hosts) + {root};
      }
    }
  }

  lemma ServesItself(host: string, suffix: string)
    requires Normalized(host) && ProjectRoot(host, suffix).Some?
    ensures host != "" && (!IsSpace(host[0]) ==> SanServes(host, host))
  {
    RootIsTail(host, suffix);
    PlannerSuffixTail(suffix);
    CanonicalShape(host);
  }

  // ----- A certificate that misses its own root -----

  const DOTTED := ". a.test"
  const SPACED := " a.test"

  lemma DottedNormal()
    ensures Normalize(DOTTED) == SPACED
  {
    TrimKeeps(DOTTED, IsSpace);
    assert ToLower(DOTTED) == DOTTED == "." + SPACED + "";
    TrimPadded(".", SPACED, "", IsDot);
  }

  lemma SpacedRoot()
    ensures ProjectRoot(SPACED, "test") == Some(SPACED) && Normalized(SPACED)
  {
    assert ToLower(SPACED) == SPACED;
    TestSuffix();
    hide ProjectRoot, PlannerSuffix;
    assert SPACED == " a" + "." + "test";
    RootFromParts(SPACED, "test", " a");
  }

  lemma SpacedNotStar()
    ensures !HasPrefix(Normalize(SPACED), "*.")
  {
    var core := "a.test";
    assert SPACED == " " + core + "";
    TrimPadded(" ", core, "", IsSpace);
    assert ToLower(core) == core;
    TrimKeeps(core, IsDot);
    assert Normalize(SPACED)[0] == 'a';
  }

  // The routed name ". a.test" is planned for under the root " a.test", and the names requested
  // for that root do not cover it.
  lemma RequestCanMissItsRoot(routes: map<string, Route>, key: string, existing: map<string, StoredCertificate>)
    requires routes.Keys == {key} && ServedHosts(routes[key]) == [DOTTED]
    ensures PlannedHosts(routes, "test") == {SPACED}
    ensures exists d :: d in Plan(PlannedHosts(routes, "test"), "test", existing)
                        && d.projectRoot == SPACED && SPACED in d.hostnames && !CoversAll(d.requiredSans, d.hostnames)
  {
    OnlySpacedPlanned(routes, key);
    hide PlannedHosts, CoversAll, Plan, ServedHosts;
    var d := SpacedDecision(existing);
  }

  lemma SpacedDecision(existing: map<string, StoredCertificate>) returns (d: Decision)
    ensures d in Plan({SPACED}, "test", existing) && d.projectRoot == SPACED && SPACED in d.hostnames
    ensures !CoversAll(d.requiredSans, d.hostnames)
  {
    SpacedRoot();
    hide ProjectRoot, CoversAll, RequiredSANs, Normalized;
    var i := PositionOf({SPACED}, "test", existing, SPACED);
    DecisionAt({SPACED}, "test", existing, i);
    d := Plan({SPACED}, "test", existing)[i];
    assert HostsUnder({SPACED}, "test", SPACED) == {SPACED};
    SpacedUncovered(d.hostnames);
  }

  lemma OnlySpacedPlanned(routes: map<string, Route>, key: string)
    requires routes.Keys == {key} && ServedHosts(routes[key]) == [DOTTED]
    ensures PlannedHosts(routes, "test") == {SPACED}
  {
    DottedNormal();
    SpacedRoot();
    PlannableMeaning(SPACED, "test");
    hide Plannable, Normalize, ServedHosts, ProjectRoot;
    var h := DOTTED;
    assert h in ServedHosts(routes[key]);
    assert SPACED in PlannedIn(ServedHosts(routes[key]), "test");
    assert forall k :: k in routes.Keys ==> k == key;
  }

  lemma SpacedUncovered(hosts: seq<string>)
    requires Elements(hosts) == {SPACED}
    ensures !CoversAll(RequiredSANs(SPACED, hosts), hosts)
  {
    SpacedRoot();
    SpacedNotStar();
    assert SPACED in Elements(hosts);
    hide ProjectRoot, Normalize, CoversAll;
    forall i | 0 <= i < |hosts| ensures hosts[i] == SPACED {
      assert hosts[i] in Elements(hosts);
    }
    WildcardFormCoverage(SPACED, hosts, "test");
  }
}
