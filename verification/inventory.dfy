/** internal/certs/store.go: which certificates the routed hostnames need. */
module Inventory {
  import opened Strings
  import opened Ordering
  import opened Hostnames
  import opened RouteModel

  datatype StoredCertificate = StoredCertificate(projectRoot: string, sans: seq<string>,
                                                 certPath: string, keyPath: string)

  datatype Reason = NewProjectRoot | CoveredByExisting | ShapeChanged

  datatype Decision = Decision(projectRoot: string, hostnames: seq<string>, requiredSans: seq<string>,
                               reuseExisting: bool, reason: Reason)

  // ----- Coverage -----

  predicate WildcardEligible(root: string, hosts: seq<string>) {
    forall i :: 0 <= i < |hosts| ==>
      hosts[i] == root || (|Labels(hosts[i])| == |Labels(root)| + 1 && HasSuffix(hosts[i], "." + root))
  }

  predicate IsCovered(host: string, sans: seq<string>) {
    if sans == [] then false
    else
      var san := Normalize(sans[0]);
      if san == host then true
      else if HasPrefix(san, "*.") && WildcardMatches(host, TrimPrefix(san, "*.")) then true
      else IsCovered(host, sans[1..])
  }

  predicate CoversAll(sans: seq<string>, hosts: seq<string>) {
    if hosts == [] then true
    else if !IsCovered(hosts[0], sans) then false
    else CoversAll(sans, hosts[1..])
  }

  // One subject alternative name that serves a host, literally or as a wildcard.
  predicate SanServes(san: string, host: string) {
    var n := Normalize(san);
    n == host || (HasPrefix(n, "*.") && WildcardMatches(host, TrimPrefix(n, "*.")))
  }

  lemma {:induction false} CoveredMeaning(host: string, sans: seq<string>)
    ensures IsCovered(host, sans) <==> exists san :: san in sans && SanServes(san, host)
  {
    if sans != [] {
      CoveredMeaning(host, sans[1..]);
      assert sans == [sans[0]] + sans[1..];
      assert SanServes(sans[0], host) ==> IsCovered(host, sans);
    }
  }

  lemma {:induction false} CoversAllMeaning(sans: seq<string>, hosts: seq<string>)
    ensures CoversAll(sans, hosts) <==> forall h :: h in hosts ==> IsCovered(h, sans)
  {
    if hosts != [] {
      CoversAllMeaning(sans, hosts[1..]);
      assert hosts[0] in hosts;
      assert forall h :: h in hosts <==> h == hosts[0] || h in hosts[1..];
    }
  }

  // ----- The plan, as a function of the hostnames to serve -----

  function ServedHosts(route: Route): seq<string> {
    if route.servedHostnames == [] && route.hostname != "" then [route.hostname] else route.servedHostnames
  }

  predicate Plannable(host: string, suffix: string) {
    host != "" && PlannerManages(host, suffix) && ProjectRoot(host, suffix).Some?
  }

  ghost function PlannedIn(hosts: seq<string>, suffix: string): set<string> {
    set h | h in hosts && Plannable(Normalize(h), suffix) :: Normalize(h)
  }

  ghost function PlannedOn(routes: map<string, Route>, keys: set<string>, suffix: string): set<string> {
    set k, h | k in keys && k in routes && h in PlannedIn(ServedHosts(routes[k]), suffix) :: h
  }

  // The hostnames that the inventory has to cover.
  ghost function PlannedHosts(routes: map<string, Route>, suffix: string): set<string> {
    PlannedOn(routes, routes.Keys, suffix)
  }

  ghost function RootsOf(hosts: set<string>, suffix: string): set<string> {
    set h | h in hosts && ProjectRoot(h, suffix).Some? :: ProjectRoot(h, suffix).value
  }

  ghost function HostsUnder(hosts: set<string>, suffix: string, root: string): set<string> {
    set h | h in hosts && ProjectRoot(h, suffix) == Some(root)
  }

  ghost function RequiredSANs(root: string, hosts: seq<string>): seq<string> {
    if WildcardEligible(root, hosts) then [root, "*." + root] else Listing(Elements(hosts) + {root})
  }

  ghost function Decide(root: string, hosts: seq<string>, existing: map<string, StoredCertificate>): Decision {
    var reuse := root in existing && CoversAll(existing[root].sans, hosts);
    Decision(root, hosts, RequiredSANs(root, hosts), reuse,
             if root !in existing then NewProjectRoot else if reuse then CoveredByExisting else ShapeChanged)
  }

  ghost function Plan(hosts: set<string>, suffix: string, existing: map<string, StoredCertificate>): (ds: seq<Decision>)
    ensures |ds| == |Listing(RootsOf(hosts, suffix))|
    ensures forall i {:trigger ds[i]} :: 0 <= i < |ds| ==>
      var root := Listing(RootsOf(hosts, suffix))[i];
      ds[i] == Decide(root, Listing(HostsUnder(hosts, suffix, root)), existing)
  {
    var roots := Listing(RootsOf(hosts, suffix));
    seq(|roots|, i requires 0 <= i < |roots| =>
      Decide(roots[i], Listing(HostsUnder(hosts, suffix, roots[i])), existing))
  }

  // ----- The source's loops -----

  method Keys(m: set<string>) returns (out: seq<string>)
    ensures out == Listing(m)
  {
    out := [];
    var rest := m;
    while rest != {}
      invariant rest <= m
      invariant Elements(out) == m - rest
      invariant NoDuplicates(out)
    {
      var k :| k in rest;
      AppendNew(out, k);
      assert k !in Elements(out);
      out, rest := out + [k], rest - {k};
    }
    assert Elements(out) == m;
    SortLists(out);
    out := SortStrings(out);
  }

  method BuildRequiredSANs(root: string, hosts: seq<string>) returns (out: seq<string>)
    ensures out == RequiredSANs(root, hosts)
  {
    if WildcardEligible(root, hosts) {
      return [root, "*." + root];
    }
    var seen := {root};
    out := [root];
    for i := 0 to |hosts|
      invariant seen == Elements(out) == Elements(hosts[..i]) + {root}
      invariant NoDuplicates(out)
    {
      ElementsOfPrefix(hosts, i);
      AppendNew(out, hosts[i]);
      if hosts[i] in seen {
        continue;
      }
      assert hosts[i] !in Elements(out);
      seen, out := seen + {hosts[i]}, out + [hosts[i]];
    }
    assert hosts[..|hosts|] == hosts;
    SortLists(out);
    out := SortStrings(out);
  }

  ghost predicate Grouped(m: map<string, set<string>>, hosts: set<string>, suffix: string) {
    m.Keys == RootsOf(hosts, suffix) && forall r :: r in m ==> m[r] == HostsUnder(hosts, suffix, r)
  }

  lemma GroupOneMore(m: map<string, set<string>>, hosts: set<string>, suffix: string, host: string, root: string)
    requires Grouped(m, hosts, suffix) && ProjectRoot(host, suffix) == Some(root)
    ensures Grouped(m[root := (if root in m then m[root] else {}) + {host}], hosts + {host}, suffix)
  {
    hide ProjectRoot;
    var m' := m[root := (if root in m then m[root] else {}) + {host}];
    var hosts' := hosts + {host};
    assert RootsOf(hosts', suffix) == RootsOf(hosts, suffix) + {root};
    forall r | r in m' ensures m'[r] == HostsUnder(hosts', suffix, r) {
      assert HostsUnder(hosts', suffix, r) == HostsUnder(hosts, suffix, r) + if r == root then {host} else {};
      if root !in m { assert HostsUnder(hosts, suffix, root) == {}; }
    }
  }

  lemma UpdateTwice<K, V>(m: map<K, V>, k: K, v: V, w: V)
    ensures m[k := v][k := w] == m[k := w]
  {
  }

  lemma PlannedOneMore(hosts: seq<string>, i: nat, suffix: string)
    requires i < |hosts|
    ensures var n := Normalize(hosts[i]);
            PlannedIn(hosts[..i + 1], suffix) ==
            PlannedIn(hosts[..i], suffix) + if Plannable(n, suffix) then {n} else {}
  {
    assert hosts[..i + 1] == hosts[..i] + [hosts[i]];
  }

  lemma PlannedOneMoreRoute(routes: map<string, Route>, done: set<string>, key: string, suffix: string)
    requires key in routes
    ensures PlannedOn(routes, done + {key}, suffix) ==
            PlannedOn(routes, done, suffix) + PlannedIn(ServedHosts(routes[key]), suffix)
  {
  }

  method GroupServedHosts(hosts: seq<string>, suffix: string, groups: map<string, set<string>>,
                          ghost planned: set<string>) returns (projectHosts: map<string, set<string>>)
    requires Grouped(groups, planned, suffix)
    ensures Grouped(projectHosts, planned + PlannedIn(hosts, suffix), suffix)
  {
    projectHosts := groups;
    ghost var done := planned;
    for i := 0 to |hosts|
      invariant done == planned + PlannedIn(hosts[..i], suffix)
      invariant Grouped(projectHosts, done, suffix)
    {
      PlannedOneMore(hosts, i, suffix);
      var normalized := Normalize(hosts[i]);
      if normalized == "" || !PlannerManages(normalized, suffix) {
        continue;
      }
      var root := ProjectRoot(normalized, suffix);
      if root.None? {
        continue;
      }
      GroupOneMore(projectHosts, done, suffix, normalized, root.value);
      if root.value !in projectHosts {
        UpdateTwice(projectHosts, root.value, {}, {} + {normalized});
        projectHosts := projectHosts[root.value := {}];
      }
      projectHosts := projectHosts[root.value := projectHosts[root.value] + {normalized}];
      done := done + {normalized};
    }
    assert hosts[..|hosts|] == hosts;
  }

  // The result does not depend on the order in which Go ranges over the routes and the groups.
  method BuildCertificateInventory(routes: map<string, Route>, suffix: string,
                                   existing: map<string, StoredCertificate>) returns (out: seq<Decision>)
    ensures out == Plan(PlannedHosts(routes, suffix), suffix, existing)
  {
    var projectHosts: map<string, set<string>> := map[];
    var pending := routes.Keys;
    while pending != {}
      invariant pending <= routes.Keys
      invariant Grouped(projectHosts, PlannedOn(routes, routes.Keys - pending, suffix), suffix)
    {
      var key :| key in pending;
      var route := routes[key];
      var hosts := route.servedHostnames;
      if |hosts| == 0 && route.hostname != "" {
        hosts := [route.hostname];
      }
      ghost var done := routes.Keys - pending;
      PlannedOneMoreRoute(routes, done, key, suffix);
      assert routes.Keys - (pending - {key}) == done + {key};
      projectHosts := GroupServedHosts(hosts, suffix, projectHosts, PlannedOn(routes, done, suffix));
      pending := pending - {key};
    }
    assert routes.Keys - pending == routes.Keys;
    out := DecideAll(projectHosts, existing, PlannedHosts(routes, suffix), suffix);
  }

  method DecideAll(projectHosts: map<string, set<string>>, existing: map<string, StoredCertificate>,
                   ghost planned: set<string>, suffix: string) returns (out: seq<Decision>)
    requires Grouped(projectHosts, planned, suffix)
    ensures out == Plan(planned, suffix, existing)
  {
    hide Decide, Plan, RootsOf, HostsUnder;
    var roots := Keys(projectHosts.Keys);
    hide Listing, StrictlySorted;
    out := [];
    for i := 0 to |roots|
      invariant |out| == i
      invariant forall k :: 0 <= k < i ==>
                  out[k] == Decide(roots[k], Listing(HostsUnder(planned, suffix, roots[k])), existing)
    {
      assert roots[i] in Elements(roots);
      var decision := DecideRoot(roots[i], projectHosts[roots[i]], existing);
      out := out + [decision];
    }
    PlanFromDecisions(planned, suffix, existing, out);
  }

  lemma PlanFromDecisions(hosts: set<string>, suffix: string, existing: map<string, StoredCertificate>,
                          out: seq<Decision>)
    requires var roots := Listing(RootsOf(hosts, suffix));
             |out| == |roots| && forall k :: 0 <= k < |out| ==>
               out[k] == Decide(roots[k], Listing(HostsUnder(hosts, suffix, roots[k])), existing)
    ensures out == Plan(hosts, suffix, existing)
  {
  }

  method DecideRoot(root: string, hostSet: set<string>, existing: map<string, StoredCertificate>)
    returns (decision: Decision)
    ensures decision == Decide(root, Listing(hostSet), existing)
  {
    var hosts := Keys(hostSet);
    var sans := BuildRequiredSANs(root, hosts);
    decision := Decision(root, hosts, sans, false, NewProjectRoot);
    if root in existing {
      if CoversAll(existing[root].sans, hosts) {
        decision := decision.(reuseExisting := true, reason := CoveredByExisting);
      } else {
        decision := decision.(reason := ShapeChanged);
      }
    }
  }
}
