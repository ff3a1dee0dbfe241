/** internal/routing/conflicts.go: one active route per hostname. */
module Conflicts {
  import opened Strings
  import opened Ordering
  import opened RouteModel

  // ----- The order of claims, and sort.SliceStable -----

  predicate ClaimBefore(a: Route, b: Route) {
    if a.priority != b.priority then a.priority > b.priority
    else Less(a.winner.containerName, b.winner.containerName)
  }

  // Neither claim is preferred over the other.
  predicate Tied(a: Route, b: Route) {
    a.priority == b.priority && a.winner.containerName == b.winner.containerName
  }

  lemma ClaimTotal(a: Route, b: Route)
    ensures ClaimBefore(a, b) || Tied(a, b) || ClaimBefore(b, a)
  {
    LessTotal(a.winner.containerName, b.winner.containerName);
  }

  lemma ClaimAsymmetric(a: Route, b: Route)
    requires ClaimBefore(a, b)
    ensures !ClaimBefore(b, a) && !Tied(a, b)
  {
    if a.priority == b.priority { LessAsymmetric(a.winner.containerName, b.winner.containerName); }
  }

  // "Not after" is transitive.
  lemma ClaimTransitive(a: Route, b: Route, c: Route)
    requires !ClaimBefore(b, a) && !ClaimBefore(c, b)
    ensures !ClaimBefore(c, a)
  {
    if a.priority == b.priority == c.priority && ClaimBefore(c, a) {
      LessTotal(a.winner.containerName, b.winner.containerName);
      if a.winner.containerName != b.winner.containerName {
        LessTransitive(c.winner.containerName, a.winner.containerName, b.winner.containerName);
      }
    }
  }

  ghost predicate ClaimsSorted(claims: seq<Route>) {
    forall i, j :: 0 <= i < j < |claims| ==> !ClaimBefore(claims[j], claims[i])
  }

  function StableSort(claims: seq<Route>): (sorted: seq<Route>)
    ensures multiset(sorted) == multiset(claims)
    ensures |sorted| == |claims|
  {
    if claims == [] then []
    else
      assert claims == [claims[0]] + claims[1..];
      InsertClaim(claims[0], StableSort(claims[1..]))
  }

  // Ahead of everything it does not come after, so ahead of its ties.
  function InsertClaim(c: Route, claims: seq<Route>): (r: seq<Route>)
    ensures multiset(r) == multiset(claims) + multiset{c}
    ensures |r| == |claims| + 1
  {
    if claims == [] || !ClaimBefore(claims[0], c) then [c] + claims
    else
      assert claims == [claims[0]] + claims[1..];
      [claims[0]] + InsertClaim(c, claims[1..])
  }

  lemma {:induction false} InsertClaimSorted(c: Route, claims: seq<Route>)
    requires ClaimsSorted(claims)
    ensures ClaimsSorted(InsertClaim(c, claims))
  {
    if claims == [] {
    } else if !ClaimBefore(claims[0], c) {
      forall j | 0 <= j < |claims| ensures !ClaimBefore(claims[j], c) {
        if j > 0 { ClaimTransitive(c, claims[0], claims[j]); }
      }
    } else {
      var rest := InsertClaim(c, claims[1..]);
      InsertClaimSorted(c, claims[1..]);
      ClaimAsymmetric(claims[0], c);
      forall j | 0 <= j < |rest| ensures !ClaimBefore(rest[j], claims[0]) {
        assert rest[j] in multiset(rest);
        if rest[j] != c { assert rest[j] in multiset(claims[1..]); }
      }
    }
  }

  lemma {:induction false} StableSortSorts(claims: seq<Route>)
    ensures ClaimsSorted(StableSort(claims))
  {
    if claims != [] {
      StableSortSorts(claims[1..]);
      InsertClaimSorted(claims[0], StableSort(claims[1..]));
    }
  }

  // The claims tied with one claim, in order.
  function TiesWith(claims: seq<Route>, c: Route): seq<Route> {
    if claims == [] then []
    else (if Tied(claims[0], c) then [claims[0]] else []) + TiesWith(claims[1..], c)
  }

  lemma {:induction false} InsertKeepsTies(x: Route, claims: seq<Route>, c: Route)
    ensures TiesWith(InsertClaim(x, claims), c) == TiesWith([x] + claims, c)
  {
    assert ([x] + claims)[1..] == claims;
    if claims != [] && ClaimBefore(claims[0], x) {
      ClaimAsymmetric(claims[0], x);
      var rest := InsertClaim(x, claims[1..]);
      InsertKeepsTies(x, claims[1..], c);
      assert ([claims[0]] + rest)[1..] == rest;
      assert ([x] + claims[1..])[1..] == claims[1..];
    }
  }

  // Stability: tied claims keep their order.
  lemma {:induction false} StableSortIsStable(claims: seq<Route>, c: Route)
    ensures TiesWith(StableSort(claims), c) == TiesWith(claims, c)
  {
    if claims != [] {
      var rest := StableSort(claims[1..]);
      StableSortIsStable(claims[1..], c);
      InsertKeepsTies(claims[0], rest, c);
      assert ([claims[0]] + rest)[1..] == rest;
    }
  }

  // ----- Resolution -----

  const REASON := "highest priority, then stable container-name tie-break"

  function ClaimsFor(routes: seq<Route>, hostname: string): seq<Route> {
    if routes == [] then []
    else
      var last := routes[|routes| - 1];
      ClaimsFor(routes[..|routes| - 1], hostname) + if last.hostname == hostname then [last] else []
  }

  ghost function ClaimedNames(routes: seq<Route>): set<string> {
    set r | r in routes :: r.hostname
  }

  function WinnersOf(claims: seq<Route>): seq<Candidate> {
    seq(|claims|, i requires 0 <= i < |claims| => claims[i].winner)
  }

  ghost function WinnerFor(routes: seq<Route>, hostname: string): Route
    requires ClaimsFor(routes, hostname) != []
  {
    StableSort(ClaimsFor(routes, hostname))[0]
  }

  ghost function ConflictFor(routes: seq<Route>, hostname: string): Conflict
    requires |ClaimsFor(routes, hostname)| > 1
  {
    var sorted := StableSort(ClaimsFor(routes, hostname));
    Conflict(hostname, sorted[0].winner, WinnersOf(sorted[1..]), REASON, sorted[0].priority == sorted[1].priority)
  }

  ghost predicate ActiveExactly(routes: seq<Route>, hostnames: set<string>, active: seq<Route>) {
    && (forall i, j :: 0 <= i < j < |active| ==> active[i].hostname != active[j].hostname)
    && (forall r :: r in active ==> r.hostname in hostnames && IsWinner(routes, r))
    && (forall h :: h in hostnames ==> exists r :: r in active && r.hostname == h)
  }

  ghost predicate IsWinner(routes: seq<Route>, r: Route) {
    ClaimsFor(routes, r.hostname) != [] && r == WinnerFor(routes, r.hostname)
  }

  ghost predicate ConflictsExactly(routes: seq<Route>, hostnames: set<string>, conflicts: seq<Conflict>) {
    && (forall i, j :: 0 <= i < j < |conflicts| ==> conflicts[i].hostname != conflicts[j].hostname)
    && (forall c :: c in conflicts ==> c.hostname in hostnames && IsConflict(routes, c))
    && (forall h :: h in hostnames && Contested(routes, h) ==> exists c :: c in conflicts && c.hostname == h)
  }

  ghost predicate Contested(routes: seq<Route>, hostname: string) {
    |ClaimsFor(routes, hostname)| > 1
  }

  ghost predicate IsConflict(routes: seq<Route>, c: Conflict) {
    Contested(routes, c.hostname) && c == ConflictFor(routes, c.hostname)
  }

  // One active route for every claimed hostname, one conflict for every contested one; in what
  // order they are listed is up to Go's map.
  ghost predicate IsResolution(routes: seq<Route>, active: seq<Route>, conflicts: seq<Conflict>) {
    ActiveExactly(routes, ClaimedNames(routes), active) && ConflictsExactly(routes, ClaimedNames(routes), conflicts)
  }

  method ResolveConflicts(routes: seq<Route>) returns (active: seq<Route>, conflicts: seq<Conflict>)
    ensures IsResolution(routes, active, conflicts)
  {
    var grouped := GroupByHostname(routes);
    active, conflicts := [], [];
    var pending := grouped.Keys;
    ghost var done: set<string> := {};
    while pending != {}
      invariant pending <= grouped.Keys && done == grouped.Keys - pending
      invariant ActiveExactly(routes, done, active)
      invariant ConflictsExactly(routes, done, conflicts)
    {
      var hostname :| hostname in pending;
      var winner, conflict := Resolve(routes, hostname, grouped[hostname]);
      ActiveOneMore(routes, done, active, winner, hostname);
      active := active + [winner];
      if conflict.Some? {
        ConflictOneMore(routes, done, conflicts, conflict.value, hostname);
        conflicts := conflicts + [conflict.value];
      } else {
        UncontestedOneMore(routes, done, conflicts, hostname);
      }
      pending, done := pending - {hostname}, done + {hostname};
    }
    assert done == ClaimedNames(routes);
  }

  method GroupByHostname(routes: seq<Route>) returns (grouped: map<string, seq<Route>>)
    ensures grouped.Keys == ClaimedNames(routes)
    ensures forall h :: h in grouped ==> grouped[h] == ClaimsFor(routes, h) && grouped[h] != []
  {
    grouped := map[];
    for i := 0 to |routes|
      invariant grouped.Keys == ClaimedNames(routes[..i])
      invariant forall h :: h in grouped ==> grouped[h] == ClaimsFor(routes[..i], h) && grouped[h] != []
    {
      GroupingStep(routes, i);
      var route := routes[i];
      var before := if route.hostname in grouped then grouped[route.hostname] else [];
      grouped := grouped[route.hostname := before + [route]];
    }
    assert routes[..|routes|] == routes;
  }

  lemma GroupingStep(routes: seq<Route>, i: nat)
    requires i < |routes|
    ensures ClaimedNames(routes[..i + 1]) == ClaimedNames(routes[..i]) + {routes[i].hostname}
    ensures forall h :: ClaimsFor(routes[..i + 1], h) ==
                        ClaimsFor(routes[..i], h) + if routes[i].hostname == h then [routes[i]] else []
    ensures forall h :: h !in ClaimedNames(routes[..i]) ==> ClaimsFor(routes[..i], h) == []
  {
    assert routes[..i + 1] == routes[..i] + [routes[i]];
    assert routes[..i + 1][..i] == routes[..i];
    forall h ensures h !in ClaimedNames(routes[..i]) ==> ClaimsFor(routes[..i], h) == [] {
      ClaimsForMeaning(routes[..i], h);
    }
  }

  lemma {:induction false} ClaimsForMeaning(routes: seq<Route>, h: string)
    ensures forall r :: r in ClaimsFor(routes, h) <==> r in routes && r.hostname == h
    ensures h in ClaimedNames(routes) <==> ClaimsFor(routes, h) != []
  {
    if routes != [] {
      var front, last := routes[..|routes| - 1], routes[|routes| - 1];
      ClaimsForMeaning(front, h);
      assert routes == front + [last];
      assert ClaimedNames(routes) == ClaimedNames(front) + {last.hostname};
    }
  }

  method Resolve(routes: seq<Route>, hostname: string, group: seq<Route>)
    returns (winner: Route, conflict: Option<Conflict>)
    requires group == ClaimsFor(routes, hostname) && group != []
    ensures winner.hostname == hostname && IsWinner(routes, winner)
    ensures conflict.Some? <==> Contested(routes, hostname)
    ensures conflict.Some? ==> conflict.value.hostname == hostname && IsConflict(routes, conflict.value)
  {
    var claims := StableSort(group);
    WinnerClaims(routes, hostname);
    winner, conflict := claims[0], None;
    if |claims| > 1 {
      var losers := [];
      for i := 1 to |claims|
        invariant losers == WinnersOf(claims[1..i])
      {
        assert claims[1..i + 1] == claims[1..i] + [claims[i]];
        losers := losers + [claims[i].winner];
      }
      assert claims[1..|claims|] == claims[1..];
      conflict := Some(Conflict(hostname, winner.winner, losers, REASON, claims[0].priority == claims[1].priority));
    }
  }

  lemma ActiveOneMore(routes: seq<Route>, done: set<string>, active: seq<Route>, winner: Route, hostname: string)
    requires ActiveExactly(routes, done, active) && hostname !in done
    requires winner.hostname == hostname && IsWinner(routes, winner)
    ensures ActiveExactly(routes, done + {hostname}, active + [winner])
  {
    var next := active + [winner];
    assert winner in next;
    forall h | h in done ensures exists r :: r in next && r.hostname == h {
      var r :| r in active && r.hostname == h;
      assert r in next;
    }
  }

  lemma WinnerClaims(routes: seq<Route>, hostname: string)
    requires ClaimsFor(routes, hostname) != []
    ensures WinnerFor(routes, hostname) in routes && WinnerFor(routes, hostname).hostname == hostname
  {
    var claims := ClaimsFor(routes, hostname);
    var sorted := StableSort(claims);
    ClaimsForMeaning(routes, hostname);
    assert sorted[0] in multiset(sorted);
    assert sorted[0] in multiset(claims);
  }

  lemma ConflictOneMore(routes: seq<Route>, done: set<string>, conflicts: seq<Conflict>, conflict: Conflict,
                        hostname: string)
    requires ConflictsExactly(routes, done, conflicts) && hostname !in done
    requires conflict.hostname == hostname && IsConflict(routes, conflict)
    ensures ConflictsExactly(routes, done + {hostname}, conflicts + [conflict])
  {
    var next := conflicts + [conflict];
    assert conflict in next;
    forall h | h in done && Contested(routes, h) ensures exists c :: c in next && c.hostname == h {
      var c :| c in conflicts && c.hostname == h;
      assert c in next;
    }
  }

  lemma UncontestedOneMore(routes: seq<Route>, done: set<string>, conflicts: seq<Conflict>, hostname: string)
    requires ConflictsExactly(routes, done, conflicts) && !Contested(routes, hostname)
    ensures ConflictsExactly(routes, done + {hostname}, conflicts)
  {
  }

  // ----- What a resolution promises -----

  // The winner has the highest priority, then the least container name, then it came first.
  lemma WinnerIsBest(routes: seq<Route>, hostname: string)
    requires ClaimsFor(routes, hostname) != []
    ensures var claims, w := ClaimsFor(routes, hostname), WinnerFor(routes, hostname);
            && w in claims
            && (forall r :: r in claims ==> r.priority <= w.priority)
            && (forall r :: r in claims && r.priority == w.priority ==>
               AtMost(w.winner.containerName, r.winner.containerName))
            && TiesWith(claims, w) != [] && TiesWith(claims, w)[0] == w
  {
    hide StableSort, ClaimsFor, TiesWith;
    var claims := ClaimsFor(routes, hostname);
    var sorted := StableSort(claims);
    var w := sorted[0];
    assert TiesWith(sorted, w) != [] && TiesWith(sorted, w)[0] == w by { FirstTies(sorted); }
    StableSortSorts(claims);
    StableSortIsStable(claims, w);
    assert w in multiset(sorted);
    assert w in multiset(claims);
    forall r | r in claims ensures !ClaimBefore(r, w) {
      assert r in multiset(claims);
      assert r in multiset(sorted);
      var i :| 0 <= i < |sorted| && sorted[i] == r;
      if i == 0 { NotBeforeItself(r); }
    }
    forall r | r in claims && r.priority == w.priority ensures AtMost(w.winner.containerName, r.winner.containerName) {
      LessTotal(w.winner.containerName, r.winner.containerName);
    }
  }

  lemma FirstTies(claims: seq<Route>)
    requires claims != []
    ensures TiesWith(claims, claims[0]) != [] && TiesWith(claims, claims[0])[0] == claims[0]
  {
  }

  lemma NotBeforeItself(r: Route)
    ensures !ClaimBefore(r, r)
  {
    LessIrreflexive(r.winner.containerName);
  }

  // Claims are conserved: the winner followed by the losers are the claimants in claim order,
  // so together they are exactly the bag of claimants.
  lemma ClaimsAreConserved(routes: seq<Route>, hostname: string)
    requires Contested(routes, hostname)
    ensures var c, sorted := ConflictFor(routes, hostname), StableSort(ClaimsFor(routes, hostname));
            && [c.winner] + c.losers == WinnersOf(sorted) && ClaimsSorted(sorted)
            && multiset([c.winner] + c.losers) == multiset(WinnersOf(ClaimsFor(routes, hostname)))
            && c.winner == WinnerFor(routes, hostname).winner
  {
    var claims := ClaimsFor(routes, hostname);
    StableSortSorts(claims);
    WinnersOfBag(StableSort(claims), claims);
    HeadAndRest(StableSort(claims));
  }

  lemma HeadAndRest(sorted: seq<Route>)
    requires sorted != []
    ensures [sorted[0].winner] + WinnersOf(sorted[1..]) == WinnersOf(sorted)
  {
  }

  ghost function Without<T>(s: seq<T>, j: nat): (r: seq<T>)
    requires j < |s|
    ensures |r| == |s| - 1
    ensures multiset(r) == multiset(s) - multiset{s[j]}
  {
    assert s == s[..j] + [s[j]] + s[j + 1..];
    s[..j] + s[j + 1..]
  }

  lemma BagOfNone<T>(b: seq<T>)
    requires multiset(b) == multiset{}
    ensures b == []
  {
    assert |b| == |multiset(b)|;
  }

  // Where the first element of a is in a permutation b of it; without it they stay permutations.
  lemma SamePlace<T>(a: seq<T>, b: seq<T>) returns (j: nat)
    requires multiset(a) == multiset(b) && a != []
    ensures j < |b| && b[j] == a[0]
    ensures multiset(Without(a, 0)) == multiset(Without(b, j))
  {
    assert a[0] in multiset(a);
    assert a[0] in multiset(b);
    j :| 0 <= j < |b| && b[j] == a[0];
  }

  lemma WinnersOfRemove(b: seq<Route>, j: nat)
    requires j < |b|
    ensures multiset(WinnersOf(b)) == multiset(WinnersOf(Without(b, j))) + multiset{b[j].winner}
  {
    var front, back := WinnersOf(b[..j]), WinnersOf(b[j + 1..]);
    assert WinnersOf(b) == front + [b[j].winner] + back;
    assert WinnersOf(Without(b, j)) == front + back;
  }

  lemma {:induction false} WinnersOfBag(a: seq<Route>, b: seq<Route>)
    requires multiset(a) == multiset(b)
    ensures multiset(WinnersOf(a)) == multiset(WinnersOf(b))
    decreases |a|
  {
    if a == [] {
      BagOfNone(b);
    } else {
      var j := SamePlace(a, b);
      WinnersOfBag(Without(a, 0), Without(b, j));
      WinnersOfRemove(a, 0);
      WinnersOfRemove(b, j);
    }
  }

  function Priorities(claims: seq<Route>): seq<int> {
    seq(|claims|, i requires 0 <= i < |claims| => claims[i].priority)
  }

  lemma PrioritiesOfRemove(b: seq<Route>, j: nat)
    requires j < |b|
    ensures multiset(Priorities(b)) == multiset(Priorities(Without(b, j))) + multiset{b[j].priority}
  {
    var front, back := Priorities(b[..j]), Priorities(b[j + 1..]);
    assert Priorities(b) == front + [b[j].priority] + back;
    assert Priorities(Without(b, j)) == front + back;
  }

  lemma {:induction false} PrioritiesBag(a: seq<Route>, b: seq<Route>)
    requires multiset(a) == multiset(b)
    ensures multiset(Priorities(a)) == multiset(Priorities(b))
    decreases |a|
  {
    if a == [] {
      BagOfNone(b);
    } else {
      var j := SamePlace(a, b);
      PrioritiesBag(Without(a, 0), Without(b, j));
      PrioritiesOfRemove(a, 0);
      PrioritiesOfRemove(b, j);
    }
  }

  ghost predicate HasTopPriority(claims: seq<Route>, i: nat)
    requires i < |claims|
  {
    forall k :: 0 <= k < |claims| ==> claims[k].priority <= claims[i].priority
  }

  // The tie flag says exactly that at least two of the claims, unsorted, have the highest priority.
  lemma TieMeaning(routes: seq<Route>, hostname: string)
    requires Contested(routes, hostname)
    ensures var claims := ClaimsFor(routes, hostname);
            ConflictFor(routes, hostname).priorityTie <==>
            exists i, j :: 0 <= i < j < |claims| && HasTopPriority(claims, i) && HasTopPriority(claims, j)
  {
    hide StableSort, ClaimsFor, ClaimsSorted;
    var claims := ClaimsFor(routes, hostname);
    var sorted := StableSort(claims);
    StableSortSorts(claims);
    PrioritiesBag(sorted, claims);
    TopOfSorted(sorted, claims);
    TopTwice(sorted);
    TwoTops(claims, sorted[0].priority);
    assert ConflictFor(routes, hostname).priorityTie <==> sorted[0].priority == sorted[1].priority;
    assert multiset(Priorities(claims)) == multiset(Priorities(sorted));
    assert ConflictFor(routes, hostname).priorityTie <==> multiset(Priorities(claims))[sorted[0].priority] >= 2;
  }

  lemma TwoTops(claims: seq<Route>, top: int)
    requires forall i :: 0 <= i < |claims| ==> (HasTopPriority(claims, i) <==> claims[i].priority == top)
    ensures multiset(Priorities(claims))[top] >= 2 <==>
            exists i, j :: 0 <= i < j < |claims| && HasTopPriority(claims, i) && HasTopPriority(claims, j)
  {
    var p := Priorities(claims);
    hide HasTopPriority;
    if multiset(p)[top] >= 2 {
      var i, j := TwoPlaces(p, top);
      assert HasTopPriority(claims, i) && HasTopPriority(claims, j);
    }
    if i, j :| 0 <= i < j < |claims| && HasTopPriority(claims, i) && HasTopPriority(claims, j) {
      assert p[i] == p[j] == top;
      CountTwice(p, i, j);
    }
  }

  lemma TopOfSorted(sorted: seq<Route>, claims: seq<Route>)
    requires ClaimsSorted(sorted) && multiset(sorted) == multiset(claims) && sorted != []
    ensures forall i :: 0 <= i < |claims| ==> (HasTopPriority(claims, i) <==> claims[i].priority == sorted[0].priority)
  {
    assert sorted[0] in multiset(claims);
    var top :| 0 <= top < |claims| && claims[top] == sorted[0];
    forall i | 0 <= i < |claims| ensures claims[i].priority <= sorted[0].priority {
      assert claims[i] in multiset(sorted);
      var j :| 0 <= j < |sorted| && sorted[j] == claims[i];
    }
  }

  lemma TopTwice(sorted: seq<Route>)
    requires ClaimsSorted(sorted) && |sorted| > 1
    ensures sorted[0].priority == sorted[1].priority <==> multiset(Priorities(sorted))[sorted[0].priority] >= 2
  {
    var p := Priorities(sorted);
    if p[0] == p[1] { CountTwice(p, 0, 1); }
    if multiset(p)[p[0]] >= 2 {
      var i, j := TwoPlaces(p, p[0]);
      assert !ClaimBefore(sorted[1], sorted[0]);
      if j > 1 { assert !ClaimBefore(sorted[j], sorted[1]); }
    }
  }

  lemma {:induction false} TwoPlaces(s: seq<int>, x: int) returns (i: nat, j: nat)
    requires multiset(s)[x] >= 2
    ensures i < j < |s| && s[i] == s[j] == x
  {
    var n := |s| - 1;
    var front := s[..n];
    assert s == front + [s[n]];
    if s[n] == x && multiset(front)[x] < 2 {
      assert x in multiset(front);
      i :| 0 <= i < n && front[i] == x;
      j := n;
    } else {
      i, j := TwoPlaces(front, x);
    }
  }

  // What a conflict is reported with.
  lemma ConflictIsReported(routes: seq<Route>, conflicts: seq<Conflict>, c: Conflict)
    requires ConflictsExactly(routes, ClaimedNames(routes), conflicts) && c in conflicts
    ensures |ClaimsFor(routes, c.hostname)| > 1 && |c.losers| == |ClaimsFor(routes, c.hostname)| - 1
    ensures c.reason == "highest priority, then stable container-name tie-break"
    ensures c.priorityTie <==> exists i, j :: 0 <= i < j < |ClaimsFor(routes, c.hostname)|
                                             && HasTopPriority(ClaimsFor(routes, c.hostname), i)
                                             && HasTopPriority(ClaimsFor(routes, c.hostname), j)
  {
    assert IsConflict(routes, c);
    TieMeaning(routes, c.hostname);
  }

  // ----- Independence of order -----

  ghost predicate TiesEqual(claims: seq<Route>) {
    forall x, y :: x in claims && y in claims && Tied(x, y) ==> x == y
  }

  // When ties are identical, the sorted sequence is a function of the bag of claims.
  lemma {:induction false} SortedUnique(a: seq<Route>, b: seq<Route>)
    requires multiset(a) == multiset(b) && ClaimsSorted(a) && ClaimsSorted(b) && TiesEqual(a)
    ensures a == b
  {
    if a == [] {
      BagOfNone(b);
    } else {
      assert a[0] in multiset(b);
      SameBest(a, b);
      TailPermutes(a, b);
      SortedUnique(a[1..], b[1..]);
    }
  }

  lemma TailPermutes(a: seq<Route>, b: seq<Route>)
    requires multiset(a) == multiset(b) && a != [] && b != [] && a[0] == b[0]
    requires ClaimsSorted(a) && ClaimsSorted(b) && TiesEqual(a)
    ensures multiset(a[1..]) == multiset(b[1..]) && ClaimsSorted(a[1..]) && ClaimsSorted(b[1..]) && TiesEqual(a[1..])
  {
    assert a[1..] == Without(a, 0) && b[1..] == Without(b, 0);
  }

  lemma SameBest(a: seq<Route>, b: seq<Route>)
    requires multiset(a) == multiset(b) && ClaimsSorted(a) && ClaimsSorted(b) && TiesEqual(a) && a != [] && b != []
    ensures a[0] == b[0]
  {
    assert a[0] in multiset(b) && b[0] in multiset(a);
    var i :| 0 <= i < |b| && b[i] == a[0];
    var j :| 0 <= j < |a| && a[j] == b[0];
    if a[0] != b[0] {
      assert !ClaimBefore(b[i], b[0]) && !ClaimBefore(a[j], a[0]);
      ClaimTotal(a[0], b[0]);
    }
  }

  lemma ClaimsForRemove(b: seq<Route>, j: nat, hostname: string)
    requires j < |b|
    ensures multiset(ClaimsFor(b, hostname)) ==
            multiset(ClaimsFor(Without(b, j), hostname))
            + if b[j].hostname == hostname then multiset{b[j]} else multiset{}
  {
    hide ClaimsFor;
    ClaimsForAround(b[..j], b[j], b[j + 1..], hostname);
    assert b == b[..j] + ([b[j]] + b[j + 1..]);
    assert Without(b, j) == b[..j] + b[j + 1..];
  }

  lemma ClaimsForAround(front: seq<Route>, r: Route, back: seq<Route>, hostname: string)
    ensures multiset(ClaimsFor(front + ([r] + back), hostname)) ==
            multiset(ClaimsFor(front + back, hostname)) + if r.hostname == hostname then multiset{r} else multiset{}
  {
    hide ClaimsFor;
    ClaimsForConcat(front, back, hostname);
    ClaimsForConcat(front, [r] + back, hostname);
    ClaimsForConcat([r], back, hostname);
    ClaimsForOne(r, hostname);
  }

  lemma ClaimsForOne(r: Route, hostname: string)
    ensures ClaimsFor([r], hostname) == if r.hostname == hostname then [r] else []
  {
    assert [r][..0] == [];
  }

  lemma {:induction false} ClaimsForBag(a: seq<Route>, b: seq<Route>, hostname: string)
    requires multiset(a) == multiset(b)
    ensures multiset(ClaimsFor(a, hostname)) == multiset(ClaimsFor(b, hostname))
    decreases |a|
  {
    if a == [] {
      BagOfNone(b);
    } else {
      var j := SamePlace(a, b);
      ClaimsForBag(Without(a, 0), Without(b, j), hostname);
      ClaimsForRemove(a, 0, hostname);
      ClaimsForRemove(b, j, hostname);
    }
  }

  lemma {:induction false} ClaimsForConcat(a: seq<Route>, b: seq<Route>, hostname: string)
    ensures ClaimsFor(a + b, hostname) == ClaimsFor(a, hostname) + ClaimsFor(b, hostname)
  {
    if b == [] {
      assert a + b == a;
    } else {
      var n := |b| - 1;
      assert (a + b)[..|a + b| - 1] == a + b[..n];
      ClaimsForConcat(a, b[..n], hostname);
    }
  }

  ghost predicate TiesIdentical(routes: seq<Route>) {
    forall x, y :: x in routes && y in routes && x.hostname == y.hostname && Tied(x, y) ==> x == y
  }

  // Permuting the claims changes neither a winner nor a conflict.
  lemma ResolutionIgnoresOrder(a: seq<Route>, b: seq<Route>, hostname: string)
    requires multiset(a) == multiset(b) && TiesIdentical(a)
    ensures StableSort(ClaimsFor(a, hostname)) == StableSort(ClaimsFor(b, hostname))
    ensures |ClaimsFor(a, hostname)| == |ClaimsFor(b, hostname)|
  {
    var ca, cb := ClaimsFor(a, hostname), ClaimsFor(b, hostname);
    ClaimsForBag(a, b, hostname);
    StableSortSorts(ca);
    StableSortSorts(cb);
    ClaimsForMeaning(a, hostname);
    var sa := StableSort(ca);
    forall x | x in sa ensures x in a && x.hostname == hostname {
      assert x in multiset(sa);
      assert x in multiset(ca);
    }
    SortedUnique(sa, StableSort(cb));
  }
}
