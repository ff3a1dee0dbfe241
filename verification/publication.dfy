/** Concurrent rebuilds of internal/daemon/reconciler.go as a state machine. A rebuild is split where
    the source synchronises: at the atomic counter and at the lock around the published fields. */
module Publication {
  import opened RouteModel
  import opened Conflicts
  import opened Reconcile

  // One call of the builder: the scan it worked from and what it produced.
  datatype Build = Build(scan: seq<ContainerState>, snapshot: Snapshot)

  // A rebuild in flight has a scan; once it has drawn a number it also has a snapshot.
  datatype Rebuild = Pending(scan: seq<ContainerState>) | Numbered(number: nat, build: Build)

  // builds lists every build ever made in the order of the counter: builds[i] drew number i + 1.
  // The counter itself is |builds| modulo the 64-bit word. shown is the number of the published
  // build, 0 before the first one.
  datatype State = State(builds: seq<Build>, running: map<nat, Rebuild>, shown: nat, snapshot: Snapshot, lastSync: nat)

  datatype Step = Begin(thread: nat, scan: seq<ContainerState>) | Number(thread: nat, made: Snapshot)
                | Publish(thread: nat)

  const BLANK := Snapshot(0, 0, map[], [], [])

  const INITIAL := State([], map[], 0, BLANK, 0)

  // What the 64-bit counter reads after n builds.
  function VersionOf(n: nat): nat {
    n % WORD
  }

  function Counter(s: State): nat {
    VersionOf(|s.builds|)
  }

  ghost function Beginning(s: State, t: nat, scan: seq<ContainerState>): State {
    s.(running := s.running[t := Pending(scan)])
  }

  ghost function Numbering(s: State, t: nat, made: Snapshot): State
    requires t in s.running && s.running[t].Pending?
  {
    var build := Build(s.running[t].scan, made);
    s.(builds := s.builds + [build], running := s.running[t := Numbered(|s.builds| + 1, build)])
  }

  ghost function Publishing(s: State, t: nat): State
    requires t in s.running && s.running[t].Numbered?
  {
    var r := s.running[t];
    s.(running := s.running - {t}, shown := r.number, snapshot := r.build.snapshot,
       lastSync := r.build.snapshot.createdAt)
  }

  ghost predicate Takes(opts: Options, s: State, step: Step, s': State) {
    match step
    case Begin(t, scan) => t !in s.running && s' == Beginning(s, t, scan)
    case Number(t, made) =>
      && t in s.running && s.running[t].Pending?
      && IsBuild(opts, s.running[t].scan, made) && made.version == NextCount(Counter(s))
      && s' == Numbering(s, t, made)
    case Publish(t) => t in s.running && s.running[t].Numbered? && s' == Publishing(s, t)
  }

  ghost predicate IsRun(opts: Options, steps: seq<Step>, states: seq<State>) {
    && |states| == |steps| + 1 && states[0] == INITIAL
    && forall i :: 0 <= i < |steps| ==> Moves(opts, steps, states, i)
  }

  ghost predicate Moves(opts: Options, steps: seq<Step>, states: seq<State>, i: nat)
    requires i < |steps| && |states| == |steps| + 1
  {
    Takes(opts, states[i], steps[i], states[i + 1])
  }

  // ----- The invariant -----

  ghost predicate GoodBuild(opts: Options, b: Build, n: nat) {
    b.snapshot.version == VersionOf(n) && IsBuild(opts, b.scan, b.snapshot)
  }

  ghost predicate NumberedRight(s: State, r: Rebuild) {
    r.Numbered? ==> 1 <= r.number <= |s.builds| && s.builds[r.number - 1] == r.build
  }

  ghost predicate RunningRight(s: State) {
    && (forall t :: t in s.running ==> NumberedRight(s, s.running[t]))
    && (forall t, u :: t in s.running && u in s.running && t != u
                       && s.running[t].Numbered? && s.running[u].Numbered? ==>
          s.running[t].number != s.running[u].number)
  }

  ghost predicate ShownRight(s: State) {
    && s.shown <= |s.builds|
    && s.snapshot == (if s.shown == 0 then BLANK else s.builds[s.shown - 1].snapshot)
    && s.lastSync == s.snapshot.createdAt
  }

  ghost predicate Invariant(opts: Options, s: State) {
    && (forall i :: 0 <= i < |s.builds| ==> GoodBuild(opts, s.builds[i], i + 1))
    && RunningRight(s) && ShownRight(s)
  }

  lemma CounterStep(n: nat)
    ensures NextCount(VersionOf(n)) == VersionOf(n + 1)
  {
  }

  lemma RunningKept(opts: Options, s: State, step: Step, s': State)
    requires RunningRight(s) && Takes(opts, s, step, s')
    ensures RunningRight(s')
  {
    hide IsBuild;
    forall u | u in s'.running && u in s.running && s'.running[u] == s.running[u]
      ensures NumberedRight(s', s'.running[u])
    {
      assert NumberedRight(s, s.running[u]);
    }
    if step.Number? {
      forall u | u in s.running && u != step.thread && s.running[u].Numbered?
        ensures s.running[u].number <= |s.builds|
      {
        assert NumberedRight(s, s.running[u]);
      }
    }
  }

  lemma ShownKept(opts: Options, s: State, step: Step, s': State)
    requires RunningRight(s) && ShownRight(s) && Takes(opts, s, step, s')
    ensures ShownRight(s')
  {
    hide IsBuild;
    if step.Publish? { assert NumberedRight(s, s.running[step.thread]); }
  }

  lemma BuildsKept(opts: Options, s: State, step: Step, s': State)
    requires forall i :: 0 <= i < |s.builds| ==> GoodBuild(opts, s.builds[i], i + 1)
    requires Takes(opts, s, step, s')
    ensures forall i :: 0 <= i < |s'.builds| ==> GoodBuild(opts, s'.builds[i], i + 1)
  {
    hide IsBuild, VersionOf, NextCount;
    if step.Number? {
      CounterStep(|s.builds|);
      assert GoodBuild(opts, s'.builds[|s.builds|], |s.builds| + 1);
    }
  }

  lemma InitialHolds(opts: Options)
    ensures Invariant(opts, INITIAL)
  {
  }

  // In every interleaving of any number of rebuilds the invariant holds in every state.
  lemma {:induction false} RunInvariant(opts: Options, steps: seq<Step>, states: seq<State>, n: nat)
    requires IsRun(opts, steps, states) && n < |states|
    ensures Invariant(opts, states[n])
  {
    InitialHolds(opts);
    hide IsBuild, RunningRight, ShownRight, GoodBuild, Takes;
    if n > 0 {
      RunInvariant(opts, steps, states, n - 1);
      assert Moves(opts, steps, states, n - 1);
      StepKeeps(opts, states[n - 1], steps[n - 1], states[n]);
    }
  }

  lemma StepKeeps(opts: Options, s: State, step: Step, s': State)
    requires Invariant(opts, s) && Takes(opts, s, step, s')
    ensures Invariant(opts, s')
  {
    RunningKept(opts, s, step, s');
    ShownKept(opts, s, step, s');
    BuildsKept(opts, s, step, s');
  }

  // Once anything is published, the snapshot and the sync time come from one and the same build,
  // and that build is the pipeline applied to a single scan.
  lemma PublishedIsOneBuild(opts: Options, steps: seq<Step>, states: seq<State>, n: nat)
    requires IsRun(opts, steps, states) && n < |states| && states[n].shown != 0
    ensures var s := states[n];
            && s.shown <= |s.builds|
            && var b := s.builds[s.shown - 1];
            s.snapshot == b.snapshot && s.lastSync == b.snapshot.createdAt && IsBuild(opts, b.scan, b.snapshot)
  {
    hide IsBuild;
    RunInvariant(opts, steps, states, n);
    assert GoodBuild(opts, states[n].builds[states[n].shown - 1], states[n].shown);
  }

  // ----- Versions -----

  // All builds have different versions exactly as long as the 64-bit counter has not wrapped.
  lemma VersionsDistinct(opts: Options, s: State)
    requires Invariant(opts, s)
    ensures AllDifferent(s.builds) <==> |s.builds| <= 0x1_0000_0000_0000_0000
  {
    hide IsBuild, VersionOf;
    forall i | 0 <= i < |s.builds| ensures s.builds[i].snapshot.version == VersionOf(i + 1) {
      assert GoodBuild(opts, s.builds[i], i + 1);
    }
    if |s.builds| <= WORD {
      DifferentUpToWord(s.builds);
    } else {
      SameAfterWord();
      assert s.builds[0].snapshot.version == s.builds[WORD].snapshot.version;
    }
  }

  ghost predicate AllDifferent(builds: seq<Build>) {
    forall i, j :: 0 <= i < j < |builds| ==> builds[i].snapshot.version != builds[j].snapshot.version
  }

  lemma DifferentUpToWord(builds: seq<Build>)
    requires forall i :: 0 <= i < |builds| ==> builds[i].snapshot.version == VersionOf(i + 1)
    requires |builds| <= WORD
    ensures AllDifferent(builds)
  {
    hide VersionOf;
    forall i, j | 0 <= i < j < |builds| ensures builds[i].snapshot.version != builds[j].snapshot.version {
      SmallNumbersDiffer(i + 1, j + 1);
    }
  }

  lemma SmallNumbersDiffer(m: nat, n: nat)
    requires 1 <= m < n <= WORD
    ensures VersionOf(m) != VersionOf(n)
  {
  }

  lemma SameAfterWord()
    ensures VersionOf(1) == VersionOf(WORD + 1)
  {
  }

  // Until then the published version is the number of the published build and never exceeds the counter.
  lemma VersionAtMostCounter(opts: Options, s: State)
    requires Invariant(opts, s) && |s.builds| < 0x1_0000_0000_0000_0000
    ensures s.snapshot.version == s.shown <= Counter(s)
  {
    hide IsBuild;
    if s.shown != 0 { assert GoodBuild(opts, s.builds[s.shown - 1], s.shown); }
  }

  // ----- Order of publication -----

  // A rebuild begins only when none is in flight.
  ghost predicate Serial(steps: seq<Step>, states: seq<State>)
    requires |states| == |steps| + 1
  {
    forall i :: 0 <= i < |steps| && steps[i].Begin? ==> states[i].running == map[]
  }

  ghost predicate AtMostOne(s: State) {
    && (forall t, u :: t in s.running && u in s.running ==> t == u)
    && (forall t :: t in s.running && s.running[t].Numbered? ==> s.running[t].number > s.shown)
  }

  lemma {:induction false} SerialAtMostOne(opts: Options, steps: seq<Step>, states: seq<State>, n: nat)
    requires IsRun(opts, steps, states) && Serial(steps, states) && n < |states|
    ensures AtMostOne(states[n])
  {
    hide IsBuild;
    if n > 0 {
      SerialAtMostOne(opts, steps, states, n - 1);
      RunInvariant(opts, steps, states, n - 1);
      assert Moves(opts, steps, states, n - 1);
    }
  }

  // When rebuilds do not overlap, every publication strictly raises the published number, and the
  // version with it as long as the counter has not wrapped.
  lemma SerialPublishRaises(opts: Options, steps: seq<Step>, states: seq<State>, n: nat)
    requires IsRun(opts, steps, states) && Serial(steps, states)
    requires n < |steps| && steps[n].Publish?
    ensures states[n + 1].shown > states[n].shown
    ensures |states[n + 1].builds| < WORD ==> states[n + 1].snapshot.version > states[n].snapshot.version
  {
    hide IsBuild, VersionOf;
    SerialAtMostOne(opts, steps, states, n);
    assert Moves(opts, steps, states, n);
    RunInvariant(opts, steps, states, n);
    RunInvariant(opts, steps, states, n + 1);
    if |states[n + 1].builds| < WORD {
      VersionAtMostCounter(opts, states[n]);
      VersionAtMostCounter(opts, states[n + 1]);
    }
  }

  // Step i published the given number while thread t was in flight with its own.
  ghost predicate PublishedOver(steps: seq<Step>, states: seq<State>, i: nat, shown: nat, t: nat, number: nat)
    requires |states| == |steps| + 1
  {
    && i < |steps| && steps[i].Publish? && steps[i].thread != t && states[i + 1].shown == shown
    && t in states[i].running && states[i].running[t].Numbered? && states[i].running[t].number == number
  }

  // In any run, a rebuild that is about to publish an older number than the one shown was already
  // in flight, with its number drawn, when the newer one was published: only overlap lowers a version.
  lemma {:induction false} LoweringNeedsOverlap(opts: Options, steps: seq<Step>, states: seq<State>, n: nat, t: nat)
    requires IsRun(opts, steps, states) && n < |states|
    requires t in states[n].running && states[n].running[t].Numbered? && states[n].running[t].number < states[n].shown
    ensures exists i :: 0 <= i < n && PublishedOver(steps, states, i, states[n].shown, t, states[n].running[t].number)
  {
    hide IsBuild;
    RunInvariant(opts, steps, states, n - 1);
    assert Moves(opts, steps, states, n - 1);
    OneStepBack(opts, states[n - 1], steps[n - 1], states[n], t);
    hide Takes, Invariant;
    var number := states[n].running[t].number;
    if steps[n - 1].Publish? {
      assert PublishedOver(steps, states, n - 1, states[n].shown, t, number);
    } else {
      LoweringNeedsOverlap(opts, steps, states, n - 1, t);
      var i :| 0 <= i < n - 1 && PublishedOver(steps, states, i, states[n].shown, t, number);
    }
  }

  lemma OneStepBack(opts: Options, s: State, step: Step, s': State, t: nat)
    requires Invariant(opts, s) && Takes(opts, s, step, s')
    requires t in s'.running && s'.running[t].Numbered? && s'.running[t].number < s'.shown
    ensures t in s.running && s.running[t] == s'.running[t]
    ensures if step.Publish? then step.thread != t else s'.shown == s.shown
  {
    hide IsBuild;
  }

  // Step i lowers the shown number.
  ghost predicate LowersAt(steps: seq<Step>, states: seq<State>, i: nat)
    requires i < |steps| && |states| == |steps| + 1
  {
    steps[i].Publish? && states[i + 1].shown < states[i].shown
  }

  // While thread t was in flight with an older number, step i published a newer one, and at step j
  // the thread published the older.
  ghost predicate Overtaken(steps: seq<Step>, states: seq<State>, i: nat, j: nat, t: nat)
    requires i < j < |steps| && |states| == |steps| + 1
  {
    && steps[j] == Publish(t) && t in states[j].running && states[j].running[t].Numbered?
    && states[j].running[t].number < states[i + 1].shown
    && PublishedOver(steps, states, i, states[i + 1].shown, t, states[j].running[t].number)
  }

  lemma {:induction false} DropBetween(opts: Options, steps: seq<Step>, states: seq<State>, a: nat, b: nat)
    requires IsRun(opts, steps, states) && a <= b < |states| && states[b].shown < states[a].shown
    ensures exists p :: a <= p < b && LowersAt(steps, states, p)
  {
    hide IsBuild;
    assert Moves(opts, steps, states, b - 1);
    if states[b - 1].shown < states[a].shown {
      DropBetween(opts, steps, states, a, b - 1);
    } else {
      assert LowersAt(steps, states, b - 1);
    }
  }

  // The other direction: a rebuild that was overtaken while in flight and still publishes makes
  // some publication in between lower the shown number.
  lemma OvertakenLowers(opts: Options, steps: seq<Step>, states: seq<State>, i: nat, j: nat, t: nat)
    requires IsRun(opts, steps, states) && i < j < |steps| && Overtaken(steps, states, i, j, t)
    ensures exists p :: i < p <= j && LowersAt(steps, states, p)
  {
    assert Moves(opts, steps, states, j);
    hide IsBuild, IsRun;
    DropBetween(opts, steps, states, i + 1, j + 1);
  }

  lemma LoweringIsOvertaken(opts: Options, steps: seq<Step>, states: seq<State>, p: nat) returns (i: nat)
    requires IsRun(opts, steps, states) && p < |steps| && LowersAt(steps, states, p)
    ensures i < p && Overtaken(steps, states, i, p, steps[p].thread)
  {
    assert Moves(opts, steps, states, p);
    hide IsBuild, IsRun;
    var t := steps[p].thread;
    LoweringNeedsOverlap(opts, steps, states, p, t);
    i :| 0 <= i < p && PublishedOver(steps, states, i, states[p].shown, t, states[p].running[t].number);
  }

  // A run lowers the shown number at some point exactly when some rebuild publishes after having
  // been overtaken in flight.
  lemma LoweringRuns(opts: Options, steps: seq<Step>, states: seq<State>)
    requires IsRun(opts, steps, states)
    ensures (exists p :: 0 <= p < |steps| && LowersAt(steps, states, p)) <==>
            (exists i, j, t :: 0 <= i < j < |steps| && Overtaken(steps, states, i, j, t))
  {
    assert |states| == |steps| + 1;
    hide IsRun, LowersAt, Overtaken;
    if p :| 0 <= p < |steps| && LowersAt(steps, states, p) {
      var i := LoweringIsOvertaken(opts, steps, states, p);
    }
    if i, j, t: nat :| 0 <= i < j < |steps| && Overtaken(steps, states, i, j, t) {
      OvertakenLowers(opts, steps, states, i, j, t);
    }
  }

  // Two rebuilds of an empty scan, numbered in one order and published in the other.
  ghost function FirstHalf(one: Snapshot, two: Snapshot): seq<State> {
    var s1 := Beginning(INITIAL, 0, []);
    var s2 := Beginning(s1, 1, []);
    var s3 := Numbering(s2, 0, one);
    [INITIAL, s1, s2, s3, Numbering(s3, 1, two)]
  }

  // Overlapping rebuilds can publish out of order: the shown version can go from 2 back to 1.
  lemma OverlapCanLower(opts: Options)
    ensures exists steps: seq<Step>, states: seq<State> ::
              IsRun(opts, steps, states) && |steps| == 6 && steps[5].Publish?
              && states[5].snapshot.version == 2 && states[6].snapshot.version == 1
  {
    var one, two := Snapshot(1, 0, map[], [], []), Snapshot(2, 0, map[], [], []);
    BothNumbered(opts, one, two);
    var s := FirstHalf(one, two);
    hide FirstHalf, Takes;
    var s5 := Publishing(s[4], 1);
    var s6 := Publishing(s5, 0);
    PublishTakes(opts, s[4], 1);
    PublishTakes(opts, s5, 0);
    OneByOne(opts, [Begin(0, []), Begin(1, []), Number(0, one), Number(1, two), Publish(1), Publish(0)], s + [s5, s6]);
  }

  lemma BothNumbered(opts: Options, one: Snapshot, two: Snapshot)
    requires one == Snapshot(1, 0, map[], [], []) && two == Snapshot(2, 0, map[], [], [])
    ensures var s := FirstHalf(one, two);
            && |s| == 5 && s[0] == INITIAL
            && Takes(opts, s[0], Begin(0, []), s[1]) && Takes(opts, s[1], Begin(1, []), s[2])
            && Takes(opts, s[2], Number(0, one), s[3]) && Takes(opts, s[3], Number(1, two), s[4])
            && s[4].running == map[0 := Numbered(1, Build([], one)), 1 := Numbered(2, Build([], two))]
  {
    EmptyScanBuild(opts, one);
    EmptyScanBuild(opts, two);
    hide Takes, IsBuild;
    var s := FirstHalf(one, two);
    BeginTakes(opts, INITIAL, 0);
    BeginTakes(opts, s[1], 1);
    NumberTakes(opts, s[2], 0, one);
    NumberTakes(opts, s[3], 1, two);
  }

  lemma BeginTakes(opts: Options, s: State, t: nat)
    requires t !in s.running
    ensures Takes(opts, s, Begin(t, []), Beginning(s, t, []))
  {
  }

  lemma NumberTakes(opts: Options, s: State, t: nat, made: Snapshot)
    requires t in s.running && s.running[t] == Pending([]) && IsBuild(opts, [], made)
    requires made.version == |s.builds| + 1 < WORD
    ensures Takes(opts, s, Number(t, made), Numbering(s, t, made))
  {
    hide IsBuild;
  }

  lemma PublishTakes(opts: Options, s: State, t: nat)
    requires t in s.running && s.running[t].Numbered?
    ensures Takes(opts, s, Publish(t), Publishing(s, t))
  {
  }

  lemma OneByOne(opts: Options, steps: seq<Step>, states: seq<State>)
    requires |steps| == 6 && |states| == 7 && states[0] == INITIAL
    requires Takes(opts, states[0], steps[0], states[1]) && Takes(opts, states[1], steps[1], states[2])
    requires Takes(opts, states[2], steps[2], states[3]) && Takes(opts, states[3], steps[3], states[4])
    requires Takes(opts, states[4], steps[4], states[5]) && Takes(opts, states[5], steps[5], states[6])
    ensures IsRun(opts, steps, states)
  {
    hide Takes;
    forall i | 0 <= i < |steps| ensures Moves(opts, steps, states, i) {
      assert i == 0 || i == 1 || i == 2 || i == 3 || i == 4 || i == 5;
    }
  }

  lemma EmptyScanBuild(opts: Options, s: Snapshot)
    requires s.routes == map[] && s.warnings == [] && s.conflicts == []
    ensures IsBuild(opts, [], s)
  {
    assert ClaimedNames([]) == {};
  }
}
