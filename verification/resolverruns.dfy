/** Runs of WriteResolver, complete or cut short, with other people's edits in between: what the backup
    holds, and what RemoveResolver gives back. */
module ResolverRuns {
  import opened Strings
  import opened Resolver

  // ----- Sequences of calls and outside edits -----

  // Someone else rewrites or deletes the resolver file, or WriteResolver runs with some budget.
  datatype Act = Edit(contents: Option<string>) | Write(budget: nat)

  function Put(files: Files, p: Path, contents: Option<string>): Files {
    if contents.Some? then files[p := contents.value] else files - {p}
  }

  function Perform(cfg: ResolverConfig, files: Files, a: Act): Files {
    match a
    case Edit(contents) => Put(files, ResolverPath(cfg), contents)
    case Write(budget) => AfterWrite(cfg, files, budget)
  }

  function PerformAll(cfg: ResolverConfig, files: Files, acts: seq<Act>): Files {
    if acts == [] then files
    else Perform(cfg, PerformAll(cfg, files, acts[..|acts| - 1]), acts[|acts| - 1])
  }

  predicate AllComplete(acts: seq<Act>) {
    forall i :: 0 <= i < |acts| && acts[i].Write? ==> acts[i].budget >= ENOUGH
  }

  // What the resolver file held at the start or was last edited to before action i.
  function Latest(initial: Option<string>, acts: seq<Act>, i: nat): Option<string>
    requires i <= |acts|
  {
    if i == 0 then initial
    else match acts[i - 1]
      case Edit(contents) => contents
      case Write(_) => Latest(initial, acts, i - 1)
  }

  lemma LatestOfPrefix(initial: Option<string>, acts: seq<Act>, n: nat, i: nat)
    requires i <= n <= |acts|
    ensures Latest(initial, acts[..n], i) == Latest(initial, acts, i)
  {
  }

  // ----- What gets backed up -----

  // Action i is a write that meets foreign contents and gets as far as backing them up.
  predicate SavesAt(cfg: ResolverConfig, initial: Option<string>, acts: seq<Act>, i: nat)
    requires i < |acts|
  {
    acts[i].Write? && acts[i].budget >= 4 && Foreign(cfg, Latest(initial, acts, i))
  }

  predicate SavedBefore(cfg: ResolverConfig, initial: Option<string>, acts: seq<Act>, n: nat)
    requires n <= |acts|
  {
    exists k :: 0 <= k < n && SavesAt(cfg, initial, acts, k)
  }

  predicate FirstSavesAt(cfg: ResolverConfig, initial: Option<string>, acts: seq<Act>, i: nat)
    requires i < |acts|
  {
    SavesAt(cfg, initial, acts, i) && !SavedBefore(cfg, initial, acts, i)
  }

  // The contents that the first such write meets; None when there is no such write.
  predicate FirstSaved(cfg: ResolverConfig, initial: Option<string>, acts: seq<Act>, contents: Option<string>) {
    if contents.None? then !SavedBefore(cfg, initial, acts, |acts|)
    else exists i :: 0 <= i < |acts| && FirstSavesAt(cfg, initial, acts, i) && Latest(initial, acts, i) == contents
  }

  // The resolver file holds what the edits say, unless a write replaced contents that were its own
  // or no file at all.
  predicate Agrees(cfg: ResolverConfig, standing: Option<string>, latest: Option<string>) {
    if Foreign(cfg, latest) then standing == latest else !Foreign(cfg, standing)
  }

  lemma SavedByPrefix(cfg: ResolverConfig, initial: Option<string>, acts: seq<Act>, n: nat)
    requires n <= |acts|
    ensures forall k :: 0 <= k < n ==> (SavesAt(cfg, initial, acts[..n], k) <==> SavesAt(cfg, initial, acts, k))
    ensures SavedBefore(cfg, initial, acts[..n], n) <==> SavedBefore(cfg, initial, acts, n)
    ensures Latest(initial, acts[..n], n) == Latest(initial, acts, n)
  {
    forall k | 0 <= k <= n ensures Latest(initial, acts[..n], k) == Latest(initial, acts, k) {
      LatestOfPrefix(initial, acts, n, k);
    }
    forall k | 0 <= k < n ensures SavesAt(cfg, initial, acts[..n], k) <==> SavesAt(cfg, initial, acts, k) {
    }
  }

  // Over any writes, interrupted or not, and edits: the backup is what the first write that got
  // as far as backing up met, and until then the resolver file holds what the edits say.
  lemma {:induction false} BackupIsFirstSaved(cfg: ResolverConfig, files: Files, acts: seq<Act>)
    requires SuffixOf(cfg) != "" && HasStateDir(cfg) && BackupPath(cfg) !in files
    ensures var files', initial := PerformAll(cfg, files, acts), Read(files, ResolverPath(cfg));
            && FirstSaved(cfg, initial, acts, Read(files', BackupPath(cfg)))
            && (BackupPath(cfg) !in files' ==>
                  Agrees(cfg, Read(files', ResolverPath(cfg)), Latest(initial, acts, |acts|)))
  {
    if acts != [] {
      var n := |acts| - 1;
      var before, initial := PerformAll(cfg, files, acts[..n]), Read(files, ResolverPath(cfg));
      BackupIsFirstSaved(cfg, files, acts[..n]);
      SavedByPrefix(cfg, initial, acts, n);
      OneMoreSaved(cfg, initial, acts, Read(before, BackupPath(cfg)));
      ActAgrees(cfg, before, acts[n], Latest(initial, acts, n));
    }
  }

  lemma OneMoreSaved(cfg: ResolverConfig, initial: Option<string>, acts: seq<Act>, backup: Option<string>)
    requires acts != [] && FirstSaved(cfg, initial, acts[..|acts| - 1], backup)
    ensures var n := |acts| - 1;
            FirstSaved(cfg, initial, acts,
                       if backup.None? && SavesAt(cfg, initial, acts, n) then Latest(initial, acts, n) else backup)
  {
    var n := |acts| - 1;
    SavedByPrefix(cfg, initial, acts, n);
    if backup.Some? {
      var i :| 0 <= i < n && FirstSavesAt(cfg, initial, acts[..n], i) && Latest(initial, acts[..n], i) == backup;
      LatestOfPrefix(initial, acts, n, i);
      assert FirstSavesAt(cfg, initial, acts, i);
    } else if SavesAt(cfg, initial, acts, n) {
      assert FirstSavesAt(cfg, initial, acts, n);
    }
  }

  // What one action without an earlier backup does to the two files.
  lemma ActAgrees(cfg: ResolverConfig, files: Files, a: Act, latest: Option<string>)
    requires SuffixOf(cfg) != "" && HasStateDir(cfg)
    requires BackupPath(cfg) !in files ==> Agrees(cfg, Read(files, ResolverPath(cfg)), latest)
    ensures var files' := Perform(cfg, files, a);
            && (BackupPath(cfg) !in files' ==>
                  Agrees(cfg, Read(files', ResolverPath(cfg)),
                         match a case Edit(contents) => contents case Write(_) => latest))
            && Read(files', BackupPath(cfg)) ==
               if BackupPath(cfg) !in files && a.Write? && a.budget >= 4 && Foreign(cfg, latest) then latest
               else Read(files, BackupPath(cfg))
  {
  }

  // So RemoveResolver always puts back the contents that were backed up first, or removes the file
  // when none were, and leaves no backup behind.
  lemma RemoveRestoresSaved(cfg: ResolverConfig, files: Files, acts: seq<Act>)
    requires SuffixOf(cfg) != "" && HasStateDir(cfg) && BackupPath(cfg) !in files
    ensures var files' := AfterRemove(cfg, PerformAll(cfg, files, acts), ENOUGH);
            && FirstSaved(cfg, Read(files, ResolverPath(cfg)), acts, Read(files', ResolverPath(cfg)))
            && BackupPath(cfg) !in files'
  {
    BackupIsFirstSaved(cfg, files, acts);
    hide FirstSaved;
  }

  // ----- What gets displaced -----

  // A write that really takes foreign contents out of the resolver file.
  predicate Displaces(cfg: ResolverConfig, files: Files, a: Act) {
    && a.Write? && Foreign(cfg, Read(files, ResolverPath(cfg)))
    && Read(Perform(cfg, files, a), ResolverPath(cfg)) != Read(files, ResolverPath(cfg))
  }

  predicate DisplacedAt(cfg: ResolverConfig, files: Files, acts: seq<Act>, i: nat)
    requires i < |acts|
  {
    Displaces(cfg, PerformAll(cfg, files, acts[..i]), acts[i])
  }

  predicate NoneDisplaced(cfg: ResolverConfig, files: Files, acts: seq<Act>, n: nat)
    requires n <= |acts|
  {
    forall k :: 0 <= k < n ==> !DisplacedAt(cfg, files, acts, k)
  }

  // The first foreign contents that a write took out of the file; None when no write did.
  predicate FirstDisplaced(cfg: ResolverConfig, files: Files, acts: seq<Act>, contents: Option<string>) {
    if contents.None? then NoneDisplaced(cfg, files, acts, |acts|)
    else exists i :: 0 <= i < |acts| && DisplacedAt(cfg, files, acts, i) && NoneDisplaced(cfg, files, acts, i)
                     && Read(PerformAll(cfg, files, acts[..i]), ResolverPath(cfg)) == contents
  }

  // The same, read off the actions: replacing foreign contents takes three operations when there
  // is a backup and five when there is none.
  predicate ReplacesAt(cfg: ResolverConfig, initial: Option<string>, acts: seq<Act>, i: nat)
    requires i < |acts|
  {
    && acts[i].Write? && Foreign(cfg, Latest(initial, acts, i))
    && acts[i].budget >= (if SavedBefore(cfg, initial, acts, i) then 3 else ENOUGH)
  }

  // As long as nothing was displaced, the resolver file holds what the edits say.
  lemma {:induction false} UndisplacedAgrees(cfg: ResolverConfig, files: Files, acts: seq<Act>, n: nat)
    requires SuffixOf(cfg) != "" && n <= |acts| && NoneDisplaced(cfg, files, acts, n)
    ensures Agrees(cfg, Read(PerformAll(cfg, files, acts[..n]), ResolverPath(cfg)),
                   Latest(Read(files, ResolverPath(cfg)), acts, n))
  {
    if n > 0 {
      hide Displaces, Agrees, Perform;
      UndisplacedAgrees(cfg, files, acts, n - 1);
      assert acts[..n][..n - 1] == acts[..n - 1];
      assert !DisplacedAt(cfg, files, acts, n - 1);
      UndisplacedStep(cfg, PerformAll(cfg, files, acts[..n - 1]), acts[n - 1],
                      Latest(Read(files, ResolverPath(cfg)), acts, n - 1));
    }
  }

  lemma UndisplacedStep(cfg: ResolverConfig, files: Files, a: Act, latest: Option<string>)
    requires SuffixOf(cfg) != "" && !Displaces(cfg, files, a)
    requires Agrees(cfg, Read(files, ResolverPath(cfg)), latest)
    ensures Agrees(cfg, Read(Perform(cfg, files, a), ResolverPath(cfg)),
                   match a case Edit(contents) => contents case Write(_) => latest)
  {
  }

  // Up to the first displacement both readings coincide.
  lemma FirstReplacement(cfg: ResolverConfig, files: Files, acts: seq<Act>, i: nat)
    requires SuffixOf(cfg) != "" && HasStateDir(cfg) && BackupPath(cfg) !in files
    requires i < |acts| && NoneDisplaced(cfg, files, acts, i)
    ensures var initial, met := Read(files, ResolverPath(cfg)),
                                Read(PerformAll(cfg, files, acts[..i]), ResolverPath(cfg));
            && (DisplacedAt(cfg, files, acts, i) <==> ReplacesAt(cfg, initial, acts, i))
            && (DisplacedAt(cfg, files, acts, i) ==> met == Latest(initial, acts, i))
  {
    var initial, before := Read(files, ResolverPath(cfg)), PerformAll(cfg, files, acts[..i]);
    UndisplacedAgrees(cfg, files, acts, i);
    BackupIsFirstSaved(cfg, files, acts[..i]);
    SavedByPrefix(cfg, initial, acts, i);
    SavedKnown(cfg, initial, acts[..i], Read(before, BackupPath(cfg)));
    hide Latest, PerformAll, FirstSaved, SavedBefore;
  }

  lemma SavedKnown(cfg: ResolverConfig, initial: Option<string>, acts: seq<Act>, contents: Option<string>)
    requires FirstSaved(cfg, initial, acts, contents)
    ensures contents.Some? <==> SavedBefore(cfg, initial, acts, |acts|)
  {
  }

  predicate NoneReplaced(cfg: ResolverConfig, initial: Option<string>, acts: seq<Act>, n: nat)
    requires n <= |acts|
  {
    forall k :: 0 <= k < n ==> !ReplacesAt(cfg, initial, acts, k)
  }

  lemma {:induction false} NoneReplacedIff(cfg: ResolverConfig, files: Files, acts: seq<Act>, n: nat)
    requires SuffixOf(cfg) != "" && HasStateDir(cfg) && BackupPath(cfg) !in files && n <= |acts|
    ensures NoneReplaced(cfg, Read(files, ResolverPath(cfg)), acts, n) <==> NoneDisplaced(cfg, files, acts, n)
  {
    hide ReplacesAt, DisplacedAt;
    if n > 0 {
      NoneReplacedIff(cfg, files, acts, n - 1);
      if NoneDisplaced(cfg, files, acts, n - 1) { FirstReplacement(cfg, files, acts, n - 1); }
    }
  }

  // The first replacement, read off the actions alone, tells what was displaced first.
  predicate FirstReplaced(cfg: ResolverConfig, initial: Option<string>, acts: seq<Act>, contents: Option<string>) {
    if contents.None? then NoneReplaced(cfg, initial, acts, |acts|)
    else exists i :: 0 <= i < |acts| && ReplacesAt(cfg, initial, acts, i) && NoneReplaced(cfg, initial, acts, i)
                     && Latest(initial, acts, i) == contents
  }

  lemma FirstDisplacedIff(cfg: ResolverConfig, files: Files, acts: seq<Act>, contents: Option<string>)
    requires SuffixOf(cfg) != "" && HasStateDir(cfg) && BackupPath(cfg) !in files
    ensures FirstDisplaced(cfg, files, acts, contents) <==>
            FirstReplaced(cfg, Read(files, ResolverPath(cfg)), acts, contents)
  {
    var initial := Read(files, ResolverPath(cfg));
    NoneReplacedIff(cfg, files, acts, |acts|);
    forall i | 0 <= i < |acts|
      ensures NoneReplaced(cfg, initial, acts, i) <==> NoneDisplaced(cfg, files, acts, i)
      ensures NoneDisplaced(cfg, files, acts, i) ==>
                && (DisplacedAt(cfg, files, acts, i) <==> ReplacesAt(cfg, initial, acts, i))
                && (DisplacedAt(cfg, files, acts, i) ==>
                      Read(PerformAll(cfg, files, acts[..i]), ResolverPath(cfg)) == Latest(initial, acts, i))
    {
      NoneReplacedIff(cfg, files, acts, i);
      if NoneDisplaced(cfg, files, acts, i) { FirstReplacement(cfg, files, acts, i); }
    }
    hide ReplacesAt, DisplacedAt, NoneReplaced, NoneDisplaced, PerformAll, Latest;
  }

  // ----- When what is restored is what was displaced -----

  // Action j is the first write after i that gets to replace foreign contents, and it meets the
  // same contents as i did.
  predicate RetakenAt(cfg: ResolverConfig, initial: Option<string>, acts: seq<Act>, i: nat, j: nat)
    requires i < j < |acts|
  {
    && acts[j].Write? && acts[j].budget >= 3 && Latest(initial, acts, j) == Latest(initial, acts, i)
    && forall k :: i < k < j && acts[k].Write? && acts[k].budget >= 3 ==> !Foreign(cfg, Latest(initial, acts, k))
  }

  // The first write that backed anything up went on to replace what it had backed up, or was
  // stopped in between and the next write that could replace anything met the same contents.
  predicate Undisturbed(cfg: ResolverConfig, initial: Option<string>, acts: seq<Act>) {
    forall i :: 0 <= i < |acts| && FirstSavesAt(cfg, initial, acts, i) ==>
      acts[i].budget >= ENOUGH || exists j :: i < j < |acts| && RetakenAt(cfg, initial, acts, i, j)
  }

  // After any writes, interrupted or not, and any edits, what is backed up, and hence what
  // RemoveResolver puts back, is what was displaced first exactly under that condition.
  lemma BackupIsFirstDisplacedIff(cfg: ResolverConfig, files: Files, acts: seq<Act>)
    requires SuffixOf(cfg) != "" && HasStateDir(cfg) && BackupPath(cfg) !in files
    ensures FirstDisplaced(cfg, files, acts, Read(PerformAll(cfg, files, acts), BackupPath(cfg))) <==>
            Undisturbed(cfg, Read(files, ResolverPath(cfg)), acts)
  {
    var initial, backup := Read(files, ResolverPath(cfg)), Read(PerformAll(cfg, files, acts), BackupPath(cfg));
    BackupIsFirstSaved(cfg, files, acts);
    FirstDisplacedIff(cfg, files, acts, backup);
    hide FirstSaved, FirstReplaced, Undisturbed, PerformAll, FirstDisplaced;
    SavedIsReplacedIff(cfg, initial, acts, backup);
  }

  lemma SavedIsReplacedIff(cfg: ResolverConfig, initial: Option<string>, acts: seq<Act>, contents: Option<string>)
    requires FirstSaved(cfg, initial, acts, contents)
    ensures FirstReplaced(cfg, initial, acts, contents) <==> Undisturbed(cfg, initial, acts)
  {
    hide Latest;
    if contents.None? {
      NothingSaved(cfg, initial, acts);
    } else {
      var i :| 0 <= i < |acts| && FirstSavesAt(cfg, initial, acts, i) && Latest(initial, acts, i) == contents;
      OneFirstSave(cfg, initial, acts, i);
      NoneReplacedBefore(cfg, initial, acts, i);
      if acts[i].budget >= ENOUGH {
        assert ReplacesAt(cfg, initial, acts, i);
      } else {
        ReplacedLater(cfg, initial, acts, i);
        RetakenIff(cfg, initial, acts, i);
      }
    }
  }

  lemma NothingSaved(cfg: ResolverConfig, initial: Option<string>, acts: seq<Act>)
    requires !SavedBefore(cfg, initial, acts, |acts|)
    ensures NoneReplaced(cfg, initial, acts, |acts|) && Undisturbed(cfg, initial, acts)
  {
    hide Latest;
    forall k | 0 <= k < |acts| ensures !ReplacesAt(cfg, initial, acts, k) && !FirstSavesAt(cfg, initial, acts, k) {
      assert !SavesAt(cfg, initial, acts, k);
    }
  }

  lemma OneFirstSave(cfg: ResolverConfig, initial: Option<string>, acts: seq<Act>, i: nat)
    requires i < |acts| && FirstSavesAt(cfg, initial, acts, i)
    ensures forall k :: 0 <= k < |acts| && FirstSavesAt(cfg, initial, acts, k) ==> k == i
    ensures Undisturbed(cfg, initial, acts) <==>
            acts[i].budget >= ENOUGH || exists j :: i < j < |acts| && RetakenAt(cfg, initial, acts, i, j)
  {
    hide SavesAt, RetakenAt;
    forall k | 0 <= k < |acts| && FirstSavesAt(cfg, initial, acts, k) ensures k == i {
      assert SavesAt(cfg, initial, acts, k) && SavesAt(cfg, initial, acts, i);
    }
  }

  lemma NoneReplacedBefore(cfg: ResolverConfig, initial: Option<string>, acts: seq<Act>, i: nat)
    requires i < |acts| && FirstSavesAt(cfg, initial, acts, i)
    ensures NoneReplaced(cfg, initial, acts, i)
  {
    hide Latest;
    forall k | 0 <= k < i ensures !ReplacesAt(cfg, initial, acts, k) {
      assert !SavesAt(cfg, initial, acts, k);
    }
  }

  // After a write stopped right behind its backup, three operations suffice to replace.
  lemma ReplacedLater(cfg: ResolverConfig, initial: Option<string>, acts: seq<Act>, i: nat)
    requires i < |acts| && FirstSavesAt(cfg, initial, acts, i) && acts[i].budget < ENOUGH
    ensures forall k :: 0 <= k <= i ==> !ReplacesAt(cfg, initial, acts, k)
    ensures forall k :: i < k < |acts| ==>
              (ReplacesAt(cfg, initial, acts, k) <==>
               acts[k].Write? && acts[k].budget >= 3 && Foreign(cfg, Latest(initial, acts, k)))
  {
    hide Latest;
    NoneReplacedBefore(cfg, initial, acts, i);
    forall k | i < k < |acts| ensures SavedBefore(cfg, initial, acts, k) {
      assert SavesAt(cfg, initial, acts, i);
    }
  }

  lemma RetakenIff(cfg: ResolverConfig, initial: Option<string>, acts: seq<Act>, i: nat)
    requires i < |acts| && FirstSavesAt(cfg, initial, acts, i)
    requires forall k :: 0 <= k <= i ==> !ReplacesAt(cfg, initial, acts, k)
    requires forall k :: i < k < |acts| ==>
               (ReplacesAt(cfg, initial, acts, k) <==>
                acts[k].Write? && acts[k].budget >= 3 && Foreign(cfg, Latest(initial, acts, k)))
    ensures FirstReplaced(cfg, initial, acts, Latest(initial, acts, i)) <==>
            exists j :: i < j < |acts| && RetakenAt(cfg, initial, acts, i, j)
  {
    hide Latest, ReplacesAt, SavedBefore;
    var contents := Latest(initial, acts, i);
    if FirstReplaced(cfg, initial, acts, contents) {
      var j :| 0 <= j < |acts| && ReplacesAt(cfg, initial, acts, j) && NoneReplaced(cfg, initial, acts, j)
               && Latest(initial, acts, j) == contents;
      assert RetakenAt(cfg, initial, acts, i, j);
    }
    if j :| i < j < |acts| && RetakenAt(cfg, initial, acts, i, j) {
      assert ReplacesAt(cfg, initial, acts, j);
      assert NoneReplaced(cfg, initial, acts, j);
    }
  }

  // In particular it is so when nothing but stopped writes lies between that write and the next
  // one that gets to replace something.
  lemma QuietIsUndisturbed(cfg: ResolverConfig, initial: Option<string>, acts: seq<Act>, i: nat, j: nat)
    requires i < j < |acts| && FirstSavesAt(cfg, initial, acts, i) && acts[j].Write? && acts[j].budget >= 3
    requires forall k :: i < k < j ==> acts[k].Write? && acts[k].budget < 3
    ensures Undisturbed(cfg, initial, acts)
  {
    LatestUnedited(initial, acts, i, j);
    assert RetakenAt(cfg, initial, acts, i, j);
    OneFirstSave(cfg, initial, acts, i);
  }

  lemma {:induction false} LatestUnedited(initial: Option<string>, acts: seq<Act>, i: nat, j: nat)
    requires i <= j <= |acts| && forall k :: i <= k < j ==> acts[k].Write?
    ensures Latest(initial, acts, j) == Latest(initial, acts, i)
  {
    if i < j { LatestUnedited(initial, acts, i, j - 1); }
  }

  lemma RemoveRestoresDisplacedIff(cfg: ResolverConfig, files: Files, acts: seq<Act>)
    requires SuffixOf(cfg) != "" && HasStateDir(cfg) && BackupPath(cfg) !in files
    ensures var files' := AfterRemove(cfg, PerformAll(cfg, files, acts), ENOUGH);
            FirstDisplaced(cfg, files, acts, Read(files', ResolverPath(cfg))) <==>
            Undisturbed(cfg, Read(files, ResolverPath(cfg)), acts)
  {
    BackupIsFirstDisplacedIff(cfg, files, acts);
    hide FirstDisplaced, Undisturbed, PerformAll;
  }

  // When every write completes, the backup is always the first foreign contents displaced.
  lemma BackupIsFirstDisplaced(cfg: ResolverConfig, files: Files, acts: seq<Act>)
    requires SuffixOf(cfg) != "" && HasStateDir(cfg) && BackupPath(cfg) !in files && AllComplete(acts)
    ensures FirstDisplaced(cfg, files, acts, Read(PerformAll(cfg, files, acts), BackupPath(cfg)))
  {
    BackupIsFirstDisplacedIff(cfg, files, acts);
    CompleteIsUndisturbed(cfg, Read(files, ResolverPath(cfg)), acts);
  }

  lemma CompleteIsUndisturbed(cfg: ResolverConfig, initial: Option<string>, acts: seq<Act>)
    requires AllComplete(acts)
    ensures Undisturbed(cfg, initial, acts)
  {
  }

  // RemoveResolver then puts them back, or removes the file when there were none.
  lemma RemoveRestoresFirst(cfg: ResolverConfig, files: Files, acts: seq<Act>)
    requires SuffixOf(cfg) != "" && HasStateDir(cfg) && BackupPath(cfg) !in files && AllComplete(acts)
    ensures var files' := AfterRemove(cfg, PerformAll(cfg, files, acts), ENOUGH);
            && FirstDisplaced(cfg, files, acts, Read(files', ResolverPath(cfg)))
            && BackupPath(cfg) !in files'
  {
    BackupIsFirstDisplaced(cfg, files, acts);
    hide FirstDisplaced, PerformAll;
  }

  // But it then need not be what was displaced: a write that stops right after its backup, an edit
  // and a complete write lose the edited contents for good.
  lemma InterruptedWriteCanLose(cfg: ResolverConfig, old1: string, new1: string)
    requires SuffixOf(cfg) != "" && HasStateDir(cfg)
    requires old1 != Managed(cfg) && new1 != Managed(cfg) && old1 != new1
    ensures var files := map[ResolverPath(cfg) := old1];
            var files' := AfterRemove(cfg, PerformAll(cfg, files, [Write(4), Edit(Some(new1)), Write(ENOUGH)]), ENOUGH);
            files' == map[ResolverPath(cfg) := old1]
  {
    var files: Files := map[ResolverPath(cfg) := old1];
    var a, b, c := Write(4), Edit(Some(new1)), Write(ENOUGH);
    assert [a, b, c][..2] == [a, b] && [a, b][..1] == [a] && [a][..0] == [];
    var f1 := map[ResolverPath(cfg) := old1, BackupPath(cfg) := old1];
    assert PerformAll(cfg, files, [a]) == f1;
    var f2 := map[ResolverPath(cfg) := new1, BackupPath(cfg) := old1];
    assert PerformAll(cfg, files, [a, b]) == f2;
  }

  // With interrupted writes in the sequence the first foreign contents still survive: once a write
  // has backed them up, nothing but RemoveResolver changes the backup.
  lemma {:induction false} BackupIsWriteOnce(cfg: ResolverConfig, files: Files, acts: seq<Act>)
    requires BackupPath(cfg) in files
    ensures Read(PerformAll(cfg, files, acts), BackupPath(cfg)) == Some(files[BackupPath(cfg)])
  {
    if acts != [] {
      BackupIsWriteOnce(cfg, files, acts[..|acts| - 1]);
    }
  }

  // ----- Stopping a call after any run -----

  predicate Keeps(cfg: ResolverConfig, files: Files, contents: string) {
    Read(files, ResolverPath(cfg)) == Some(contents) || Read(files, BackupPath(cfg)) == Some(contents)
  }

  // Once contents were backed up, no run and no stopped call loses them.
  lemma SavedSurvives(cfg: ResolverConfig, files: Files, acts: seq<Act>, budget: nat, contents: string)
    requires SuffixOf(cfg) != "" && HasStateDir(cfg) && BackupPath(cfg) !in files
    requires FirstSaved(cfg, Read(files, ResolverPath(cfg)), acts, Some(contents))
    ensures Keeps(cfg, AfterWrite(cfg, PerformAll(cfg, files, acts), budget), contents)
    ensures Keeps(cfg, AfterRemove(cfg, PerformAll(cfg, files, acts), budget), contents)
  {
    BackupIsFirstSaved(cfg, files, acts);
    var initial := Read(files, ResolverPath(cfg));
    SavedOnce(cfg, initial, acts, Some(contents), Read(PerformAll(cfg, files, acts), BackupPath(cfg)));
    hide PerformAll, FirstSaved;
  }

  lemma SavedOnce(cfg: ResolverConfig, initial: Option<string>, acts: seq<Act>, a: Option<string>, b: Option<string>)
    requires FirstSaved(cfg, initial, acts, a) && FirstSaved(cfg, initial, acts, b) && a.Some?
    ensures a == b
  {
    hide Latest, SavesAt;
    var i :| 0 <= i < |acts| && FirstSavesAt(cfg, initial, acts, i) && Latest(initial, acts, i) == a;
    OneFirstSave(cfg, initial, acts, i);
    assert SavesAt(cfg, initial, acts, i);
  }

  // After any run that satisfies the condition above (any complete run does), stop one more write
  // or a removal before any of its operations: the contents that were displaced first, or that
  // this write is the first to displace, are in the resolver file or in the backup.
  lemma FirstDisplacedSurvives(cfg: ResolverConfig, files: Files, acts: seq<Act>, budget: nat, contents: string)
    requires SuffixOf(cfg) != "" && HasStateDir(cfg) && BackupPath(cfg) !in files
    requires Undisturbed(cfg, Read(files, ResolverPath(cfg)), acts)
    ensures FirstDisplaced(cfg, files, acts + [Write(ENOUGH)], Some(contents)) ==>
              Keeps(cfg, AfterWrite(cfg, PerformAll(cfg, files, acts), budget), contents)
    ensures FirstDisplaced(cfg, files, acts, Some(contents)) ==>
              Keeps(cfg, AfterRemove(cfg, PerformAll(cfg, files, acts), budget), contents)
  {
    var files' := PerformAll(cfg, files, acts);
    BackupIsFirstDisplacedIff(cfg, files, acts);
    hide FirstDisplaced, Undisturbed, PerformAll;
    var backup := Read(files', BackupPath(cfg));
    if FirstDisplaced(cfg, files, acts, Some(contents)) {
      DisplacedOnce(cfg, files, acts, Some(contents), backup);
    }
    if FirstDisplaced(cfg, files, acts + [Write(ENOUGH)], Some(contents)) {
      LastDisplaces(cfg, files, acts, Write(ENOUGH), contents);
      if !FirstDisplaced(cfg, files, acts, Some(contents)) {
        if backup.Some? { DisplacedOnce(cfg, files, acts, backup, None); }
        WriteNeverLoses(cfg, files', budget);
      } else {
        SavedStays(cfg, files', budget);
      }
    }
  }

  lemma SavedStays(cfg: ResolverConfig, files: Files, budget: nat)
    requires BackupPath(cfg) in files
    ensures Read(AfterWrite(cfg, files, budget), BackupPath(cfg)) == Read(files, BackupPath(cfg))
  {
  }

  lemma DisplacedOnce(cfg: ResolverConfig, files: Files, acts: seq<Act>, a: Option<string>, b: Option<string>)
    requires FirstDisplaced(cfg, files, acts, a) && FirstDisplaced(cfg, files, acts, b) && a.Some?
    ensures a == b
  {
    hide DisplacedAt, PerformAll;
    var i :| 0 <= i < |acts| && DisplacedAt(cfg, files, acts, i) && NoneDisplaced(cfg, files, acts, i)
             && Read(PerformAll(cfg, files, acts[..i]), ResolverPath(cfg)) == a;
    if b.Some? {
      var j :| 0 <= j < |acts| && DisplacedAt(cfg, files, acts, j) && NoneDisplaced(cfg, files, acts, j)
               && Read(PerformAll(cfg, files, acts[..j]), ResolverPath(cfg)) == b;
      assert i == j;
    }
  }

  // What a longer run displaced first was displaced before its last action or by it.
  lemma LastDisplaces(cfg: ResolverConfig, files: Files, acts: seq<Act>, last: Act, contents: string)
    requires FirstDisplaced(cfg, files, acts + [last], Some(contents))
    ensures FirstDisplaced(cfg, files, acts, Some(contents)) ||
            (FirstDisplaced(cfg, files, acts, None) && Displaces(cfg, PerformAll(cfg, files, acts), last)
             && Read(PerformAll(cfg, files, acts), ResolverPath(cfg)) == Some(contents))
  {
    hide PerformAll, Displaces;
    var all := acts + [last];
    forall k | 0 <= k <= |acts| ensures all[..k] == acts[..k] {
    }
    forall k | 0 <= k < |acts| ensures DisplacedAt(cfg, files, all, k) <==> DisplacedAt(cfg, files, acts, k) {
      assert all[k] == acts[k];
    }
    var i :| 0 <= i < |all| && DisplacedAt(cfg, files, all, i) && NoneDisplaced(cfg, files, all, i)
             && Read(PerformAll(cfg, files, all[..i]), ResolverPath(cfg)) == Some(contents);
    if i < |acts| {
      assert NoneDisplaced(cfg, files, acts, i);
    } else {
      assert all[..i] == acts && all[i] == last;
      assert NoneDisplaced(cfg, files, acts, |acts|);
    }
  }
}
