/** internal/install/resolver.go: taking over a resolver file and giving it back. Every file operation
    is atomic; a call can be cut short before any of them, which stands both for an operation that
    fails (the call returns its error) and for a crash. */
module Resolver {
  import opened Strings

  datatype Path = ResolverFile(dir: string, suffix: string) | BackupFile(stateDir: string, suffix: string)

  type Files = map<Path, string>

  datatype ResolverConfig = ResolverConfig(suffix: string, resolverDir: string, stateDir: string)

  // ----- Normalising the configuration -----

  function SuffixOf(cfg: ResolverConfig): string {
    TrimSpace(TrimPrefix(cfg.suffix, "."))
  }

  function DirOf(cfg: ResolverConfig): string {
    if cfg.resolverDir == "" then "/etc/resolver" else cfg.resolverDir
  }

  predicate HasStateDir(cfg: ResolverConfig) {
    TrimSpace(cfg.stateDir) != ""
  }

  function ResolverPath(cfg: ResolverConfig): Path {
    ResolverFile(DirOf(cfg), SuffixOf(cfg))
  }

  function BackupPath(cfg: ResolverConfig): Path {
    BackupFile(TrimSpace(cfg.stateDir), SuffixOf(cfg))
  }

  function ManagedContents(suffix: string): string {
    "domain " + suffix + "\n" + "nameserver 127.0.0.1" + "\n" + "port 53535" + "\n"
  }

  function Managed(cfg: ResolverConfig): string {
    ManagedContents(SuffixOf(cfg))
  }

  function Read(files: Files, p: Path): Option<string> {
    if p in files then Some(files[p]) else None
  }

  // ----- The file operations of one call -----

  // Contents that WriteResolver would displace: a file that exists and is not its own.
  predicate Foreign(cfg: ResolverConfig, contents: Option<string>) {
    contents.Some? && contents.value != Managed(cfg)
  }

  datatype Outcome = Done | InvalidConfig | Interrupted

  // ----- What the calls come to -----

  // How many operations backing up takes.
  function BackupOps(cfg: ResolverConfig, files: Files): nat {
    if !HasStateDir(cfg) then 0 else if BackupPath(cfg) in files then 1 else 3
  }

  // How many operations precede the final write.
  function OpsBeforeWrite(cfg: ResolverConfig, files: Files): nat {
    1 + if Foreign(cfg, Read(files, ResolverPath(cfg))) then BackupOps(cfg, files) else 0
  }

  predicate BacksUp(cfg: ResolverConfig, files: Files, budget: nat) {
    SuffixOf(cfg) != "" && Foreign(cfg, Read(files, ResolverPath(cfg))) && HasStateDir(cfg) && BackupPath(cfg) !in files
    && budget >= 4
  }

  predicate Takes(cfg: ResolverConfig, files: Files, budget: nat) {
    SuffixOf(cfg) != "" && budget > OpsBeforeWrite(cfg, files)
  }

  function WriteOutcome(cfg: ResolverConfig, files: Files, budget: nat): Outcome {
    if SuffixOf(cfg) == "" then InvalidConfig else if Takes(cfg, files, budget) then Done else Interrupted
  }

  function AfterWrite(cfg: ResolverConfig, files: Files, budget: nat): Files {
    var saved := if BacksUp(cfg, files, budget) then files[BackupPath(cfg) := files[ResolverPath(cfg)]] else files;
    if Takes(cfg, files, budget) then saved[ResolverPath(cfg) := Managed(cfg)] else saved
  }

  predicate Restores(cfg: ResolverConfig, files: Files) {
    HasStateDir(cfg) && BackupPath(cfg) in files
  }

  function RemoveOutcome(cfg: ResolverConfig, files: Files, budget: nat): Outcome {
    if SuffixOf(cfg) == "" then InvalidConfig
    else if budget >= (if Restores(cfg, files) then 3 else if HasStateDir(cfg) then 2 else 1) then Done
    else Interrupted
  }

  function AfterRemove(cfg: ResolverConfig, files: Files, budget: nat): Files {
    if SuffixOf(cfg) == "" then files
    else if Restores(cfg, files) then
      var restored := if budget >= 2 then files[ResolverPath(cfg) := files[BackupPath(cfg)]] else files;
      if budget >= 3 then restored - {BackupPath(cfg)} else restored
    else if budget >= (if HasStateDir(cfg) then 2 else 1) then files - {ResolverPath(cfg)}
    else files
  }

  // A budget no call uses up.
  const ENOUGH := 5

  // ----- The calls -----

  class Disk {
    var files: Files

    constructor (files: Files)
      ensures this.files == files
    {
      this.files := files;
    }

    // Budget counts the file operations that still succeed.
    method WriteResolver(cfg: ResolverConfig, budget: nat) returns (r: Outcome)
      modifies this
      ensures r == WriteOutcome(cfg, old(files), budget)
      ensures files == AfterWrite(cfg, old(files), budget)
    {
      var suffix := SuffixOf(cfg);
      if suffix == "" {
        return InvalidConfig;
      }
      var left := budget;
      if left == 0 { return Interrupted; }
      left := left - 1;
      var existing := Read(files, ResolverPath(cfg));
      if existing.Some? && existing.value != Managed(cfg) {
        var ok;
        ok, left := WriteResolverBackup(cfg, existing.value, left);
        if !ok {
          return Interrupted;
        }
      }
      if left == 0 { return Interrupted; }
      files := files[ResolverPath(cfg) := Managed(cfg)];
      return Done;
    }

    // Stat, MkdirAll, WriteFile; nothing when there is no state directory or a backup already.
    method WriteResolverBackup(cfg: ResolverConfig, contents: string, budget: nat) returns (ok: bool, left: nat)
      modifies this
      ensures ok <==> budget >= BackupOps(cfg, old(files))
      ensures ok ==> left == budget - BackupOps(cfg, old(files))
      ensures files == if ok && BackupOps(cfg, old(files)) == 3
              then old(files)[BackupPath(cfg) := contents] else old(files)
    {
      if !HasStateDir(cfg) {
        return true, budget;
      }
      if budget == 0 { return false, 0; }
      if BackupPath(cfg) in files {
        return true, budget - 1;
      }
      if budget == 1 { return false, 0; }
      if budget == 2 { return false, 0; }
      files := files[BackupPath(cfg) := contents];
      return true, budget - 3;
    }

    method RemoveResolver(cfg: ResolverConfig, budget: nat) returns (r: Outcome)
      modifies this
      ensures r == RemoveOutcome(cfg, old(files), budget)
      ensures files == AfterRemove(cfg, old(files), budget)
    {
      if SuffixOf(cfg) == "" {
        return InvalidConfig;
      }
      var left := budget;
      if HasStateDir(cfg) {
        if left == 0 { return Interrupted; }
        left := left - 1;
        var backup := Read(files, BackupPath(cfg));
        if backup.Some? {
          if left == 0 { return Interrupted; }
          files := files[ResolverPath(cfg) := backup.value];
          if left == 1 { return Interrupted; }
          files := files - {BackupPath(cfg)};
          return Done;
        }
      }
      if left == 0 { return Interrupted; }
      files := files - {ResolverPath(cfg)};
      return Done;
    }
  }

  // ----- One call -----

  // What a takeover writes: three lines naming the suffix and the daemon's DNS listener.
  lemma ManagedLines(suffix: string)
    requires '\n' !in suffix
    ensures Split(ManagedContents(suffix), '\n') == ["domain " + suffix, "nameserver 127.0.0.1", "port 53535", ""]
  {
    var one, two, three := "domain " + suffix, "nameserver 127.0.0.1", "port 53535";
    hide Split;
    ThreeLines(one, two, three);
  }

  lemma ThreeLines(one: string, two: string, three: string)
    requires '\n' !in one && '\n' !in two && '\n' !in three
    ensures Split(one + "\n" + two + "\n" + three + "\n", '\n') == [one, two, three, ""]
  {
    var last := three + "\n" + "";
    var rest := two + "\n" + last;
    assert one + "\n" + two + "\n" + three + "\n" == one + "\n" + rest;
    SplitPlain("", '\n');
    hide Split;
    SplitFirst(one, '\n', rest);
    SplitFirst(two, '\n', last);
    SplitFirst(three, '\n', "");
  }

  // Where it is written: under the suffix without a leading dot, in the usual directory by default.
  lemma ResolverPathMeaning(cfg: ResolverConfig)
    ensures ResolverPath(cfg) ==
            ResolverFile(if cfg.resolverDir != "" then cfg.resolverDir else "/etc/resolver",
                         TrimSpace(if cfg.suffix != "" && cfg.suffix[0] == '.' then cfg.suffix[1..] else cfg.suffix))
    ensures HasStateDir(cfg) <==> BackupPath(cfg) != BackupFile("", SuffixOf(cfg))
  {
    assert HasPrefix(cfg.suffix, ".") <==> cfg.suffix != "" && cfg.suffix[0] == '.';
    hide TrimSpace;
  }

  // What the outcomes mean: a write that reports success leaves the managed contents, a removal
  // that does leaves no backup, and its resolver file is the backup or gone; calls without a suffix
  // change nothing.
  lemma OutcomesMean(cfg: ResolverConfig, files: Files, budget: nat)
    ensures SuffixOf(cfg) == "" <==> WriteOutcome(cfg, files, budget) == InvalidConfig
    ensures SuffixOf(cfg) == "" <==> RemoveOutcome(cfg, files, budget) == InvalidConfig
    ensures SuffixOf(cfg) == "" ==> AfterWrite(cfg, files, budget) == AfterRemove(cfg, files, budget) == files
    ensures WriteOutcome(cfg, files, budget) == Done ==>
              Read(AfterWrite(cfg, files, budget), ResolverPath(cfg)) == Some(ManagedContents(SuffixOf(cfg)))
    ensures RemoveOutcome(cfg, files, budget) == Done ==>
              Read(AfterRemove(cfg, files, budget), ResolverPath(cfg)) ==
              (if HasStateDir(cfg) then Read(files, BackupPath(cfg)) else None)
              && (HasStateDir(cfg) ==> BackupPath(cfg) !in AfterRemove(cfg, files, budget))
    ensures budget >= ENOUGH && SuffixOf(cfg) != "" ==>
              WriteOutcome(cfg, files, budget) == RemoveOutcome(cfg, files, budget) == Done
  {
    hide SuffixOf, HasStateDir, ManagedContents;
  }

  // Neither call touches any other file.
  lemma OtherFilesUntouched(cfg: ResolverConfig, files: Files, budget: nat, p: Path)
    requires p != ResolverPath(cfg) && p != BackupPath(cfg)
    ensures Read(AfterWrite(cfg, files, budget), p) == Read(files, p)
    ensures Read(AfterRemove(cfg, files, budget), p) == Read(files, p)
  {
  }

  // With a state directory, stopping WriteResolver before any operation leaves foreign contents in
  // the resolver file or in the backup, unless an older backup was there, which then stays.
  lemma WriteNeverLoses(cfg: ResolverConfig, files: Files, budget: nat)
    requires HasStateDir(cfg) && Foreign(cfg, Read(files, ResolverPath(cfg)))
    ensures var files' := AfterWrite(cfg, files, budget);
            && (BackupPath(cfg) !in files ==>
                  Read(files', ResolverPath(cfg)) == Read(files, ResolverPath(cfg))
                  || Read(files', BackupPath(cfg)) == Read(files, ResolverPath(cfg)))
            && (BackupPath(cfg) in files ==> Read(files', BackupPath(cfg)) == Read(files, BackupPath(cfg)))
  {
  }

  // Stopping RemoveResolver before any operation leaves the backed-up contents in one of the two.
  lemma RemoveNeverLoses(cfg: ResolverConfig, files: Files, budget: nat)
    requires Restores(cfg, files)
    ensures var files' := AfterRemove(cfg, files, budget);
            Read(files', ResolverPath(cfg)) == Read(files, BackupPath(cfg))
            || Read(files', BackupPath(cfg)) == Read(files, BackupPath(cfg))
  {
  }

  // A completed write over foreign contents, with no backup yet, keeps a copy of them exactly when
  // there is a state directory to keep it in.
  lemma SavedIffStateDir(cfg: ResolverConfig, files: Files)
    requires SuffixOf(cfg) != "" && Foreign(cfg, Read(files, ResolverPath(cfg))) && BackupPath(cfg) !in files
    ensures var files' := AfterWrite(cfg, files, ENOUGH);
            (exists p :: Read(files', p) == Read(files, ResolverPath(cfg))
              && (p == ResolverPath(cfg) || p == BackupPath(cfg)))
            <==> HasStateDir(cfg)
  {
    var files' := AfterWrite(cfg, files, ENOUGH);
    if HasStateDir(cfg) {
      assert Read(files', BackupPath(cfg)) == Read(files, ResolverPath(cfg));
    }
  }

  // ----- Removing twice -----

  // A second RemoveResolver changes nothing exactly when the first one had nothing to restore.
  lemma RemoveTwiceIff(cfg: ResolverConfig, files: Files)
    ensures var once := AfterRemove(cfg, files, ENOUGH);
            AfterRemove(cfg, once, ENOUGH) == once <==> SuffixOf(cfg) == "" || !Restores(cfg, files)
  {
    var once := AfterRemove(cfg, files, ENOUGH);
    if SuffixOf(cfg) != "" && Restores(cfg, files) {
      SecondRemoveDeletes(cfg, files);
    }
  }

  // A second RemoveResolver deletes what the first one restored.
  lemma SecondRemoveDeletes(cfg: ResolverConfig, files: Files)
    requires SuffixOf(cfg) != "" && Restores(cfg, files)
    ensures var once := AfterRemove(cfg, files, ENOUGH);
            ResolverPath(cfg) in once && ResolverPath(cfg) !in AfterRemove(cfg, once, ENOUGH)
  {
  }
}
