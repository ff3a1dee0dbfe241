/** Hostname normalisation, the managed-suffix tests of the planner and of the listeners, the
    project root of a hostname, and wildcard matching. */
module Hostnames {
  import opened Strings

  // normalizeHostname in certs and proxy, and normalizeHost in dns, are this one function.
  function Normalize(host: string): string {
    TrimDots(ToLower(TrimSpace(host)))
  }

  // Normalising is not idempotent (it trims spaces before dots), so the names on which it has
  // nothing left to do get a name of their own.
  predicate Canonical(host: string) {
    Normalize(host) == host
  }

  lemma TrimSameLength(s: string, cut: char -> bool)
    requires |Trim(s, cut)| == |s|
    ensures Trim(s, cut) == s
  {
    var i := TrimIsSlice(s, cut);
  }

  lemma CanonicalShape(host: string)
    ensures Canonical(host) <==> ToLower(host) == host && CleanEnds(host, IsSpace) && CleanEnds(host, IsDot)
  {
    var a := TrimSpace(host);
    var b := ToLower(a);
    TrimKeeps(host, IsSpace);
    TrimKeeps(b, IsDot);
    if Canonical(host) {
      TrimSameLength(host, IsSpace);
      TrimSameLength(b, IsDot);
    }
  }

  predicate NoSpaces(host: string) {
    forall i :: 0 <= i < |host| ==> !IsSpace(host[i])
  }

  lemma NormalizeWithoutSpaces(host: string)
    requires CleanEnds(host, IsSpace)
    ensures Normalize(host) == TrimDots(ToLower(host))
  {
    TrimKeeps(host, IsSpace);
  }

  lemma LowerTrimmed(host: string)
    requires NoSpaces(host)
    ensures var t := TrimDots(ToLower(host)); ToLower(t) == t && NoSpaces(t)
  {
    var i := TrimIsSlice(ToLower(host), IsDot);
    LowerSlice(host, i, i + |TrimDots(ToLower(host))|);
  }

  lemma LowerSlice(host: string, i: nat, j: nat)
    requires i <= j <= |host| && NoSpaces(host)
    ensures var t := ToLower(host)[i..j]; ToLower(t) == t && NoSpaces(t)
  {
  }

  // On whitespace-free names one normalisation suffices.
  lemma NormalizedIsCanonical(host: string)
    requires NoSpaces(host)
    ensures Canonical(Normalize(host)) && NoSpaces(Normalize(host))
  {
    NormalizeWithoutSpaces(host);
    var t := TrimDots(ToLower(host));
    LowerTrimmed(host);
    var _ := TrimIsSlice(ToLower(host), IsDot);
    CanonicalShape(t);
  }

  lemma {:induction false} TrimLeftOfLower(s: string)
    ensures TrimLeft(ToLower(s), IsDot) == ToLower(TrimLeft(s, IsDot))
  {
    if s != "" && s[0] == '.' {
      assert ToLower(s)[1..] == ToLower(s[1..]);
      TrimLeftOfLower(s[1..]);
    }
  }

  lemma {:induction false} TrimRightOfLower(s: string)
    ensures TrimRight(ToLower(s), IsDot) == ToLower(TrimRight(s, IsDot))
  {
    if s != "" && s[|s| - 1] == '.' {
      assert ToLower(s)[..|s| - 1] == ToLower(s[..|s| - 1]);
      TrimRightOfLower(s[..|s| - 1]);
    }
  }

  lemma NormalizeIsLowered(host: string)
    ensures Normalize(host) == ToLower(TrimDots(TrimSpace(host)))
  {
    var t := TrimSpace(host);
    TrimLeftOfLower(t);
    TrimRightOfLower(TrimLeft(t, IsDot));
  }

  lemma CanonicalLowered(core: string)
    requires CleanEnds(core, IsDot)
    ensures Canonical(ToLower(core)) <==> CleanEnds(core, IsSpace)
  {
    ToLowerTwice(core);
    CanonicalShape(ToLower(core));
  }

  // Normalising a second time changes nothing exactly when the dots around the name did not hide
  // spaces at its ends.
  lemma NormalizeTwiceIff(host: string)
    ensures Canonical(Normalize(host)) <==> CleanEnds(TrimDots(TrimSpace(host)), IsSpace)
  {
    NormalizeIsLowered(host);
    hide Normalize, Canonical, TrimSpace, CleanEnds;
    var _ := TrimIsSlice(TrimSpace(host), IsDot);
    CanonicalLowered(TrimDots(TrimSpace(host)));
  }

  // " a " is a normalised name that normalising changes.
  lemma NormalizeNotIdempotent()
    ensures exists host :: !Canonical(Normalize(host))
  {
    var core := [' ', 'a', ' '];
    TrimPadded(".", core, ".", IsDot);
    TrimKeeps("." + core + ".", IsSpace);
    NormalizeTwiceIff("." + core + ".");
  }

  // ----- Managed suffixes -----

  // certs.normalizeSuffix: one leading dot goes, trailing dots stay.
  function PlannerSuffix(suffix: string): string {
    TrimPrefix(ToLower(TrimSpace(suffix)), ".")
  }

  // dns.normalizeSuffix, which the HTTP and TLS listeners share.
  function ListenerSuffix(suffix: string): string {
    TrimDots(ToLower(TrimSpace(suffix)))
  }

  // certs.isManagedHostname, applied to an already normalised hostname.
  predicate PlannerManages(hostname: string, suffix: string) {
    hostname == PlannerSuffix(suffix) || HasSuffix(hostname, "." + PlannerSuffix(suffix))
  }

  // dns.Server.IsManagedHost of a server created for the given suffix.
  predicate ListenerManages(name: string, suffix: string) {
    UnderSuffix(Normalize(name), suffix)
  }

  predicate UnderSuffix(host: string, suffix: string) {
    var managed := ListenerSuffix(suffix);
    host != "" && managed != "" && (host == managed || HasSuffix(host, "." + managed))
  }

  // ----- Project roots -----

  function Labels(host: string): seq<string> {
    Split(host, '.')
  }

  // A host lies under a managed name exactly when its labels end with those of the name.
  lemma LabelsEnd(host: string, managed: string)
    requires managed != ""
    ensures host == managed || HasSuffix(host, "." + managed) <==>
            exists front :: Labels(host) == front + Labels(managed)
  {
    if HasSuffix(host, "." + managed) {
      var front := SuffixFront(host, "." + managed);
      assert host == front + "." + managed;
      SplitConcat(front, '.', managed);
    } else if host == managed {
      assert Labels(host) == [] + Labels(managed);
    }
    if front :| Labels(host) == front + Labels(managed) {
      JoinSplit(host, '.');
      JoinSplit(managed, '.');
      if front != [] {
        JoinConcat(front, Labels(managed), '.');
        assert host == Join(front, '.') + ("." + managed);
        SuffixOfConcat(Join(front, '.'), "." + managed);
      } else {
        assert Labels(host) == Labels(managed);
      }
    }
  }

  // A listener claims a name exactly when the labels of the name, normalised, end with the labels
  // of the managed suffix; "mytest" is not under "test".
  lemma ManagedMeaning(name: string, suffix: string)
    ensures ListenerManages(name, suffix) <==>
            ListenerSuffix(suffix) != ""
            && exists front :: Labels(Normalize(name)) == front + Labels(ListenerSuffix(suffix))
  {
    hide Normalize, ListenerSuffix;
    var host, managed := Normalize(name), ListenerSuffix(suffix);
    if managed != "" {
      LabelsEnd(host, managed);
      EmptyEnds(managed);
    }
  }

  lemma EmptyEnds(managed: string)
    requires managed != ""
    ensures !exists front :: [""] == front + Labels(managed)
  {
    JoinSplit(managed, '.');
    forall front ensures [""] != front + Labels(managed) {
      if front == [] { assert front + Labels(managed) == Labels(managed); }
    }
  }

  // However the managed suffix is written, with capitals, space around it and dots at its ends,
  // the listeners use the plain name; a dot at the end is the planner's only difference.
  lemma SuffixSpelling(suffix: string, before: string, variant: string, after: string, name: string)
    requires TrimSpace(suffix) == before + variant + after && ToLower(variant) == name
    requires (forall i :: 0 <= i < |before| ==> before[i] == '.') && (forall i :: 0 <= i < |after| ==> after[i] == '.')
    requires name != "" && CleanEnds(name, IsDot)
    ensures ListenerSuffix(suffix) == name
    ensures before == "" || before == "." ==> PlannerSuffix(suffix) == name + after
  {
    ToLowerConcat(before + variant, after);
    ToLowerConcat(before, variant);
    assert ToLower(before) == before && ToLower(after) == after;
    TrimPadded(before, name, after, IsDot);
    var low := before + name + after;
    assert ToLower(TrimSpace(suffix)) == low;
    if before == "" { assert low[0] == name[0]; }
    if before == "." { assert low[0] == '.' && low[1..] == name + after; }
  }

  // certs.projectRootForHostname: the last two labels, when the last one is the whole suffix.
  function ProjectRoot(hostname: string, suffix: string): Option<string> {
    var parts := Labels(hostname);
    var sfx := PlannerSuffix(suffix);
    if |parts| < 2 then None
    else if parts[|parts| - 1] != sfx then None
    else if parts[|parts| - 2] == "" then None
    else Some(parts[|parts| - 2] + "." + sfx)
  }

  predicate SingleLabel(s: string) {
    '.' !in s
  }

  predicate UnderRoot(host: string, root: string) {
    host == root || HasSuffix(host, "." + root)
  }

  lemma RootLabels(project: string, sfx: string)
    requires SingleLabel(project) && SingleLabel(sfx)
    ensures Labels(project + "." + sfx) == [project, sfx]
  {
    SplitConcat(project, '.', sfx);
    SplitPlain(project, '.');
    SplitPlain(sfx, '.');
  }

  // What is left of the project label, and the project label itself.
  lemma RootParts(host: string, suffix: string) returns (project: string)
    requires ProjectRoot(host, suffix).Some?
    ensures ProjectRoot(host, suffix).value == project + "." + PlannerSuffix(suffix)
    ensures project != "" && SingleLabel(project) && SingleLabel(PlannerSuffix(suffix))
    ensures UnderRoot(host, ProjectRoot(host, suffix).value)
  {
    var parts := Labels(host);
    var n := |parts|;
    project := parts[n - 2];
    assert project in parts && parts[n - 1] in parts;
    JoinTail(host, parts[..n - 2], project, parts[n - 1]);
  }

  lemma JoinTail(host: string, front: seq<string>, project: string, sfx: string)
    requires Labels(host) == front + [project, sfx]
    ensures UnderRoot(host, project + "." + sfx)
  {
    var tail := [project, sfx];
    JoinSplit(host, '.');
    assert Join(tail, '.') == project + "." + sfx by { assert tail[1..] == [sfx]; }
    if front == [] {
      assert Labels(host) == tail;
    } else {
      JoinConcat(front, tail, '.');
      assert host == Join(front, '.') + ("." + (project + "." + sfx));
      SuffixOfConcat(Join(front, '.'), "." + (project + "." + sfx));
    }
  }

  lemma RootFromParts(host: string, suffix: string, project: string)
    requires project != "" && SingleLabel(project) && SingleLabel(PlannerSuffix(suffix))
    requires UnderRoot(host, project + "." + PlannerSuffix(suffix))
    ensures ProjectRoot(host, suffix) == Some(project + "." + PlannerSuffix(suffix))
  {
    var root := project + "." + PlannerSuffix(suffix);
    RootLabels(project, PlannerSuffix(suffix));
    if host != root {
      var front := SuffixFront(host, "." + root);
      assert host == front + "." + root;
      RootOfChild(front, root, suffix);
    }
  }

  lemma TestSuffix()
    ensures PlannerSuffix("test") == "test"
  {
    TrimKeeps("test", IsSpace);
    assert ToLower("test") == "test" && "test"[0] == 't';
  }

  // A root is one non-empty label in front of a single-label suffix, and the hostnames that
  // have it are the root itself and every name below it.
  lemma ProjectRootMeaning(host: string, suffix: string, root: string)
    ensures ProjectRoot(host, suffix) == Some(root) <==>
            (exists project :: project != "" && SingleLabel(project) && SingleLabel(PlannerSuffix(suffix))
                               && root == project + "." + PlannerSuffix(suffix) && UnderRoot(host, root))
  {
    if ProjectRoot(host, suffix) == Some(root) {
      var project := RootParts(host, suffix);
    }
    if project :| project != "" && SingleLabel(project) && SingleLabel(PlannerSuffix(suffix))
                  && root == project + "." + PlannerSuffix(suffix) && UnderRoot(host, root) {
      RootFromParts(host, suffix, project);
    }
  }

  // A root is its own root and has two labels.
  lemma RootOfRoot(host: string, suffix: string)
    requires ProjectRoot(host, suffix).Some?
    ensures var root := ProjectRoot(host, suffix).value;
            ProjectRoot(root, suffix) == Some(root) && |Labels(root)| == 2
  {
    var project := RootParts(host, suffix);
    RootLabels(project, PlannerSuffix(suffix));
  }

  // Putting labels in front of a name that has a root keeps the root.
  lemma RootOfChild(front: string, host: string, suffix: string)
    requires |Labels(host)| >= 2
    ensures ProjectRoot(front + "." + host, suffix) == ProjectRoot(host, suffix)
  {
    hide PlannerSuffix, Split;
    SplitConcat(front, '.', host);
    var a, b, n := Labels(front), Labels(host), |Labels(front)| + |Labels(host)|;
    var parts := Labels(front + "." + host);
    assert parts == a + b;
    assert parts[n - 1] == b[|b| - 1] && parts[n - 2] == b[|b| - 2];
  }

  // ----- Wildcards -----

  // certs.wildcardMatches and proxy.wildcardMatches.
  predicate WildcardMatches(host: string, root: string) {
    HasSuffix(host, "." + root) && |Labels(host)| == |Labels(root)| + 1
  }

  // The single left-most label rule of section 6.4.3 of RFC 6125.
  lemma WildcardMeaning(host: string, root: string)
    ensures WildcardMatches(host, root) <==>
            exists left :: SingleLabel(left) && host == left + "." + root
  {
    if HasSuffix(host, "." + root) {
      var front := SuffixFront(host, "." + root);
      assert host == front + "." + root;
      SplitConcat(front, '.', root);
      SplitPlain(front, '.');
    }
    forall left | SingleLabel(left) && host == left + "." + root ensures WildcardMatches(host, root) {
      assert host == left + ("." + root);
      SuffixOfConcat(left, "." + root);
      SplitConcat(left, '.', root);
      SplitPlain(left, '.');
    }
  }
}
