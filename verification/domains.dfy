/** internal/routing/overrides.go and domains.go: merging preferences and generating hostnames. */
module Domains {
  import opened Strings
  import opened Hostnames
  import opened RouteModel

  datatype RoutePreferences = RoutePreferences(enable: Option<bool>, domain: string, domains: seq<string>,
                                               root: Option<bool>, port: Option<int>, scheme: string,
                                               priority: Option<int>)

  const NO_PREFERENCES := RoutePreferences(None, "", [], None, None, "", None)

  // ----- Overrides -----

  // Labels win field by field wherever they say anything.
  function Merged(config: RoutePreferences, labels: RoutePreferences): RoutePreferences {
    RoutePreferences(
      Over(labels.enable, config.enable),
      if labels.domain != "" then labels.domain else config.domain,
      if labels.domains != [] then labels.domains else config.domains,
      Over(labels.root, config.root),
      Over(labels.port, config.port),
      if labels.scheme != "" then labels.scheme else config.scheme,
      Over(labels.priority, config.priority))
  }

  method MergeOverrides(config: RoutePreferences, labels: RoutePreferences)
    returns (merged: RoutePreferences, warnings: seq<Warning>)
    ensures merged == Merged(config, labels) && warnings == []
  {
    merged, warnings := config, [];
    if labels.enable.Some? { merged := merged.(enable := labels.enable); }
    if labels.domain != "" { merged := merged.(domain := labels.domain); }
    if |labels.domains| > 0 { merged := merged.(domains := labels.domains); }
    if labels.root.Some? { merged := merged.(root := labels.root); }
    if labels.port.Some? { merged := merged.(port := labels.port); }
    if labels.scheme != "" { merged := merged.(scheme := labels.scheme); }
    if labels.priority.Some? { merged := merged.(priority := labels.priority); }
  }

  // Merging is associative with "no preferences" as its unit, so only the precedence of the
  // sources matters, not how they are grouped.
  lemma MergeLaws(a: RoutePreferences, b: RoutePreferences, c: RoutePreferences)
    ensures Merged(Merged(a, b), c) == Merged(a, Merged(b, c))
    ensures Merged(a, NO_PREFERENCES) == a && Merged(NO_PREFERENCES, a) == a && Merged(a, a) == a
  {
  }

  // Field by field, what a label says holds, and the configuration only where the labels are silent.
  lemma MergePrecedence(config: RoutePreferences, labels: RoutePreferences)
    ensures var m := Merged(config, labels);
            && (labels.enable.Some? ==> m.enable == labels.enable)
            && (labels.enable.None? ==> m.enable == config.enable)
            && (labels.domain != "" ==> m.domain == labels.domain)
            && (labels.domain == "" ==> m.domain == config.domain)
            && (labels.domains != [] ==> m.domains == labels.domains)
            && (labels.domains == [] ==> m.domains == config.domains)
            && (labels.root.Some? ==> m.root == labels.root) && (labels.root.None? ==> m.root == config.root)
            && (labels.port.Some? ==> m.port == labels.port) && (labels.port.None? ==> m.port == config.port)
            && (labels.scheme != "" ==> m.scheme == labels.scheme)
            && (labels.scheme == "" ==> m.scheme == config.scheme)
            && (labels.priority.Some? ==> m.priority == labels.priority)
            && (labels.priority.None? ==> m.priority == config.priority)
  {
  }

  // ----- Hostnames -----

  const PUBLIC_SUFFIXES := [".com", ".net", ".org", ".io", ".dev", ".co"]

  predicate IsPublicDomain(domain: string) {
    || (exists i :: 0 <= i < |PUBLIC_SUFFIXES| && HasSuffix(ToLower(domain), PUBLIC_SUFFIXES[i]))
    || (var parts := Split(domain, '.'); |parts| > 1 && |parts[|parts| - 1]| == 2)
  }

  lemma LastLabel(host: string, tld: string)
    requires SingleLabel(tld)
    ensures HasSuffix(host, "." + tld) <==> |Labels(host)| > 1 && Labels(host)[|Labels(host)| - 1] == tld
  {
    var parts := Labels(host);
    var n := |parts| - 1;
    if HasSuffix(host, "." + tld) {
      var front := SuffixFront(host, "." + tld);
      assert host == front + "." + tld;
      SplitConcat(front, '.', tld);
      SplitPlain(tld, '.');
    }
    if n > 0 && parts[n] == tld {
      JoinSplit(host, '.');
      assert parts == parts[..n] + [tld];
      JoinConcat(parts[..n], [tld], '.');
      assert host == Join(parts[..n], '.') + ("." + tld);
      SuffixOfConcat(Join(parts[..n], '.'), "." + tld);
    }
  }

  lemma {:induction false} LabelsOfLower(host: string)
    ensures |Labels(ToLower(host))| == |Labels(host)|
    ensures forall i :: 0 <= i < |Labels(host)| ==> Labels(ToLower(host))[i] == ToLower(Labels(host)[i])
  {
    if host != "" {
      assert ToLower(host)[1..] == ToLower(host[1..]);
      LabelsOfLower(host[1..]);
    }
  }

  // A name looks public exactly when it has several labels and the last one is, in any case, one
  // of six or has two characters.
  lemma PublicMeaning(domain: string)
    ensures IsPublicDomain(domain) <==>
            && |Labels(domain)| > 1
            && var tld := Labels(domain)[|Labels(domain)| - 1];
               |tld| == 2 || ToLower(tld) in {"com", "net", "org", "io", "dev", "co"}
  {
    var tlds := ["com", "net", "org", "io", "dev", "co"];
    assert forall i :: 0 <= i < 6 ==> PUBLIC_SUFFIXES[i] == "." + tlds[i];
    LabelsOfLower(domain);
    hide Split, HasSuffix;
    forall i | 0 <= i < 6
      ensures HasSuffix(ToLower(domain), PUBLIC_SUFFIXES[i]) <==>
              |Labels(domain)| > 1 && ToLower(Labels(domain)[|Labels(domain)| - 1]) == tlds[i]
    {
      LastLabel(ToLower(domain), tlds[i]);
    }
    OneOfSix(tlds, ToLower(Labels(domain)[|Labels(domain)| - 1]));
  }

  lemma OneOfSix(tlds: seq<string>, t: string)
    requires tlds == ["com", "net", "org", "io", "dev", "co"]
    ensures t in {"com", "net", "org", "io", "dev", "co"} <==> exists i :: 0 <= i < 6 && t == tlds[i]
  {
    if t in {"com", "net", "org", "io", "dev", "co"} { assert t in tlds; }
  }

  datatype DomainOptions = DomainOptions(suffix: string, rootServices: seq<string>)

  function EffectiveSuffix(suffix: string): string {
    if suffix == "" then "test" else suffix
  }

  function Rejected(field: string, message: string, source: string): Warning {
    Warning("public_suffix_rejected", message, "", field, "error", source)
  }

  function Unmanaged(field: string, source: string): Warning {
    Warning("unmanaged_suffix", "explicit domain uses unmanaged suffix", "", field, "warning", source)
  }

  const DOMAIN_REJECTED := "explicit domain rejected because suffix appears public"
  const EXTRA_REJECTED := "extra explicit domain rejected because suffix appears public"

  // The extra domains that are accepted, in order.
  function AcceptedExtras(extras: seq<string>): seq<string> {
    if extras == [] then []
    else
      var last := extras[|extras| - 1];
      AcceptedExtras(extras[..|extras| - 1]) + if IsPublicDomain(last) then [] else [last]
  }

  function ExtraWarning(extra: string, suffix: string): seq<Warning> {
    if IsPublicDomain(extra) then [Rejected("domains", EXTRA_REJECTED, extra)]
    else if !HasSuffix(extra, "." + suffix) then [Unmanaged("domains", extra)]
    else []
  }

  function ExtraWarnings(extras: seq<string>, suffix: string): seq<Warning> {
    if extras == [] then []
    else ExtraWarnings(extras[..|extras| - 1], suffix) + ExtraWarning(extras[|extras| - 1], suffix)
  }

  predicate ServesRoot(service: string, prefs: RoutePreferences, opts: DomainOptions) {
    match prefs.root
    case Some(b) => b
    case None => service in opts.rootServices
  }

  function DefaultDomain(project: string, service: string, prefs: RoutePreferences, opts: DomainOptions): string {
    var suffix := EffectiveSuffix(opts.suffix);
    if ServesRoot(service, prefs, opts) then project + "." + suffix else service + "." + project + "." + suffix
  }

  // An explicit domain replaces everything else and is dropped when it looks public.
  function DomainsOf(project: string, service: string, prefs: RoutePreferences, opts: DomainOptions): seq<string> {
    if prefs.domain != "" then if IsPublicDomain(prefs.domain) then [] else [prefs.domain]
    else [DefaultDomain(project, service, prefs, opts)] + AcceptedExtras(prefs.domains)
  }

  function DomainWarnings(prefs: RoutePreferences, opts: DomainOptions): seq<Warning> {
    var suffix := EffectiveSuffix(opts.suffix);
    if prefs.domain == "" then ExtraWarnings(prefs.domains, suffix)
    else if IsPublicDomain(prefs.domain) then [Rejected("domain", DOMAIN_REJECTED, "")]
    else if !HasSuffix(prefs.domain, "." + suffix) then [Unmanaged("domain", "")]
    else []
  }

  method GenerateDomains(project: string, service: string, prefs: RoutePreferences, opts: DomainOptions)
    returns (domains: seq<string>, warnings: seq<Warning>)
    ensures domains == DomainsOf(project, service, prefs, opts)
    ensures warnings == DomainWarnings(prefs, opts)
  {
    warnings := [];
    var suffix := opts.suffix;
    if suffix == "" {
      suffix := "test";
    }
    if prefs.domain != "" {
      if IsPublicDomain(prefs.domain) {
        warnings := warnings + [Rejected("domain", DOMAIN_REJECTED, "")];
        return [], warnings;
      }
      if !HasSuffix(prefs.domain, "." + suffix) {
        warnings := warnings + [Unmanaged("domain", "")];
      }
      return [prefs.domain], warnings;
    }
    domains := [service + "." + project + "." + suffix];
    var shouldRoot := service in opts.rootServices;
    if prefs.root.Some? {
      shouldRoot := prefs.root.value;
    }
    if shouldRoot {
      domains := [project + "." + suffix];
    }
    var extras;
    extras, warnings := AddExtras(prefs.domains, suffix);
    domains := domains + extras;
  }

  method AddExtras(extras: seq<string>, suffix: string) returns (accepted: seq<string>, warnings: seq<Warning>)
    ensures accepted == AcceptedExtras(extras) && warnings == ExtraWarnings(extras, suffix)
  {
    accepted, warnings := [], [];
    for i := 0 to |extras|
      invariant accepted == AcceptedExtras(extras[..i])
      invariant warnings == ExtraWarnings(extras[..i], suffix)
    {
      assert extras[..i + 1][..i] == extras[..i];
      var extra := extras[i];
      if IsPublicDomain(extra) {
        warnings := warnings + [Rejected("domains", EXTRA_REJECTED, extra)];
        continue;
      }
      if !HasSuffix(extra, "." + suffix) {
        warnings := warnings + [Unmanaged("domains", extra)];
      }
      accepted := accepted + [extra];
    }
    assert extras[..|extras|] == extras;
  }

  lemma {:induction false} AcceptedMeaning(extras: seq<string>)
    ensures forall d :: d in AcceptedExtras(extras) <==> d in extras && !IsPublicDomain(d)
  {
    if extras != [] {
      AcceptedMeaning(extras[..|extras| - 1]);
      assert extras == extras[..|extras| - 1] + [extras[|extras| - 1]];
    }
  }

  // There is a warning for exactly the extra domains that look public and for those outside the
  // managed suffix.
  lemma {:induction false} ExtraWarningsMeaning(extras: seq<string>, suffix: string, w: Warning)
    ensures w in ExtraWarnings(extras, suffix) <==>
            exists d :: d in extras &&
              if IsPublicDomain(d) then
                w == Warning("public_suffix_rejected", "extra explicit domain rejected because suffix appears public",
                             "", "domains", "error", d)
              else
                && !HasSuffix(d, "." + suffix)
                && w == Warning("unmanaged_suffix", "explicit domain uses unmanaged suffix", "",
                                "domains", "warning", d)
  {
    hide IsPublicDomain;
    if extras != [] {
      var last := extras[|extras| - 1];
      ExtraWarningsMeaning(extras[..|extras| - 1], suffix, w);
      assert extras == extras[..|extras| - 1] + [last];
      assert w in ExtraWarnings(extras, suffix) <==>
             w in ExtraWarnings(extras[..|extras| - 1], suffix) || w in ExtraWarning(last, suffix);
    }
  }

  // Accepted extras and warnings keep the order of the extras.
  lemma {:induction false} ExtrasInOrder(a: seq<string>, b: seq<string>, suffix: string)
    ensures AcceptedExtras(a + b) == AcceptedExtras(a) + AcceptedExtras(b)
    ensures ExtraWarnings(a + b, suffix) == ExtraWarnings(a, suffix) + ExtraWarnings(b, suffix)
  {
    hide IsPublicDomain, ExtraWarning;
    if b == [] {
      assert a + b == a;
    } else {
      var n := |b| - 1;
      assert (a + b)[..|a + b| - 1] == a + b[..n];
      ExtrasInOrder(a, b[..n], suffix);
    }
  }

  // Whatever a project's service is called and whether or not it serves the root, its generated
  // hostname lies under the project's own certificate root.
  lemma DefaultDomainHasProjectRoot(project: string, service: string, prefs: RoutePreferences, opts: DomainOptions,
                                    managed: string)
    requires project != "" && SingleLabel(project)
    requires SingleLabel(EffectiveSuffix(opts.suffix)) && PlannerSuffix(managed) == EffectiveSuffix(opts.suffix)
    ensures ProjectRoot(DefaultDomain(project, service, prefs, opts), managed) ==
            Some(project + "." + EffectiveSuffix(opts.suffix))
  {
    hide ProjectRoot, PlannerSuffix;
    var root := project + "." + EffectiveSuffix(opts.suffix);
    assert service + "." + project + "." + EffectiveSuffix(opts.suffix) == service + ("." + root);
    SuffixOfConcat(service, "." + root);
    RootFromParts(DefaultDomain(project, service, prefs, opts), managed, project);
  }

  // The generated hostname: project and suffix for a service that is to serve the root, because it
  // says so or, when it says nothing, is listed as a root service; service, project and suffix for
  // any other.
  lemma DefaultDomainLabels(project: string, service: string, prefs: RoutePreferences, opts: DomainOptions)
    ensures var suffix := if opts.suffix == "" then "test" else opts.suffix;
            var atRoot := prefs.root == Some(true) || (prefs.root == None && service in opts.rootServices);
            && DefaultDomain(project, service, prefs, opts) ==
               (if atRoot then project + "." + suffix else service + "." + project + "." + suffix)
            && Labels(DefaultDomain(project, service, prefs, opts)) ==
               (if atRoot then [] else Labels(service)) + Labels(project) + Labels(suffix)
  {
    var suffix := EffectiveSuffix(opts.suffix);
    SplitConcat(project, '.', suffix);
    SplitConcat(service, '.', project);
    SplitConcat(service + "." + project, '.', suffix);
    hide Split;
  }

  // The hostnames of a service: an explicit domain alone, unless it looks public; otherwise the
  // generated one first and then the extras that do not look public, in their order.
  lemma DomainsMeaning(project: string, service: string, prefs: RoutePreferences, opts: DomainOptions)
    ensures var domains := DomainsOf(project, service, prefs, opts);
            && (prefs.domain != "" && IsPublicDomain(prefs.domain) ==> domains == [])
            && (prefs.domain != "" && !IsPublicDomain(prefs.domain) ==> domains == [prefs.domain])
            && (prefs.domain == "" ==>
                  && domains != [] && domains[0] == DefaultDomain(project, service, prefs, opts)
                  && (forall d :: d in domains[1..] <==> d in prefs.domains && !IsPublicDomain(d))
                  && (forall a, b :: prefs.domains == a + b ==> domains[1..] == AcceptedExtras(a) + AcceptedExtras(b)))
  {
    AcceptedMeaning(prefs.domains);
    hide IsPublicDomain, DefaultDomain, AcceptedExtras;
    forall a, b | prefs.domains == a + b
      ensures AcceptedExtras(prefs.domains) == AcceptedExtras(a) + AcceptedExtras(b)
    {
      ExtrasInOrder(a, b, "");
    }
  }

  // The warnings about an explicit domain; it silences those about extras.
  lemma DomainWarningsMeaning(prefs: RoutePreferences, opts: DomainOptions)
    requires prefs.domain != ""
    ensures var suffix := if opts.suffix == "" then "test" else opts.suffix;
            DomainWarnings(prefs, opts) ==
            if IsPublicDomain(prefs.domain) then
              [Warning("public_suffix_rejected", "explicit domain rejected because suffix appears public", "", "domain",
                       "error", "")]
            else if !HasSuffix(prefs.domain, "." + suffix) then
              [Warning("unmanaged_suffix", "explicit domain uses unmanaged suffix", "", "domain", "warning", "")]
            else []
  {
  }

  // The only hostname that may look public is the one generated from project and service; every
  // explicit one was asked for and passed the test.
  lemma ExplicitDomainsPassed(project: string, service: string, prefs: RoutePreferences, opts: DomainOptions, d: string)
    requires d in DomainsOf(project, service, prefs, opts)
    ensures (prefs.domain == "" && d == DefaultDomain(project, service, prefs, opts))
            || (!IsPublicDomain(d) && (d == prefs.domain || (prefs.domain == "" && d in prefs.domains)))
  {
    AcceptedMeaning(prefs.domains);
  }
}
