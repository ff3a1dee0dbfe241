# A verified model of DevProxy's routing and certificate logic

DevProxy turns a scan of Docker containers into a routing snapshot and serves that snapshot over DNS, HTTP and
HTTPS. This project models the decisions in between and proves what holds of them. `dafny verify dfyconfig.toml`
checks all of it (Dafny 4.11).

| file | what it models |
|---|---|
| `strings.dfy`, `ordering.dfy` | the parts of Go's `strings` and `sort` that the hostname logic uses |
| `hostnames.dfy`, `routes.dfy` | normalisation, managed suffixes, project roots, wildcards; the shared entities |
| `inventory.dfy`, `plan.dfy` | `internal/certs/store.go`: the certificate plan and what it promises |
| `mkcert.dfy`, `listener.dfy`, `runtime.dfy`, `certificates.dfy` | issuing, the TLS listener, refreshing, and the theorems that connect them |
| `reissuing.dfy` | what is issued again on later refreshes; runs in which the assumptions hold |
| `discovery.dfy`, `ports.dfy`, `domains.dfy`, `conflicts.dfy`, `reconciler.dfy`, `pipeline.dfy`, `naming.dfy` | from containers to a snapshot, what holds of every snapshot, and which hostnames a container gets |
| `serving.dfy` | DNS and HTTP answers, and the agreement between the listeners and the planner |
| `publication.dfy` | concurrent rebuilds as a state machine |
| `daemon.dfy`, `watching.dfy`, `system.dfy` | the watcher and its issues; runs of the whole daemon |
| `resolver.dfy`, `resolverruns.dfy` | the resolver file and its backup, with interruptions and edits by others |

Conventions. Strings are sequences of characters and case folding is ASCII. Ranging over a Go map is a loop that
picks an arbitrary remaining key, so a method proved against a function shows that the order does not matter, and
a method proved against a relation (`IsSelection`, `IsResolution`, `IsInventory`) lists all answers that some
order can give. `sort.SliceStable` is a stable insertion sort proved stable; `sort.Slice` is any sorted
permutation. Clock readings are opaque ticks. An issuer and a key-pair loader are function values that may fail
in any way; what the theorems need of them is spelled out in `HonestIssuer`, `FaithfulLoads` and `HonestWorld`.
Methods follow the source's loops and branches; a long source function is split into several methods where the
proof needs it.

## Main results

- `System.EveryRunServes`, `EveryRunApplies`, `EveryRunLoads`: over every serial run of the daemon without fixed
  certificates, in worlds that satisfy `HonestWorld` at every synchronisation, whichever scans, issuances and loads
  fail: the snapshot is the pipeline applied to the last scan that got through, the listener's map is one loaded
  from the stored certificates, and whenever the last certificate refresh raised no error every managed routed
  hostname is answered with a covering certificate exactly when it has a project root. `System.RunningApp` joins
  the daemon and the network runtime; its methods implement the steps of these runs.
- `CertificateTheorems.RunInvariant`; `Reissuing.RefreshIsFixpoint`, `ReissuedAgain`, `MkCertReissuesEveryTime`: the
  listener's map is the one loaded from the stored certificates by the last refresh that went through, refreshing
  again changes nothing, and precisely which roots are issued again, at every later refresh.
- `CertificateTheorems.SucceedsIff`, `IssuedIsHeld`, `ReadyMeaning`: exactly when a refresh succeeds, what the store
  and the listener then hold for each issued certificate, and what readiness says.
- `Pipeline.ScanOrderIsIrrelevant`, `ServedHostnamesAreRouted`, `RouteProvenance`; `Conflicts.WinnerIsBest`,
  `ClaimsAreConserved`.
- `Naming.ComposeServiceClaims`, `DomainPrecedence`, `WebIsRouted`: which hostnames a container gets, and a whole
  snapshot for one container.
- `Publication.RunInvariant`, `SerialPublishRaises`, `LoweringRuns`: concurrent rebuilds, and which runs lower the
  published number.
- `ResolverRuns.BackupIsFirstSaved`, `RemoveRestoresDisplacedIff`, `FirstDisplacedSurvives`: what the backup holds
  after any writes, interrupted or not, and edits; exactly when `RemoveResolver` gives back what was displaced
  first; and that no stopped call loses it.

## Where the code does not do what one would expect

Each of these is a lemma, and the code's behaviour is what is modelled.

- Normalising a hostname is not idempotent (`NormalizeNotIdempotent`); it is on exactly the names whose outer dots
  hide no spaces (`NormalizeTwiceIff`). So a requested certificate can fail to cover its own root: the routed name
  `". a.test"` is an input (`RequestCanMissItsRoot`), and `WildcardFormCoverage` and `ExplicitFormCoverage` say
  exactly when.
- A managed suffix of several labels is claimed by DNS, HTTP and TLS but never gets a certificate
  (`SeveralLabelSuffixPlansNothing`).
- An explicit domain with capitals is published but unreachable (`RoutedReachableIff`).
- `docs/configuration.md` (line 90) calls the `enable` field of a service an enable/disable override; its value
  changes no claim, no warning and no snapshot (`EnableOverrideIsIgnored`, `EnableOverrideNeverShows`). Neither does
  the `devproxy.enable` label change what is claimed (`EnableLabelIsIgnored`).
- A valid port label switches the configured port off even when the labelled port is not published
  (`OverrideNeedsNoLabel`).
- mkcert files an explicit-form certificate under its first name, so such a project can be issued again on every
  refresh: for which projects, at every refresh, is `MkCertReissuesEveryTime`, and `DeepHostReissuedForever` gives a
  run of any length for the host `a.b.acme.test`.
- Overlapping rebuilds can publish an older version after a newer one (`OverlapCanLower`), exactly in the runs in
  which a rebuild publishes after having been overtaken in flight (`LoweringRuns`), and versions repeat exactly after
  2^64 builds (`VersionsDistinct`).
- A second `RemoveResolver` changes nothing exactly when the first had nothing to restore (`RemoveTwiceIff`);
  otherwise it deletes what the first restored (`SecondRemoveDeletes`).
- An interrupted `WriteResolver` can make a later edit unrecoverable (`InterruptedWriteCanLose`). What is restored
  is what was displaced first exactly when the first write that got as far as its backup went on to complete, or
  the next write able to replace anything met the same contents (`RemoveRestoresDisplacedIff`); in particular when
  no edit comes in between (`QuietIsUndisturbed`).
- `docs/configuration.md` (line 78) says that ignored ports are skipped. Port selection happens before the
  ignored-port check, so a container that publishes an ignored 443 and a 9000 is not routed at all
  (`IgnoredPortHidesTheOthers`). The documented behaviour holds exactly for the containers for which the number
  picked among all their published ports is not ignored (`IgnoredPortsSkippedIff`).

## Model

| member | source | states |
|---|---|---|
| Strings.ToLowerMeaning | internal/certs/store.go:173-175 | each capital becomes its small letter and nothing else changes |
| Strings.SpaceMeaning | internal/certs/store.go:173-175 | the six ASCII characters that trimming treats as space |
| Strings.TrimPadded | internal/certs/store.go:173-175 | trimming removes exactly the padding around a core with clean ends |
| Strings.JoinSplit | internal/certs/store.go:148-149 | splitting a hostname into labels loses nothing: joining them gives it back |
| Strings.SplitConcat | internal/certs/store.go:97-112 | the labels of `a.b` are the labels of `a` followed by those of `b` |
| Ordering.LessMeaning | internal/routing/conflicts.go:19 | byte order: the first difference decides, and a proper prefix comes first |
| Ordering.SortLists | internal/certs/store.go:177-184 | sorting a duplicate-free slice gives the one strictly increasing listing of its elements |
| Ordering.StrictlySortedUnique | internal/certs/store.go:177-184 | a set has only one strictly increasing listing, so map order cannot show |
| Hostnames.CanonicalShape | internal/certs/store.go:173-175 | the names that normalising leaves alone are those in lower case without spaces or dots at either end |
| Hostnames.NormalizedIsCanonical | internal/proxy/https.go:144-146 | on whitespace-free names normalising twice is normalising once |
| Hostnames.NormalizeTwiceIff | internal/certs/store.go:173-175 | a second normalisation changes nothing exactly when the dots around the trimmed name hide no spaces at its ends |
| Hostnames.NormalizeNotIdempotent | internal/certs/store.go:173-175 | in general it is not idempotent |
| Hostnames.ManagedMeaning | internal/dns/server.go:59-66 | a listener claims a name exactly when the labels of the normalised name end with those of the managed suffix |
| Hostnames.SuffixSpelling | internal/dns/server.go:84-86 | however the suffix is spelled, with capitals, space and dots, the listeners use the plain name, and the planner the same but for dots at its end |
| Hostnames.ProjectRootMeaning | internal/certs/store.go:148-162 | a root is one non-empty label before a single-label suffix, and exactly the root and the names below it have it |
| Hostnames.RootOfRoot | internal/certs/store.go:148-162 | a root is its own root and has two labels |
| Hostnames.WildcardMeaning | internal/certs/store.go:139-146 | a wildcard matches exactly one dot-free label in front of its root (section 6.4.3 of RFC 6125) |
| Inventory.CoveredMeaning | internal/certs/store.go:123-137 | covered means that some name, normalised, equals the host or is a wildcard matching it |
| Inventory.CoversAllMeaning | internal/certs/store.go:114-121 | the scan with early return decides coverage of every host |
| Inventory.Keys | internal/certs/store.go:177-184 | lists a map's keys in increasing order whatever the iteration order |
| Inventory.BuildRequiredSANs | internal/certs/store.go:80-95 | root and wildcard when eligible, otherwise the sorted set of root and hosts without repetition |
| Inventory.GroupServedHosts | internal/certs/store.go:33-46 | adds exactly the plannable hosts of one route, normalised, to the groups of their roots |
| Inventory.BuildCertificateInventory | internal/certs/store.go:26-78 | the plan is a function of the set of planned hostnames and the stored certificates, for every map order |
| Inventory.DecideAll | internal/certs/store.go:49-77 | one decision per group in root order |
| Inventory.DecideRoot | internal/certs/store.go:56-74 | reuses exactly when a stored certificate covers all hostnames of the root |
| PlanProperties.PlannableMeaning | internal/certs/store.go:34-41 | a host is planned for exactly when it has a project root |
| PlanProperties.PlanIsPartition | internal/certs/store.go:26-78 | every host with a root is in exactly one decision, that of its root; roots and hostnames strictly increase; nothing else is in the plan |
| PlanProperties.DecisionReasons | internal/certs/store.go:61-70 | a root is new exactly without a stored certificate, kept exactly when that covers all its hostnames, and of changed shape otherwise |
| PlanProperties.UnlistedRouteIsPlanned | internal/certs/store.go:29-32 | a route without served hostnames is planned for under its own |
| PlanProperties.PlannedAreNormalized | internal/certs/store.go:33-36 | planned hostnames are in lower case, without dots at the ends, and have a root |
| PlanProperties.WildcardFormIff | internal/certs/store.go:80-112 | the wildcard form is requested exactly when no host is more than one label below its root |
| PlanProperties.RequiredSANsShape | internal/certs/store.go:80-95 | on whitespace-free hosts every requested name is canonical and under the root, which is one of them |
| PlanProperties.RequiredSANsCover | internal/certs/store.go:80-121 | on whitespace-free hosts the requested names cover all of them |
| PlanProperties.WildcardFormCoverage | internal/certs/store.go:80-137 | for any hosts in wildcard form, exactly when the requested names cover them all |
| PlanProperties.ExplicitFormCoverage | internal/certs/store.go:80-137 | for any hosts in explicit form: hosts not starting with a space are covered, so all are exactly when some requested name serves each of the others |
| PlanProperties.RequestCanMissItsRoot | internal/certs/store.go:26-78 | the routed name `". a.test"` is planned under the root `" a.test"`, which the requested names do not cover |
| MkCert.MkCertIsHonest | internal/certs/mkcert.go:25-57 | on canonical names mkcert returns the requested names and files under one of them |
| MkCert.IssueMeaning | internal/certs/mkcert.go:25-57 | mkcert is run with the two file names and all requested names in order; what each of its outcomes and bad input come to |
| MkCert.SanitizeConcat | internal/certs/mkcert.go:71-75 | a star becomes the word wildcard, a slash a dash, and nothing else changes |
| MkCert.SanitizedIsPlain | internal/certs/mkcert.go:71-75 | no star and no path separator reaches a file name |
| MkCert.CertAndKeyDiffer | internal/certs/mkcert.go:44-46 | certificate and key go to different files |
| TlsListener.CoverageAgrees | internal/proxy/https.go:126-155 | the listener's coverage of a host by a leaf is the planner's coverage by its names |
| TlsListener.BuildCertificateMap | internal/proxy/https.go:102-124 | fixed certificates win; otherwise the stored ones are loaded in order, and one load failure fails all |
| TlsListener.ParseFixed | internal/proxy/https.go:103-106 | every fixed certificate is held under its normalised name, parsed, and nothing else is |
| TlsListener.LoadStored | internal/proxy/https.go:112-123 | the map of loaded certificates by normalised root, or failure |
| TlsListener.StoredInventoryIff | internal/proxy/https.go:112-123 | loading succeeds exactly when every pair filed under some root is found |
| TlsListener.StoredInventoryKeys | internal/proxy/https.go:112-123 | what is held is held under the normalised root of some certificate |
| TlsListener.StoredInventoryLastWins | internal/proxy/https.go:112-123 | of several certificates with one normalised root the last is held, loaded from its certificate and key path |
| TlsListener.HTTPSListener.New | internal/proxy/https.go:33-45 | a listener exists exactly when the inventory can be built, and starts with it |
| TlsListener.HTTPSListener.ReplaceCertificates | internal/proxy/https.go:47-57 | swaps in the whole new map or keeps the old one on failure |
| TlsListener.HTTPSListener.GetCertificate | internal/proxy/https.go:71-100 | refuses unmanaged names, prefers the entry under the host's own name, otherwise returns some entry serving the host, and fails exactly when there is none |
| CertificateRuntime.PrepareStoredCertificates | internal/daemon/network.go:334-376 | succeeds exactly when every issuance that the plan needs succeeds, then with one certificate per decision in order; otherwise the failures are exactly the roots whose issuance failed, in plan order, so their number and the first are those of the error |
| CertificateRuntime.CarryOut | internal/daemon/network.go:349-371 | the same for any list of decisions |
| CertificateRuntime.PreparedAsIssued | internal/daemon/network.go:351-371 | a successful preparation holds, at each position, the stored certificate or what the issuer returned, with its names, certificate path and key path |
| CertificateRuntime.NoneFailed | internal/daemon/network.go:372-375 | there are no failures exactly when every decision could be carried out |
| CertificateRuntime.FailedRootsMeaning | internal/daemon/network.go:356-360 | the failures are the roots of the decisions that needed issuing and failed |
| CertificateRuntime.IndexStoredCertificates | internal/daemon/network.go:303-318 | indexes by root, later entries winning, entries without a root dropped |
| CertificateRuntime.IndexKeys | internal/daemon/network.go:303-318 | the roots indexed are the non-blank roots of the certificates |
| CertificateRuntime.IndexLastWins | internal/daemon/network.go:303-318 | under each root the last certificate filed under it is indexed |
| CertificateRuntime.NetworkRuntime.New | internal/daemon/network.go:68-117 | a runtime exists exactly when preparing and loading succeed, and starts with what they produced |
| CertificateRuntime.NetworkRuntime.RefreshCertificates | internal/daemon/network.go:119-141 | success installs the prepared certificates in both copies; failure changes neither and clears readiness |
| CertificateTheorems.PreparedServes | internal/daemon/network.go:351-371 | every decision ends with a certificate valid for its root and covering its hostnames |
| CertificateTheorems.PreparedDistinct | internal/daemon/network.go:361-370 | certificates of one preparation are filed under different canonical names |
| CertificateTheorems.InventoryMeaning | internal/proxy/https.go:112-123 | the map loaded from a prepared list is, key by key, what is loaded from its index |
| CertificateTheorems.InstallEstablishes | internal/daemon/network.go:119-141 | after any success the listener's map is the one loaded from the stored certificates, the store is valid, and readiness means a certificate |
| CertificateTheorems.RunInvariant | internal/daemon/network.go:119-141 | after any number of refreshes with arbitrary issuance and load failures, the listener's map equals the map loaded from the stored certificates by the last refresh that went through, the store is valid, and readiness means a certificate |
| CertificateTheorems.ReadyMeaning | internal/daemon/network.go:119-141 | over every run, ready exactly when the last refresh went through and there is a certificate |
| CertificateTheorems.SucceedsIff | internal/daemon/network.go:119-141 | a refresh succeeds exactly when every certificate in the plan is stored and found, or issued and its pair found |
| CertificateTheorems.IssuedIsHeld | internal/daemon/network.go:361-371 | after a success the store holds what was issued, and the listener what the loader returns for the issuer's two paths |
| CertificateTheorems.FixedCertificatesWin | internal/proxy/https.go:102-110 | with fixed certificates, in every run the listener holds exactly those after every refresh, and the runtime is ready exactly when the last refresh succeeded |
| CertificateTheorems.FixedNeverFailToLoad | internal/proxy/https.go:102-110 | and a refresh then succeeds exactly when no root failed to be issued |
| CertificateTheorems.SelectionCovers | internal/proxy/https.go:84-97 | whatever the selection returns covers the host, in any map order |
| CertificateTheorems.NoRootNoCover | internal/certs/store.go:139-162 | a name without a project root is covered by no stored certificate |
| CertificateTheorems.InstalledServes | internal/proxy/https.go:71-100 | once installed, every managed served name gets a certificate exactly when it has a project root, and that certificate covers it |
| CertificateTheorems.ServedHostsGetCertificates | internal/daemon/network.go:119-141 | the same after a successful refresh |
| Reissuing.SecondPlanReuses | internal/certs/store.go:61-70 | planning over a fresh store reuses a decision exactly when its certificate was filed under its root |
| Reissuing.RefreshIsFixpoint | internal/daemon/network.go:119-141 | a second refresh in an unchanged world succeeds and changes nothing |
| Reissuing.ReissuedAgain | internal/daemon/network.go:351-370 | it calls the issuer exactly for decisions issued the first time and filed under another name than the root |
| Reissuing.MkCertReissues | internal/certs/mkcert.go:30-56 | with mkcert and an empty store: exactly the explicit-form roots with a host sorting before the root |
| Reissuing.UnchangedRunStays | internal/daemon/network.go:119-141 | after any number of refreshes in an unchanged world the state is that of the start |
| Reissuing.MkCertReissuesEveryTime | internal/certs/mkcert.go:30-56 | every single refresh of an unchanged world issues again exactly the explicit-form roots with a host sorting before the root |
| Reissuing.HostServingStarts | internal/daemon/network.go:68-117 | an ordinary start with mkcert meets every assumption made of the world, for any clean host with a project root |
| Reissuing.StartGoesOn | internal/daemon/network.go:119-141 | any start in an unchanged world continues for any number of refreshes |
| Reissuing.DeepHostReissuedForever | internal/certs/mkcert.go:30-56 | for the host `a.b.acme.test` there is a run of any length in which every refresh issues for `acme.test` again |
| Discovery.NameGivesProjectAndService | internal/discovery/metadata.go:109-116 | a Compose container name yields its project and service, with or without the slash |
| Discovery.NameWithoutDash | internal/discovery/metadata.go:109-116 | a name without a dash stands for both |
| Discovery.CandidateSource | internal/discovery/metadata.go:29-47 | the two Compose labels decide exactly when both say something, otherwise the name does for both; identity and labels are taken over |
| Discovery.ParseBoolReads | internal/discovery/metadata.go:118-127 | the three spellings of true and of false, in any case and with space around; nothing else is a boolean |
| Discovery.AtoiReadsDecimal | internal/discovery/metadata.go:82-104 | number labels read back every 64-bit number, signed or not, and nothing larger |
| Discovery.AtoiRefuses | internal/discovery/metadata.go:82-104 | whatever is not a sign and digits is refused |
| Discovery.NumberLabelsRead | internal/discovery/metadata.go:82-104 | a port label has to be positive, a priority label may be any 64-bit number |
| Discovery.OneLabelOneField | internal/discovery/metadata.go:49-107 | which label key sets which field, to what, and that it sets no other |
| Discovery.ApplyLabelFields | internal/discovery/metadata.go:49-107 | each well-formed label sets its field over the base, each malformed one adds its warning in order |
| Discovery.WarnsIffMalformed | internal/discovery/metadata.go:49-131 | a container is warned about exactly when a label is malformed, always by name |
| Discovery.LabelWarningsMeaning | internal/discovery/metadata.go:49-131 | there is a warning for exactly each malformed label, with its key and value |
| Discovery.LabelWarningsOrdered | internal/discovery/metadata.go:49-107 | warnings come in the order enable, root, port, scheme, priority, each at most once |
| Discovery.CollectDomains | internal/discovery/metadata.go:65-72 | the trimmed non-empty parts in order |
| Discovery.CollectedMeaning | internal/discovery/metadata.go:65-72 | exactly the trimmed parts that are not empty are collected |
| Discovery.CollectedInOrder | internal/discovery/metadata.go:65-72 | in the order of the parts |
| Discovery.LabelDomainsRoundTrip | internal/discovery/metadata.go:65-72 | a list of trimmed domains without commas survives being written into one label |
| Discovery.IsEligible | internal/discovery/eligibility.go:18-48 | eligible exactly when running, published, not disabled, and either enabled or neither its service nor all its ports are ignored |
| Ports.ChoiceMeaning | internal/discovery/ports.go:24-42 | the labelled port if published, else the configured one, else the first published of the eight preferred, else the first published |
| Ports.SelectPublishedPort | internal/discovery/ports.go:13-43 | the chosen number and its provenance are a function of the set of TCP host ports and the first of them |
| Ports.LookupPort | internal/discovery/ports.go:45-53 | the first port with the number, or none exactly when no port has it |
| Ports.PublishedPorts | internal/daemon/docker_runtime.go:171-197 | reports exactly the bag of positive bindings, sorted, for every map order |
| Ports.SortPorts | internal/daemon/docker_runtime.go:190-195 | a permutation with no pair out of order |
| Ports.PortsOfSpec | internal/daemon/docker_runtime.go:173-188 | the positive bindings of one port spec, and none without a protocol |
| Ports.SpecPortsMeaning | internal/daemon/docker_runtime.go:173-188 | a port has the number and address of a binding and the protocol behind the first slash, in lower case |
| Ports.BindingPortsInOrder | internal/daemon/docker_runtime.go:178-188 | bindings are reported in order, each at most once |
| Ports.InOrderMeaning | internal/daemon/docker_runtime.go:190-195 | sorted means by number, then by protocol |
| Ports.PortChoiceIsDetermined | internal/daemon/docker_runtime.go:171-197 | for any two sorted orders of the same bag the host port and provenance agree, and the fallback is the least TCP port |
| Domains.MergeOverrides | internal/routing/overrides.go:13-37 | labels win field by field, without warnings |
| Domains.MergeLaws | internal/routing/overrides.go:13-37 | merging is associative and idempotent with a unit |
| Domains.MergePrecedence | internal/routing/overrides.go:13-37 | for each of the seven fields the label holds if it says anything, else the configuration |
| Domains.PublicMeaning | internal/routing/domains.go:56-70 | a name looks public exactly when it has several labels and the last is, in any case, one of six or two characters long |
| Domains.DefaultDomainLabels | internal/routing/domains.go:33-40 | the labels of the generated hostname, at the root and not, and which services serve the root |
| Domains.DomainsMeaning | internal/routing/domains.go:22-51 | an explicit domain alone unless it looks public; otherwise the generated one first and then the accepted extras in order |
| Domains.DomainWarningsMeaning | internal/routing/domains.go:22-31 | the warning about an explicit domain |
| Domains.GenerateDomains | internal/routing/domains.go:16-54 | the hostnames and warnings of a service's preferences |
| Domains.AddExtras | internal/routing/domains.go:42-51 | accepts the extras that do not look public, in order, and warns about the others |
| Domains.AcceptedMeaning | internal/routing/domains.go:42-51 | exactly the extras that do not look public are accepted |
| Domains.ExtraWarningsMeaning | internal/routing/domains.go:42-51 | there is a warning for exactly the extras that look public and those outside the managed suffix |
| Domains.ExtrasInOrder | internal/routing/domains.go:42-51 | accepted extras and warnings keep the order of the extras |
| Domains.DefaultDomainHasProjectRoot | internal/routing/domains.go:33-40 | every generated hostname of a project lies under the project's own certificate root |
| Domains.ExplicitDomainsPassed | internal/routing/domains.go:22-51 | any hostname but the generated one was asked for and does not look public |
| Conflicts.StableSortSorts | internal/routing/conflicts.go:15-20 | claims end up by falling priority, then container name |
| Conflicts.StableSortIsStable | internal/routing/conflicts.go:15-20 | tied claims keep their order |
| Conflicts.GroupByHostname | internal/routing/conflicts.go:6-9 | groups are exactly the claims of each hostname in order |
| Conflicts.Resolve | internal/routing/conflicts.go:14-37 | the winner of one group, and its conflict exactly when there are two or more claims |
| Conflicts.ResolveConflicts | internal/routing/conflicts.go:5-41 | exactly one active route per claimed hostname and one conflict per contested one, in any map order |
| Conflicts.WinnerIsBest | internal/routing/conflicts.go:15-23 | the winner has the highest priority, then the least container name, then came first |
| Conflicts.ClaimsAreConserved | internal/routing/conflicts.go:25-37 | winner and losers are exactly the bag of claimants, in claim order |
| Conflicts.TieMeaning | internal/routing/conflicts.go:35 | the tie flag says exactly that at least two of the claims have the highest priority |
| Conflicts.ConflictIsReported | internal/routing/conflicts.go:25-37 | every reported conflict has several claims, one loser fewer, the fixed reason, and the tie flag of its claims |
| Conflicts.ResolutionIgnoresOrder | internal/routing/conflicts.go:5-41 | permuting the claims changes neither winners nor conflicts when ties are identical |
| Reconcile.Builder.constructor | internal/registry/snapshot.go:15-17 | the counter starts at zero |
| Reconcile.Builder.Build | internal/registry/snapshot.go:19-33 | draws the next 64-bit number and maps hostnames to routes |
| Reconcile.Reconciler.constructor | internal/daemon/reconciler.go:39-41 | starts with an empty snapshot, not paused |
| Reconcile.Reconciler.RebuildSnapshot | internal/daemon/reconciler.go:43-92 | publishes the pipeline applied to the scan, with its number and its own creation time as sync time |
| Reconcile.Reconciler.Gather | internal/daemon/reconciler.go:47-81 | all claims and warnings of the containers in order |
| Reconcile.Reconciler.Contribute | internal/daemon/reconciler.go:48-80 | the claims and warnings of one container |
| Reconcile.Reconciler.Examine | internal/daemon/reconciler.go:48-67 | preferences, selected port and label warnings; nothing selected exactly when the container is skipped |
| Reconcile.Reconciler.Claim | internal/daemon/reconciler.go:78-80 | one claim per domain, each serving all the domains |
| Reconcile.Reconciler.SetRoutingPaused | internal/daemon/reconciler.go:94-98 | changes the pause flag and nothing else |
| Reconcile.Reconciler.HandleEvent | internal/daemon/reconciler.go:118-125 | rebuilds on the six events and otherwise fails without changing anything |
| Pipeline.ServedHostnamesAreRouted | internal/daemon/reconciler.go:78-84 | the served hostnames of all winning routes are together exactly the routed hostnames |
| Pipeline.RouteProvenance | internal/daemon/reconciler.go:47-81 | every route comes from a running, not ignored container of the scan, goes to a TCP port it publishes on loopback, and an explicit hostname does not look public |
| Pipeline.ClaimIsChoice | internal/daemon/reconciler.go:56-79 | a claim goes to the number picked among the published TCP ports and says why |
| Pipeline.SnapshotWarnings | internal/daemon/reconciler.go:52-77 | a snapshot's warnings are those about the labels of any container and about the domains of the routed ones |
| Pipeline.SnapshotConflicts | internal/daemon/reconciler.go:82-84 | a snapshot reports a conflict once for exactly the hostnames claimed at least twice, with the routed winner and all claimants |
| Pipeline.OverrideNeedsNoLabel | internal/daemon/reconciler.go:49-61 | the configured port decides exactly without a valid port label and when it is positive and published |
| Pipeline.LabelsBeatConfig | internal/daemon/reconciler.go:51-79 | priority and scheme come from the label, else the configuration, else the default |
| Pipeline.RoutedIffPicked | internal/daemon/reconciler.go:60-68 | a running container of a service that is not ignored is routed exactly when the number picked from label, configuration, preference list and least TCP port is not ignored |
| Pipeline.IgnoredPortsSkippedIff | docs/configuration.md:78 | ignored ports are merely skipped exactly for containers whose picked number is not ignored |
| Pipeline.IgnoredPortHidesTheOthers | internal/daemon/reconciler.go:60-68 | a container publishing an ignored 443 and a 9000 is not routed |
| Pipeline.EnableLabelIsIgnored | internal/daemon/reconciler.go:61-68 | the enable label changes neither whether nor how a container is routed, nor any claim but for the labels it carries |
| Pipeline.EnableOverrideIsIgnored | internal/daemon/reconciler.go:61-68 | nor does the configured enable override of any service: no claim and no warning of any container changes |
| Pipeline.EnableOverrideNeverShows | docs/configuration.md:90 | the same snapshots are built whatever the configured enable override is |
| Pipeline.RelistedPortsAlike | internal/daemon/docker_runtime.go:190-195 | listing tied ports in another sorted order changes no claim and no warning |
| Pipeline.ScanOrderIsIrrelevant | internal/daemon/reconciler.go:43-92 | with distinct container names, permuting the scan and relisting tied ports leaves routes, conflicts and the bag of warnings the same |
| Naming.DomainPrecedence | internal/daemon/reconciler.go:49-56 | explicit domain, extras and root come from the label, else the configuration of the service, else nothing is asked for |
| Naming.LabelledDomainDecides | internal/routing/domains.go:22-31 | a domain label is the only hostname claimed, whatever the configuration says, unless it looks public |
| Naming.ComposeServiceClaims | internal/discovery/metadata.go:29-47 | without preferences a routed Compose service claims exactly service, project and suffix, or project and suffix at the root |
| Naming.WebIsRouted | internal/daemon/reconciler.go:43-92 | a web service of project acme on port 8080 is published as exactly web.acme.test, with every field of the route |
| Serving.BuildResponse | internal/dns/server.go:28-53 | a loopback A record exactly for a first A question about a name whose labels end with those of the suffix |
| Serving.ExampleIsUnmanaged | internal/dns/server.go:59-66 | `example.com.` is not claimed under `test` |
| Serving.UndottedIsUnmanaged | internal/dns/server.go:59-66 | nor is `mytest` |
| Serving.HandleHTTP | internal/proxy/http.go:57-116 | nothing for an unclaimed host, 503 while paused, 404 without a route or upstream, otherwise forwarded to the route's upstream, with the exact texts |
| Serving.AnswerCases | internal/proxy/http.go:57-84 | exactly when each of these answers is given; the pause flag comes before the routes |
| Serving.ListenersAgree | internal/proxy/http.go:57-62 | for a name without a colon HTTP and TLS claim it exactly when DNS does, whatever routes and pause state |
| Serving.PlannedIsManaged | internal/certs/store.go:164-171 | every planned hostname, with spaces or not, is claimed by the listeners although the suffixes are normalised differently |
| Serving.SeveralLabelSuffixPlansNothing | internal/certs/store.go:153-156 | with a suffix of several labels nothing is planned |
| Serving.SpellingIsCanonicalised | internal/proxy/http.go:98-104 | any case variant with dots around it and an optional port is canonicalised to the name |
| Serving.SpellingInvariance | internal/proxy/http.go:57-104 | every such spelling of a routed name gets the 503 or that route's exact upstream; the missing-upstream branch is never taken |
| Serving.ReachableIff | internal/dns/server.go:68-82 | some request is looked up under a name exactly when it is in lower case, without dots at its ends or a colon, and managed |
| Serving.RoutedReachableIff | internal/proxy/http.go:57-84 | on a built snapshot some request gets the route of a given name exactly under that condition |
| Serving.PlanCoversRoutedNames | internal/certs/store.go:28-46 | the plan of a built snapshot covers exactly the normalised routed names with a project root |
| Serving.RoutedHostsGetCertificates | internal/daemon/network.go:119-141 | after a successful refresh on a built snapshot every managed routed name gets a covering certificate exactly when it has a root |
| Publication.RunInvariant | internal/daemon/reconciler.go:83-89 | in every interleaving every build is the pipeline of its scan under its own number, and what is published is one of them |
| Publication.PublishedIsOneBuild | internal/daemon/reconciler.go:86-89 | snapshot and sync time come from one build of one scan |
| Publication.VersionsDistinct | internal/registry/snapshot.go:20 | all versions differ exactly while no more than 2^64 builds were made |
| Publication.VersionAtMostCounter | internal/registry/snapshot.go:20-27 | the published version never exceeds the counter |
| Publication.SerialPublishRaises | internal/daemon/reconciler.go:83-89 | without overlap every publication raises the version |
| Publication.LoweringNeedsOverlap | internal/daemon/reconciler.go:83-89 | an older build can only replace a newer one that was published while it was in flight |
| Publication.OvertakenLowers | internal/daemon/reconciler.go:83-89 | a rebuild that was overtaken while in flight and still publishes makes some publication in between lower the shown number |
| Publication.LoweringRuns | internal/daemon/reconciler.go:83-89 | a run lowers the shown number exactly when some rebuild publishes after having been overtaken |
| Publication.OverlapCanLower | internal/daemon/reconciler.go:83-89 | and such a run exists |
| Daemon.Watcher.constructor | internal/daemon/events.go:43-45 | starts connected |
| Daemon.Watcher.OnDisconnect | internal/daemon/events.go:47-52 | disconnects and stamps it |
| Daemon.Watcher.OnReconnect | internal/daemon/events.go:54-63 | connects and stamps it, having rebuilt from the whole scan |
| Daemon.App.constructor | internal/daemon/app.go:46-71 | starts connected with the snapshot of an empty scan |
| Daemon.App.RecordIssue | internal/daemon/app.go:232-239 | keeps the last 25 |
| Daemon.App.RecordWatcherIssue | internal/daemon/app.go:409-412 | disconnects and records the issue |
| Daemon.App.SyncNetworkCertificates | internal/daemon/app.go:404-406 | records a certificate error and changes nothing else |
| Daemon.App.Reconnect | internal/daemon/app.go:371-374 | reconnects from a scan |
| Daemon.App.RefreshFromDocker | internal/daemon/app.go:289-302 | rebuilds from the scan, or disconnects, records the failure and keeps the snapshot |
| Daemon.App.RefreshNow | internal/daemon/app.go:179-185 | implements the refresh step of the machine, also without a configured scan |
| Daemon.App.ApplyEvent | internal/daemon/app.go:379-382 | a supported event is never refused: the "event-ignore" branch is dead |
| Daemon.App.SyncEvent | internal/daemon/app.go:362-382 | rebuilds exactly on a supported event with a scan; otherwise the snapshot stays |
| Daemon.App.HandleDockerEvent | internal/daemon/app.go:362-384 | implements the event step; unsupported events do nothing |
| Daemon.App.ResyncFromScan | internal/daemon/app.go:386-395 | rebuilds from the scan, or disconnects, records the failure and keeps the snapshot |
| Daemon.App.ResyncWatcher | internal/daemon/app.go:386-398 | implements the resynchronisation step |
| Daemon.App.SetRoutingPaused | internal/daemon/app.go:187-190 | sets the flag to what was asked for and implements the pause step |
| Daemon.App.ConsumeDockerEvents | internal/daemon/app.go:343-360 | implements the run of the delivered events |
| Daemon.App.Follow | internal/daemon/app.go:328-338 | one stream to its end, then a recorded stream failure unless shut down |
| Daemon.App.Attend | internal/daemon/app.go:305-339 | one pass of the retry loop |
| Daemon.App.WatchDockerEvents | internal/daemon/app.go:304-341 | the retry loop performs exactly the actions that the environment allows, resynchronising only when disconnected |
| Watching.UnsupportedChangesNothing | internal/daemon/app.go:362-365 | the events that can change something are exactly the supported ones |
| Watching.OnlySyncConnects | internal/daemon/events.go:54-63 | the watcher becomes connected only together with a rebuild from a whole scan |
| Watching.ConnectedMeaning | internal/daemon/app.go:289-302 | connected exactly when every recorded Docker failure was followed by a successful synchronisation |
| Watching.AppliedMeaning | internal/daemon/app.go:289-398 | the snapshot is built from the scan of the last successful synchronisation |
| Watching.PausedMeaning | internal/daemon/app.go:187-190 | paused exactly when some request to pause was followed by none to resume; nothing else touches the flag |
| Watching.SupportedExactly | internal/daemon/events.go:10 | the six events acted on |
| Watching.WindowMeaning | internal/daemon/app.go:232-239 | the window is the end of the history, at most 25 long |
| Watching.FailedAttemptDisconnects | internal/daemon/app.go:304-341 | a failed attempt leaves the watcher disconnected with that failure as the newest issue |
| Watching.ShutdownEndsWatching | internal/daemon/app.go:304-341 | the loop goes on after every failed attempt and ends with the first that does not fail |
| Watching.ResyncComesFirst | internal/daemon/app.go:316-325 | a disconnected watcher synchronises before taking events, and takes none when that fails; a connected one never synchronises anew |
| Watching.IssuesAreWindow | internal/daemon/app.go:232-239 | the stored issues are the last 25 of all ever recorded |
| Watching.BuildSessionIssues | internal/admin/logs.go:43-56 | the last 25, newest first |
| Watching.ViewIsReversedHistory | internal/admin/logs.go:43-56 | the API shows the reverse of the last 25 of the full history |
| System.InstalledServesAll | internal/daemon/network.go:68-141 | installing certificates for a built snapshot serves all its routed names |
| System.EveryRunServes | internal/daemon/app.go:289-407 | over every run, the snapshot and the certificates stay consistent, and after a refresh without error every managed routed name with a project root is served a covering certificate |
| System.EveryRunApplies | internal/daemon/app.go:289-398 | over every run the snapshot is built from the scan of the last successful synchronisation since the daemon came up |
| System.EveryRunLoads | internal/daemon/network.go:119-141 | over every run the listener's map is the one loaded from the stored certificates at the start or a synchronisation |
| System.RunningApp.Start | internal/daemon/app.go:113-125 | the network runtime for the current snapshot exists exactly when preparing and loading succeed, and starts a run |
| System.RunningApp.SyncCertificates | internal/daemon/app.go:400-407 | refreshes the certificates for the current snapshot and records the error exactly when there is one |
| System.RunningApp.Refresh | internal/daemon/app.go:179-185 | implements the refresh step of the whole system |
| System.RunningApp.Event | internal/daemon/app.go:362-384 | implements the event step of the whole system |
| System.RunningApp.Resync | internal/daemon/app.go:386-398 | implements the resynchronisation step of the whole system |
| System.RunningApp.Other | internal/daemon/app.go:409-412 | any other action leaves snapshot and certificates alone |
| Resolver.Disk.WriteResolver | internal/install/resolver.go:17-39 | what the files hold and what is returned after any number of its operations |
| Resolver.Disk.WriteResolverBackup | internal/install/resolver.go:94-112 | writes the backup once, needs a state directory, and reports interruption |
| Resolver.Disk.RemoveResolver | internal/install/resolver.go:41-68 | what the files hold and what is returned after any number of its operations |
| Resolver.ManagedLines | internal/install/resolver.go:82-84 | the three lines that a takeover writes |
| Resolver.ResolverPathMeaning | internal/install/resolver.go:70-80 | where it writes them, with the defaults |
| Resolver.OutcomesMean | internal/install/resolver.go:17-68 | what a reported success or refusal of either call means for the two files |
| Resolver.OtherFilesUntouched | internal/install/resolver.go:17-68 | no other file changes |
| Resolver.WriteNeverLoses | internal/install/resolver.go:17-39 | stopped anywhere, foreign contents are in the resolver file or the backup, and an older backup stays |
| Resolver.RemoveNeverLoses | internal/install/resolver.go:49-57 | stopped anywhere, the backed-up contents are in the resolver file or the backup |
| Resolver.SavedIffStateDir | internal/install/resolver.go:86-98 | a completed write keeps a copy exactly when there is a state directory |
| Resolver.RemoveTwiceIff | internal/install/resolver.go:41-68 | a second removal changes nothing exactly when the first had nothing to restore |
| Resolver.SecondRemoveDeletes | internal/install/resolver.go:41-68 | otherwise it deletes what the first restored |
| ResolverRuns.BackupIsFirstSaved | internal/install/resolver.go:29-33 | after any writes, interrupted or not, and edits the backup is what the first write that got as far as backing up met, or there is none |
| ResolverRuns.RemoveRestoresSaved | internal/install/resolver.go:41-68 | removing then restores exactly that, or removes the file |
| ResolverRuns.FirstDisplacedIff | internal/install/resolver.go:17-39 | what was displaced first can be read off the edits and the number of operations each write got through |
| ResolverRuns.BackupIsFirstDisplacedIff | internal/install/resolver.go:94-112 | the backup is what was displaced first exactly when the first write that backed up completed or the next one able to replace anything met the same contents |
| ResolverRuns.RemoveRestoresDisplacedIff | internal/install/resolver.go:41-68 | removing restores what was displaced first exactly then |
| ResolverRuns.QuietIsUndisturbed | internal/install/resolver.go:29-37 | no edit between the stopped write and the next completing one suffices for that |
| ResolverRuns.BackupIsFirstDisplaced | internal/install/resolver.go:94-112 | when every write completes the backup is always the first foreign contents displaced |
| ResolverRuns.RemoveRestoresFirst | internal/install/resolver.go:41-68 | removing then restores them, or removes the file when there were none |
| ResolverRuns.BackupIsWriteOnce | internal/install/resolver.go:100-104 | no sequence of writes, interrupted or not, and edits changes an existing backup |
| ResolverRuns.SavedSurvives | internal/install/resolver.go:17-68 | what was backed up first survives any run and any write or removal stopped anywhere |
| ResolverRuns.FirstDisplacedSurvives | internal/install/resolver.go:17-68 | after any run that meets the condition, a write or removal stopped anywhere keeps what was displaced first in the resolver file or the backup |
| ResolverRuns.InterruptedWriteCanLose | internal/install/resolver.go:29-37 | an interrupted write, an edit and a complete write lose the edit |

## Left out

- The commands, dashboard, menu bar, admin API, installer, launchd and doctor: interfaces and external commands.
- Contents of certificate files. `FaithfulLoads` assumes that a loaded leaf carries the stored names. The code can
  break this: a refresh that fails for one project has already rewritten the files of others, and two roots whose
  file names sanitise alike share one file.
- CertificateTheorems.RunInvariant: assumes whitespace-free planned hostnames, an issuer that returns the requested
  names, and a faithful loader, in every world of the run; without fixed certificates only.
- CertificateTheorems.InstalledServes: the same assumptions; `WildcardFormCoverage` shows what a leading space breaks.
- PlanProperties.RequiredSANsCover: the sufficient condition; `WildcardFormCoverage` and `ExplicitFormCoverage` settle
  the two forms exactly.
- TlsListener.HTTPSListener.GetCertificate: the error for a handshake without a client hello.
- CertificateRuntime.PrepareStoredCertificates: the error text around the number of failures and the first of them.
- MkCert.MkCertIsHonest: output paths are joined with a slash and not cleaned.
- Discovery.ApplyLabelFields: spaces and case are ASCII; the unused override port of the options is dropped.
- Serving.BuildResponse: the DNS wire format. A nil request panics in `SetReply` before its own check and is no input here.
- Serving.HandleHTTP: the reverse proxy after the target is chosen; headers and the outer 404 for unclaimed names.
- Daemon.App.WatchDockerEvents: delays between attempts, the certificate refreshes themselves (`System.RunningApp`
  has them, step by step), and calls overlapping with other refreshes;
  runs are serial and the environment's behaviour is a finite script.
- Daemon.App.RecordIssue: an issue's time stamp; the role and action strings are an enumeration.
- System.EveryRunServes: without fixed certificates, and for worlds that are honest at every synchronisation.
- Publication.RunInvariant: how many threads run is unbounded; a thread's own computation between the two
  synchronisation points is one step.
- Resolver.Disk.WriteResolver: paths are symbolic, so a state directory placed inside the resolver directory is not
  modelled; a write is all or nothing; creating directories has no visible effect.
- Overlapping certificate refreshes and the window between the first scan and the event subscription: the code
  gives no guarantee there.
- `port_preference_order` and `redirect_http_to_https`: configuration fields that nothing consumes.
