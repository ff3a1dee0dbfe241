/** internal/proxy/https.go: the certificates that the TLS listener holds and how it selects one. */
module TlsListener {
  import opened Strings
  import opened Hostnames
  import opened Inventory

  // A DER block, reduced to the DNS names that parsing it yields (None when it does not parse).
  datatype Der = Der(dnsNames: Option<seq<string>>)

  datatype TlsCertificate = TlsCertificate(chain: seq<Der>, leaf: Option<seq<string>>)

  // Loading a key pair from a certificate path and a key path.
  type Loader = (string, string) -> Option<TlsCertificate>

  type CertMap = map<string, TlsCertificate>

  datatype Selection = Selected(cert: TlsCertificate) | NoManagedRoute | NoCertificate

  // A certificate that comes parsed stays as it is; otherwise the first block of its chain, if it
  // parses, says which names it is for.
  function EnsureParsedLeaf(cert: TlsCertificate): (r: TlsCertificate)
    ensures r.chain == cert.chain
    ensures cert.leaf.Some? ==> r.leaf == cert.leaf
    ensures cert.leaf.None? && cert.chain != [] ==> r.leaf == cert.chain[0].dnsNames
    ensures cert.leaf.None? && cert.chain == [] ==> r.leaf.None?
  {
    if cert.leaf.Some? || cert.chain == [] then cert
    else if cert.chain[0].dnsNames.None? then cert
    else cert.(leaf := cert.chain[0].dnsNames)
  }

  // ----- Matching -----

  // A map key, or a DNS name of a leaf after normalising, that serves a host.
  predicate KeyServes(name: string, host: string) {
    name == host || (HasPrefix(name, "*.") && WildcardMatches(host, TrimPrefix(name, "*.")))
  }

  predicate CertificateCoversHost(cert: TlsCertificate, host: string) {
    cert.leaf.Some? && exists i :: 0 <= i < |cert.leaf.value| && KeyServes(Normalize(cert.leaf.value[i]), host)
  }

  predicate EntryServes(name: string, cert: TlsCertificate, host: string) {
    KeyServes(name, host) || CertificateCoversHost(cert, host)
  }

  // The planner's idea of coverage and the listener's are the same relation.
  lemma CoverageAgrees(cert: TlsCertificate, host: string)
    requires cert.leaf.Some?
    ensures CertificateCoversHost(cert, host) <==> IsCovered(host, cert.leaf.value)
  {
    var sans := cert.leaf.value;
    CoveredMeaning(host, sans);
    if CertificateCoversHost(cert, host) {
      var i :| 0 <= i < |sans| && KeyServes(Normalize(sans[i]), host);
      assert sans[i] in sans && SanServes(sans[i], host);
    }
    if san :| san in sans && SanServes(san, host) {
      var i :| 0 <= i < |sans| && sans[i] == san;
      assert KeyServes(Normalize(sans[i]), host);
    }
  }

  // ----- What a certificate map may look like -----

  ghost predicate IsStaticInventory(certificates: CertMap, inventory: CertMap) {
    && (forall k :: k in certificates ==> Normalize(k) in inventory)
    && (forall n :: n in inventory ==> HeldUnder(certificates, n, inventory[n]))
  }

  ghost predicate HeldUnder(certificates: CertMap, n: string, cert: TlsCertificate) {
    exists k :: k in certificates && Normalize(k) == n && cert == EnsureParsedLeaf(certificates[k])
  }

  // The stored certificates loaded in order; None when one of them fails to load.
  ghost function StoredInventory(stored: seq<StoredCertificate>, load: Loader): Option<CertMap> {
    if stored == [] then Some(map[])
    else
      var last := stored[|stored| - 1];
      var before := StoredInventory(stored[..|stored| - 1], load);
      if before.None? || last.projectRoot == "" then before
      else
        var loaded := load(last.certPath, last.keyPath);
        if loaded.None? then None
        else Some(before.value[Normalize(last.projectRoot) := EnsureParsedLeaf(loaded.value)])
  }

  ghost predicate IsInventory(certificates: CertMap, stored: seq<StoredCertificate>, load: Loader, r: Option<CertMap>) {
    if certificates != map[] then r.Some? && IsStaticInventory(certificates, r.value)
    else r == StoredInventory(stored, load)
  }

  lemma {:induction false} LoadFailureSticks(stored: seq<StoredCertificate>, i: nat, load: Loader)
    requires i <= |stored| && StoredInventory(stored[..i], load).None?
    ensures StoredInventory(stored, load).None?
    decreases |stored|
  {
    if i < |stored| {
      assert stored[..|stored| - 1][..i] == stored[..i];
      LoadFailureSticks(stored[..|stored| - 1], i, load);
    } else {
      assert stored[..i] == stored;
    }
  }

  // Loading succeeds exactly when every key pair that is filed under some root is found.
  lemma {:induction false} StoredInventoryIff(stored: seq<StoredCertificate>, load: Loader)
    ensures StoredInventory(stored, load).Some? <==>
            forall i :: 0 <= i < |stored| && stored[i].projectRoot != "" ==>
              load(stored[i].certPath, stored[i].keyPath).Some?
  {
    if stored != [] {
      var n := |stored| - 1;
      var front := stored[..n];
      StoredInventoryIff(front, load);
      assert forall i :: 0 <= i < n ==> front[i] == stored[i];
      hide Normalize, EnsureParsedLeaf;
    }
  }

  // What is held is held under the normalised root of some certificate.
  lemma {:induction false} StoredInventoryKeys(stored: seq<StoredCertificate>, load: Loader, k: string)
    requires StoredInventory(stored, load).Some?
    ensures k in StoredInventory(stored, load).value <==>
            exists c :: c in stored && c.projectRoot != "" && Normalize(c.projectRoot) == k
  {
    hide Normalize, EnsureParsedLeaf;
    if stored != [] {
      var front, last := stored[..|stored| - 1], stored[|stored| - 1];
      StoredInventoryKeys(front, load, k);
      assert stored == front + [last];
    }
  }

  // Of several certificates with one normalised root the last is held.
  lemma {:induction false} StoredInventoryLastWins(stored: seq<StoredCertificate>, load: Loader, i: nat)
    requires StoredInventory(stored, load).Some? && i < |stored| && stored[i].projectRoot != ""
    requires forall j :: i < j < |stored| && stored[j].projectRoot != "" ==>
               Normalize(stored[j].projectRoot) != Normalize(stored[i].projectRoot)
    ensures var c, held := stored[i], StoredInventory(stored, load).value;
            && load(c.certPath, c.keyPath).Some? && Normalize(c.projectRoot) in held
            && held[Normalize(c.projectRoot)] == EnsureParsedLeaf(load(c.certPath, c.keyPath).value)
  {
    hide Normalize, EnsureParsedLeaf;
    var n := |stored| - 1;
    if i < n {
      var front := stored[..n];
      assert front[i] == stored[i];
      StoredInventoryLastWins(front, load, i);
    }
  }

  method BuildCertificateMap(certificates: CertMap, stored: seq<StoredCertificate>, load: Loader)
    returns (r: Option<CertMap>)
    ensures IsInventory(certificates, stored, load, r)
  {
    var inventory := ParseFixed(certificates);
    if |inventory| > 0 || |stored| == 0 {
      return Some(inventory);
    }
    r := LoadStored(stored, load);
  }

  method ParseFixed(certificates: CertMap) returns (inventory: CertMap)
    ensures IsStaticInventory(certificates, inventory)
    ensures inventory == map[] <==> certificates == map[]
  {
    inventory := map[];
    var pending := certificates.Keys;
    while pending != {}
      invariant ParsedSoFar(certificates, pending, inventory)
    {
      var k :| k in pending;
      ParseOneMore(certificates, pending, inventory, k, Normalize(k));
      inventory := inventory[Normalize(k) := EnsureParsedLeaf(certificates[k])];
      pending := pending - {k};
    }
  }

  ghost predicate ParsedSoFar(certificates: CertMap, pending: set<string>, inventory: CertMap) {
    && pending <= certificates.Keys
    && (inventory == map[] <==> pending == certificates.Keys)
    && (forall k :: k in certificates && k !in pending ==> Normalize(k) in inventory)
    && (forall n :: n in inventory ==> HeldUnder(certificates, n, inventory[n]))
  }

  lemma ParseOneMore(certificates: CertMap, pending: set<string>, inventory: CertMap, k: string, n: string)
    requires ParsedSoFar(certificates, pending, inventory) && k in pending && n == Normalize(k)
    ensures ParsedSoFar(certificates, pending - {k}, inventory[n := EnsureParsedLeaf(certificates[k])])
  {
    hide Normalize, EnsureParsedLeaf;
    var cert := EnsureParsedLeaf(certificates[k]);
    var next := inventory[n := cert];
    assert n in next && k in certificates.Keys && k !in pending - {k};
    assert HeldUnder(certificates, n, cert);
    assert forall m :: m in next ==> HeldUnder(certificates, m, next[m]);
  }

  method LoadStored(stored: seq<StoredCertificate>, load: Loader) returns (r: Option<CertMap>)
    ensures r == StoredInventory(stored, load)
  {
    var inventory: CertMap := map[];
    for i := 0 to |stored|
      invariant StoredInventory(stored[..i], load) == Some(inventory)
    {
      assert stored[..i + 1][..i] == stored[..i];
      if stored[i].projectRoot == "" {
        continue;
      }
      var loaded := load(stored[i].certPath, stored[i].keyPath);
      if loaded.None? {
        LoadFailureSticks(stored, i + 1, load);
        return None;
      }
      inventory := inventory[Normalize(stored[i].projectRoot) := EnsureParsedLeaf(loaded.value)];
    }
    assert stored[..|stored|] == stored;
    return Some(inventory);
  }

  // ----- Selection -----

  // What GetCertificate may answer. Ranging over the map in any order, Go can return any entry
  // that serves the host when there is none under the host's own name.
  ghost predicate IsSelection(certificates: CertMap, suffix: string, serverName: string, r: Selection) {
    var host := Normalize(serverName);
    if !ListenerManages(host, suffix) then r == NoManagedRoute
    else if host in certificates then r == Selected(certificates[host])
    else if exists k :: k in certificates && EntryServes(k, certificates[k], host) then
      exists k :: k in certificates && EntryServes(k, certificates[k], host) && r == Selected(certificates[k])
    else r == NoCertificate
  }

  class HTTPSListener {
    const managedSuffix: string
    var certificates: CertMap

    // NewHTTPSListener: there is no listener when a stored certificate fails to load.
    static method New(managedSuffix: string, fixed: CertMap, stored: seq<StoredCertificate>, load: Loader)
      returns (l: HTTPSListener?, ghost built: Option<CertMap>)
      ensures IsInventory(fixed, stored, load, built)
      ensures l != null <==> built.Some?
      ensures l != null ==> fresh(l) && l.managedSuffix == managedSuffix && l.certificates == built.value
    {
      var inventory := BuildCertificateMap(fixed, stored, load);
      built := inventory;
      if inventory.None? {
        return null, built;
      }
      l := new HTTPSListener(managedSuffix, inventory.value);
    }

    constructor (managedSuffix: string, inventory: CertMap)
      ensures this.managedSuffix == managedSuffix && certificates == inventory
    {
      this.managedSuffix := managedSuffix;
      certificates := inventory;
    }

    // Either swaps in the whole new inventory, or fails and leaves the old one in place.
    method ReplaceCertificates(fixed: CertMap, stored: seq<StoredCertificate>, load: Loader)
      returns (ok: bool, ghost built: Option<CertMap>)
      modifies this
      ensures IsInventory(fixed, stored, load, built)
      ensures ok == built.Some?
      ensures certificates == if ok then built.value else old(certificates)
    {
      var inventory := BuildCertificateMap(fixed, stored, load);
      built := inventory;
      ok := inventory.Some?;
      if ok {
        certificates := inventory.value;
      }
    }

    method GetCertificate(serverName: string) returns (r: Selection)
      ensures IsSelection(certificates, managedSuffix, serverName, r)
      ensures r == NoManagedRoute <==> !ListenerManages(Normalize(serverName), managedSuffix)
      ensures r != NoManagedRoute && Normalize(serverName) in certificates ==>
                r == Selected(certificates[Normalize(serverName)])
    {
      var host := Normalize(serverName);
      if !ListenerManages(host, managedSuffix) {
        return NoManagedRoute;
      }
      if host in certificates {
        return Selected(certificates[host]);
      }
      var pending := certificates.Keys;
      while pending != {}
        invariant pending <= certificates.Keys
        invariant forall k :: k in certificates && k !in pending ==> !EntryServes(k, certificates[k], host)
      {
        var san :| san in pending;
        var cert := certificates[san];
        if san == host {
          return Selected(cert);
        }
        if HasPrefix(san, "*.") && WildcardMatches(host, TrimPrefix(san, "*.")) {
          assert EntryServes(san, cert, host);
          return Selected(cert);
        }
        if CertificateCoversHost(cert, host) {
          assert EntryServes(san, cert, host);
          return Selected(cert);
        }
        pending := pending - {san};
      }
      return NoCertificate;
    }
  }
}
