/** internal/certs/mkcert.go: issuing a certificate by running mkcert. */
module MkCert {
  import opened Strings
  import opened Hostnames

  datatype IssuedCertificate = IssuedCertificate(projectRoot: string, sans: seq<string>,
                                                 certPath: string, keyPath: string)

  datatype IssueError = NoSANs | InvalidPrimary | BinaryNotFound | CommandFailed

  datatype IssueResult = Issued(cert: IssuedCertificate) | Failed(error: IssueError)

  // What running the mkcert binary with some arguments came to.
  datatype RunResult = Ran | NotFound | ExitError

  type Runner = seq<string> -> RunResult

  // Anything that issues a certificate for an output directory and a list of names.
  type Issuer = (string, seq<string>) -> IssueResult

  function SanitizeFilename(host: string): string {
    if host == "" then ""
    else
      var first := if host[0] == '*' then "wildcard" else if host[0] == '/' then "-" else [host[0]];
      first + SanitizeFilename(host[1..])
  }

  function Issue(run: Runner, outputDir: string, sans: seq<string>): IssueResult {
    if sans == [] then Failed(NoSANs)
    else
      var primary := Normalize(sans[0]);
      if primary == "" then Failed(InvalidPrimary)
      else
        var certPath := outputDir + "/" + SanitizeFilename(primary) + ".pem";
        var keyPath := outputDir + "/" + SanitizeFilename(primary) + "-key.pem";
        match run(["-cert-file", certPath, "-key-file", keyPath] + sans)
        case NotFound => Failed(BinaryNotFound)
        case ExitError => Failed(CommandFailed)
        case Ran => Issued(IssuedCertificate(primary, sans, certPath, keyPath))
  }

  // What mkcert is run with, and what becomes of it: the two file names, then all requested names in
  // order; the certificate is filed under the first of them, normalised.
  lemma IssueMeaning(run: Runner, dir: string, sans: seq<string>)
    ensures sans == [] ==> Issue(run, dir, sans) == Failed(NoSANs)
    ensures sans != [] && Normalize(sans[0]) == "" ==> Issue(run, dir, sans) == Failed(InvalidPrimary)
    ensures sans != [] && Normalize(sans[0]) != "" ==>
              var base := dir + "/" + SanitizeFilename(Normalize(sans[0]));
              var cert, key := base + ".pem", base + "-key.pem";
              var r, ran := Issue(run, dir, sans), run(["-cert-file", cert, "-key-file", key] + sans);
              && (ran == Ran ==> r == Issued(IssuedCertificate(Normalize(sans[0]), sans, cert, key)))
              && (ran == NotFound ==> r == Failed(BinaryNotFound))
              && (ran == ExitError ==> r == Failed(CommandFailed))
  {
    hide SanitizeFilename, Normalize;
  }

  // A star becomes the word wildcard, a slash a dash, and nothing else changes.
  lemma {:induction false} SanitizeConcat(a: string, b: string)
    ensures SanitizeFilename(a + b) == SanitizeFilename(a) + SanitizeFilename(b)
    ensures SanitizeFilename("*") == "wildcard" && SanitizeFilename("/") == "-"
    ensures '*' !in a && '/' !in a ==> SanitizeFilename(a) == a
  {
    assert "*"[1..] == "" && "/"[1..] == "";
    if a == "" {
      assert a + b == b;
    } else {
      assert (a + b)[1..] == a[1..] + b && a == [a[0]] + a[1..];
      SanitizeConcat(a[1..], b);
    }
  }

  // Neither a wildcard star nor a path separator gets into a file name.
  lemma {:induction false} SanitizedIsPlain(host: string)
    ensures '*' !in SanitizeFilename(host) && '/' !in SanitizeFilename(host)
  {
    if host != "" {
      SanitizedIsPlain(host[1..]);
    }
  }

  // The certificate and its key are written to different files.
  lemma CertAndKeyDiffer(run: Runner, dir: string, sans: seq<string>)
    requires Issue(run, dir, sans).Issued?
    ensures Issue(run, dir, sans).cert.certPath != Issue(run, dir, sans).cert.keyPath
  {
    hide SanitizeFilename, Normalize;
    var cert := Issue(run, dir, sans).cert;
    assert |cert.keyPath| == |cert.certPath| + 4;
  }

  function MkCertIssuer(run: Runner): Issuer {
    (outputDir: string, sans: seq<string>) => Issue(run, outputDir, sans)
  }

  // The contract that the runtime relies on: for canonical names, a certificate carries exactly
  // the names asked for, and is filed under one of them or under no name.
  ghost predicate HonestIssuer(issue: Issuer) {
    forall dir, sans :: (forall s :: s in sans ==> Canonical(s)) && issue(dir, sans).Issued? ==>
      var cert := issue(dir, sans).cert;
      cert.sans == sans && (cert.projectRoot == "" || cert.projectRoot in sans)
  }

  lemma MkCertIsHonest(run: Runner)
    ensures HonestIssuer(MkCertIssuer(run))
  {
    hide Issue, Canonical;
    forall dir, sans | (forall s :: s in sans ==> Canonical(s)) && Issue(run, dir, sans).Issued?
      ensures var cert := Issue(run, dir, sans).cert; cert.sans == sans && cert.projectRoot in sans
    {
      IssuedForCanonical(run, dir, sans);
    }
  }

  lemma IssuedForCanonical(run: Runner, dir: string, sans: seq<string>)
    requires (forall s :: s in sans ==> Canonical(s)) && Issue(run, dir, sans).Issued?
    ensures var cert := Issue(run, dir, sans).cert; cert.sans == sans && cert.projectRoot in sans
  {
    IssueMeaning(run, dir, sans);
    assert sans[0] in sans && Canonical(sans[0]);
    hide Issue, SanitizeFilename;
  }
}
