/** internal/discovery: reading a container's metadata, its labels, its ports and its eligibility. */
module Discovery {
  import opened Strings
  import opened RouteModel

  datatype PublishedPort = PublishedPort(hostIp: string, hostPort: int, protocol: string)

  datatype Container = Container(id: string, name: string, labels: map<string, string>)

  datatype RouteOptions = RouteOptions(enabled: Option<bool>, domain: Option<string>, domains: seq<string>,
                                       root: Option<bool>, port: Option<int>, scheme: Option<string>,
                                       priority: Option<int>)

  const PROJECT_LABEL := "com.docker.compose.project"
  const SERVICE_LABEL := "com.docker.compose.service"
  const ENABLE_LABEL := "devproxy.enable"
  const DOMAIN_LABEL := "devproxy.domain"
  const DOMAINS_LABEL := "devproxy.domains"
  const ROOT_LABEL := "devproxy.root"
  const PORT_LABEL := "devproxy.port"
  const SCHEME_LABEL := "devproxy.scheme"
  const PRIORITY_LABEL := "devproxy.priority"

  const NO_OPTIONS := RouteOptions(None, None, [], None, None, None, None)

  // A missing key reads as the empty string, as in Go.
  function Label(labels: map<string, string>, key: string): string {
    if key in labels then labels[key] else ""
  }

  function StrippedName(name: string): string {
    TrimPrefix(name, "/")
  }

  // ----- Candidates -----

  function ParseContainerName(name: string): (string, string) {
    var clean := StrippedName(name);
    var parts := Split(clean, '-');
    if |parts| >= 2 then (parts[0], parts[1]) else (clean, clean)
  }

  function BuildCandidateBase(c: Container): Candidate {
    var project := TrimSpace(Label(c.labels, PROJECT_LABEL));
    var service := TrimSpace(Label(c.labels, SERVICE_LABEL));
    if project == "" || service == "" then
      var (p, s) := ParseContainerName(c.name);
      Candidate(c.id, StrippedName(c.name), p, s, NameOfContainer, c.labels)
    else Candidate(c.id, StrippedName(c.name), project, service, ComposeLabels, c.labels)
  }

  // A Compose container name gives back its project and service, with or without Docker's slash
  // and whatever follows them.
  lemma NameGivesProjectAndService(project: string, service: string, tail: string)
    requires '-' !in project && '-' !in service && (tail == "" || tail[0] == '-')
    requires !HasPrefix(project + "-" + service, "/")
    ensures ParseContainerName(project + "-" + service + tail) == (project, service)
    ensures ParseContainerName("/" + (project + "-" + service + tail)) == (project, service)
  {
    var name := project + "-" + service + tail;
    TailParts(project + "-" + service, tail);
    SplitConcat(project, '-', service);
    SplitPlain(project, '-');
    SplitPlain(service, '-');
    assert name[0] == (project + "-" + service)[0];
    assert StrippedName(name) == name && StrippedName("/" + name) == name;
    hide Split;
  }

  lemma TailParts(front: string, tail: string)
    requires tail == "" || tail[0] == '-'
    ensures Split(front, '-') <= Split(front + tail, '-')
  {
    if tail == "" {
      assert front + tail == front;
    } else {
      assert front + tail == front + "-" + tail[1..];
      SplitConcat(front, '-', tail[1..]);
    }
  }

  // A name without a dash stands for both.
  lemma NameWithoutDash(name: string)
    requires '-' !in name && !HasPrefix(name, "/")
    ensures ParseContainerName(name) == ParseContainerName("/" + name) == (name, name)
  {
    SplitPlain(name, '-');
    assert ("/" + name)[1..] == name;
  }

  // The two Compose labels decide exactly when both say something; otherwise the name does, for
  // both project and service.
  lemma CandidateSource(c: Container)
    ensures var project := if "com.docker.compose.project" in c.labels
                           then TrimSpace(c.labels["com.docker.compose.project"]) else "";
            var service := if "com.docker.compose.service" in c.labels
                           then TrimSpace(c.labels["com.docker.compose.service"]) else "";
            var b := BuildCandidateBase(c);
            && (b.source == ComposeLabels <==> project != "" && service != "")
            && (project != "" && service != "" ==> b.project == project && b.service == service)
            && (project == "" || service == "" ==> (b.project, b.service) == ParseContainerName(c.name))
            && b.containerId == c.id && b.labels == c.labels
            && b.containerName == (if c.name != "" && c.name[0] == '/' then c.name[1..] else c.name)
  {
    TrimKeeps("", IsSpace);
    assert HasPrefix(c.name, "/") <==> c.name != "" && c.name[0] == '/';
    hide TrimSpace, ParseContainerName;
  }

  // ----- Parsing label values -----

  function ParseBool(v: string): Option<bool> {
    var t := ToLower(TrimSpace(v));
    if t == "true" || t == "1" || t == "yes" then Some(true)
    else if t == "false" || t == "0" || t == "no" then Some(false)
    else None
  }

  // A boolean label means true, or false, in exactly three spellings each, in any case and with
  // space around them.
  lemma ParseBoolMeaning(v: string)
    ensures ParseBool(v) == Some(true) <==> ToLower(TrimSpace(v)) in {"true", "1", "yes"}
    ensures ParseBool(v) == Some(false) <==> ToLower(TrimSpace(v)) in {"false", "0", "no"}
  {
    assert "true"[0] == 't' && "1"[0] == '1' && "yes"[0] == 'y' && "false"[0] == 'f' && "0"[0] == '0' && "no"[0] == 'n';
  }

  lemma ParseBoolReads(left: string, word: string, right: string)
    requires forall i :: 0 <= i < |left| ==> IsSpace(left[i])
    requires forall i :: 0 <= i < |right| ==> IsSpace(right[i])
    requires word != "" && CleanEnds(word, IsSpace)
    ensures ToLower(word) in {"true", "1", "yes"} ==> ParseBool(left + word + right) == Some(true)
    ensures ToLower(word) in {"false", "0", "no"} ==> ParseBool(left + word + right) == Some(false)
    ensures ToLower(word) !in {"true", "1", "yes", "false", "0", "no"} ==> ParseBool(left + word + right) == None
  {
    TrimPadded(left, word, right, IsSpace);
    ParseBoolMeaning(left + word + right);
  }

  predicate IsDigit(c: char) {
    '0' <= c <= '9'
  }

  function DecimalValue(digits: string): nat {
    if digits == "" then 0
    else 10 * DecimalValue(digits[..|digits| - 1]) +
         (if IsDigit(digits[|digits| - 1]) then digits[|digits| - 1] as int - '0' as int else 0)
  }

  predicate AllDigits(digits: string) {
    forall i :: 0 <= i < |digits| ==> IsDigit(digits[i])
  }

  const MAX_INT := 0x7fff_ffff_ffff_ffff
  const MIN_INT := -0x8000_0000_0000_0000

  // strconv.Atoi on a 64-bit platform: an optional sign, then decimal digits, within range.
  function Atoi(s: string): (r: Option<int>)
    ensures r.Some? ==> MIN_INT <= r.value <= MAX_INT
  {
    var signed := s != "" && (s[0] == '-' || s[0] == '+');
    var digits := if signed then s[1..] else s;
    if digits == "" || !AllDigits(digits) then None
    else
      var magnitude: int := DecimalValue(digits);
      var value := if signed && s[0] == '-' then -magnitude else magnitude;
      if MIN_INT <= value <= MAX_INT then Some(value) else None
  }

  // The decimal notation of a number, as a label spells it.
  function Decimal(n: nat): string {
    if n < 10 then [('0' as int + n) as char] else Decimal(n / 10) + [('0' as int + n % 10) as char]
  }

  lemma {:induction false} DecimalRoundTrip(n: nat)
    ensures DecimalValue(Decimal(n)) == n
    ensures Decimal(n) != "" && forall i :: 0 <= i < |Decimal(n)| ==> IsDigit(Decimal(n)[i])
  {
    if n < 10 {
      assert Decimal(n)[..0] == "";
    } else {
      DecimalRoundTrip(n / 10);
      assert Decimal(n)[..|Decimal(n)| - 1] == Decimal(n / 10);
    }
  }

  // Atoi reads back every 64-bit number, with or without a sign, and refuses everything larger.
  lemma AtoiReadsDecimal(n: nat)
    ensures Atoi(Decimal(n)) == Atoi("+" + Decimal(n)) == if n <= 0x7fff_ffff_ffff_ffff then Some(n) else None
    ensures Atoi("-" + Decimal(n)) == if n <= 0x8000_0000_0000_0000 then Some(-(n as int)) else None
  {
    DecimalRoundTrip(n);
    var d := Decimal(n);
    assert IsDigit(d[0]);
    assert ("+" + d)[1..] == d && ("-" + d)[1..] == d;
  }

  // And it refuses whatever is not a sign and digits.
  lemma AtoiRefuses(s: string)
    requires var digits := if s != "" && (s[0] == '-' || s[0] == '+') then s[1..] else s;
             digits == "" || exists i :: 0 <= i < |digits| && !('0' <= digits[i] <= '9')
    ensures Atoi(s) == None
  {
    var digits := if s != "" && (s[0] == '-' || s[0] == '+') then s[1..] else s;
    if digits != "" {
      var i :| 0 <= i < |digits| && !('0' <= digits[i] <= '9');
      assert !IsDigit(digits[i]);
    }
  }

  function ParsePort(v: string): Option<int> {
    match Atoi(TrimSpace(v))
    case Some(n) => if n > 0 then Some(n) else None
    case None => None
  }

  function ParsePriority(v: string): Option<int> {
    Atoi(TrimSpace(v))
  }

  // A port label has to be positive; a priority label may be any 64-bit number.
  lemma NumberLabelsRead(left: string, n: nat, right: string)
    requires forall i :: 0 <= i < |left| ==> IsSpace(left[i])
    requires forall i :: 0 <= i < |right| ==> IsSpace(right[i])
    ensures ParsePort(left + Decimal(n) + right) == if 0 < n <= MAX_INT then Some(n) else None
    ensures ParsePort(left + ("-" + Decimal(n)) + right) == None
    ensures ParsePriority(left + Decimal(n) + right) == if n <= MAX_INT then Some(n) else None
    ensures ParsePriority(left + ("-" + Decimal(n)) + right) == if n <= MAX_INT + 1 then Some(-(n as int)) else None
  {
    DecimalRoundTrip(n);
    AtoiReadsDecimal(n);
    var d := Decimal(n);
    assert IsDigit(d[0]) && IsDigit(d[|d| - 1]);
    TrimPadded(left, d, right, IsSpace);
    TrimPadded(left, "-" + d, right, IsSpace);
    hide Atoi, Decimal;
  }

  // ----- Labels -----

  function BadLabelWarning(c: Container, field: string, value: string): Warning {
    Warning("invalid_label", "ignored malformed label value", StrippedName(c.name), field, "warning", value)
  }

  // The value a parsed label sets, over what was there before.
  function Parsed<T>(labels: map<string, string>, key: string, parse: string -> Option<T>,
                     before: Option<T>): Option<T> {
    if key in labels && parse(labels[key]).Some? then parse(labels[key]) else before
  }

  function Complaint<T(!new)>(c: Container, key: string, parse: string -> Option<T>): seq<Warning> {
    if key in c.labels && parse(c.labels[key]).None? then [BadLabelWarning(c, key, c.labels[key])] else []
  }

  function ParseScheme(v: string): Option<string> {
    if v == "http" || v == "https" then Some(v) else None
  }

  function NonEmptyTrimmed(parts: seq<string>): seq<string> {
    if parts == [] then []
    else
      var d := TrimSpace(parts[|parts| - 1]);
      NonEmptyTrimmed(parts[..|parts| - 1]) + if d != "" then [d] else []
  }

  // What is collected is the trimmed parts that are not empty.
  lemma {:induction false} CollectedMeaning(parts: seq<string>, d: string)
    ensures d in NonEmptyTrimmed(parts) <==> d != "" && exists p :: p in parts && TrimSpace(p) == d
  {
    if parts != [] {
      CollectedMeaning(parts[..|parts| - 1], d);
      hide TrimSpace;
      assert parts == parts[..|parts| - 1] + [parts[|parts| - 1]];
    }
  }

  // They keep the order of the parts.
  lemma {:induction false} CollectedInOrder(a: seq<string>, b: seq<string>)
    ensures NonEmptyTrimmed(a + b) == NonEmptyTrimmed(a) + NonEmptyTrimmed(b)
  {
    if b == [] {
      assert a + b == a;
    } else {
      var n := |b| - 1;
      assert (a + b)[..|a + b| - 1] == a + b[..n];
      CollectedInOrder(a, b[..n]);
    }
  }

  // A list of domains survives being written into one label, separated by commas.
  lemma LabelDomainsRoundTrip(domains: seq<string>)
    requires domains != []
    requires forall d :: d in domains ==> d != "" && ',' !in d && CleanEnds(d, IsSpace)
    ensures LabelDomains(Join(domains, ',')) == domains
  {
    SplitJoin(domains, ',');
    assert domains[0] in domains;
    forall i | 0 <= i < |domains| ensures domains[i] != "" && TrimSpace(domains[i]) == domains[i] {
      assert domains[i] in domains;
      TrimKeeps(domains[i], IsSpace);
    }
    CleanPartsCollected(domains);
  }

  lemma {:induction false} CleanPartsCollected(parts: seq<string>)
    requires forall i :: 0 <= i < |parts| ==> parts[i] != "" && TrimSpace(parts[i]) == parts[i]
    ensures NonEmptyTrimmed(parts) == parts
  {
    hide TrimSpace;
    if parts != [] {
      CleanPartsCollected(parts[..|parts| - 1]);
    }
  }

  function LabelDomains(v: string): seq<string> {
    if v == "" then [] else NonEmptyTrimmed(Split(v, ','))
  }

  function SchemeOption(labels: map<string, string>, before: Option<string>): Option<string> {
    var scheme := TrimSpace(Label(labels, SCHEME_LABEL));
    if ParseScheme(scheme).Some? then Some(scheme) else before
  }

  function DomainOption(labels: map<string, string>, before: Option<string>): Option<string> {
    var domain := TrimSpace(Label(labels, DOMAIN_LABEL));
    if domain != "" then Some(domain) else before
  }

  // What the labels turn a base of options into.
  function LabelOptions(base: RouteOptions, labels: map<string, string>): RouteOptions {
    RouteOptions(
      Parsed(labels, ENABLE_LABEL, ParseBool, base.enabled),
      DomainOption(labels, base.domain),
      base.domains + LabelDomains(TrimSpace(Label(labels, DOMAINS_LABEL))),
      Parsed(labels, ROOT_LABEL, ParseBool, base.root),
      Parsed(labels, PORT_LABEL, ParsePort, base.port),
      SchemeOption(labels, base.scheme),
      Parsed(labels, PRIORITY_LABEL, ParsePriority, base.priority))
  }

  function SchemeComplaint(c: Container): seq<Warning> {
    var scheme := TrimSpace(Label(c.labels, SCHEME_LABEL));
    if scheme != "" && ParseScheme(scheme).None? then [BadLabelWarning(c, SCHEME_LABEL, scheme)] else []
  }

  // One warning per malformed label, and none for the well-formed ones.
  function LabelWarnings(c: Container): seq<Warning> {
    Complaint(c, ENABLE_LABEL, ParseBool) + Complaint(c, ROOT_LABEL, ParseBool)
    + Complaint(c, PORT_LABEL, ParsePort) + SchemeComplaint(c)
    + Complaint(c, PRIORITY_LABEL, ParsePriority)
  }

  predicate Malformed<T(!new)>(labels: map<string, string>, key: string, parse: string -> Option<T>) {
    key in labels && parse(labels[key]).None?
  }

  // A container is warned about exactly when one of its labels is malformed, always by name.
  lemma WarnsIffMalformed(c: Container)
    ensures LabelWarnings(c) != [] <==>
            || Malformed(c.labels, ENABLE_LABEL, ParseBool) || Malformed(c.labels, ROOT_LABEL, ParseBool)
            || Malformed(c.labels, PORT_LABEL, ParsePort) || Malformed(c.labels, PRIORITY_LABEL, ParsePriority)
            || (var scheme := TrimSpace(Label(c.labels, SCHEME_LABEL));
                scheme != "" && scheme != "http" && scheme != "https")
    ensures forall w :: w in LabelWarnings(c) ==> w.container == StrippedName(c.name) && w.severity == "warning"
  {
    hide ParseBool, ParsePort, ParsePriority, TrimSpace, StrippedName;
  }

  // ----- Which label feeds which field -----

  const LABEL_KEYS := [ENABLE_LABEL, DOMAIN_LABEL, DOMAINS_LABEL, ROOT_LABEL, PORT_LABEL, SCHEME_LABEL, PRIORITY_LABEL]

  lemma LabelKeys()
    ensures LABEL_KEYS == ["devproxy.enable", "devproxy.domain", "devproxy.domains", "devproxy.root", "devproxy.port",
                           "devproxy.scheme", "devproxy.priority"]
    ensures forall i, j :: 0 <= i < j < 7 ==> LABEL_KEYS[i] != LABEL_KEYS[j]
  {
    assert ENABLE_LABEL[9] == 'e' && DOMAIN_LABEL[9] == 'd' && |DOMAINS_LABEL| == |DOMAIN_LABEL| + 1
           && DOMAINS_LABEL[9] == 'd' && ROOT_LABEL[9] == 'r' && PORT_LABEL[9] == 'p' && PORT_LABEL[10] == 'o'
           && SCHEME_LABEL[9] == 's' && PRIORITY_LABEL[9] == 'p' && PRIORITY_LABEL[10] == 'r';
  }

  lemma LabelAfter(labels: map<string, string>, key: string, v: string, field: string)
    ensures Label(labels[key := v], field) == if key == field then v else Label(labels, field)
  {
  }

  lemma ParsedAfter<T>(labels: map<string, string>, key: string, v: string, field: string, parse: string -> Option<T>,
                       before: Option<T>)
    ensures Parsed(labels[key := v], field, parse, before) ==
            if key != field then Parsed(labels, field, parse, before)
            else if parse(v).Some? then parse(v) else before
  {
  }

  // Setting one label sets one field, to what the label says when it is well formed and to the
  // base otherwise; a label with any other key sets none.
  lemma OneLabelOneField(base: RouteOptions, labels: map<string, string>, key: string, v: string)
    ensures var a, b := LabelOptions(base, labels), LabelOptions(base, labels[key := v]);
            && (key == "devproxy.enable" ==> b == a.(enabled := Over(ParseBool(v), base.enabled)))
            && (key == "devproxy.domain" ==>
                  b == a.(domain := if TrimSpace(v) != "" then Some(TrimSpace(v)) else base.domain))
            && (key == "devproxy.domains" ==> b == a.(domains := base.domains + LabelDomains(TrimSpace(v))))
            && (key == "devproxy.root" ==> b == a.(root := Over(ParseBool(v), base.root)))
            && (key == "devproxy.port" ==> b == a.(port := Over(ParsePort(v), base.port)))
            && (key == "devproxy.scheme" ==>
                  b == a.(scheme := if TrimSpace(v) in {"http", "https"} then Some(TrimSpace(v)) else base.scheme))
            && (key == "devproxy.priority" ==> b == a.(priority := Over(ParsePriority(v), base.priority)))
            && (key !in LABEL_KEYS ==> b == a)
  {
    LabelKeys();
    OtherFields(base, labels, key, v);
    hide Parsed, Label, ParseBool, ParsePort, ParsePriority, TrimSpace, LabelDomains;
  }

  lemma OtherFields(base: RouteOptions, labels: map<string, string>, key: string, v: string)
    ensures var a, b := LabelOptions(base, labels), LabelOptions(base, labels[key := v]);
            && b.enabled == (if key == ENABLE_LABEL then Over(ParseBool(v), base.enabled) else a.enabled)
            && b.root == (if key == ROOT_LABEL then Over(ParseBool(v), base.root) else a.root)
            && b.port == (if key == PORT_LABEL then Over(ParsePort(v), base.port) else a.port)
            && b.priority == (if key == PRIORITY_LABEL then Over(ParsePriority(v), base.priority) else a.priority)
            && b.domain == (if key != DOMAIN_LABEL then a.domain
                            else if TrimSpace(v) != "" then Some(TrimSpace(v)) else base.domain)
            && b.domains == (if key == DOMAINS_LABEL then base.domains + LabelDomains(TrimSpace(v)) else a.domains)
            && b.scheme == (if key != SCHEME_LABEL then a.scheme
                            else if TrimSpace(v) in {"http", "https"} then Some(TrimSpace(v)) else base.scheme)
  {
    ParsedAfter(labels, key, v, ENABLE_LABEL, ParseBool, base.enabled);
    ParsedAfter(labels, key, v, ROOT_LABEL, ParseBool, base.root);
    ParsedAfter(labels, key, v, PORT_LABEL, ParsePort, base.port);
    ParsedAfter(labels, key, v, PRIORITY_LABEL, ParsePriority, base.priority);
    LabelAfter(labels, key, v, DOMAIN_LABEL);
    LabelAfter(labels, key, v, DOMAINS_LABEL);
    LabelAfter(labels, key, v, SCHEME_LABEL);
    hide Parsed, Label, ParseBool, ParsePort, ParsePriority, TrimSpace, LabelDomains;
  }

  // Without any label there is nothing but the base.
  lemma NoLabels(base: RouteOptions)
    ensures LabelOptions(base, map[]) == base
  {
    TrimKeeps("", IsSpace);
  }

  // The warnings about labels: one for each malformed label, with its key and its value.
  lemma LabelWarningsMeaning(c: Container, w: Warning)
    ensures w in LabelWarnings(c) <==>
            && w == Warning("invalid_label", "ignored malformed label value", StrippedName(c.name), w.field, "warning",
                            if w.field != "devproxy.scheme" then Label(c.labels, w.field)
                            else TrimSpace(Label(c.labels, w.field)))
            && (|| (w.field == "devproxy.enable" && Malformed(c.labels, w.field, ParseBool))
                || (w.field == "devproxy.root" && Malformed(c.labels, w.field, ParseBool))
                || (w.field == "devproxy.port" && Malformed(c.labels, w.field, ParsePort))
                || (w.field == "devproxy.priority" && Malformed(c.labels, w.field, ParsePriority))
                || (w.field == "devproxy.scheme" && TrimSpace(Label(c.labels, w.field)) !in {"", "http", "https"}))
  {
    LabelKeys();
    hide ParseBool, ParsePort, ParsePriority, TrimSpace, StrippedName;
  }

  ghost function WarningRank(w: Warning): int {
    if w.field == ENABLE_LABEL then 0
    else if w.field == ROOT_LABEL then 1
    else if w.field == PORT_LABEL then 2
    else if w.field == SCHEME_LABEL then 3
    else 4
  }

  // They come in the order enable, root, port, scheme, priority, each at most once.
  lemma LabelWarningsOrdered(c: Container)
    ensures forall i, j :: 0 <= i < j < |LabelWarnings(c)| ==>
              WarningRank(LabelWarnings(c)[i]) < WarningRank(LabelWarnings(c)[j])
  {
    LabelKeys();
    hide ParseBool, ParsePort, ParsePriority, TrimSpace, StrippedName;
    assert forall i, j :: 0 <= i < j < 7 ==> LABEL_KEYS[i] != LABEL_KEYS[j];
    assert ENABLE_LABEL == LABEL_KEYS[0] && ROOT_LABEL == LABEL_KEYS[3] && PORT_LABEL == LABEL_KEYS[4]
           && SCHEME_LABEL == LABEL_KEYS[5] && PRIORITY_LABEL == LABEL_KEYS[6];
  }

  method ApplyLabelFields(base: RouteOptions, c: Container, warnings: seq<Warning>)
    returns (result: RouteOptions, out: seq<Warning>)
    ensures result == LabelOptions(base, c.labels)
    ensures out == warnings + LabelWarnings(c)
  {
    result, out := base, warnings;
    var labels := c.labels;
    var enabled, root, port, priority;
    enabled, out := ApplyParsed(c, ENABLE_LABEL, ParseBool, result.enabled, out);
    result := result.(enabled := enabled);
    var domain := TrimSpace(Label(labels, DOMAIN_LABEL));
    if domain != "" {
      result := result.(domain := Some(domain));
    }
    var domains := TrimSpace(Label(labels, DOMAINS_LABEL));
    if domains != "" {
      var extra := CollectDomains(Split(domains, ','));
      result := result.(domains := result.domains + extra);
    }
    root, out := ApplyParsed(c, ROOT_LABEL, ParseBool, result.root, out);
    result := result.(root := root);
    port, out := ApplyParsed(c, PORT_LABEL, ParsePort, result.port, out);
    result := result.(port := port);
    var scheme, complaint := ApplyScheme(c, result.scheme);
    result, out := result.(scheme := scheme), out + complaint;
    priority, out := ApplyParsed(c, PRIORITY_LABEL, ParsePriority, result.priority, out);
    result := result.(priority := priority);
    Regroup(warnings, Complaint(c, ENABLE_LABEL, ParseBool), Complaint(c, ROOT_LABEL, ParseBool),
            Complaint(c, PORT_LABEL, ParsePort), SchemeComplaint(c), Complaint(c, PRIORITY_LABEL, ParsePriority));
  }

  lemma Regroup<T>(w: seq<T>, a: seq<T>, b: seq<T>, c: seq<T>, d: seq<T>, e: seq<T>)
    ensures w + a + b + c + d + e == w + (a + b + c + d + e)
  {
  }

  method ApplyScheme(c: Container, before: Option<string>) returns (value: Option<string>, complaint: seq<Warning>)
    ensures value == SchemeOption(c.labels, before)
    ensures complaint == SchemeComplaint(c)
  {
    value, complaint := before, [];
    var scheme := TrimSpace(Label(c.labels, SCHEME_LABEL));
    if scheme != "" {
      if scheme == "http" || scheme == "https" {
        value := Some(scheme);
      } else {
        complaint := [BadLabelWarning(c, SCHEME_LABEL, scheme)];
      }
    }
  }

  // The step that the source repeats for each label whose value has to parse.
  method ApplyParsed<T(!new)>(c: Container, key: string, parse: string -> Option<T>, before: Option<T>,
                              warnings: seq<Warning>)
    returns (value: Option<T>, out: seq<Warning>)
    ensures value == Parsed(c.labels, key, parse, before)
    ensures out == warnings + Complaint(c, key, parse)
  {
    value, out := before, warnings;
    if key in c.labels {
      var parsed := parse(c.labels[key]);
      if parsed.Some? {
        value := parsed;
      } else {
        out := out + [BadLabelWarning(c, key, c.labels[key])];
      }
    }
  }

  method CollectDomains(parts: seq<string>) returns (out: seq<string>)
    ensures out == NonEmptyTrimmed(parts)
  {
    out := [];
    for i := 0 to |parts|
      invariant out == NonEmptyTrimmed(parts[..i])
    {
      assert parts[..i + 1][..i] == parts[..i];
      var d := TrimSpace(parts[i]);
      if d != "" {
        out := out + [d];
      }
    }
    assert parts[..|parts|] == parts;
  }

  // ----- Eligibility -----

  datatype CandidateInput = CandidateInput(service: string, running: bool, enabledLabel: Option<bool>,
                                           disabledLabel: Option<bool>, publishedTcpPorts: seq<int>)

  method IsEligible(input: CandidateInput, ignoredServices: seq<string>, ignoredPorts: seq<int>) returns (ok: bool)
    ensures ok <==>
            && input.running && input.publishedTcpPorts != [] && input.disabledLabel != Some(true)
            && (input.enabledLabel == Some(true)
                || (input.service !in ignoredServices
                    && exists p :: p in input.publishedTcpPorts && p !in ignoredPorts))
  {
    if !input.running || |input.publishedTcpPorts| == 0 {
      return false;
    }
    if input.disabledLabel == Some(true) {
      return false;
    }
    if input.enabledLabel == Some(true) {
      return true;
    }
    if input.service in ignoredServices {
      return false;
    }
    var allIgnored := true;
    for i := 0 to |input.publishedTcpPorts|
      invariant allIgnored
      invariant forall k :: 0 <= k < i ==> input.publishedTcpPorts[k] in ignoredPorts
    {
      if input.publishedTcpPorts[i] !in ignoredPorts {
        allIgnored := false;
        var p := input.publishedTcpPorts[i];
        assert p in input.publishedTcpPorts && p !in ignoredPorts;
        break;
      }
    }
    assert allIgnored ==> forall p :: p in input.publishedTcpPorts ==> p in ignoredPorts;
    return !allIgnored;
  }
}
