/** What normalizing an asset achieves: when a second time changes nothing, and when a given address makes it fail. */
module AssetNormalization {
  import opened AssetKeys
  import opened Base
  import opened Text

  // ---------------------------------------------------------------- filling in twice

  /** The host is an IP address that also passes as a domain, and the asset tells neither address nor domain. */
  predicate AddressReadAsDomain(r: NetRules, d: Details) {
    && HostURL(r, d).Some? && d.ip == "" && d.domain == ""
    && var hostname := Hostname(HostURL(r, d).value);
       r.parseIP(hostname) && r.toASCII(hostname).Some? && r.toASCII(hostname).value != ""
  }

  /**
   * Filling in is there so that all clients end with the same key, whether they fill fields in themselves or not.
   * Filling in twice is filling in once exactly if the host is not an address that is then read as a domain.
   */
  lemma FillTwiceIff(r: NetRules, d: Details)
    requires !r.parseIP("")
    ensures FillFromURL(r, FillFromURL(r, d)) == FillFromURL(r, d) <==> !AddressReadAsDomain(r, d)
  {
    if HostURL(r, d).Some? {
      var u := HostURL(r, d).value;
      FillTargetTwiceIff(r, d, Hostname(u));
      hide Hostname, FillTarget, IndexOf;
      ServiceBesideTarget(r, FillTarget(r, d, Hostname(u)), Hostname(u), u);
    }
  }

  lemma FillTargetTwiceIff(r: NetRules, d: Details, hostname: string)
    requires !r.parseIP("")
    ensures FillTarget(r, FillTarget(r, d, hostname), hostname) == FillTarget(r, d, hostname)
            <==> !(d.ip == "" && d.domain == "" && r.parseIP(hostname)
                   && r.toASCII(hostname).Some? && r.toASCII(hostname).value != "")
  {
    if r.toASCII(hostname).Some? {
      AsciiNonEmpty(r.toASCII(hostname).value);
    }
  }

  /** Protocol and port are filled in once and for all, independent of address and domain. */
  lemma ServiceBesideTarget(r: NetRules, d: Details, hostname: string, u: URL)
    ensures FillService(r, d, u).host == d.host
    ensures FillService(r, FillTarget(r, FillService(r, d, u), hostname), u) == FillService(r, d, u)
            <==> FillTarget(r, d, hostname) == d
  {
    hide LowerAscii;
    var protocol := if d.protocol == "" then LowerAscii(u.scheme) else d.protocol;
    var port := FillService(r, d, u).port;
    assert FillService(r, d, u) == d.(protocol := protocol, port := port);
    var e := FillTarget(r, d.(protocol := protocol, port := port), hostname);
    assert FillService(r, e, u) == e;
  }

  // ---------------------------------------------------------------- normalized text stays as it is

  /** Addresses, ASCII domains and URL schemes have no white space around them, and addresses no dot behind them. */
  ghost predicate Tidy(r: NetRules) {
    && !r.parseIP("")
    && (forall s | r.parseIP(s) :: TrimSpace(s) == s && TrimDot(s) == s)
    && (forall s | r.toASCII(s).Some? :: TrimSpace(r.toASCII(s).value) == r.toASCII(s).value)
    && (forall s | r.parseURL(s).Some? :: TrimSpace(r.parseURL(s).value.scheme) == r.parseURL(s).value.scheme)
  }

  lemma LowerTwice(s: string)
    ensures LowerAscii(LowerAscii(s)) == LowerAscii(s)
  {
  }

  lemma LowerKeepsSpace(s: string)
    ensures AllSpace(s) ==> AllSpace(LowerAscii(s))
    ensures forall i | 0 <= i < |s| :: IsSpace(LowerAscii(s)[i]) <==> IsSpace(s[i])
  {
  }

  /** Trimming and lower-casing can be done in either order. */
  lemma TrimLower(s: string)
    ensures TrimSpace(LowerAscii(s)) == LowerAscii(TrimSpace(s))
  {
    var left, right := TrimParts(s);
    var t := TrimSpace(s);
    LowerKeepsSpace(left);
    LowerKeepsSpace(right);
    LowerKeepsSpace(t);
    hide TrimSpace, IsSpace;
    assert LowerAscii(s) == LowerAscii(left) + LowerAscii(t) + LowerAscii(right);
    TrimIs(LowerAscii(left), LowerAscii(t), LowerAscii(right));
  }

  lemma LowerTrimTwice(s: string)
    ensures LowerTrim(LowerTrim(s)) == LowerTrim(s)
  {
    hide TrimSpace, LowerAscii;
    TrimTwice(s);
    TrimLower(TrimSpace(s));
    LowerTwice(TrimSpace(s));
  }

  /** Trimmed text in lower case stays as it is. */
  lemma LowerTrimIdle(s: string)
    requires TrimSpace(s) == s
    ensures LowerTrim(LowerAscii(s)) == LowerAscii(s)
  {
    hide TrimSpace, LowerAscii;
    TrimLower(s);
    LowerTwice(s);
  }

  lemma {:induction false} CleanTagsIdle(tags: seq<string>)
    requires forall i | 0 <= i < |tags| :: tags[i] != "" && TrimSpace(tags[i]) == tags[i]
    requires forall i, j | 0 <= i < j < |tags| :: tags[i] != tags[j]
    ensures CleanTags(tags) == tags
  {
    hide TrimSpace;
    if tags != [] {
      CleanTagsIdle(tags[..|tags| - 1]);
    }
  }

  lemma CleanTagsTwice(tags: seq<string>)
    ensures CleanTags(CleanTags(tags)) == CleanTags(tags)
  {
    CleanTagsSound(tags);
    var clean := CleanTags(tags);
    hide TrimSpace, CleanTags;
    forall i | 0 <= i < |clean| ensures clean[i] != "" && TrimSpace(clean[i]) == clean[i] {
      assert clean[i] in clean;
      var j :| 0 <= j < |tags| && TrimSpace(tags[j]) == clean[i];
      TrimTwice(tags[j]);
    }
    CleanTagsIdle(clean);
  }

  lemma SourceTwice(source: string)
    ensures var s := TextOr(TrimSpace(source), "manual"); TextOr(TrimSpace(s), "manual") == s
  {
    TrimTwice(source);
    assert TrimSpace("manual") == "manual" by {
      TrimIs("", "manual", "");
      assert "" + "manual" + "" == "manual";
    }
    hide TrimSpace;
  }

  lemma StatusTwice(status: string)
    ensures var s := TextOr(LowerTrim(status), "active"); TextOr(LowerTrim(s), "active") == s
  {
    LowerTrimTwice(status);
    assert LowerTrim("active") == "active" by {
      TrimIs("", "active", "");
      assert "" + "active" + "" == "active";
    }
    hide LowerTrim;
  }

  lemma TrimDetailsTwice(d: Details)
    ensures TrimDetails(TrimDetails(d)) == TrimDetails(d)
  {
    hide TrimSpace, LowerTrim, CleanTags, TextOr;
    TrimTwice(d.host);
    TrimTwice(d.title);
    TrimTwice(d.server);
    TrimTwice(d.country);
    TrimTwice(d.province);
    TrimTwice(d.city);
    TrimTwice(d.responsiblePerson);
    TrimTwice(d.department);
    TrimTwice(d.businessSystem);
    TrimTwice(d.sourceQuery);
    LowerTrimTwice(d.ip);
    LowerTrimTwice(d.domain);
    LowerTrimTwice(d.protocol);
    LowerTrimTwice(d.environment);
    LowerTrimTwice(d.criticality);
    CleanTagsTwice(d.tags);
    SourceTwice(d.source);
    StatusTwice(d.status);
  }

  /** Trimmed details with other trimmed targets and protocols are trimmed. */
  lemma TrimDetailsIdle(d: Details, ip: string, port: int, domain: string, protocol: string)
    requires TrimDetails(d) == d
    requires LowerTrim(ip) == ip && LowerTrim(domain) == domain && LowerTrim(protocol) == protocol
    ensures var e := d.(ip := ip, port := port, domain := domain, protocol := protocol); TrimDetails(e) == e
  {
    hide TrimSpace, LowerTrim, CleanTags, TextOr;
  }

  lemma LowerTrimBlank()
    ensures LowerTrim("") == ""
  {
  }

  lemma {:induction false} BracketsLeftLower(s: string)
    requires LowerAscii(s) == s
    ensures LowerAscii(TrimBracketsLeft(s)) == TrimBracketsLeft(s)
    ensures TrimBracketsLeft(s) != "" ==> TrimBracketsLeft(s)[0] !in {'[', ']'}
  {
    if s != "" && s[0] in {'[', ']'} {
      LowerTail(s);
      BracketsLeftLower(s[1..]);
    }
  }

  lemma LowerTail(s: string)
    requires LowerAscii(s) == s && s != ""
    ensures LowerAscii(s[1..]) == s[1..] && LowerAscii(s[..|s| - 1]) == s[..|s| - 1]
  {
    assert forall i | 0 <= i < |s| :: Lower(s[i]) == LowerAscii(s)[i];
  }

  lemma {:induction false} BracketsRightLower(s: string)
    requires LowerAscii(s) == s
    ensures var t := TrimBracketsRight(s);
            && LowerAscii(t) == t && (t != "" ==> t[0] == s[0] && t[|t| - 1] !in {'[', ']'} && s != "")
  {
    if s != "" && s[|s| - 1] in {'[', ']'} {
      LowerTail(s);
      BracketsRightLower(s[..|s| - 1]);
    }
  }

  /** The name of the host is in lower case, without brackets around it. */
  lemma HostnameShape(u: URL)
    ensures LowerAscii(Hostname(u)) == Hostname(u) && TrimBrackets(Hostname(u)) == Hostname(u)
  {
    var lower := LowerAscii(u.hostname);
    LowerTwice(u.hostname);
    BracketsLeftLower(lower);
    BracketsRightLower(TrimBracketsLeft(lower));
  }

  predicate TargetTrimmed(d: Details) {
    LowerTrim(d.ip) == d.ip && LowerTrim(d.domain) == d.domain && LowerTrim(d.protocol) == d.protocol
  }

  lemma TrimmedTarget(d: Details)
    requires TrimDetails(d) == d
    ensures TargetTrimmed(d)
  {
    hide TrimSpace, LowerTrim, CleanTags, TextOr;
  }

  /** The host name as an address, and as a domain, is trimmed. */
  lemma HostnameTrimmed(r: NetRules, u: URL)
    requires Tidy(r)
    ensures r.parseIP(Hostname(u)) ==> LowerTrim(Hostname(u)) == Hostname(u)
    ensures var a := r.toASCII(Hostname(u)); a.Some? ==> LowerTrim(LowerAscii(a.value)) == LowerAscii(a.value)
  {
    HostnameShape(u);
    hide LowerTrim, Hostname, TrimSpace;
    if r.parseIP(Hostname(u)) {
      LowerTrimIdle(Hostname(u));
    }
    if r.toASCII(Hostname(u)).Some? {
      LowerTrimIdle(r.toASCII(Hostname(u)).value);
    }
  }

  lemma ServiceTrimmed(r: NetRules, d: Details, u: URL)
    requires TargetTrimmed(d) && LowerTrim(LowerAscii(u.scheme)) == LowerAscii(u.scheme)
    ensures var f := FillService(r, d, u);
            f == d.(port := f.port, protocol := f.protocol) && TargetTrimmed(f)
  {
    hide LowerTrim, LowerAscii;
  }

  /** Filling in changes target, protocol and port alone, and the new texts are trimmed. */
  lemma FilledIsTrimmed(r: NetRules, t: Details)
    requires Tidy(r) && TargetTrimmed(t)
    ensures var f := FillFromURL(r, t);
            f == t.(ip := f.ip, port := f.port, domain := f.domain, protocol := f.protocol) && TargetTrimmed(f)
  {
    hide LowerTrim, LowerAscii, TrimSpace, Hostname, IndexOf, FillService, TrimDot;
    if HostURL(r, t).Some? {
      var u := HostURL(r, t).value;
      HostnameTrimmed(r, u);
      LowerTrimIdle(u.scheme);
      ServiceTrimmed(r, FillTarget(r, t, Hostname(u)), u);
    }
  }

  lemma CleanedTrimmed(r: NetRules, f: Details)
    requires Tidy(r) && TargetTrimmed(f)
    ensures TargetTrimmed(CleanImported(r, f))
  {
    LowerTrimBlank();
    hide LowerTrim, LowerAscii, TrimSpace, TrimBrackets, ProtocolOK, DomainOK, TrimDot, IsImported;
    if CheckedDomain(r, f.domain).Some? {
      LowerTrimIdle(r.toASCII(TrimDot(f.domain)).value);
    }
  }

  /** What filling in and cleaning leave is trimmed text. */
  lemma NormalizedIsTrimmed(r: NetRules, d: Details)
    requires Tidy(r)
    ensures TrimDetails(Normalize(r, d)) == Normalize(r, d)
  {
    hide Tidy, TargetTrimmed, FillFromURL, TrimDetails;
    var t := TrimDetails(d);
    var f, n := FillFromURL(r, t), Normalize(r, d);
    TrimDetailsTwice(d);
    TrimmedTarget(t);
    FilledIsTrimmed(r, t);
    CleanedTrimmed(r, f);
    CleanedShape(r, f);
    TargetIdle(t, n);
  }

  lemma CleanedShape(r: NetRules, f: Details)
    ensures var n := CleanImported(r, f); n == f.(ip := n.ip, domain := n.domain, protocol := n.protocol)
  {
    hide IsImported, CleanIP, CleanDomain, CleanProtocol;
  }

  lemma TargetIdle(t: Details, n: Details)
    requires TrimDetails(t) == t && TargetTrimmed(n)
    requires n == t.(ip := n.ip, port := n.port, domain := n.domain, protocol := n.protocol)
    ensures TrimDetails(n) == n
  {
    hide LowerTrim;
    TrimDetailsIdle(t, n.ip, n.port, n.domain, n.protocol);
  }

  // ---------------------------------------------------------------- normalizing twice

  function FillIP(r: NetRules, ip: string, hostname: string): string {
    if r.parseIP(hostname) && ip == "" then hostname else ip
  }

  function FillDomain(r: NetRules, ip: string, domain: string, hostname: string): string {
    if r.parseIP(hostname) && ip == "" then domain
    else if domain == "" && r.toASCII(hostname).Some? then LowerAscii(r.toASCII(hostname).value)
    else domain
  }

  function FillProtocol(protocol: string, u: URL): string {
    if protocol == "" then LowerAscii(u.scheme) else protocol
  }

  function FilledPort(r: NetRules, port: int, protocol: string, u: URL): int {
    if port != 0 then port
    else if u.port != "" then r.atoi(u.port)
    else if protocol == "https" then 443
    else if protocol == "http" then 80
    else 0
  }

  predicate IPFails(r: NetRules, ip: string) {
    ip != "" && !r.parseIP(TrimBrackets(ip))
  }

  predicate DomainFails(r: NetRules, domain: string) {
    domain != "" && CheckedDomain(r, domain).None?
  }

  predicate ProtocolFails(protocol: string) {
    protocol != "" && !ProtocolOK(protocol)
  }

  /** The host name has an ASCII form that passes as a domain. */
  predicate NameChecks(r: NetRules, hostname: string) {
    var ascii := r.toASCII(hostname);
    ascii.Some? && ascii.value != "" && CheckedDomain(r, LowerAscii(ascii.value)).Some?
  }

  /** The stored form of the domain is not its own stored form. */
  predicate DomainMoves(r: NetRules, domain: string) {
    && domain != "" && CheckedDomain(r, domain).Some?
    && CheckedDomain(r, CheckedDomain(r, domain).value) != CheckedDomain(r, domain)
  }

  lemma IPSettles(r: NetRules, ip: string, hostname: string)
    requires !r.parseIP("") && TrimBrackets(hostname) == hostname
    ensures var once := CleanIP(r, FillIP(r, ip, hostname));
            CleanIP(r, FillIP(r, once, hostname)) == once <==> !(IPFails(r, ip) && r.parseIP(hostname))
  {
    hide TrimBrackets;
  }

  /** A given domain that fails, or a host address read as the domain. */
  predicate DomainRead(r: NetRules, ip: string, domain: string, hostname: string) {
    NameChecks(r, hostname) && (DomainFails(r, domain) || (domain == "" && ip == "" && r.parseIP(hostname)))
  }

  lemma DomainSettles(r: NetRules, ip: string, domain: string, hostname: string)
    requires !r.parseIP("") && TrimBrackets(hostname) == hostname && !(IPFails(r, ip) && r.parseIP(hostname))
    ensures var onceIP := CleanIP(r, FillIP(r, ip, hostname));
            var once := CleanDomain(r, FillDomain(r, ip, domain, hostname));
            CleanDomain(r, FillDomain(r, onceIP, once, hostname)) == once
            <==> !DomainRead(r, ip, domain, hostname) && !DomainMoves(r, FillDomain(r, ip, domain, hostname))
  {
    var filled := FillDomain(r, ip, domain, hostname);
    if CheckedDomain(r, filled).Some? {
      DomainNonEmpty(r, filled);
      if CheckedDomain(r, CheckedDomain(r, filled).value).Some? {
        DomainNonEmpty(r, CheckedDomain(r, filled).value);
      }
    }
    if r.toASCII(hostname).Some? {
      AsciiNonEmpty(r.toASCII(hostname).value);
      if CheckedDomain(r, LowerAscii(r.toASCII(hostname).value)).Some? {
        DomainNonEmpty(r, LowerAscii(r.toASCII(hostname).value));
      }
    }
    hide TrimBrackets, CheckedDomain, LowerAscii;
  }

  lemma ServiceSettles(r: NetRules, protocol: string, port: int, u: URL)
    ensures var once := CleanProtocol(FillProtocol(protocol, u));
            var oncePort := FilledPort(r, port, FillProtocol(protocol, u), u);
            (&& CleanProtocol(FillProtocol(once, u)) == once
             && FilledPort(r, oncePort, FillProtocol(once, u), u) == oncePort)
            <==> !(ProtocolFails(protocol) && ProtocolOK(LowerAscii(u.scheme)))
  {
    hide LowerAscii;
  }

  lemma FillParts(r: NetRules, d: Details, u: URL)
    requires HostURL(r, d) == Some(u)
    ensures var h, p := Hostname(u), FillProtocol(d.protocol, u);
            FillFromURL(r, d) == d.(ip := FillIP(r, d.ip, h), domain := FillDomain(r, d.ip, d.domain, h), protocol := p,
                                    port := FilledPort(r, d.port, p, u))
  {
    hide Hostname, LowerAscii, IndexOf;
  }

  /** Cleaning an imported asset uncovers something that filling in, had it come later, would take from the host. */
  predicate Unsettled(r: NetRules, t: Details) {
    match HostURL(r, t)
    case None => DomainMoves(r, t.domain)
    case Some(u) =>
      var h := Hostname(u);
      || (IPFails(r, t.ip) && r.parseIP(h))
      || (ProtocolFails(t.protocol) && ProtocolOK(LowerAscii(u.scheme)))
      || DomainRead(r, t.ip, t.domain, h)
      || DomainMoves(r, FillDomain(r, t.ip, t.domain, h))
  }

  function Again(r: NetRules, d: Details): Details {
    CleanImported(r, FillFromURL(r, d))
  }

  lemma AgainParts(r: NetRules, d: Details, u: URL)
    requires HostURL(r, d) == Some(u) && IsImported(d)
    ensures var h, p := Hostname(u), FillProtocol(d.protocol, u);
            Again(r, d) == d.(ip := CleanIP(r, FillIP(r, d.ip, h)),
                              domain := CleanDomain(r, FillDomain(r, d.ip, d.domain, h)),
                              protocol := CleanProtocol(p), port := FilledPort(r, d.port, p, u))
  {
    FillParts(r, d, u);
    hide Hostname, LowerAscii, IndexOf, CleanIP, CleanDomain, CleanProtocol,
      FillIP, FillDomain, FillProtocol, FilledPort,
      FillFromURL, HostURL;
  }

  lemma ImportedTwiceIff(r: NetRules, t: Details)
    requires !r.parseIP("") && IsImported(t)
    ensures Again(r, Again(r, t)) == Again(r, t) <==> !Unsettled(r, t)
  {
    match HostURL(r, t)
    case None => ImportedNoURL(r, t);
    case Some(u) => ImportedURL(r, t, u);
  }

  lemma ImportedNoURL(r: NetRules, t: Details)
    requires IsImported(t) && HostURL(r, t).None?
    ensures Again(r, Again(r, t)) == Again(r, t) <==> !DomainMoves(r, t.domain)
  {
    if CheckedDomain(r, t.domain).Some? {
      DomainNonEmpty(r, t.domain);
    }
    hide LowerAscii, IndexOf, CheckedDomain, ProtocolOK, TrimBrackets;
  }

  lemma ImportedURL(r: NetRules, t: Details, u: URL)
    requires !r.parseIP("") && IsImported(t) && HostURL(r, t) == Some(u)
    ensures Again(r, Again(r, t)) == Again(r, t) <==> !Unsettled(r, t)
  {
    var h := Hostname(u);
    HostnameShape(u);
    AgainParts(r, t, u);
    var n := Again(r, t);
    assert n.host == t.host && n.source == t.source;
    SameHost(r, t, n);
    hide Hostname, LowerAscii, HostURL, CleanIP, CleanDomain, CleanProtocol,
      FillIP, FillDomain, FillProtocol, FilledPort,
      Again, TrimBrackets, ProtocolOK, IPFails, ProtocolFails, DomainRead, DomainMoves;
    AgainParts(r, n, u);
    IPSettles(r, t.ip, h);
    ServiceSettles(r, t.protocol, t.port, u);
    if !(IPFails(r, t.ip) && r.parseIP(h)) {
      DomainSettles(r, t.ip, t.domain, h);
    }
  }

  lemma SameHost(r: NetRules, a: Details, b: Details)
    requires a.host == b.host && a.source == b.source
    ensures HostURL(r, a) == HostURL(r, b) && IsImported(a) == IsImported(b)
  {
  }

  /**
   * When normalizing is done with: a second time changes nothing exactly if, for an asset that is not imported, its
   * host is no address that is then read as a domain, and, for an imported one, cleaning uncovers nothing to fill in.
   */
  lemma NormalizeTwiceIff(r: NetRules, d: Details)
    requires Tidy(r)
    ensures var t := TrimDetails(d);
            Normalize(r, Normalize(r, d)) == Normalize(r, d)
            <==> if IsImported(t) then !Unsettled(r, t) else !AddressReadAsDomain(r, t)
  {
    var t := TrimDetails(d);
    NormalizedIsTrimmed(r, d);
    hide TrimDetails, Unsettled, AddressReadAsDomain;
    NormalizeIsAgain(r, d);
    NormalizeIsAgain(r, Normalize(r, d));
    if IsImported(t) {
      ImportedTwiceIff(r, t);
    } else {
      OtherTwice(r, t);
    }
  }

  lemma NormalizeIsAgain(r: NetRules, d: Details)
    ensures Normalize(r, d) == Again(r, TrimDetails(d))
  {
  }

  lemma OtherTwice(r: NetRules, t: Details)
    requires !r.parseIP("") && !IsImported(t)
    ensures Again(r, Again(r, t)) == Again(r, t) <==> !AddressReadAsDomain(r, t)
  {
    FillTwiceIff(r, t);
    SourceKept(r, t);
    hide FillFromURL, AddressReadAsDomain, LowerAscii;
  }

  lemma SourceKept(r: NetRules, d: Details)
    ensures FillFromURL(r, d).source == d.source && FillFromURL(r, d).host == d.host
  {
    hide LowerAscii, IndexOf, Hostname;
  }

  // ---------------------------------------------------------------- an address given together with its host

  /** An address that is its own ASCII form is no domain. */
  lemma OwnFormFails(r: NetRules, hostname: string)
    requires Tidy(r) && r.parseIP(hostname) && LowerAscii(hostname) == hostname && r.toASCII(hostname) == Some(hostname)
    ensures !NameChecks(r, hostname)
  {
    assert TrimSpace(hostname) == hostname && TrimDot(hostname) == hostname;
    hide TrimSpace, TrimDot, LowerAscii, LabelsOK;
    assert !DomainOK(r, hostname);
  }

  /** What the asset becomes with some address given, and with the address left out. */
  lemma AddressParts(r: NetRules, t: Details, u: URL, ip: string)
    requires HostURL(r, t) == Some(u) && t.ip == "" && t.domain == "" && r.parseIP(Hostname(u)) && !r.parseIP("")
    requires AddressReadAsDomain(r, t) && ip != ""
    ensures var h, p := Hostname(u), FillProtocol(t.protocol, u);
            var ascii := LowerAscii(r.toASCII(h).value);
            && h != "" && ascii != "" && (CheckedDomain(r, ascii).None? <==> !NameChecks(r, h)) && TrimBrackets(h) == h
            && t.host != ""
            && FillFromURL(r, t) == t.(ip := h, protocol := p, port := FilledPort(r, t.port, p, u))
            && FillFromURL(r, t.(ip := ip)) == FillFromURL(r, t).(ip := ip, domain := ascii)
  {
    var h := Hostname(u);
    HostnameShape(u);
    AsciiNonEmpty(r.toASCII(h).value);
    FillParts(r, t, u);
    FillParts(r, t.(ip := ip), u);
    hide Hostname, LowerAscii, IndexOf, TrimBrackets, CheckedDomain, FillFromURL, FilledPort, FillProtocol;
  }

  /** The domain read from the host, as normalizing leaves it. */
  function ReadDomain(r: NetRules, t: Details, hostname: string): string
    requires r.toASCII(hostname).Some?
  {
    var ascii := LowerAscii(r.toASCII(hostname).value);
    if IsImported(t) then CleanDomain(r, ascii) else ascii
  }

  /** The address given, as normalizing leaves it. */
  function GivenIP(r: NetRules, t: Details): string {
    if IsImported(t) then CleanIP(r, t.ip) else t.ip
  }

  /** Giving an address puts it in the place of the host's and adds the domain read from the host, and nothing else. */
  lemma AddressAddsDomain(r: NetRules, d: Details)
    requires Tidy(r) && AddressReadAsDomain(r, TrimDetails(d.(ip := ""))) && TrimDetails(d).ip != ""
    ensures var t := TrimDetails(d);
            var h := Hostname(HostURL(r, t).value);
            var n := Normalize(r, d.(ip := ""));
            && n.domain == "" && n.ip == h && n.host != ""
            && Normalize(r, d) == n.(ip := GivenIP(r, t), domain := ReadDomain(r, t, h))
  {
    var t := TrimDetails(d.(ip := ""));
    WithoutAddress(d);
    var u := HostURL(r, t).value;
    AddressParts(r, t, u, TrimDetails(d).ip);
    NormalizeIsAgain(r, d);
    NormalizeIsAgain(r, d.(ip := ""));
    var f, ascii := FillFromURL(r, t), LowerAscii(r.toASCII(Hostname(u)).value);
    CleanedWith(r, f, TrimDetails(d).ip, ascii);
    hide TrimDetails, FillFromURL, HostURL, Hostname, AddressReadAsDomain, NameChecks, LowerAscii,
      FilledPort, FillProtocol,
      TrimBrackets, CheckedDomain, Normalize, ProtocolOK;
  }

  lemma CleanedWith(r: NetRules, f: Details, ip: string, domain: string)
    ensures CleanImported(r, f.(ip := ip, domain := domain))
            == if IsImported(f) then CleanImported(r, f).(ip := CleanIP(r, ip), domain := CleanDomain(r, domain))
               else CleanImported(r, f).(ip := ip, domain := domain)
  {
    hide CleanIP, CleanDomain, CleanProtocol, IsImported;
    assert f.(ip := ip, domain := domain).source == f.source;
    assert IsImported(f.(ip := ip, domain := domain)) == IsImported(f) by {
      SameHost(r, f, f.(ip := ip, domain := domain));
    }
  }

  /**
   * An asset whose host is an address that also reads as a domain, accepted without an address, is refused with some
   * address given exactly if the domain read from the host fails, or the address does and is not cleaned away. If the
   * ASCII form of the host is no domain, that happens exactly if the asset is not imported, whatever the address.
   */
  lemma AddressGivenRefusedIff(r: NetRules, d: Details)
    requires Tidy(r) && AddressReadAsDomain(r, TrimDetails(d.(ip := ""))) && TrimDetails(d).ip != ""
    requires Validate(r, Normalize(r, d.(ip := ""))).Valid?
    ensures var t := TrimDetails(d);
            var h := Hostname(HostURL(r, t).value);
            var c := Validate(r, Normalize(r, d));
            && (c.Invalid? <==> DomainFails(r, ReadDomain(r, t, h)) || (IPFails(r, t.ip) && !IsImported(t)))
            && (c.Invalid? && !IPFails(r, t.ip) ==> c == Invalid(AssetError.BadDomain))
            && (!NameChecks(r, h)
                ==> && (c.Invalid? <==> !IsImported(t))
                    && (IsImported(t) && t.ip == h ==> Normalize(r, d) == Normalize(r, d.(ip := ""))))
  {
    var t := TrimDetails(d);
    var h := Hostname(HostURL(r, t).value);
    AddressAddsDomain(r, d);
    StoredLength(r, ReadDomain(r, t, h));
    ValidWithTarget(r, Normalize(r, d.(ip := "")), GivenIP(r, t), ReadDomain(r, t, h));
    WithoutAddress(d);
    AsciiNonEmpty(r.toASCII(h).value);
    HostnameShape(HostURL(r, t).value);
    hide TrimDetails, HostURL, Hostname, LowerAscii, CheckedDomain, Normalize, Tidy, Validate, TrimBrackets;
  }

  /** A valid asset with another address and domain is valid if those are. */
  lemma ValidWithTarget(r: NetRules, d: Details, ip: string, domain: string)
    requires Validate(r, d).Valid? && d.host != ""
    requires CheckedDomain(r, domain).Some? ==> |CheckedDomain(r, domain).value| <= 255
    ensures var c := Validate(r, d.(ip := ip, domain := domain));
            && (c.Invalid? <==> IPFails(r, ip) || (domain != "" && CheckedDomain(r, domain).None?))
            && (c.Invalid? && !IPFails(r, ip) ==> c == Invalid(AssetError.BadDomain))
  {
    hide CheckedDomain, ProtocolOK, TrimBrackets;
  }

  /** The asset leaves its domain open, its host URL has an ASCII form, and that is not taken for the address. */
  predicate ReadsDomain(r: NetRules, t: Details) {
    && HostURL(r, t).Some? && t.domain == ""
    && var h := Hostname(HostURL(r, t).value);
       !(r.parseIP(h) && t.ip == "") && r.toASCII(h).Some? && r.toASCII(h).value != ""
  }

  /**
   * Whatever else the asset tells, a domain read from its host makes it invalid exactly if that domain fails. By hand
   * every such asset is refused whose host name does not check as a domain; imported, it has no domain.
   */
  lemma ReadDomainRefusedIff(r: NetRules, d: Details)
    requires Tidy(r) && ReadsDomain(r, TrimDetails(d))
    ensures var t, n := TrimDetails(d), Normalize(r, d);
            var h := Hostname(HostURL(r, t).value);
            && n.domain == ReadDomain(r, t, h)
            && (Validate(r, n).Invalid? <==> DomainFails(r, n.domain) || Validate(r, n.(domain := "")).Invalid?)
            && (!NameChecks(r, h) ==> if IsImported(t) then n.domain == "" else Validate(r, n).Invalid?)
  {
    var t, n := TrimDetails(d), Normalize(r, d);
    var u := HostURL(r, t).value;
    var h := Hostname(u);
    NormalizeIsAgain(r, d);
    FillParts(r, t, u);
    AsciiNonEmpty(r.toASCII(h).value);
    SourceKept(r, t);
    CleanedShape(r, FillFromURL(r, t));
    hide TrimDetails, FillFromURL, Hostname, LowerAscii, FilledPort, FillProtocol, CheckedDomain, Normalize, ProtocolOK,
      TrimBrackets, IndexOf, CleanIP, CleanProtocol;
    assert n.host == t.host != "";
    StoredLength(r, n.domain);
    DomainAdded(r, n);
  }

  lemma DomainAdded(r: NetRules, n: Details)
    requires n.host != "" && (CheckedDomain(r, n.domain).Some? ==> |CheckedDomain(r, n.domain).value| <= 255)
    ensures Validate(r, n).Invalid? <==> DomainFails(r, n.domain) || Validate(r, n.(domain := "")).Invalid?
  {
    hide CheckedDomain, ProtocolOK, TrimBrackets;
  }

  lemma StoredLength(r: NetRules, domain: string)
    requires Tidy(r)
    ensures CheckedDomain(r, domain).Some? ==> |CheckedDomain(r, domain).value| <= 255
  {
    if CheckedDomain(r, domain).Some? {
      var ascii := r.toASCII(TrimDot(domain)).value;
      assert TrimSpace(ascii) == ascii;
      TrimLower(ascii);
      hide TrimSpace, LabelsOK;
      assert |LowerTrim(ascii)| == |ascii|;
    }
  }

  lemma WithoutAddress(d: Details)
    ensures TrimDetails(d.(ip := "")) == TrimDetails(d).(ip := "")
  {
    LowerTrimBlank();
    hide LowerTrim, TrimSpace, TextOr, CleanTags;
  }

  // ---------------------------------------------------------------- one such asset

  function Example(host: string, ip: string, source: string): Details {
    Details(None, host, ip, 0, "", "", "", "", "", "", "", "", "", "", "", "", source, "", "active", [])
  }

  /** The host is an http URL of the address, and all texts are written as they are stored. */
  ghost predicate PlainHost(r: NetRules, host: string, address: string, source: string) {
    && Tidy(r) && r.parseIP(address) && r.toASCII(address) == Some(address)
    && r.parseURL(host) == Some(URL("http", address, "", false)) && IndexOf(host, "://") >= 0
    && TrimSpace(host) == host && 0 < |host| <= 500
    && LowerAscii(address) == address && TrimBrackets(address) == address
    && source != "" && TrimSpace(source) == source
  }

  lemma Solid(s: string)
    requires s != "" ==> !IsSpace(s[0]) && !IsSpace(s[|s| - 1])
    ensures TrimSpace(s) == s
  {
    TrimIs("", s, "");
    assert "" + s + "" == s;
  }

  lemma ActiveStays()
    ensures LowerTrim("active") == "active" && LowerAscii("http") == "http" && ProtocolOK("http")
  {
    Solid("active");
    hide TrimSpace;
  }

  lemma ExampleTrimmed(r: NetRules, host: string, address: string, source: string)
    requires PlainHost(r, host, address, source)
    ensures TrimDetails(Example(host, "", source)) == Example(host, "", source)
    ensures TrimDetails(Example(host, address, source)) == Example(host, address, source)
  {
    ActiveStays();
    Solid("");
    LowerTrimBlank();
    hide IndexOf, LowerAscii, TrimBrackets;
    assert LowerTrim(address) == address;
    hide TrimSpace, LowerTrim, TrimDot;
  }

  lemma ExampleHost(r: NetRules, host: string, address: string, ip: string, source: string)
    requires PlainHost(r, host, address, source)
    ensures HostURL(r, Example(host, ip, source)) == Some(URL("http", address, "", false))
    ensures Hostname(URL("http", address, "", false)) == address
  {
    hide TrimSpace, IndexOf, LowerAscii, TrimBrackets, TrimDot;
    assert address != "";
  }

  /** Given its host alone the asset gets its address. */
  lemma ExampleNormal(r: NetRules, host: string, address: string, source: string)
    requires PlainHost(r, host, address, source)
    ensures Normalize(r, Example(host, "", source)) == Example(host, address, source).(protocol := "http", port := 80)
  {
    var d := Example(host, "", source);
    ExampleTrimmed(r, host, address, source);
    ExampleHost(r, host, address, "", source);
    NormalizeIsAgain(r, d);
    FillParts(r, d, URL("http", address, "", false));
    ActiveStays();
    hide TrimSpace, IndexOf, LowerAscii, TrimBrackets, TrimDot, ProtocolOK, TrimDetails, FillFromURL, Normalize,
      Hostname,
      HostURL, IsImported;
  }

  /** And is accepted. */
  lemma ExampleAccepted(r: NetRules, host: string, address: string, source: string)
    requires PlainHost(r, host, address, source)
    ensures Validate(r, Normalize(r, Example(host, "", source))).Valid?
  {
    ExampleNormal(r, host, address, source);
    ActiveStays();
    hide TrimSpace, IndexOf, LowerAscii, TrimBrackets, TrimDot, ProtocolOK, Normalize, CheckedDomain;
    assert |"http"| == 4;
  }

  lemma ExampleCase(r: NetRules, host: string, address: string, source: string)
    requires PlainHost(r, host, address, source)
    ensures Validate(r, Normalize(r, Example(host, "", source))).Valid?
    ensures var c := Validate(r, Normalize(r, Example(host, address, source)));
            if LowerAscii(source) == "imported" then c.Valid? else c == Invalid(AssetError.BadDomain)
  {
    ExampleAccepted(r, host, address, source);
    ExampleTrimmed(r, host, address, source);
    ExampleHost(r, host, address, "", source);
    ExampleHost(r, host, address, address, source);
    OwnFormFails(r, address);
    assert address != "";
    hide TrimDetails, HostURL, Hostname, Tidy, NameChecks, LowerAscii, Normalize, Validate, TrimSpace, IndexOf,
      TrimBrackets;
    assert Example(host, address, source).(ip := "") == Example(host, "", source);
    AddressGivenRefusedIff(r, Example(host, address, source));
  }

  /** Network libraries that know one address and one URL. */
  function OneHost(host: string, address: string): NetRules {
    NetRules(s => s == address, s => if s == address then Some(s) else None,
             s => if s == host then Some(URL("http", address, "", false)) else None, _ => 0)
  }

  lemma OneHostPlain(host: string, address: string, source: string)
    requires TrimSpace(address) == address && TrimDot(address) == address && address != ""
    requires IndexOf(host, "://") >= 0 && TrimSpace(host) == host && 0 < |host| <= 500
    requires LowerAscii(address) == address && TrimBrackets(address) == address
    requires source != "" && TrimSpace(source) == source
    ensures PlainHost(OneHost(host, address), host, address, source)
  {
    Solid("http");
    hide TrimSpace, TrimDot, IndexOf, LowerAscii, TrimBrackets;
  }

  lemma FourOctets()
    ensures var a := "1.2.3.4"; TrimSpace(a) == a && TrimDot(a) == a && LowerAscii(a) == a && TrimBrackets(a) == a
  {
    Solid("1.2.3.4");
    hide TrimSpace;
  }

  lemma FourOctetsHost()
    ensures IndexOf("http://1.2.3.4", "://") >= 0 && TrimSpace("http://1.2.3.4") == "http://1.2.3.4"
  {
    Solid("http://1.2.3.4");
    IndexFirst("http://1.2.3.4", "://");
    hide TrimSpace, IndexOf;
    assert OccursAt("http://1.2.3.4", "://", 4);
  }

  lemma Sources()
    ensures TrimSpace("manual") == "manual" && TrimSpace("imported") == "imported"
    ensures LowerAscii("imported") == "imported" && LowerAscii("manual") != "imported"
  {
    Solid("manual");
    Solid("imported");
    hide TrimSpace;
    assert |LowerAscii("manual")| == 6 && |"imported"| == 8;
  }

  /**
   * The host http://1.2.3.4 alone is accepted. With its address beside it, it is refused if it was entered by hand, and
   * accepted if it was imported.
   */
  lemma ExampleRefused()
    ensures var host, address := "http://1.2.3.4", "1.2.3.4";
            var r := OneHost(host, address);
            && Validate(r, Normalize(r, Example(host, "", "manual"))).Valid?
            && Validate(r, Normalize(r, Example(host, address, "manual"))) == Invalid(AssetError.BadDomain)
            && Validate(r, Normalize(r, Example(host, address, "imported"))).Valid?
  {
    FourOctets();
    FourOctetsHost();
    Sources();
    hide TrimSpace, TrimDot, IndexOf, LowerAscii, TrimBrackets, Validate, Normalize, OneHost, PlainHost;
    var host, address := "http://1.2.3.4", "1.2.3.4";
    OneHostPlain(host, address, "manual");
    OneHostPlain(host, address, "imported");
    ExampleCase(OneHost(host, address), host, address, "manual");
    ExampleCase(OneHost(host, address), host, address, "imported");
  }
}
