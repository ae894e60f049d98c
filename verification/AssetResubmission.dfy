/** An asset submitted again with the fields that were stored for it, as an editor does that changes nothing. */
module AssetResubmission {
  import opened AssetImport
  import opened AssetKeys
  import opened AssetNormalization
  import opened Base
  import opened RiskCache
  import opened Text

  /** The stored form of a domain is its own stored form. */
  ghost predicate Settled(r: NetRules) {
    forall s | CheckedDomain(r, s).Some? :: CheckedDomain(r, CheckedDomain(r, s).value) == CheckedDomain(r, s)
  }

  /** What the checks leave passes them again as it is. */
  lemma CheckedAgain(r: NetRules, n: Details)
    requires Settled(r) && Validate(r, n).Valid?
    ensures var e := Validate(r, n).details;
            && Validate(r, e) == Valid(e) && e == n.(domain := CleanDomain(r, n.domain))
            && (e.domain == "" <==> n.domain == "")
  {
    if n.domain != "" {
      DomainNonEmpty(r, n.domain);
    }
    hide CheckedDomain, ProtocolOK, TrimBrackets;
  }

  lemma StoredIsTrimmed(r: NetRules, d: Details)
    requires Tidy(r) && Settled(r) && Validate(r, Normalize(r, d)).Valid?
    ensures var e := Validate(r, Normalize(r, d)).details; TrimDetails(e) == e
  {
    var n := Normalize(r, d);
    NormalizedIsTrimmed(r, d);
    CheckedAgain(r, n);
    TrimmedTarget(n);
    if CheckedDomain(r, n.domain).Some? {
      LowerTrimIdle(r.toASCII(TrimDot(n.domain)).value);
    }
    LowerTrimBlank();
    hide LowerTrim, TrimDot, DomainOK, Normalize, Validate, LowerAscii;
    TrimDetailsIdle(n, n.ip, n.port, CleanDomain(r, n.domain), n.protocol);
  }

  /** A valid asset with other valid fields filled in is valid if its domain is. */
  lemma ValidFields(r: NetRules, e: Details, ip: string, port: int, domain: string, protocol: string)
    requires Validate(r, e).Valid? && e.host != ""
    requires !IPFails(r, ip) && 0 <= port <= 65535 && !ProtocolFails(protocol)
    requires CheckedDomain(r, domain).Some? ==> |CheckedDomain(r, domain).value| <= 255
    ensures Validate(r, e.(ip := ip, port := port, domain := domain, protocol := protocol)).Valid?
            <==> !DomainFails(r, domain)
  {
    hide CheckedDomain, TrimBrackets;
  }

  /** Without a host URL there is nothing to fill in, and nothing to clean. */
  lemma AgainWithoutURL(r: NetRules, e: Details)
    requires Settled(r) && Validate(r, e) == Valid(e) && HostURL(r, e).None?
    ensures Again(r, e) == e
  {
    hide CheckedDomain, ProtocolOK, TrimBrackets, HostURL, LowerAscii;
  }

  /** Port and protocol have been filled in from the URL before. */
  predicate ServiceFilled(r: NetRules, e: Details, u: URL) {
    && (e.port == 0 && u.port != "" ==> r.atoi(u.port) == 0)
    && (!IsImported(e) && e.protocol == "" ==> LowerAscii(u.scheme) == "")
  }

  /** Filled in a second time, a valid asset stays valid exactly if a domain read from its host does not fail. */
  lemma AgainWithURL(r: NetRules, e: Details, u: URL)
    requires Tidy(r) && Settled(r) && Validate(r, e) == Valid(e) && HostURL(r, e) == Some(u) && ServiceFilled(r, e, u)
    ensures Validate(r, Again(r, e)).Valid?
            <==> IsImported(e) || !DomainFails(r, FillDomain(r, e.ip, e.domain, Hostname(u)))
  {
    var h := Hostname(u);
    var ip, domain := FillIP(r, e.ip, h), FillDomain(r, e.ip, e.domain, h);
    var protocol := FillProtocol(e.protocol, u);
    var port := FilledPort(r, e.port, protocol, u);
    HostnameShape(u);
    FillParts(r, e, u);
    HostNotBlank(r, e);
    StoredLength(r, domain);
    StoredLength(r, CleanDomain(r, domain));
    hide Hostname, LowerAscii, CheckedDomain, ProtocolOK, TrimBrackets, HostURL, FillDomain, Tidy;
    if IsImported(e) {
      AgainParts(r, e, u);
      ValidFields(r, e, CleanIP(r, ip), port, CleanDomain(r, domain), CleanProtocol(protocol));
    } else {
      ValidFields(r, e, ip, port, domain, protocol);
    }
  }

  lemma HostNotBlank(r: NetRules, d: Details)
    requires HostURL(r, d).Some?
    ensures d.host != ""
  {
    hide IndexOf;
  }

  /** The host is an address that is read as a domain, and that domain fails. */
  predicate AddressFailsAsDomain(r: NetRules, t: Details) {
    AddressReadAsDomain(r, t) && !NameChecks(r, Hostname(HostURL(r, t).value))
  }

  /**
   * An asset that was accepted is accepted again with its own stored fields exactly if it is imported, or its host is
   * no address read as a domain that fails.
   */
  lemma AcceptedAgainIff(r: NetRules, d: Details)
    requires Tidy(r) && Settled(r) && Validate(r, Normalize(r, d)).Valid?
    ensures var e := Validate(r, Normalize(r, d)).details;
            Validate(r, Normalize(r, e)).Valid?
            <==> IsImported(TrimDetails(d)) || !AddressFailsAsDomain(r, TrimDetails(d))
  {
    var t, n := TrimDetails(d), Normalize(r, d);
    var e := Validate(r, n).details;
    StoredIsTrimmed(r, d);
    CheckedAgain(r, n);
    NormalizeIsAgain(r, d);
    NormalizeIsAgain(r, e);
    SourceKept(r, t);
    CleanedShape(r, FillFromURL(r, t));
    SameHost(r, t, e);
    match HostURL(r, t)
    case None =>
      hide HostURL, Validate, Normalize, TrimDetails, CheckedDomain;
      AgainWithoutURL(r, e);
    case Some(u) =>
      FirstTime(r, t, u);
      hide HostURL, Validate, Normalize, TrimDetails, CheckedDomain, Again;
      AgainWithURL(r, e, u);
  }

  /** What the first time leaves for the second. */
  lemma FirstTime(r: NetRules, t: Details, u: URL)
    requires Tidy(r) && Settled(r) && HostURL(r, t) == Some(u) && Validate(r, Again(r, t)).Valid?
    ensures var e := Validate(r, Again(r, t)).details;
            && ServiceFilled(r, e, u)
            && (!IsImported(t)
                ==> (DomainFails(r, FillDomain(r, e.ip, e.domain, Hostname(u))) <==> AddressFailsAsDomain(r, t)))
  {
    var n := Again(r, t);
    var e := Validate(r, n).details;
    CheckedAgain(r, n);
    ServiceFirst(r, t, u);
    if !IsImported(t) {
      FillParts(r, t, u);
      hide FillFromURL, Hostname, LowerAscii, CheckedDomain, FilledPort, FillProtocol, Validate, HostURL;
      DomainFirst(r, t, Hostname(u));
    }
  }

  lemma ServiceFirst(r: NetRules, t: Details, u: URL)
    requires HostURL(r, t) == Some(u)
    ensures ServiceFilled(r, Again(r, t), u)
  {
    SourceKept(r, t);
    hide Hostname, LowerAscii, HostURL, IndexOf, CleanIP, CleanDomain, ProtocolOK, FillIP, FillDomain;
    if IsImported(t) {
      AgainParts(r, t, u);
    } else {
      FillParts(r, t, u);
    }
  }

  /** A domain left open the first time is read the second time, if the host was taken for the address. */
  lemma DomainFirst(r: NetRules, t: Details, hostname: string)
    requires !r.parseIP("")
    requires Settled(r) && !DomainFails(r, FillDomain(r, t.ip, t.domain, hostname))
    ensures var domain := CleanDomain(r, FillDomain(r, t.ip, t.domain, hostname));
            DomainFails(r, FillDomain(r, FillIP(r, t.ip, hostname), domain, hostname))
            <==> && t.ip == "" && t.domain == "" && r.parseIP(hostname) && r.toASCII(hostname).Some?
                 && r.toASCII(hostname).value != "" && !NameChecks(r, hostname)
  {
    var domain := FillDomain(r, t.ip, t.domain, hostname);
    if r.toASCII(hostname).Some? {
      AsciiNonEmpty(r.toASCII(hostname).value);
    }
    if CheckedDomain(r, domain).Some? {
      DomainNonEmpty(r, domain);
    }
    hide CheckedDomain, LowerAscii;
  }

  /**
   * A stored row with the fields of an accepted asset, updated with those very fields: the update is refused as invalid
   * exactly in that case.
   */
  lemma OwnFieldsRefusedIff(r: NetRules, db: Db, id: ID, d: Details, access: ListAccess)
    requires Tidy(r) && Settled(r) && Validate(r, Normalize(r, d)).Valid?
    requires id in db.assets && db.assets[id].details == Validate(r, Normalize(r, d)).details
    ensures var w := UpdateAsset(r, db, id, db.assets[id].details, access);
            (w.Failed? && w.error.InvalidAsset?)
            <==> !IsImported(TrimDetails(d)) && AddressFailsAsDomain(r, TrimDetails(d))
  {
    AcceptedAgainIff(r, d);
    UpdateInvalidIff(r, db, id, db.assets[id].details, access);
    hide Validate, Normalize, TrimDetails, AddressFailsAsDomain, UpdateAsset, Tidy, Settled, IsImported;
  }

  lemma UpdateInvalidIff(r: NetRules, db: Db, id: ID, d: Details, access: ListAccess)
    ensures var w := UpdateAsset(r, db, id, d, access);
            (w.Failed? && w.error.InvalidAsset?) <==> Validate(r, Normalize(r, d)).Invalid?
  {
    hide Validate, Normalize, Visible, Key, Replace;
    var c := Validate(r, Normalize(r, d));
    if c.Valid? {
      ReplaceError(db, id, c.details, 1);
    }
  }

  lemma ReplaceError(db: Db, id: ID, d: Details, count: nat)
    requires d.port >= 0
    ensures var w := Replace(db, id, d, count); w.Failed? ==> !w.error.InvalidAsset?
  {
  }

  lemma OneHostSettled(host: string, address: string)
    requires TrimSpace(address) == address && TrimDot(address) == address && LowerAscii(address) == address
    ensures Settled(OneHost(host, address))
  {
    var r := OneHost(host, address);
    hide TrimSpace, TrimDot, LowerAscii, LabelsOK;
    assert !DomainOK(r, address);
    assert forall s :: CheckedDomain(r, s).None?;
  }

  /** The host http://1.2.3.4, entered by hand, is accepted, and what is stored for it is refused. */
  lemma ExampleEdited()
    ensures var host, address := "http://1.2.3.4", "1.2.3.4";
            var r := OneHost(host, address);
            var first := Validate(r, Normalize(r, Example(host, "", "manual")));
            first.Valid? && Validate(r, Normalize(r, first.details)).Invalid?
  {
    FourOctets();
    FourOctetsHost();
    Sources();
    hide TrimSpace, TrimDot, IndexOf, LowerAscii, TrimBrackets, Validate, Normalize, OneHost, PlainHost;
    var host, address := "http://1.2.3.4", "1.2.3.4";
    OneHostPlain(host, address, "manual");
    OneHostSettled(host, address);
    EditedCase(OneHost(host, address), host, address, "manual");
  }

  lemma EditedCase(r: NetRules, host: string, address: string, source: string)
    requires PlainHost(r, host, address, source) && LowerAscii(source) != "imported" && Settled(r)
    ensures var first := Validate(r, Normalize(r, Example(host, "", source)));
            first.Valid? && Validate(r, Normalize(r, first.details)).Invalid?
  {
    ExampleAccepted(r, host, address, source);
    ExampleTrimmed(r, host, address, source);
    ExampleHost(r, host, address, "", source);
    OwnFormFails(r, address);
    assert address != "";
    hide TrimDetails, HostURL, Hostname, Tidy, NameChecks, LowerAscii, Normalize, Validate, TrimSpace, IndexOf,
      TrimBrackets;
    AcceptedAgainIff(r, Example(host, "", source));
  }
}
