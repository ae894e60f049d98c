/** What an asset describes: how it is normalized and checked, and the key that tells assets apart. */
module AssetKeys {
  import opened Base
  import opened Text

  datatype Details = Details(
    projectID: Option<ID>,
    host: string, ip: string, port: int, domain: string, protocol: string,
    title: string, server: string, country: string, province: string, city: string,
    responsiblePerson: string, department: string, businessSystem: string,
    environment: string, criticality: string,
    source: string, sourceQuery: string, status: string,
    tags: seq<string>)

  datatype URL = URL(scheme: string, hostname: string, port: string, hasUser: bool)

  /** What the network libraries answer: whether a text is an IP address, its ASCII form as a domain, its URL parts. */
  datatype NetRules = NetRules(
    parseIP: string -> bool,
    toASCII: string -> Option<string>,
    parseURL: string -> Option<URL>,
    atoi: string -> int)

  datatype AssetError =
    | NoTarget | BadPort | BadIP | BadDomain | BadProtocol | BadStatus | TooLong | BadEnvironment | BadCriticality
    | TooManyTags | TagTooLong

  datatype Checked = Valid(details: Details) | Invalid(error: AssetError)

  // ---------------------------------------------------------------- normalization

  function LowerTrim(s: string): string {
    LowerAscii(TrimSpace(s))
  }

  /** Trimmed tags, without blanks and repetitions, in their first order. */
  function CleanTags(tags: seq<string>): (r: seq<string>) {
    if tags == [] then []
    else
      var before, tag := CleanTags(tags[..|tags| - 1]), TrimSpace(tags[|tags| - 1]);
      if tag != "" && tag !in before then before + [tag] else before
  }

  function TrimTexts(d: Details): Details {
    d.(host := TrimSpace(d.host), ip := LowerTrim(d.ip),
       domain := LowerTrim(d.domain), protocol := LowerTrim(d.protocol),
       title := TrimSpace(d.title), server := TrimSpace(d.server), country := TrimSpace(d.country),
       province := TrimSpace(d.province), city := TrimSpace(d.city),
       responsiblePerson := TrimSpace(d.responsiblePerson), department := TrimSpace(d.department),
       businessSystem := TrimSpace(d.businessSystem),
       environment := LowerTrim(d.environment), criticality := LowerTrim(d.criticality),
       source := TextOr(TrimSpace(d.source), "manual"), sourceQuery := TrimSpace(d.sourceQuery),
       status := TextOr(LowerTrim(d.status), "active"))
  }

  function TextOr(text: string, default: string): string {
    if text == "" then default else text
  }

  function TrimDetails(d: Details): Details {
    TrimTexts(d).(tags := CleanTags(d.tags))
  }

  function TrimBrackets(s: string): string {
    TrimBracketsRight(TrimBracketsLeft(s))
  }

  function TrimBracketsLeft(s: string): string {
    if s != "" && s[0] in {'[', ']'} then TrimBracketsLeft(s[1..]) else s
  }

  function TrimBracketsRight(s: string): string {
    if s != "" && s[|s| - 1] in {'[', ']'} then TrimBracketsRight(s[..|s| - 1]) else s
  }

  /** The URL in the host field, if there is one and it names a host and no user. */
  function HostURL(r: NetRules, d: Details): Option<URL> {
    if IndexOf(d.host, "://") >= 0 && r.parseURL(d.host).Some? && r.parseURL(d.host).value.hostname != ""
       && !r.parseURL(d.host).value.hasUser
    then r.parseURL(d.host)
    else None
  }

  function Hostname(u: URL): string {
    TrimBrackets(LowerAscii(u.hostname))
  }

  function FillTarget(r: NetRules, d: Details, hostname: string): Details {
    if r.parseIP(hostname) && d.ip == "" then d.(ip := hostname)
    else if d.domain == "" && r.toASCII(hostname).Some? then d.(domain := LowerAscii(r.toASCII(hostname).value))
    else d
  }

  function FillPort(r: NetRules, d: Details, u: URL): Details {
    if d.port != 0 then d
    else if u.port != "" then d.(port := r.atoi(u.port))
    else if d.protocol == "https" then d.(port := 443)
    else if d.protocol == "http" then d.(port := 80)
    else d
  }

  function FillService(r: NetRules, d: Details, u: URL): Details {
    FillPort(r, if d.protocol == "" then d.(protocol := LowerAscii(u.scheme)) else d, u)
  }

  /** Fields that the host URL tells and the asset leaves out. */
  function FillFromURL(r: NetRules, d: Details): Details {
    match HostURL(r, d)
    case None => d
    case Some(u) => FillService(r, FillTarget(r, d, Hostname(u)), u)
  }

  function CleanIP(r: NetRules, ip: string): string {
    if ip != "" && !r.parseIP(TrimBrackets(ip)) then "" else ip
  }

  function CleanDomain(r: NetRules, domain: string): string {
    if domain == "" || CheckedDomain(r, domain).None? then "" else CheckedDomain(r, domain).value
  }

  function CleanProtocol(protocol: string): string {
    if protocol != "" && !ProtocolOK(protocol) then "" else protocol
  }

  predicate IsImported(d: Details) {
    LowerAscii(d.source) == "imported"
  }

  /** Imported assets lose structured fields that are not what they should be. */
  function CleanImported(r: NetRules, d: Details): Details {
    if IsImported(d) then
      d.(ip := CleanIP(r, d.ip), domain := CleanDomain(r, d.domain), protocol := CleanProtocol(d.protocol))
    else d
  }

  function Normalize(r: NetRules, d: Details): Details {
    CleanImported(r, FillFromURL(r, TrimDetails(d)))
  }

  /** Normalizes field by field. */
  method NormalizeAsset(r: NetRules, input: Details) returns (d: Details)
    ensures d == Normalize(r, input)
  {
    hide TrimSpace, LowerTrim, IndexOf, CheckedDomain, ProtocolOK, Hostname;
    d := TrimTexts(input);
    var tags := [];
    for n := 0 to |input.tags|
      invariant tags == CleanTags(input.tags[..n])
    {
      assert input.tags[..n + 1][..n] == input.tags[..n];
      var tag := TrimSpace(input.tags[n]);
      if tag != "" && tag !in tags {
        tags := tags + [tag];
      }
    }
    assert input.tags[..|input.tags|] == input.tags;
    d := d.(tags := tags);
    d := FillMissing(r, d);
    if LowerAscii(d.source) == "imported" {
      if d.ip != "" && !r.parseIP(TrimBrackets(d.ip)) {
        d := d.(ip := "");
      }
      if d.domain != "" {
        var checked := CheckedDomain(r, d.domain);
        d := d.(domain := if checked.None? then "" else checked.value);
      }
      if d.protocol != "" && !ProtocolOK(d.protocol) {
        d := d.(protocol := "");
      }
    }
  }

  /** Takes from the host URL what is missing. */
  method FillMissing(r: NetRules, asset: Details) returns (d: Details)
    ensures d == FillFromURL(r, asset)
  {
    hide LowerAscii, IndexOf, TrimBrackets;
    d := asset;
    if IndexOf(d.host, "://") < 0 {
      return;
    }
    var parsed := r.parseURL(d.host);
    if parsed.None? || parsed.value.hostname == "" || parsed.value.hasUser {
      return;
    }
    var hostname := TrimBrackets(LowerAscii(parsed.value.hostname));
    if r.parseIP(hostname) && d.ip == "" {
      d := d.(ip := hostname);
    } else if d.domain == "" {
      var ascii := r.toASCII(hostname);
      if ascii.Some? {
        d := d.(domain := LowerAscii(ascii.value));
      }
    }
    if d.protocol == "" {
      d := d.(protocol := LowerAscii(parsed.value.scheme));
    }
    if d.port == 0 {
      if parsed.value.port != "" {
        d := d.(port := r.atoi(parsed.value.port));
      } else if d.protocol == "https" {
        d := d.(port := 443);
      } else if d.protocol == "http" {
        d := d.(port := 80);
      }
    }
  }

  /** The cleaned tags are exactly the trimmed non-blank tags, each once. */
  lemma {:induction false} CleanTagsSound(tags: seq<string>)
    ensures forall tag :: tag in CleanTags(tags)
                          <==> tag != "" && exists i :: 0 <= i < |tags| && TrimSpace(tags[i]) == tag
    ensures forall i, j | 0 <= i < j < |CleanTags(tags)| :: CleanTags(tags)[i] != CleanTags(tags)[j]
  {
    if tags != [] {
      var n := |tags| - 1;
      CleanTagsSound(tags[..n]);
      assert forall i | 0 <= i < n :: tags[..n][i] == tags[i];
      hide TrimSpace;
      forall tag
        ensures tag in CleanTags(tags) <==> tag in CleanTags(tags[..n]) || (tag != "" && tag == TrimSpace(tags[n]))
      {
      }
    }
  }

  // ---------------------------------------------------------------- checks

  /** A letter, then up to 31 letters, digits, plus signs, dots and hyphens. */
  predicate ProtocolOK(p: string) {
    && 1 <= |p| <= 32
    && 'a' <= p[0] <= 'z'
    && forall i | 0 <= i < |p| :: 'a' <= p[i] <= 'z' || '0' <= p[i] <= '9' || p[i] in {'+', '.', '-'}
  }

  function TrimDot(s: string): string {
    if s != "" && s[|s| - 1] == '.' then s[..|s| - 1] else s
  }

  predicate LabelOK(part: string) {
    && 1 <= |part| <= 63 && part[0] != '-' && part[|part| - 1] != '-'
    && forall i | 0 <= i < |part| :: 'a' <= part[i] <= 'z' || '0' <= part[i] <= '9' || part[i] == '-'
  }

  predicate LabelsOK(s: string)
    decreases |s|
  {
    var dot := IndexOf(s, ".");
    if dot < 0 then LabelOK(s) else LabelOK(s[..dot]) && LabelsOK(s[dot + 1..])
  }

  predicate DomainOK(r: NetRules, domain: string) {
    var d := TrimDot(LowerTrim(domain));
    d != "" && |d| <= 253 && !r.parseIP(d) && LabelsOK(d)
  }

  /** The stored form of a domain, if it is a domain. */
  function CheckedDomain(r: NetRules, domain: string): Option<string> {
    var ascii := r.toASCII(TrimDot(domain));
    if ascii.Some? && DomainOK(r, ascii.value) then Some(LowerAscii(ascii.value)) else None
  }

  function CheckTexts(d: Details): Option<AssetError> {
    if |d.host| > 500 || |d.title| > 500 || |d.domain| > 255 || |d.protocol| > 255 || |d.server| > 255
       || |d.country| > 255 || |d.province| > 255 || |d.city| > 255 || |d.responsiblePerson| > 255
       || |d.department| > 255 || |d.businessSystem| > 255
    then Some(TooLong)
    else if d.environment !in ["", "production", "staging", "testing", "development", "other"] then Some(BadEnvironment)
    else if d.criticality !in ["", "critical", "high", "medium", "low"] then Some(BadCriticality)
    else if |d.tags| > 30 then Some(TooManyTags)
    else if exists i :: 0 <= i < |d.tags| && |d.tags[i]| > 64 then Some(TagTooLong)
    else None
  }

  /** Checks an asset and puts its domain into the stored form. */
  function Validate(r: NetRules, d: Details): (c: Checked)
    ensures c.Valid? ==> c.details.port >= 0
  {
    if d.host == "" && d.ip == "" && d.domain == "" then Invalid(NoTarget)
    else if d.port < 0 || d.port > 65535 then Invalid(BadPort)
    else if d.ip != "" && !r.parseIP(TrimBrackets(d.ip)) then Invalid(BadIP)
    else if d.domain != "" && CheckedDomain(r, d.domain).None? then Invalid(BadDomain)
    else
      var e := if d.domain != "" then d.(domain := CheckedDomain(r, d.domain).value) else d;
      if e.protocol != "" && !ProtocolOK(e.protocol) then Invalid(BadProtocol)
      else if e.status != "active" && e.status != "inactive" then Invalid(BadStatus)
      else if CheckTexts(e).Some? then Invalid(CheckTexts(e).value)
      else Valid(e)
  }

  // ---------------------------------------------------------------- the key

  /** What the asset is, by the most telling field that is filled. */
  function Target(d: Details): string {
    if d.domain != "" then d.domain else if d.ip != "" then d.ip else LowerAscii(d.host)
  }

  function Key(d: Details): string
    requires d.port >= 0
  {
    Target(d) + "|" + Itoa(d.port) + "|" + d.protocol
  }

  /** What checked assets have in common; everything the key needs. */
  predicate Storable(d: Details) {
    && Target(d) != ""
    && 0 <= d.port <= 65535
    && '|' !in d.protocol
  }

  lemma ValidIsStorable(r: NetRules, d: Details)
    requires Validate(r, d).Valid?
    ensures Storable(Validate(r, d).details)
  {
    if d.domain != "" {
      DomainNonEmpty(r, d.domain);
    }
    AsciiNonEmpty(d.host);
    assert d.protocol != "" ==> forall i | 0 <= i < |d.protocol| :: d.protocol[i] != '|';
  }

  lemma DomainNonEmpty(r: NetRules, domain: string)
    requires CheckedDomain(r, domain).Some?
    ensures CheckedDomain(r, domain).value != ""
  {
    AsciiNonEmpty(r.toASCII(TrimDot(domain)).value);
  }

  lemma AsciiNonEmpty(s: string)
    ensures LowerAscii(s) == "" <==> s == ""
  {
  }

  /** With no bar behind `a`, no bar of the text lies behind `a`. */
  lemma LastBar(a: string, b: string, c: string, d: string)
    requires a + "|" + b == c + "|" + d && '|' !in b
    ensures |c| <= |a|
  {
    var s := a + "|" + b;
    assert (c + "|" + d)[|c|] == '|';
    forall k | |a| < k < |s| ensures s[k] != '|' {
      assert s[k] == b[k - |a| - 1];
      assert b[k - |a| - 1] in b;
    }
  }

  /** Two texts of the shape front|back with no bar behind it have the same front and back. */
  lemma SameBehindBar(a: string, b: string, c: string, d: string)
    requires a + "|" + b == c + "|" + d && '|' !in b && '|' !in d
    ensures a == c && b == d
  {
    LastBar(a, b, c, d);
    LastBar(c, d, a, b);
    var s := a + "|" + b;
    assert s[..|a|] == a && (c + "|" + d)[..|c|] == c;
    assert s[|a| + 1..] == b && (c + "|" + d)[|c| + 1..] == d;
  }

  lemma ItoaInjective(m: nat, n: nat)
    requires Itoa(m) == Itoa(n)
    ensures m == n
  {
    ParseItoa(m);
    ParseItoa(n);
  }

  /** The key tells two storable assets apart exactly by their target, port and protocol. */
  lemma KeyInjective(a: Details, b: Details)
    requires Storable(a) && Storable(b)
    ensures Key(a) == Key(b) <==> Target(a) == Target(b) && a.port == b.port && a.protocol == b.protocol
  {
    if Key(a) == Key(b) {
      SameBehindBar(Target(a) + "|" + Itoa(a.port), a.protocol, Target(b) + "|" + Itoa(b.port), b.protocol);
      SameBehindBar(Target(a), Itoa(a.port), Target(b), Itoa(b.port));
      ItoaInjective(a.port, b.port);
    }
  }

  /** The key "|0|" means that nothing is known about the target. */
  lemma EmptyKeyTarget(d: Details)
    requires d.port >= 0 && '|' !in d.protocol
    ensures Key(d) == "|0|" ==> Target(d) == ""
  {
    if Key(d) == "|0|" {
      assert "" + "|" + "0" + "|" + "" == "|0|";
      SameBehindBar(Target(d) + "|" + Itoa(d.port), d.protocol, "" + "|" + "0", "");
      SameBehindBar(Target(d), Itoa(d.port), "", "0");
    }
  }

  /** So a checked asset never has the key for which an import skips it. */
  lemma EmptyKeyUnreachable(r: NetRules, d: Details)
    requires Validate(r, d).Valid?
    ensures Storable(Validate(r, d).details) && Key(Validate(r, d).details) != "|0|"
  {
    ValidIsStorable(r, d);
    EmptyKeyTarget(Validate(r, d).details);
  }

  // ---------------------------------------------------------------- merging into a stored asset

  function Keep(text: string, stored: string): string {
    if text != "" then text else stored
  }

  /** The stored fields overwritten by the non-empty new ones; port and status stay. */
  function Merge(stored: Details, d: Details): Details {
    stored.(
      projectID := if d.projectID.Some? then d.projectID else stored.projectID,
      host := Keep(d.host, stored.host), ip := Keep(d.ip, stored.ip),
      domain := Keep(d.domain, stored.domain), protocol := Keep(d.protocol, stored.protocol),
      title := Keep(d.title, stored.title), server := Keep(d.server, stored.server),
      country := Keep(d.country, stored.country), province := Keep(d.province, stored.province),
      city := Keep(d.city, stored.city),
      responsiblePerson := Keep(d.responsiblePerson, stored.responsiblePerson),
      department := Keep(d.department, stored.department),
      businessSystem := Keep(d.businessSystem, stored.businessSystem),
      environment := Keep(d.environment, stored.environment), criticality := Keep(d.criticality, stored.criticality),
      source := Keep(d.source, stored.source), sourceQuery := Keep(d.sourceQuery, stored.sourceQuery),
      tags := if d.tags != [] then d.tags else stored.tags)
  }

  /** Merging field by field mixes two assets, and still keeps the key that found the stored one. */
  lemma MergeKeepsKey(stored: Details, d: Details)
    requires Storable(stored) && Storable(d) && Key(stored) == Key(d)
    ensures Storable(Merge(stored, d)) && Key(Merge(stored, d)) == Key(stored)
  {
    KeyInjective(stored, d);
    AsciiNonEmpty(d.host);
    AsciiNonEmpty(stored.host);
  }
}
