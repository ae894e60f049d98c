/** What is stored for an asset that is submitted, field by field, and which assets are accepted. */
module StoredAssets {
  import opened AssetKeys
  import opened AssetNormalization
  import opened Base
  import opened Text

  function Tidied(s: string): string {
    LowerAscii(TrimSpace(s))
  }

  // ---------------------------------------------------------------- texts and tags

  /** Fields that are only trimmed, folded to lower case or given a default. */
  predicate TextsTold(d: Details, e: Details) {
    && e.projectID == d.projectID
    && e.host == TrimSpace(d.host) && e.title == TrimSpace(d.title) && e.server == TrimSpace(d.server)
    && e.country == TrimSpace(d.country) && e.province == TrimSpace(d.province) && e.city == TrimSpace(d.city)
    && e.responsiblePerson == TrimSpace(d.responsiblePerson) && e.department == TrimSpace(d.department)
    && e.businessSystem == TrimSpace(d.businessSystem) && e.sourceQuery == TrimSpace(d.sourceQuery)
    && e.environment == Tidied(d.environment) && e.criticality == Tidied(d.criticality)
    && e.source == (if TrimSpace(d.source) == "" then "manual" else TrimSpace(d.source))
    && e.status == (if Tidied(d.status) == "" then "active" else Tidied(d.status))
  }

  /** The trimmed tags that are not blank, each once, in the order in which they first appear. */
  ghost predicate TagsTold(given: seq<string>, stored: seq<string>) {
    && (forall tag :: tag in stored <==> tag != "" && exists i :: 0 <= i < |given| && TrimSpace(given[i]) == tag)
    && (forall i, j | 0 <= i < j < |stored| :: FirstBefore(given, stored[i], stored[j]))
  }

  /** One tag appears where the other has not appeared yet. */
  ghost predicate FirstBefore(given: seq<string>, one: string, other: string) {
    exists p :: 0 <= p < |given| && TrimSpace(given[p]) == one && forall q | 0 <= q <= p :: TrimSpace(given[q]) != other
  }

  lemma {:induction false} TagsInOrder(given: seq<string>)
    ensures TagsTold(given, CleanTags(given))
  {
    CleanTagsSound(given);
    hide TrimSpace;
    if given != [] {
      var n := |given| - 1;
      TagsInOrder(given[..n]);
      var before, stored, tag := CleanTags(given[..n]), CleanTags(given), TrimSpace(given[n]);
      forall i, j | 0 <= i < j < |stored| ensures FirstBefore(given, stored[i], stored[j]) {
        if j < |before| {
          assert FirstBefore(given[..n], before[i], before[j]);
          FirstBeforeMore(given, stored[i], stored[j]);
        } else {
          assert stored[i] in before && stored[j] == tag && tag !in before;
          NewTagLast(given, stored[i]);
        }
      }
    }
  }

  lemma FirstBeforeMore(given: seq<string>, one: string, other: string)
    requires given != [] && FirstBefore(given[..|given| - 1], one, other)
    ensures FirstBefore(given, one, other)
  {
    hide TrimSpace;
    var rest := given[..|given| - 1];
    var p :| 0 <= p < |rest| && TrimSpace(rest[p]) == one && forall q | 0 <= q <= p :: TrimSpace(rest[q]) != other;
    assert forall q | 0 <= q <= p :: rest[q] == given[q];
  }

  lemma NewTagLast(given: seq<string>, one: string)
    requires given != [] && one in CleanTags(given[..|given| - 1])
    requires var tag := TrimSpace(given[|given| - 1]); tag != "" && tag !in CleanTags(given[..|given| - 1])
    ensures FirstBefore(given, one, TrimSpace(given[|given| - 1]))
  {
    var rest, tag := given[..|given| - 1], TrimSpace(given[|given| - 1]);
    CleanTagsSound(rest);
    hide TrimSpace, CleanTags;
    var p :| 0 <= p < |rest| && TrimSpace(rest[p]) == one;
    forall q | 0 <= q <= p ensures TrimSpace(given[q]) != tag {
      assert rest[q] == given[q];
    }
    assert TrimSpace(given[p]) == one;
  }

  // ---------------------------------------------------------------- target and service

  /** The host is a URL that names a host and no user. */
  ghost predicate HostIs(r: NetRules, host: string, u: URL) {
    (exists i :: OccursAt(host, "://", i)) && r.parseURL(host) == Some(u) && u.hostname != "" && !u.hasUser
  }

  predicate Bracket(c: char) {
    c == '[' || c == ']'
  }

  /** The text without the brackets at its ends. */
  ghost predicate Unbracketed(s: string, name: string) {
    && (name != "" ==> !Bracket(name[0]) && !Bracket(name[|name| - 1]))
    && exists i, j :: 0 <= i <= j <= |s| && name == s[i..j]
                      && (forall k | 0 <= k < i :: Bracket(s[k])) && (forall k | j <= k < |s| :: Bracket(s[k]))
  }

  lemma {:induction false} LeftCut(s: string) returns (i: nat)
    ensures i <= |s| && TrimBracketsLeft(s) == s[i..] && forall k | 0 <= k < i :: Bracket(s[k])
    ensures TrimBracketsLeft(s) != "" ==> !Bracket(TrimBracketsLeft(s)[0])
  {
    if s != "" && Bracket(s[0]) {
      i := LeftCut(s[1..]);
      assert s[1..][i..] == s[i + 1..];
      assert forall k | 0 <= k < i :: s[1..][k] == s[k + 1];
      i := i + 1;
    } else {
      i := 0;
    }
  }

  lemma {:induction false} RightCut(s: string) returns (j: nat)
    ensures j <= |s| && TrimBracketsRight(s) == s[..j] && forall k | j <= k < |s| :: Bracket(s[k])
    ensures TrimBracketsRight(s) != "" ==> !Bracket(TrimBracketsRight(s)[|TrimBracketsRight(s)| - 1])
  {
    if s != "" && Bracket(s[|s| - 1]) {
      j := RightCut(s[..|s| - 1]);
      assert s[..|s| - 1][..j] == s[..j];
    } else {
      j := |s|;
    }
  }

  lemma BracketsTold(s: string)
    ensures Unbracketed(s, TrimBrackets(s))
  {
    var i := LeftCut(s);
    var rest := TrimBracketsLeft(s);
    var j := RightCut(rest);
    assert rest[..j] == s[i..i + j];
    assert forall k | i + j <= k < |s| :: s[k] == rest[k - i];
    hide TrimBracketsLeft, TrimBracketsRight;
  }

  /** What is given, and else what the host URL tells. */
  predicate FromURL(r: NetRules, d: Details, f: Details, u: URL, h: string) {
    var ip, domain, protocol := Tidied(d.ip), Tidied(d.domain), Tidied(d.protocol);
    && f.ip == (if ip != "" then ip else if r.parseIP(h) then h else "")
    && f.domain == (if domain != "" then domain
                    else if (r.parseIP(h) && ip == "") || r.toASCII(h).None? then ""
                    else LowerAscii(r.toASCII(h).value))
    && f.protocol == (if protocol != "" then protocol else LowerAscii(u.scheme))
    && f.port == (if d.port != 0 then d.port
                  else if u.port != "" then r.atoi(u.port)
                  else if f.protocol == "https" then 443
                  else if f.protocol == "http" then 80
                  else 0)
  }

  /** Address, domain, protocol and port before anything is checked. */
  ghost predicate FilledTold(r: NetRules, d: Details, f: Details) {
    if exists u :: HostIs(r, TrimSpace(d.host), u) then
      exists u, h :: HostIs(r, TrimSpace(d.host), u) && Unbracketed(LowerAscii(u.hostname), h) && FromURL(r, d, f, u, h)
    else
      && f.ip == Tidied(d.ip) && f.domain == Tidied(d.domain) && f.protocol == Tidied(d.protocol) && f.port == d.port
  }

  lemma HostTold(r: NetRules, d: Details)
    ensures HostURL(r, d).None? ==> forall u :: !HostIs(r, d.host, u)
    ensures HostURL(r, d).Some? ==> HostIs(r, d.host, HostURL(r, d).value)
  {
    IndexFirst(d.host, "://");
    hide IndexOf;
    assert IndexOf(d.host, "://") >= 0 ==> OccursAt(d.host, "://", IndexOf(d.host, "://"));
    hide OccursAt;
  }

  lemma NothingFilled(r: NetRules, d: Details)
    requires HostURL(r, TrimDetails(d)).None?
    ensures FilledTold(r, d, FillFromURL(r, TrimDetails(d)))
  {
    HostTold(r, TrimDetails(d));
    hide TrimSpace, HostIs, HostURL;
    assert TrimDetails(d).host == TrimSpace(d.host);
  }

  lemma URLFilled(r: NetRules, d: Details, u: URL)
    requires HostURL(r, TrimDetails(d)) == Some(u)
    ensures FromURL(r, d, FillFromURL(r, TrimDetails(d)), u, Hostname(u))
  {
    var t := TrimDetails(d);
    FillParts(r, t, u);
    assert t.ip == Tidied(d.ip) && t.domain == Tidied(d.domain) && t.protocol == Tidied(d.protocol);
    assert t.port == d.port;
    hide TrimDetails, FillFromURL, HostURL, LowerAscii, Tidied, Hostname;
  }

  lemma SomethingFilled(r: NetRules, d: Details, u: URL)
    requires HostURL(r, TrimDetails(d)) == Some(u)
    ensures FilledTold(r, d, FillFromURL(r, TrimDetails(d)))
  {
    URLFilled(r, d, u);
    HostTold(r, TrimDetails(d));
    BracketsTold(LowerAscii(u.hostname));
    assert TrimDetails(d).host == TrimSpace(d.host) && Hostname(u) == TrimBrackets(LowerAscii(u.hostname));
    hide TrimDetails, FillFromURL, HostIs, HostURL, LowerAscii, TrimBrackets, Tidied, Unbracketed, Hostname, TrimSpace,
      FromURL;
  }

  /** What normalizing fills in is that. */
  lemma FillTold(r: NetRules, d: Details)
    ensures FilledTold(r, d, FillFromURL(r, TrimDetails(d)))
  {
    match HostURL(r, TrimDetails(d))
    case None => NothingFilled(r, d);
    case Some(u) => SomethingFilled(r, d, u);
  }

  // ---------------------------------------------------------------- domains and protocols

  predicate LowerLetter(c: char) {
    'a' <= c <= 'z'
  }

  predicate Digit(c: char) {
    '0' <= c <= '9'
  }

  /** Up to 63 letters, digits and hyphens, with no hyphen at either end. */
  predicate LabelTold(s: string) {
    && 1 <= |s| <= 63 && s[0] != '-' && s[|s| - 1] != '-'
    && forall i | 0 <= i < |s| :: LowerLetter(s[i]) || Digit(s[i]) || s[i] == '-'
  }

  /** From `i` to `j` lies what stands between two dots, or a dot and an end. */
  predicate Segment(s: string, i: int, j: int) {
    && 0 <= i <= j <= |s| && (i == 0 || s[i - 1] == '.') && (j == |s| || s[j] == '.')
    && forall k | i <= k < j :: s[k] != '.'
  }

  ghost predicate LabelsTold(s: string) {
    forall i, j | Segment(s, i, j) :: LabelTold(s[i..j])
  }

  lemma {:induction false} LabelsOKIff(s: string)
    ensures LabelsOK(s) <==> LabelsTold(s)
    decreases |s|
  {
    CharIndex(s, '.');
    var dot := IndexOf(s, ".");
    hide IndexOf;
    if dot < 0 {
      assert s[0..|s|] == s;
      assert Segment(s, 0, |s|);
      forall i, j | Segment(s, i, j) ensures i == 0 && j == |s| {
      }
    } else {
      var rest := s[dot + 1..];
      LabelsOKIff(rest);
      hide LabelOK, LabelsOK, LabelTold;
      LabelsSplit(s, dot);
      LabelIs(s[..dot]);
      LabelsOKStep(s);
    }
    hide IndexOf;
    LabelIs(s);
  }

  lemma LabelIs(s: string)
    ensures LabelOK(s) <==> LabelTold(s)
  {
  }

  lemma LabelsOKStep(s: string)
    requires IndexOf(s, ".") >= 0
    ensures LabelsOK(s) <==> LabelOK(s[..IndexOf(s, ".")]) && LabelsOK(s[IndexOf(s, ".") + 1..])
  {
    hide IndexOf;
  }

  lemma LabelsSplit(s: string, dot: nat)
    requires dot < |s| && s[dot] == '.' && '.' !in s[..dot]
    ensures LabelsTold(s) <==> LabelTold(s[..dot]) && LabelsTold(s[dot + 1..])
  {
    hide LabelTold;
    var rest := s[dot + 1..];
    assert forall k | 0 <= k < dot :: s[k] == s[..dot][k];
    assert Segment(s, 0, dot) && s[0..dot] == s[..dot];
    forall i, j | Segment(rest, i, j)
      ensures Segment(s, dot + 1 + i, dot + 1 + j) && s[dot + 1 + i..dot + 1 + j] == rest[i..j]
    {
      assert forall k | 0 <= k < |rest| :: rest[k] == s[dot + 1 + k];
    }
    forall i, j | Segment(s, i, j)
      ensures (i == 0 && j == dot) || (i > dot && Segment(rest, i - dot - 1, j - dot - 1)
                                       && s[i..j] == rest[i - dot - 1..j - dot - 1])
    {
      assert forall k | 0 <= k < |rest| :: rest[k] == s[dot + 1 + k];
    }
  }

  function NoDot(s: string): string {
    if s != "" && s[|s| - 1] == '.' then s[..|s| - 1] else s
  }

  /** Labels between dots, no longer than 253 altogether, that are no address. */
  ghost predicate DomainTold(r: NetRules, ascii: string) {
    var domain := NoDot(Tidied(ascii));
    domain != "" && |domain| <= 253 && !r.parseIP(domain) && LabelsTold(domain)
  }

  /** The text is a domain, and this is how it is stored. */
  ghost predicate DomainForm(r: NetRules, domain: string, stored: string) {
    exists ascii :: r.toASCII(NoDot(domain)) == Some(ascii) && DomainTold(r, ascii) && stored == LowerAscii(ascii)
  }

  lemma DomainOKTold(r: NetRules, ascii: string)
    ensures DomainOK(r, ascii) <==> DomainTold(r, ascii)
  {
    LabelsOKIff(NoDot(Tidied(ascii)));
    hide LabelsOK, LabelsTold, TrimSpace, LowerAscii;
  }

  lemma FormTold(r: NetRules, domain: string)
    ensures CheckedDomain(r, domain).Some? <==> exists stored :: DomainForm(r, domain, stored)
    ensures forall stored :: DomainForm(r, domain, stored) <==> CheckedDomain(r, domain) == Some(stored)
  {
    assert TrimDot(domain) == NoDot(domain);
    if r.toASCII(NoDot(domain)).Some? {
      DomainOKTold(r, r.toASCII(NoDot(domain)).value);
    }
    hide DomainOK, DomainTold, LowerAscii, TrimDot, NoDot;
    if CheckedDomain(r, domain).Some? {
      assert DomainForm(r, domain, CheckedDomain(r, domain).value);
    }
  }

  /** A letter, then up to 31 letters, digits, plus signs, dots and hyphens. */
  predicate ProtocolTold(p: string) {
    && 1 <= |p| <= 32 && LowerLetter(p[0])
    && forall i | 0 < i < |p| :: LowerLetter(p[i]) || Digit(p[i]) || p[i] == '+' || p[i] == '.' || p[i] == '-'
  }

  lemma ProtocolOKTold(p: string)
    ensures ProtocolOK(p) <==> ProtocolTold(p)
  {
  }

  ghost predicate AddressTold(r: NetRules, ip: string) {
    exists h :: Unbracketed(ip, h) && r.parseIP(h)
  }

  /** Where the brackets at both ends stop. */
  ghost predicate Edges(s: string, i: nat, j: nat) {
    && i <= j <= |s| && (i < j ==> !Bracket(s[i]) && !Bracket(s[j - 1]))
    && (forall k | 0 <= k < i :: Bracket(s[k])) && (forall k | j <= k < |s| :: Bracket(s[k]))
  }

  lemma OneEdges(s: string, i: nat, j: nat, x: nat, y: nat)
    requires Edges(s, i, j) && Edges(s, x, y)
    ensures s[i..j] == s[x..y]
  {
    hide Bracket;
    if i < j {
      assert x <= i && j <= y;
    }
  }

  lemma EdgesOf(s: string, name: string) returns (i: nat, j: nat)
    requires Unbracketed(s, name)
    ensures Edges(s, i, j) && name == s[i..j]
  {
    i, j :| 0 <= i <= j <= |s| && name == s[i..j]
            && (forall k | 0 <= k < i :: Bracket(s[k])) && (forall k | j <= k < |s| :: Bracket(s[k]));
    hide Bracket;
    if i < j {
      assert name[0] == s[i] && name[|name| - 1] == s[j - 1];
    }
  }

  /** Only one text is what is left between the brackets. */
  lemma OneBetweenBrackets(s: string, a: string, b: string)
    requires Unbracketed(s, a) && Unbracketed(s, b)
    ensures a == b
  {
    hide Unbracketed, Edges;
    var i, j := EdgesOf(s, a);
    var x, y := EdgesOf(s, b);
    OneEdges(s, i, j, x, y);
  }

  lemma AddressIs(r: NetRules, ip: string)
    ensures r.parseIP(TrimBrackets(ip)) <==> AddressTold(r, ip)
  {
    BracketsTold(ip);
    hide Unbracketed, TrimBrackets;
    forall h | Unbracketed(ip, h) ensures h == TrimBrackets(ip) {
      OneBetweenBrackets(ip, h, TrimBrackets(ip));
    }
  }

  // ---------------------------------------------------------------- what is accepted

  predicate LengthsTold(d: Details) {
    && |d.host| <= 500 && |d.title| <= 500 && |d.protocol| <= 255 && |d.server| <= 255 && |d.country| <= 255
    && |d.province| <= 255 && |d.city| <= 255 && |d.responsiblePerson| <= 255 && |d.department| <= 255
    && |d.businessSystem| <= 255
    && |d.tags| <= 30 && forall i | 0 <= i < |d.tags| :: |d.tags[i]| <= 64
  }

  predicate ChoicesTold(d: Details) {
    && (d.status == "active" || d.status == "inactive")
    && (|| d.environment == "" || d.environment == "production" || d.environment == "staging"
        || d.environment == "testing" || d.environment == "development" || d.environment == "other")
    && (|| d.criticality == "" || d.criticality == "critical" || d.criticality == "high" || d.criticality == "medium"
        || d.criticality == "low")
  }

  /** A target, and every field that is given is one. */
  ghost predicate Accepted(r: NetRules, d: Details) {
    && (d.host != "" || d.ip != "" || d.domain != "") && 0 <= d.port <= 65535
    && (d.ip != "" ==> AddressTold(r, d.ip))
    && (d.domain != "" ==> exists stored :: DomainForm(r, d.domain, stored) && |stored| <= 255)
    && (d.protocol != "" ==> ProtocolTold(d.protocol))
    && LengthsTold(d) && ChoicesTold(d)
  }

  lemma TextsOKIff(d: Details)
    ensures (d.status == "active" || d.status == "inactive") && CheckTexts(d).None?
            <==> LengthsTold(d) && ChoicesTold(d) && |d.domain| <= 255
  {
  }

  lemma SameLimits(d: Details, e: Details)
    requires e == d.(domain := e.domain)
    ensures (LengthsTold(d) <==> LengthsTold(e)) && (ChoicesTold(d) <==> ChoicesTold(e))
  {
  }

  /** The checks pass exactly these assets, and change nothing but the domain, which gets its stored form. */
  lemma AcceptedIff(r: NetRules, d: Details)
    ensures Validate(r, d).Valid? <==> Accepted(r, d)
    ensures Validate(r, d).Valid?
            ==> var e := Validate(r, d).details;
                && e == d.(domain := e.domain)
                && if d.domain == "" then e.domain == "" else DomainForm(r, d.domain, e.domain)
  {
    AddressIs(r, d.ip);
    FormTold(r, d.domain);
    ProtocolOKTold(d.protocol);
    var form := CheckedDomain(r, d.domain);
    var e := if d.domain != "" && form.Some? then d.(domain := form.value) else d;
    TextsOKIff(e);
    SameLimits(d, e);
    hide TrimBrackets, CheckedDomain, ProtocolOK, ProtocolTold, DomainForm, AddressTold, CheckTexts, LengthsTold,
      ChoicesTold;
  }

  // ---------------------------------------------------------------- what is stored

  /** An imported asset loses an address, a domain and a protocol that fail; any other is stored as filled in. */
  ghost predicate CleanedTold(r: NetRules, f: Details, e: Details) {
    if LowerAscii(e.source) == "imported" then
      && e.port == f.port
      && e.ip == (if AddressTold(r, f.ip) then f.ip else "")
      && e.protocol == (if ProtocolTold(f.protocol) then f.protocol else "")
      && if exists form :: DomainForm(r, f.domain, form) && f.domain != ""
         then exists form :: DomainForm(r, f.domain, form) && DomainForm(r, form, e.domain)
         else e.domain == ""
    else
      && e.port == f.port && e.ip == f.ip && e.protocol == f.protocol
      && if f.domain == "" then e.domain == "" else DomainForm(r, f.domain, e.domain)
  }

  /** What is stored for a submitted asset. */
  ghost predicate StoredTold(r: NetRules, d: Details, e: Details) {
    TextsTold(d, e) && TagsTold(d.tags, e.tags) && exists f :: FilledTold(r, d, f) && CleanedTold(r, f, e)
  }

  lemma NormalizedTexts(r: NetRules, d: Details)
    ensures TextsTold(d, Normalize(r, d)) && Normalize(r, d).tags == CleanTags(d.tags)
  {
    var t := TrimDetails(d);
    assert TextsTold(d, t) && t.tags == CleanTags(d.tags) by {
      hide TrimSpace, LowerAscii, CleanTags;
    }
    FilledShape(r, t);
    CleanedShape(r, FillFromURL(r, t));
    NormalizeIsAgain(r, d);
    hide TrimDetails, FillFromURL, CleanImported, Normalize, TrimSpace, LowerAscii, CleanTags;
  }

  lemma FilledShape(r: NetRules, t: Details)
    ensures var f := FillFromURL(r, t); f == t.(ip := f.ip, domain := f.domain, protocol := f.protocol, port := f.port)
  {
    hide LowerAscii, IndexOf, Hostname;
  }

  lemma CleanTold(r: NetRules, f: Details)
    requires Validate(r, CleanImported(r, f)).Valid?
    requires !r.parseIP("")
    ensures CleanedTold(r, f, Validate(r, CleanImported(r, f)).details)
  {
    hide CheckedDomain, ProtocolOK, ProtocolTold, DomainForm, Validate, LowerAscii, Accepted, AddressTold, TrimBrackets;
    var n := CleanImported(r, f);
    var e := Validate(r, n).details;
    AcceptedIff(r, n);
    AddressIs(r, f.ip);
    FormTold(r, f.domain);
    ProtocolOKTold(f.protocol);
    CleanedShape(r, f);
    if CheckedDomain(r, f.domain).Some? {
      DomainNonEmpty(r, f.domain);
      FormTold(r, CheckedDomain(r, f.domain).value);
    }
    BlankAddress(r);
    BlankProtocol();
  }

  lemma BlankAddress(r: NetRules)
    requires !r.parseIP("")
    ensures !AddressTold(r, "")
  {
    AddressIs(r, "");
  }

  lemma BlankProtocol()
    ensures !ProtocolTold("")
  {
  }

  /** An asset that is accepted is stored field by field as told. */
  lemma AcceptedIsStored(r: NetRules, d: Details)
    requires !r.parseIP("") && Validate(r, Normalize(r, d)).Valid?
    ensures StoredTold(r, d, Validate(r, Normalize(r, d)).details)
  {
    var f := FillFromURL(r, TrimDetails(d));
    NormalizedTexts(r, d);
    TagsInOrder(d.tags);
    FillTold(r, d);
    NormalizeIsAgain(r, d);
    AcceptedIff(r, Normalize(r, d));
    assert Normalize(r, d) == CleanImported(r, f);
    CleanTold(r, f);
    hide Normalize, Validate, TextsTold, TagsTold, FilledTold, CleanedTold, Accepted, DomainForm, FillFromURL,
      TrimDetails, CleanImported;
    SameTexts(d, Normalize(r, d), Validate(r, Normalize(r, d)).details);
  }

  lemma SameTexts(d: Details, n: Details, e: Details)
    requires TextsTold(d, n) && e == n.(domain := e.domain)
    ensures TextsTold(d, e)
  {
  }
}
