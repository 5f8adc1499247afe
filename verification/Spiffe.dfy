// SPIFFE IDs as the programs print them and as each of them takes them apart (section 2 of the SPIFFE-ID
// standard: a trust domain and a path).
module Spiffe {
  import opened Wrappers
  import opened Strings
  import Base64Url

  // A parsed URI; the suffix is its query and fragment.
  datatype Url = Url(scheme: string, host: string, path: string, suffix: string)

  // What a URL parser yields: no slash in the host, and a rooted path before any query or fragment.
  predicate ParsedUrl(u: Url) {
    && SlashFree(u.scheme) && SlashFree(u.host)
    && (u.path == "" || u.path[0] == '/')
    && (u.suffix == "" || u.suffix[0] == '?' || u.suffix[0] == '#')
  }

  function Text(u: Url): string {
    u.scheme + "://" + u.host + u.path + u.suffix
  }

  function Print(domain: string, role: string, id: string): string {
    "spiffe://" + domain + "/" + role + "/" + id
  }

  // --- Ids ---

  predicate IdChar(c: char) {
    'a' <= c <= 'z' || 'A' <= c <= 'Z' || '0' <= c <= '9' || c == '-' || c == '_' || c == '.'
  }

  // The alphabet of URL-safe base64 and the dot.
  lemma IdAlphabet(c: char)
    ensures IdChar(c) <==> Base64Url.Value(c).Some? || c == '.'
  {
  }

  predicate ValidId(id: string) {
    1 <= |id| <= 128 && forall c :: c in id ==> IdChar(c)
  }

  lemma IdLengths(c: char, n: nat)
    ensures ValidId(seq(n, _ => c)) <==> IdChar(c) && 1 <= n <= 128
  {
    var id := seq(n, _ => c);
    assert n > 0 ==> id[0] == c && c in id;
  }

  method CheckId(id: string) returns (ok: bool)
    ensures ok <==> ValidId(id)
  {
    if id == "" || |id| > 128 {
      return false;
    }
    for i := 0 to |id|
      invariant forall j :: 0 <= j < i ==> IdChar(id[j])
    {
      var r := id[i];
      if ('a' <= r <= 'z') || ('A' <= r <= 'Z') || ('0' <= r <= '9') || r == '-' || r == '_' || r == '.' {
        continue;
      }
      assert r in id;
      return false;
    }
    return true;
  }

  // --- The controller's interceptor ---

  predicate ValidDomain(domain: string, globalDomain: string, systemDomain: string) {
    domain == globalDomain || (systemDomain != "" && HasSuffix(domain, "." + systemDomain))
  }

  // The text and the role; no roles at all means any role.
  function Intercept(u: Url, trustDomain: string, systemDomain: string, roles: set<string>): Option<(string, string)> {
    if u.scheme != "spiffe" then None
    else if u.host != trustDomain && !ValidDomain(u.host, trustDomain, systemDomain) then None
    else
      var parts := Split(TrimPrefix(u.path, "/"));
      if |parts| != 2 then None
      else if roles != {} && parts[0] !in roles then None
      else Some((Text(u), parts[0]))
  }

  // --- The parsers of the text ---

  // The empty string when there is no connector id.
  function ParseConnectorId(s: string): string {
    var parts := Split(TrimPrefix(s, "spiffe://"));
    if |parts| < 3 || parts[1] != "connector" then "" else parts[2]
  }

  function IdentityMultiDomain(s: string, role: string): Option<(string, string)> {
    var parts := Split(TrimPrefix(s, "spiffe://"));
    if |parts| < 3 || parts[2] == "" then None else Some((role, parts[2]))
  }

  function Find(s: string, c: char): (r: Option<nat>)
    ensures r.Some? ==> r.value < |s| && s[r.value] == c && c !in s[..r.value]
    ensures r.None? ==> c !in s
  {
    if s == "" then None
    else if s[0] == c then Some(0)
    else
      var r := Find(s[1..], c);
      if r.Some? then (assert s[..r.value + 1] == [s[0]] + s[1..][..r.value]; Some(r.value + 1)) else None
  }

  // The agent's and the connector's check of a peer: only the first part of the path is looked at.
  function VerifyUri(uri: string, trustDomain: string, expectedRole: string): Option<string> {
    if !("spiffe://" <= uri) then None
    else
      var rest := uri[|"spiffe://"|..];
      var slash := Find(rest, '/');
      if slash.None? then None
      else if rest[..slash.value] != trustDomain then None
      else if expectedRole != "" && Split(rest[slash.value + 1..])[0] != expectedRole then None
      else Some(uri)
  }

  // The connector's reading of an agent's or its own id.
  function IdFromSpiffe(uri: string, role: string): Option<string> {
    if !("spiffe://" <= uri) then None
    else
      var rest := uri[|"spiffe://"|..];
      var slash := Find(rest, '/');
      if slash.None? then None
      else
        var parts := Split(rest[slash.value + 1..]);
        if |parts| < 2 || parts[0] != role then None else Some(parts[1])
  }

  // --- Agreement ---

  lemma {:induction false} FindFirst(a: string, rest: string)
    requires SlashFree(a)
    ensures Find(a + "/" + rest, '/') == Some(|a|)
  {
    if a != "" {
      FindFirst(a[1..], rest);
      assert (a + "/" + rest)[1..] == a[1..] + "/" + rest;
    }
  }

  // A text that begins with a slash-free domain, cut at the scheme and at the first slash.
  ghost predicate Cut(s: string, domain: string, path: string) {
    && "spiffe://" <= s && TrimPrefix(s, "spiffe://") == s[|"spiffe://"|..]
    && Split(s[|"spiffe://"|..]) == [domain] + Split(path)
    && Find(s[|"spiffe://"|..], '/') == Some(|domain|)
    && s[|"spiffe://"|..][..|domain|] == domain
    && s[|"spiffe://"|..][|domain| + 1..] == path
  }

  lemma Views(domain: string, path: string)
    requires SlashFree(domain)
    ensures Cut("spiffe://" + (domain + "/" + path), domain, path)
  {
    SplitAt(domain, path);
    FindFirst(domain, path);
  }

  lemma TwoParts(p: string)
    requires |Split(p)| == 2
    ensures SlashFree(Split(p)[0]) && SlashFree(Split(p)[1]) && p == Split(p)[0] + "/" + Split(p)[1]
  {
    SplitHead(p);
    var rest :| p == Split(p)[0] + "/" + rest && Split(rest) == Split(p)[1..];
    SplitHead(rest);
  }

  // All parsers read this domain, role and id from a text. Those that need an id refuse exactly the empty
  // one; the connector's accepts that too.
  ghost predicate Reads(s: string, domain: string, role: string, id: string) {
    && ParseConnectorId(s) == (if role == "connector" then id else "")
    && IdentityMultiDomain(s, role) == (if id == "" then None else Some((role, id)))
    && (forall d, r :: VerifyUri(s, d, r) == if d == domain && (r == "" || r == role) then Some(s) else None)
    && (forall r :: IdFromSpiffe(s, r) == if r == role then Some(id) else None)
  }

  lemma CutReads(s: string, domain: string, path: string, role: string)
    requires Cut(s, domain, path) && |Split(path)| > 1 && Split(path)[0] == role
    ensures Reads(s, domain, role, Split(path)[1])
  {
    assert ([domain] + Split(path))[1] == role && ([domain] + Split(path))[2] == Split(path)[1];
  }

  lemma PrintCut(domain: string, role: string, tail: string)
    ensures Print(domain, role, tail) == "spiffe://" + (domain + "/" + (role + "/" + tail))
  {
  }

  // What the parsers make of a text with a domain, a role and anything after it.
  lemma TextViews(domain: string, role: string, tail: string)
    requires SlashFree(domain) && SlashFree(role)
    ensures Reads(Print(domain, role, tail), domain, role, Split(tail)[0])
  {
    PrintCut(domain, role, tail);
    Views(domain, role + "/" + tail);
    SplitAt(role, tail);
    CutReads(Print(domain, role, tail), domain, role + "/" + tail, role);
  }

  // The controller's parsers of the text do without the scheme, which the other two insist on. A domain
  // "spiffe:" before an empty role would be the scheme itself.
  lemma SchemeOptional(domain: string, role: string, tail: string)
    requires SlashFree(domain) && SlashFree(role) && (domain != "spiffe:" || role != "")
    ensures var s := domain + "/" + (role + "/" + tail);
      && ParseConnectorId(s) == (if role == "connector" then Split(tail)[0] else "")
      && IdentityMultiDomain(s, role) == (if Split(tail)[0] == "" then None else Some((role, Split(tail)[0])))
      && (forall d, r :: VerifyUri(s, d, r) == None)
      && (forall r :: IdFromSpiffe(s, r) == None)
  {
    var s := domain + "/" + (role + "/" + tail);
    NoScheme(domain, role, tail);
    TwoHeads(domain, role, tail);
    WithoutScheme(s, domain, role, Split(tail));
  }

  lemma WithoutScheme(s: string, domain: string, role: string, parts: seq<string>)
    requires !("spiffe://" <= s) && parts != [] && Split(s) == [domain, role] + parts
    ensures ParseConnectorId(s) == (if role == "connector" then parts[0] else "")
    ensures IdentityMultiDomain(s, role) == (if parts[0] == "" then None else Some((role, parts[0])))
    ensures forall d, r :: VerifyUri(s, d, r) == None
    ensures forall r :: IdFromSpiffe(s, r) == None
  {
    assert TrimPrefix(s, "spiffe://") == s;
  }

  lemma TwoHeads(a: string, b: string, rest: string)
    requires SlashFree(a) && SlashFree(b)
    ensures Split(a + "/" + (b + "/" + rest)) == [a, b] + Split(rest)
  {
    SplitAt(a, b + "/" + rest);
    SplitAt(b, rest);
    assert [a] + ([b] + Split(rest)) == [a, b] + Split(rest);
  }

  lemma SchemeHeads(s: string)
    requires "spiffe://" <= s
    ensures |Split(s)| > 2 && Split(s)[0] == "spiffe:" && Split(s)[1] == ""
  {
    TwoHeads("spiffe:", "", s[9..]);
    assert s == "spiffe:" + "/" + ("" + "/" + s[9..]);
  }

  lemma NoScheme(domain: string, role: string, tail: string)
    requires SlashFree(domain) && SlashFree(role) && (domain != "spiffe:" || role != "")
    ensures !("spiffe://" <= domain + "/" + (role + "/" + tail))
  {
    TwoHeads(domain, role, tail);
    if "spiffe://" <= domain + "/" + (role + "/" + tail) {
      SchemeHeads(domain + "/" + (role + "/" + tail));
    }
  }

  lemma TextIsPrint(domain: string, role: string, last: string, suffix: string)
    ensures Text(Url("spiffe", domain, "/" + role + "/" + last, suffix)) == Print(domain, role, last + suffix)
  {
  }

  // The interceptor accepts only paths of two parts.
  lemma AcceptedPath(u: Url, trustDomain: string, systemDomain: string, roles: set<string>)
      returns (role: string, last: string)
    requires ParsedUrl(u) && Intercept(u, trustDomain, systemDomain, roles).Some?
    ensures Intercept(u, trustDomain, systemDomain, roles) == Some((Text(u), role))
    ensures u.scheme == "spiffe" && u.path == "/" + role + "/" + last && SlashFree(role) && SlashFree(last)
  {
    var p := TrimPrefix(u.path, "/");
    TwoParts(p);
    role, last := Split(p)[0], Split(p)[1];
    assert u.path == "/" + p;
  }

  // Whatever URI the interceptor accepts, all parsers read the same from its text: its host, the role,
  // and an id that without a query or fragment is the second part of the path.
  lemma AcceptedAgree(u: Url, trustDomain: string, systemDomain: string, roles: set<string>)
      returns (role: string, last: string)
    requires ParsedUrl(u) && Intercept(u, trustDomain, systemDomain, roles).Some?
    ensures Intercept(u, trustDomain, systemDomain, roles) == Some((Text(u), role))
    ensures u.path == "/" + role + "/" + last && SlashFree(last)
    ensures Reads(Text(u), u.host, role, Split(last + u.suffix)[0])
    ensures u.suffix == "" ==> Split(last + u.suffix)[0] == last
  {
    role, last := AcceptedPath(u, trustDomain, systemDomain, roles);
    TextViews(u.host, role, last + u.suffix);
    TextIsPrint(u.host, role, last, u.suffix);
    SplitFree(last);
    assert last + "" == last;
  }

  // The URI that is printed for a workload.
  function Printed(domain: string, role: string, id: string): Url {
    Url("spiffe", domain, "/" + role + "/" + id, "")
  }

  lemma IdIsSlashFree(id: string)
    requires ValidId(id)
    ensures SlashFree(id) && id != ""
  {
    assert !IdChar('/');
  }

  lemma PrintedAccepted(domain: string, role: string, id: string,
                        trustDomain: string, systemDomain: string, roles: set<string>)
    requires SlashFree(role) && SlashFree(id)
    ensures Intercept(Printed(domain, role, id), trustDomain, systemDomain, roles) ==
      if ValidDomain(domain, trustDomain, systemDomain) && (roles == {} || role in roles)
      then Some((Text(Printed(domain, role, id)), role)) else None
  {
    SplitAt(role, id);
    SplitFree(id);
    assert ("/" + role + "/" + id)[1..] == role + "/" + id;
  }

  // Printing and parsing: the interceptor accepts what is printed exactly for a trusted domain and an
  // allowed role, and every parser recovers the domain, the role and the id.
  lemma PrintParse(domain: string, role: string, id: string,
                   trustDomain: string, systemDomain: string, roles: set<string>)
    requires SlashFree(domain) && SlashFree(role) && ValidId(id)
    ensures ParsedUrl(Printed(domain, role, id)) && Text(Printed(domain, role, id)) == Print(domain, role, id)
    ensures Intercept(Printed(domain, role, id), trustDomain, systemDomain, roles) ==
      if ValidDomain(domain, trustDomain, systemDomain) && (roles == {} || role in roles)
      then Some((Print(domain, role, id), role)) else None
    ensures Reads(Print(domain, role, id), domain, role, id) && id != ""
  {
    IdIsSlashFree(id);
    PrintedAccepted(domain, role, id, trustDomain, systemDomain, roles);
    SplitFree(id);
    TextViews(domain, role, id);
    TextIsPrint(domain, role, id, "");
    assert id + "" == id;
  }

  // --- What a peer check and the domain check let through ---

  // A string around the first occurrence of a character.
  lemma FindSplits(s: string, c: char)
    requires Find(s, c).Some?
    ensures var n := Find(s, c).value; s == s[..n] + [c] + s[n + 1..]
  {
  }

  lemma VerifiedParts(uri: string, domain: string, role: string) returns (path: string)
    requires role != "" && VerifyUri(uri, domain, role).Some?
    ensures uri == "spiffe://" + (domain + "/" + path) && Split(path)[0] == role
  {
    var rest := uri[|"spiffe://"|..];
    path := rest[Find(rest, '/').value + 1..];
    assert uri == "spiffe://" + rest;
    FindSplits(rest, '/');
  }

  lemma VerifiedForm(uri: string, domain: string, role: string)
    requires role != "" && VerifyUri(uri, domain, role).Some?
    ensures uri == "spiffe://" + (domain + "/" + role)
      || exists tail :: uri == "spiffe://" + (domain + "/" + (role + "/" + tail))
  {
    var path := VerifiedParts(uri, domain, role);
    SplitHead(path);
    if |Split(path)| > 1 {
      var tail :| path == Split(path)[0] + "/" + tail && Split(tail) == Split(path)[1..];
      assert path == role + "/" + tail;
    }
  }

  // The check accepts a role's path with nothing, one part or any number of parts after it.
  lemma VerifyAccepts(uri: string, domain: string, role: string)
    requires SlashFree(domain) && SlashFree(role) && role != ""
    ensures VerifyUri(uri, domain, role).Some? <==>
      || uri == "spiffe://" + (domain + "/" + role)
      || exists tail :: uri == "spiffe://" + (domain + "/" + (role + "/" + tail))
  {
    if VerifyUri(uri, domain, role).Some? {
      VerifiedForm(uri, domain, role);
    }
    Views(domain, role);
    SplitFree(role);
    if tail :| uri == "spiffe://" + (domain + "/" + (role + "/" + tail)) {
      PrintCut(domain, role, tail);
      TextViews(domain, role, tail);
    }
  }

  // The controller trusts its own domain and every subdomain of the system domain, not that one itself.
  lemma DomainsAccepted(domain: string, globalDomain: string, systemDomain: string)
    ensures ValidDomain(domain, globalDomain, systemDomain) <==>
      domain == globalDomain || (systemDomain != "" && exists prefix :: domain == prefix + "." + systemDomain)
    ensures ValidDomain(systemDomain, globalDomain, systemDomain) <==> systemDomain == globalDomain
  {
    var suffix := "." + systemDomain;
    if HasSuffix(domain, suffix) {
      assert domain == domain[..|domain| - |suffix|] + "." + systemDomain;
    }
    if prefix :| domain == prefix + "." + systemDomain {
      assert domain == prefix + suffix;
      assert domain[|prefix|..] == suffix;
    }
  }
}
