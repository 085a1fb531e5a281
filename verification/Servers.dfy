/** Server definitions, and when two of them address the same server. */
module Servers {
  import opened Common
  import opened ServerNames

  datatype Transport =
    | Stdio(command: string, args: seq<string>, env: map<string, string>)
    | Http(url: string, headersCommand: seq<string>, headers: map<string, string>, auth: Option<string>)

  datatype ToolRules = ToolRules(allow: seq<string>, deny: seq<string>, drift: nat)

  datatype Server = Server(enabled: bool, tags: seq<string>, callsPerMinute: u32, transport: Transport,
                           tools: Option<ToolRules>)

  // ---- URLs as comparison keys ----

  /** A URL with a scheme separator, cut into its parts. The query keeps its `?` or `#`. */
  datatype Parts = Parts(scheme: string, authority: string, path: string, query: string)

  const PATH_STOPS := {'/', '?', '#'}
  const QUERY_STOPS := {'?', '#'}

  /** The first place one of `stops` is at, or the end. */
  function Find(s: string, stops: set<char>): (i: nat)
    ensures i <= |s| && (forall k :: 0 <= k < i ==> s[k] !in stops)
    ensures i < |s| ==> s[i] in stops
  {
    if s == "" || s[0] in stops then 0 else Find(s[1..], stops) + 1
  }

  predicate SeparatorAt(s: string, i: int) {
    0 <= i && i + 3 <= |s| && s[i] == ':' && s[i + 1] == '/' && s[i + 2] == '/'
  }

  function FindSeparator(s: string, from: nat): (r: Option<nat>)
    requires from <= |s|
    ensures r.Some? ==> SeparatorAt(s, r.value) && forall k :: from <= k < r.value ==> !SeparatorAt(s, k)
    ensures r.None? ==> forall k :: from <= k ==> !SeparatorAt(s, k)
    decreases |s| - from
  {
    if from == |s| then None
    else if SeparatorAt(s, from) then Some(from)
    else FindSeparator(s, from + 1)
  }

  function CutRest(scheme: string, rest: string): Parts {
    var a := Find(rest, PATH_STOPS);
    var tail := rest[a..];
    var q := Find(tail, QUERY_STOPS);
    Parts(scheme, rest[..a], tail[..q], tail[q..])
  }

  function Cut(url: string): Option<Parts> {
    match FindSeparator(url, 0)
    case None => None
    case Some(i) => Some(CutRest(url[..i], url[i + 3..]))
  }

  function Joined(p: Parts): string {
    p.scheme + "://" + p.authority + p.path + p.query
  }

  /** The host in lower case; user information keeps its case. */
  function LowerHost(authority: string): string {
    var at := Find(authority, {'@'});
    if at < |authority| then authority[..at + 1] + Lower(authority[at + 1..]) else Lower(authority)
  }

  /** Without one trailing slash. */
  function Stripped(path: string): string {
    if path != "" && path[|path| - 1] == '/' then path[..|path| - 1] else path
  }

  function Normal(p: Parts): Parts {
    Parts(Lower(p.scheme), LowerHost(p.authority), Stripped(p.path), p.query)
  }

  function CanonicalUrl(url: string): string {
    match Cut(url)
    case None => url
    case Some(p) => Joined(Normal(p))
  }

  /** Parts as a cut makes them. */
  ghost predicate WellCut(p: Parts) {
    && (forall k :: 0 <= k < |p.scheme| ==> !SeparatorAt(p.scheme + "://", k))
    && (forall k :: 0 <= k < |p.authority| ==> p.authority[k] !in PATH_STOPS)
    && (p.path != "" ==> p.path[0] == '/')
    && (forall k :: 0 <= k < |p.path| ==> p.path[k] !in QUERY_STOPS)
    && (p.query != "" ==> p.query[0] in QUERY_STOPS)
  }

  lemma FindAfter(p: string, s: string, stops: set<char>)
    requires forall k :: 0 <= k < |p| ==> p[k] !in stops
    requires s != "" ==> s[0] in stops
    ensures Find(p + s, stops) == |p|
  {
    assert forall k :: 0 <= k < |p| ==> (p + s)[k] == p[k];
    assert s != "" ==> (p + s)[|p|] == s[0];
  }

  lemma SeparatorFirst(scheme: string, rest: string)
    requires forall k :: 0 <= k < |scheme| ==> !SeparatorAt(scheme + "://", k)
    ensures FindSeparator(scheme + "://" + rest, 0) == Some(|scheme|)
  {
    var s, t := scheme + "://" + rest, scheme + "://";
    assert SeparatorAt(s, |scheme|);
    forall k | 0 <= k < |scheme| ensures !SeparatorAt(s, k) {
      assert t[k] == s[k] && t[k + 1] == s[k + 1] && t[k + 2] == s[k + 2];
      assert !SeparatorAt(t, k);
    }
  }

  lemma CutRestJoined(p: Parts)
    requires WellCut(p)
    ensures CutRest(p.scheme, p.authority + (p.path + p.query)) == p
  {
    var tail := p.path + p.query;
    FindAfter(p.authority, tail, PATH_STOPS);
    assert (p.authority + tail)[|p.authority|..] == tail && (p.authority + tail)[..|p.authority|] == p.authority;
    FindAfter(p.path, p.query, QUERY_STOPS);
    assert tail[..|p.path|] == p.path && tail[|p.path|..] == p.query;
  }

  lemma CutJoined(p: Parts)
    requires WellCut(p)
    ensures Cut(Joined(p)) == Some(p)
  {
    var head, rest := p.scheme + "://", p.authority + (p.path + p.query);
    Reassociate(head, p.authority, p.path, p.query);
    SeparatorFirst(p.scheme, rest);
    assert (head + rest)[|p.scheme| + 3..] == rest && (head + rest)[..|p.scheme|] == p.scheme;
    CutRestJoined(p);
  }

  lemma CutScheme(url: string, i: nat)
    requires FindSeparator(url, 0) == Some(i)
    ensures i + 3 <= |url| && url[..i + 3] == url[..i] + "://"
    ensures forall k :: 0 <= k < i ==> !SeparatorAt(url[..i] + "://", k)
  {
    var t := url[..i] + "://";
    assert t == url[..i + 3];
    forall k | 0 <= k < i ensures !SeparatorAt(t, k) {
      assert !SeparatorAt(url, k);
      assert t[k] == url[k] && t[k + 1] == url[k + 1] && t[k + 2] == url[k + 2];
    }
  }

  lemma CutRestParts(scheme: string, rest: string)
    ensures var p := CutRest(scheme, rest);
            rest == p.authority + (p.path + p.query)
            && (forall k :: 0 <= k < |p.authority| ==> p.authority[k] !in PATH_STOPS)
            && (p.path != "" ==> p.path[0] == '/')
            && (forall k :: 0 <= k < |p.path| ==> p.path[k] !in QUERY_STOPS)
            && (p.query != "" ==> p.query[0] in QUERY_STOPS)
  {
    var a := Find(rest, PATH_STOPS);
    var tail := rest[a..];
    var q := Find(tail, QUERY_STOPS);
    assert tail == tail[..q] + tail[q..];
    if q > 0 { assert tail[0] == rest[a]; }
  }

  lemma CutIsWell(url: string)
    requires Cut(url).Some?
    ensures WellCut(Cut(url).value) && Joined(Cut(url).value) == url
  {
    var p := Cut(url).value;
    var i := FindSeparator(url, 0).value;
    CutScheme(url, i);
    CutRestParts(url[..i], url[i + 3..]);
    Reassociate(url[..i + 3], p.authority, p.path, p.query);
    assert url == url[..i + 3] + url[i + 3..];
  }

  lemma Reassociate(a: string, b: string, c: string, d: string)
    ensures a + b + c + d == a + (b + (c + d))
  {
  }

  lemma LowerHostShape(authority: string)
    ensures |LowerHost(authority)| == |authority|
    ensures forall k :: 0 <= k < |authority| ==>
              LowerHost(authority)[k] in {authority[k], LowerChar(authority[k])}
    ensures LowerHost(LowerHost(authority)) == LowerHost(authority)
  {
    var at := Find(authority, {'@'});
    var l := LowerHost(authority);
    if at < |authority| {
      FindAfter(authority[..at], ['@'] + Lower(authority[at + 1..]), {'@'});
      assert l == authority[..at] + (['@'] + Lower(authority[at + 1..]));
      assert l[..at + 1] == authority[..at + 1] && l[at + 1..] == Lower(authority[at + 1..]);
      assert Lower(l[at + 1..]) == l[at + 1..];
    } else {
      FindAfter(l, "", {'@'});
      assert l + "" == l;
      assert Lower(l) == l;
    }
  }

  lemma NormalIsWell(p: Parts)
    requires WellCut(p)
    ensures WellCut(Normal(p))
  {
    var s, t := p.scheme + "://", Lower(p.scheme) + "://";
    forall k | 0 <= k < |p.scheme| ensures !SeparatorAt(t, k) {
      assert !SeparatorAt(s, k);
      assert forall j :: k <= j < k + 3 ==> t[j] == LowerChar(s[j]);
    }
    LowerHostShape(p.authority);
  }

  /** The key of a URL is cut where the URL is, so it can be read back part by part. */
  lemma KeyReadsBack(url: string)
    ensures match Cut(url)
            case None => Cut(CanonicalUrl(url)) == None
            case Some(p) => Cut(CanonicalUrl(url)) == Some(Normal(p))
  {
    if Cut(url).Some? {
      var p := Cut(url).value;
      CutIsWell(url);
      NormalIsWell(p);
      CutJoined(Normal(p));
    }
  }

  /** What the key identifies: the scheme and the host up to case and the path up to one final
      slash, everything else exactly; a text that is no URL equals only itself. */
  lemma SameKey(a: string, b: string)
    ensures CanonicalUrl(a) == CanonicalUrl(b) <==>
              if Cut(a).Some? && Cut(b).Some? then Normal(Cut(a).value) == Normal(Cut(b).value) else a == b
  {
    KeyReadsBack(a);
    KeyReadsBack(b);
  }

  /** Taking the key of a key strips a second slash, so the key is a fixed point only when the
      path ends in less than two. */
  lemma KeyFixedPoint(url: string)
    ensures CanonicalUrl(CanonicalUrl(url)) == CanonicalUrl(url) <==>
              match Cut(url)
              case None => true
              case Some(p) => !(|p.path| >= 2 && p.path[|p.path| - 2] == '/' && p.path[|p.path| - 1] == '/')
  {
    KeyReadsBack(url);
    SameKey(CanonicalUrl(url), url);
    if Cut(url).Some? { NormalTwice(Cut(url).value); }
  }

  lemma NormalTwice(p: Parts)
    ensures Normal(Normal(p)) == Normal(p) <==>
              !(|p.path| >= 2 && p.path[|p.path| - 2] == '/' && p.path[|p.path| - 1] == '/')
  {
    LowerHostShape(p.authority);
    assert Lower(Lower(p.scheme)) == Lower(p.scheme);
  }

  // ---- transports ----

  /** Whether two transports address the same server. The `auth` table is no part of it. */
  predicate SameTransport(a: Transport, b: Transport) {
    if a.Http? && b.Http? then
      && a.headersCommand == b.headersCommand
      && a.headers == b.headers
      && CanonicalUrl(a.url) == CanonicalUrl(b.url)
    else
      a == b
  }

  lemma SameTransportIsAnEquivalence(a: Transport, b: Transport, c: Transport)
    ensures SameTransport(a, a)
    ensures SameTransport(a, b) ==> SameTransport(b, a)
    ensures SameTransport(a, b) && SameTransport(b, c) ==> SameTransport(a, c)
  {
  }

  /** Both http, same address, same header names, different values. */
  predicate OtherCredentials(a: Transport, b: Transport) {
    && a.Http? && b.Http? && a.headers != map[]
    && CanonicalUrl(a.url) == CanonicalUrl(b.url)
    && b.headers.Keys == a.headers.Keys
    && b.headers != a.headers
  }

  /** One server under two sets of credentials is mutual, and never the same definition, so it is
      only ever reported, never merged. */
  lemma OtherCredentialsAreMutual(a: Transport, b: Transport)
    ensures OtherCredentials(a, b) <==> OtherCredentials(b, a)
    ensures OtherCredentials(a, b) ==> !SameTransport(a, b)
  {
    if a.Http? && b.Http? && a.headers.Keys == b.headers.Keys {
      assert a.headers == map[] <==> a.headers.Keys == {};
      assert b.headers == map[] <==> b.headers.Keys == {};
    }
  }

  // ---- read off the two transports ----

  /** The same letter, in either case. */
  predicate SameLetter(x: char, y: char) {
    || x == y
    || ('A' <= x <= 'Z' && y as int == x as int + 32)
    || ('A' <= y <= 'Z' && x as int == y as int + 32)
  }

  predicate SameLetters(a: string, b: string) {
    |a| == |b| && forall i :: 0 <= i < |a| ==> SameLetter(a[i], b[i])
  }

  /** Whether the character at `i` belongs to the host: it does unless an `@` at it or further on ends
      the user information, the first one counting. */
  predicate InHost(authority: string, i: nat)
    requires i < |authority|
  {
    || (exists j :: 0 <= j < i && authority[j] == '@')
    || (forall j :: 0 <= j < |authority| ==> authority[j] != '@')
  }

  predicate SameAuthority(a: string, b: string) {
    |a| == |b| && forall i :: 0 <= i < |a| ==> if InHost(a, i) then SameLetter(a[i], b[i]) else a[i] == b[i]
  }

  /** One of the two may have a final slash the other, which does not end in one, has not. */
  predicate SamePath(a: string, b: string) {
    || a == b
    || (a == b + "/" && (b == "" || b[|b| - 1] != '/'))
    || (b == a + "/" && (a == "" || a[|a| - 1] != '/'))
  }

  /** Two URLs of one server, by their parts; a text that is no URL is only itself. */
  predicate SameUrl(a: string, b: string) {
    match (Cut(a), Cut(b))
    case (Some(p), Some(q)) =>
      && SameLetters(p.scheme, q.scheme) && SameAuthority(p.authority, q.authority) && SamePath(p.path, q.path)
      && p.query == q.query
    case _ => a == b
  }

  lemma LetterDecides(x: char, y: char)
    ensures LowerChar(x) == LowerChar(y) <==> SameLetter(x, y)
  {
  }

  lemma LowerDecides(a: string, b: string)
    ensures Lower(a) == Lower(b) <==> SameLetters(a, b)
  {
    if Lower(a) == Lower(b) {
      forall i | 0 <= i < |a| ensures SameLetter(a[i], b[i]) {
        assert Lower(a)[i] == Lower(b)[i];
        LetterDecides(a[i], b[i]);
      }
    }
  }

  lemma HostStarts(a: string, i: nat)
    requires i < |a|
    ensures var at := Find(a, {'@'});
            InHost(a, i) <==> if at < |a| then i > at else true
  {
    var at := Find(a, {'@'});
    if at < |a| { assert a[at] == '@'; }
  }

  lemma LowerHostAt(a: string, i: nat)
    requires i < |a|
    ensures |LowerHost(a)| == |a| && LowerHost(a)[i] == if InHost(a, i) then LowerChar(a[i]) else a[i]
  {
    HostStarts(a, i);
    LowerHostShape(a);
  }

  lemma SameHostEnds(a: string, b: string)
    requires |a| == |b|
    requires forall i :: 0 <= i < |a| ==> LowerChar(a[i]) == LowerChar(b[i])
    ensures forall i :: 0 <= i < |a| ==> InHost(a, i) == InHost(b, i)
  {
    forall i | 0 <= i < |a| ensures a[i] == '@' <==> b[i] == '@' { assert LowerChar(a[i]) == LowerChar(b[i]); }
  }

  lemma LowerHostAgrees(a: string, b: string)
    requires LowerHost(a) == LowerHost(b)
    ensures |a| == |b| && forall i :: 0 <= i < |a| ==> LowerChar(a[i]) == LowerChar(b[i])
  {
    LowerHostShape(a);
    LowerHostShape(b);
    forall i | 0 <= i < |a| ensures LowerChar(a[i]) == LowerChar(b[i]) {
      assert LowerHost(a)[i] == LowerHost(b)[i];
    }
  }

  lemma SameAuthorityAgrees(a: string, b: string)
    requires SameAuthority(a, b)
    ensures |a| == |b| && forall i :: 0 <= i < |a| ==> LowerChar(a[i]) == LowerChar(b[i])
  {
  }

  lemma LowerHostDecidesAt(a: string, b: string, i: nat)
    requires i < |a| == |b| && InHost(a, i) == InHost(b, i)
    ensures |LowerHost(a)| == |LowerHost(b)| == |a|
    ensures LowerHost(a)[i] == LowerHost(b)[i] <==> if InHost(a, i) then SameLetter(a[i], b[i]) else a[i] == b[i]
  {
    LowerHostAt(a, i);
    LowerHostAt(b, i);
    LetterDecides(a[i], b[i]);
  }

  lemma LowerHostDecides(a: string, b: string)
    ensures LowerHost(a) == LowerHost(b) <==> SameAuthority(a, b)
  {
    LowerHostShape(a);
    LowerHostShape(b);
    if LowerHost(a) == LowerHost(b) {
      LowerHostAgrees(a, b);
      SameHostEnds(a, b);
      forall i | 0 <= i < |a| ensures if InHost(a, i) then SameLetter(a[i], b[i]) else a[i] == b[i] {
        LowerHostDecidesAt(a, b, i);
      }
    } else if SameAuthority(a, b) {
      SameAuthorityAgrees(a, b);
      SameHostEnds(a, b);
      forall i | 0 <= i < |a| ensures LowerHost(a)[i] == LowerHost(b)[i] { LowerHostDecidesAt(a, b, i); }
      assert false;
    }
  }

  lemma StrippedDecides(a: string, b: string)
    ensures Stripped(a) == Stripped(b) <==> SamePath(a, b)
  {
    if a != "" { assert a == a[..|a| - 1] + [a[|a| - 1]]; }
    if b != "" { assert b == b[..|b| - 1] + [b[|b| - 1]]; }
    if a == b + "/" { assert a[..|a| - 1] == b; }
    if b == a + "/" { assert b[..|b| - 1] == a; }
  }

  /** One key exactly for the scheme and the host in any case, the user information, the query and
      the path exactly, one final slash aside. */
  lemma KeyDecides(a: string, b: string)
    ensures CanonicalUrl(a) == CanonicalUrl(b) <==> SameUrl(a, b)
  {
    SameKey(a, b);
    if Cut(a).Some? && Cut(b).Some? {
      var p, q := Cut(a).value, Cut(b).value;
      LowerDecides(p.scheme, q.scheme);
      LowerHostDecides(p.authority, q.authority);
      StrippedDecides(p.path, q.path);
    }
  }

  /** Two transports address one server exactly if both run the same command with the same arguments
      in the same environment, or both call the same URL with the same headers from the same place. */
  lemma SameServer(a: Transport, b: Transport)
    ensures SameTransport(a, b) <==>
              match (a, b)
              case (Stdio(c, args, env), Stdio(d, brgs, fnv)) => c == d && args == brgs && env == fnv
              case (Http(u, hc, h, _), Http(v, hd, g, _)) => SameUrl(u, v) && hc == hd && h == g
              case _ => false
  {
    if a.Http? && b.Http? { KeyDecides(a.url, b.url); }
  }

  /** Other credentials are the same URL and header names with another value under one of them. */
  lemma SameServerOtherHeaders(a: Transport, b: Transport)
    ensures OtherCredentials(a, b) <==>
              && a.Http? && b.Http? && SameUrl(a.url, b.url)
              && (forall h :: h in a.headers <==> h in b.headers)
              && exists h :: h in a.headers && h in b.headers && a.headers[h] != b.headers[h]
  {
    if a.Http? && b.Http? {
      KeyDecides(a.url, b.url);
      if a.headers.Keys == b.headers.Keys && a.headers != b.headers {
        assert exists h :: h in a.headers && a.headers[h] != b.headers[h];
      }
    }
  }
}
