/** Which site a host and a cookie belong to (backend/app/sites/utils.py). */
module Sites {
  import opened Wrappers
  import opened Text
  import opened Cookies

  function LowerChar(c: char): char {
    if 'A' <= c <= 'Z' then 'a' + (c - 'A') else c
  }

  /** `str.lower` on ASCII. */
  function Lower(s: string): (r: string)
    ensures |r| == |s|
  {
    seq(|s|, i requires 0 <= i < |s| => LowerChar(s[i]))
  }

  function Normal(host: string): string {
    Strip(Lower(host), {'.'})
  }

  /** The same letters, each in either case. */
  predicate SameLetters(a: string, b: string) {
    |a| == |b| && forall i :: 0 <= i < |a| ==>
      || a[i] == b[i]
      || ('A' <= a[i] <= 'Z' && b[i] as int == a[i] as int + 32)
      || ('A' <= b[i] <= 'Z' && a[i] as int == b[i] as int + 32)
  }

  /** A host in small letters without dots at its ends is compared as it is. */
  lemma PlainHostStays(host: string)
    requires forall i :: 0 <= i < |host| ==> !('A' <= host[i] <= 'Z')
    requires host != "" ==> host[0] != '.' && host[|host| - 1] != '.'
    ensures Normal(host) == host
  {
    assert Lower(host) == host;
    StripIdentity(host, {'.'});
  }

  /** Case and dots at the ends make no difference. */
  lemma CaseAndEndDotsDontMatter(host: string, other: string)
    ensures SameLetters(host, other) ==> Normal(host) == Normal(other)
    ensures Normal("." + host) == Normal(host) && Normal(host + ".") == Normal(host)
  {
    hide Strip;
    if SameLetters(host, other) { assert Lower(host) == Lower(other); }
    assert Lower("." + host) == "." + Lower(host) && Lower(host + ".") == Lower(host) + ".";
    StripIgnores(Lower(host), '.', {'.'});
  }

  predicate HostMatches(host: string, domain: string) {
    var h, d := Normal(host), Normal(domain);
    d != "" && (h == d || EndsWith(h, "." + d))
  }

  /** Label by label, the host ends in the domain. */
  predicate EndsInLabels(host: string, domain: string) {
    var h, d := Split(host, '.'), Split(domain, '.');
    |d| <= |h| && h[|h| - |d|..] == d
  }

  /** A host matches a domain exactly when its last labels are the domain's: `notyoutube.com`
      and `youtube.com.evil` are not in `youtube.com`. */
  lemma MatchesByLabels(host: string, domain: string)
    ensures HostMatches(host, domain) <==> Normal(domain) != "" && EndsInLabels(Normal(host), Normal(domain))
  {
    hide Normal;
    var h, d := Normal(host), Normal(domain);
    if d != "" && EndsWith(h, "." + d) {
      var head := h[..|h| - |d| - 1];
      assert h == head + "." + d;
      SplitBoth(head, d, '.');
    }
    if d != "" && EndsInLabels(h, d) {
      LabelsMeanSuffix(h, d);
    }
  }

  lemma LabelsMeanSuffix(h: string, d: string)
    requires EndsInLabels(h, d)
    ensures h == d || EndsWith(h, "." + d)
  {
    hide Split, Join;
    var hs, ds := Split(h, '.'), Split(d, '.');
    JoinSplit(h, '.');
    JoinSplit(d, '.');
    var front := hs[..|hs| - |ds|];
    assert hs == front + ds;
    if front == [] {
      assert hs == ds;
    } else {
      JoinBoth(front, ds, '.');
      assert h == Join(front, '.') + ("." + d);
    }
  }

  // --- The site of a URL ----------------------------------------------------------------

  datatype Site = Site(key: string, domains: seq<string>)

  predicate Matches(host: string, sites: seq<Site>, i: nat, j: nat) {
    i < |sites| && j < |sites[i].domains| && HostMatches(host, sites[i].domains[j])
  }

  /** The domain at (i, j) is at least as long as every one that matches, and longer than
      those of the sites before. */
  ghost predicate Wins(host: string, sites: seq<Site>, i: nat, j: nat) {
    && Matches(host, sites, i, j)
    && forall k: nat, l: nat :: Matches(host, sites, k, l) ==>
      |sites[k].domains[l]| < |sites[i].domains[j]| || (i <= k && |sites[k].domains[l]| == |sites[i].domains[j]|)
  }

  /** (i, j) comes before (a, b) in the order of the loops. */
  predicate Seen(i: nat, j: nat, a: nat, b: nat) {
    i < a || (i == a && j < b)
  }

  ghost predicate WinsSoFar(host: string, sites: seq<Site>, i: nat, j: nat, a: nat, b: nat) {
    && Matches(host, sites, i, j) && Seen(i, j, a, b)
    && forall k: nat, l: nat :: Matches(host, sites, k, l) && Seen(k, l, a, b) ==>
      |sites[k].domains[l]| < |sites[i].domains[j]| || (i <= k && |sites[k].domains[l]| == |sites[i].domains[j]|)
  }

  /** `match_site` for the host name of a URL, over the sites in the order `sorted` gives
      them: the longest matching domain wins, of the first site that has one so long. */
  method MatchSite(host: string, sites: seq<Site>) returns (key: Option<string>)
    ensures key.None? ==> forall i: nat, j: nat :: !Matches(host, sites, i, j)
    ensures key.Some? ==> exists i: nat, j: nat :: Wins(host, sites, i, j) && sites[i].key == key.value
  {
    hide HostMatches;
    var best: Option<(nat, string)> := None;
    ghost var i: nat, j: nat := 0, 0;
    var a := 0;
    while a < |sites|
      invariant 0 <= a <= |sites|
      invariant BestIs(host, sites, best, i, j, a, 0)
    {
      var domains := sites[a].domains;
      var b := 0;
      while b < |domains|
        invariant 0 <= b <= |domains|
        invariant BestIs(host, sites, best, i, j, a, b)
      {
        var domain := domains[b];
        if HostMatches(host, domain) && (best.None? || |domain| > best.value.0) {
          best := Some((|domain|, sites[a].key));
          i, j := a, b;
        }
        b := b + 1;
      }
      a := a + 1;
    }
    if best.None? {
      return None;
    }
    assert Wins(host, sites, i, j);
    return Some(best.value.1);
  }

  /** What the loops know after everything before (a, b). */
  ghost predicate BestIs(host: string, sites: seq<Site>, best: Option<(nat, string)>, i: nat, j: nat, a: nat, b: nat) {
    if best.None? then forall k: nat, l: nat :: Matches(host, sites, k, l) ==> !Seen(k, l, a, b)
    else WinsSoFar(host, sites, i, j, a, b) && best.value == (|sites[i].domains[j]|, sites[i].key)
  }

  // --- The cookies of a site ------------------------------------------------------------

  predicate MatchesAny(c: CookieLine, domains: seq<string>) {
    exists i :: 0 <= i < |domains| && HostMatches(c.domain, domains[i])
  }

  /** `keep_for_domains`. */
  function Keep(cookies: seq<CookieLine>, domains: seq<string>): (r: seq<CookieLine>)
    ensures forall c :: c in r <==> c in cookies && MatchesAny(c, domains)
  {
    if cookies == [] then []
    else (if MatchesAny(cookies[0], domains) then [cookies[0]] else []) + Keep(cookies[1..], domains)
  }

  /** Order and repetition stay: what is kept of a list is what is kept of its parts. */
  lemma {:induction false} KeepOfParts(a: seq<CookieLine>, b: seq<CookieLine>, domains: seq<string>)
    ensures Keep(a + b, domains) == Keep(a, domains) + Keep(b, domains)
  {
    hide MatchesAny, Keep;
    if a == [] {
      assert a + b == b;
      KeepNothing(domains);
      assert [] + Keep(b, domains) == Keep(b, domains);
    } else {
      var head: seq<CookieLine> := if MatchesAny(a[0], domains) then [a[0]] else [];
      KeepOfParts(a[1..], b, domains);
      KeepHead(a[0], a[1..], domains);
      KeepHead(a[0], a[1..] + b, domains);
      assert a + b == [a[0]] + (a[1..] + b) && a == [a[0]] + a[1..];
      Regroup(head, Keep(a[1..], domains), Keep(b, domains));
    }
  }

  lemma KeepNothing(domains: seq<string>)
    ensures Keep([], domains) == []
  {
  }

  lemma KeepHead(c: CookieLine, rest: seq<CookieLine>, domains: seq<string>)
    ensures Keep([c] + rest, domains) == (if MatchesAny(c, domains) then [c] else []) + Keep(rest, domains)
  {
    hide MatchesAny;
    assert ([c] + rest)[1..] == rest;
  }

  lemma Regroup(a: seq<CookieLine>, b: seq<CookieLine>, c: seq<CookieLine>)
    ensures a + (b + c) == a + b + c
  {
  }

  lemma {:induction false} KeepAll(cookies: seq<CookieLine>, domains: seq<string>)
    requires forall c :: c in cookies ==> MatchesAny(c, domains)
    ensures Keep(cookies, domains) == cookies
  {
    hide MatchesAny;
    if cookies != [] {
      KeepAll(cookies[1..], domains);
      assert [cookies[0]] + cookies[1..] == cookies;
    }
  }

  /** Storing the site's part of an upload: the stored file parses to exactly those cookies,
      and filtering and storing it again gives the same file. */
  lemma StoringIsAFixpoint(text: string, domains: seq<string>)
    requires ParseText(text).Parsed?
    ensures var kept := Keep(ParseText(text).cookies, domains);
      && ParseText(Render(kept)) == Parsed(kept)
      && Render(Keep(ParseText(Render(kept)).cookies, domains)) == Render(kept)
  {
    hide ParseText, Render, Readable, MatchesAny;
    var cookies := ParseText(text).cookies;
    var kept := Keep(cookies, domains);
    ParsedIsReadable(text);
    forall i | 0 <= i < |kept| ensures Readable(kept[i]) {
      assert kept[i] in cookies;
    }
    ParseRender(kept);
    KeepAll(kept, domains);
  }
}
