/**
 The canonical form of a URL, on URLs already split into their parts with the query
 decoded into pairs. Case folding is that of ASCII.
 */
module UrlNorm {
  import opened Text

  type Pair = (string, string)

  datatype Url = Url(scheme: string, netloc: string, path: string, query: seq<Pair>, fragment: string)

  function LowerChar(c: char): char {
    if 'A' <= c <= 'Z' then (c - 'A') + 'a' else c
  }

  function Lower(s: string): (t: string)
    ensures |t| == |s|
  {
    seq(|s|, i requires 0 <= i < |s| => LowerChar(s[i]))
  }

  const CAPITALS := "ABCDEFGHIJKLMNOPQRSTUVWXYZ"
  const SMALL := "abcdefghijklmnopqrstuvwxyz"

  /** One letter, whatever its case; any other character is itself alone. */
  predicate SameLetter(c: char, d: char) {
    c == d || exists k :: 0 <= k < 26 && c in [CAPITALS[k], SMALL[k]] && d in [CAPITALS[k], SMALL[k]]
  }

  predicate SameLetters(s: string, t: string) {
    |s| == |t| && forall i :: 0 <= i < |s| ==> SameLetter(s[i], t[i])
  }

  predicate StartsWith(s: string, p: string) {
    |p| <= |s| && s[..|p|] == p
  }

  predicate EndsWith(s: string, p: string) {
    |p| <= |s| && s[|s| - |p|..] == p
  }

  const TRACKING_PREFIX := "utm_"

  const TRACKING_PARAMS := {
    "fbclid", "gclid", "dclid", "msclkid", "mc_cid", "mc_eid", "igshid", "ref", "ref_src", "ref_url", "source", "s",
    "si", "feature", "share_id", "_hsenc", "_hsmi", "yclid", "twclid"}

  predicate IsTracking(key: string) {
    StartsWith(Lower(key), TRACKING_PREFIX) || Lower(key) in TRACKING_PARAMS
  }

  function Kept(query: seq<Pair>): seq<Pair> {
    if query == [] then []
    else Kept(query[..|query| - 1]) + if IsTracking(query[|query| - 1].0) then [] else [query[|query| - 1]]
  }

  /** Python's order on pairs of strings. */
  predicate PairLess(a: Pair, b: Pair) {
    Less(a.0, b.0) || (a.0 == b.0 && Less(a.1, b.1))
  }

  function InsertPair(x: Pair, s: seq<Pair>): seq<Pair> {
    if s == [] || !PairLess(s[0], x) then [x] + s else [s[0]] + InsertPair(x, s[1..])
  }

  function SortPairs(s: seq<Pair>): seq<Pair> {
    if s == [] then [] else InsertPair(s[0], SortPairs(s[1..]))
  }

  function DropWww(host: string): string {
    if StartsWith(host, "www.") then host[4..] else host
  }

  /** The port a scheme implies, with its colon; "" for other schemes. */
  function DefaultPort(scheme: string): string {
    if scheme == "https" then ":443" else if scheme == "http" then ":80" else ""
  }

  function DropPort(scheme: string, host: string): string {
    var port := DefaultPort(scheme);
    if port != "" && EndsWith(host, port) then host[..|host| - |port|] else host
  }

  /** path.rstrip("/"). */
  function StripSlashes(path: string): string {
    if path != "" && path[|path| - 1] == '/' then StripSlashes(path[..|path| - 1]) else path
  }

  function NormalPath(path: string): string {
    var p := if path == "" then "/" else path;
    if |p| > 1 && p[|p| - 1] == '/' then StripSlashes(p) else p
  }

  function NormalScheme(scheme: string): string {
    Lower(if scheme == "" then "https" else scheme)
  }

  function NormalHost(scheme: string, netloc: string): string {
    DropPort(NormalScheme(scheme), DropWww(Lower(netloc)))
  }

  function Normalize(u: Url): Url {
    Url(NormalScheme(u.scheme), NormalHost(u.scheme, u.netloc), NormalPath(u.path), SortPairs(Kept(u.query)), "")
  }

  // ----- Letter case does not show in scheme and host -----

  lemma AlphabetAt(k: nat)
    requires k < 26
    ensures CAPITALS[k] == 'A' + k as char && SMALL[k] == 'a' + k as char
  {
  }

  lemma Alphabets()
    ensures |CAPITALS| == 26 == |SMALL|
    ensures forall k :: 0 <= k < 26 ==> CAPITALS[k] == 'A' + k as char && SMALL[k] == 'a' + k as char
  {
    forall k | 0 <= k < 26 ensures CAPITALS[k] == 'A' + k as char && SMALL[k] == 'a' + k as char {
      AlphabetAt(k);
    }
  }

  lemma CapitalExact(c: char)
    ensures c in CAPITALS <==> 'A' <= c <= 'Z'
    ensures 'A' <= c <= 'Z' ==> SameLetter(c, LowerChar(c)) && LowerChar(c) !in CAPITALS
  {
    hide CAPITALS, SMALL;
    Alphabets();
    if 'A' <= c <= 'Z' {
      var k := (c - 'A') as nat;
      assert CAPITALS[k] == c && SMALL[k] == LowerChar(c);
      assert c in [CAPITALS[k], SMALL[k]] && LowerChar(c) in [CAPITALS[k], SMALL[k]];
    }
  }

  lemma LowerCharExact(c: char, d: char)
    ensures LowerChar(c) == LowerChar(d) <==> SameLetter(c, d)
    ensures SameLetter(c, LowerChar(c)) && LowerChar(c) !in CAPITALS
  {
    hide CAPITALS, SMALL;
    Alphabets();
    CapitalExact(c);
    CapitalExact(d);
    if LowerChar(c) == LowerChar(d) && c != d {
      var k := (LowerChar(c) - 'a') as nat;
      assert c in [CAPITALS[k], SMALL[k]] && d in [CAPITALS[k], SMALL[k]];
    }
  }

  /** Lower-cased texts agree exactly when they agree up to letter case; the small letters stand for both. */
  lemma LowerExact(s: string, t: string)
    ensures Lower(s) == Lower(t) <==> SameLetters(s, t)
    ensures SameLetters(s, Lower(s)) && forall c <- Lower(s) :: c !in CAPITALS
  {
    hide LowerChar, SameLetter, CAPITALS;
    forall i | 0 <= i < |s| ensures SameLetter(s[i], Lower(s)[i]) && Lower(s)[i] !in CAPITALS {
      LowerCharExact(s[i], s[i]);
    }
    forall i | 0 <= i < |s| && |s| == |t| ensures Lower(s)[i] == Lower(t)[i] <==> SameLetter(s[i], t[i]) {
      LowerCharExact(s[i], t[i]);
    }
    assert Lower(s) == Lower(t) <==> |s| == |t| && forall i :: 0 <= i < |s| ==> Lower(s)[i] == Lower(t)[i];
  }

  /** URLs that differ in the case of scheme and host alone are one. */
  lemma CaseInvariant(u: Url, scheme: string, netloc: string)
    requires SameLetters(u.scheme, scheme) && SameLetters(u.netloc, netloc)
    ensures Normalize(u.(scheme := scheme, netloc := netloc)) == Normalize(u)
  {
    hide Lower, DropPort, DropWww;
    LowerExact(u.scheme, scheme);
    LowerExact(u.netloc, netloc);
  }

  // ----- What else does not show -----

  predicate Plain(h: string, port: string) {
    Lower(h) == h && !StartsWith(h, "www.") && !EndsWith(h, port)
  }

  lemma PortExact(h: string, port: string)
    requires Plain(h, port) && port in [":443", ":80"]
    ensures DropWww(h) == h && DropWww("www." + h) == h
    ensures DropWww(h + port) == h + port && DropWww("www." + h + port) == h + port
    ensures !EndsWith(h, port) && EndsWith(h + port, port)
  {
    assert ("www." + h)[..4] == "www." && ("www." + h)[4..] == h;
    assert ("www." + h + port)[..4] == "www." && ("www." + h + port)[4..] == h + port;
    assert (h + port)[|h|..] == port;
    if |h| >= 4 {
      assert (h + port)[..4] == h[..4];
    } else if |h + port| >= 4 {
      assert (h + port)[..4][|h|] == ':' && "www."[|h|] != ':';
    }
  }

  lemma PortDropped(scheme: string, h: string, port: string)
    requires DefaultPort(scheme) == port && port != "" && !EndsWith(h, port)
    ensures DropPort(scheme, h) == h && DropPort(scheme, h + port) == h
  {
    assert (h + port)[|h|..] == port && (h + port)[..|h|] == h;
  }

  lemma LowerConcat(s: string, t: string)
    ensures Lower(s + t) == Lower(s) + Lower(t)
  {
  }

  /** A URL without a scheme is one of https. */
  lemma SchemeExact(u: Url)
    ensures Normalize(u.(scheme := "")) == Normalize(u.(scheme := "https"))
  {
    hide Lower, DropPort, DropWww;
    assert NormalScheme("") == NormalScheme("https");
  }

  /** A leading "www." and the scheme's own port say nothing: https and its port 443, http and its port 80. */
  lemma HostExact(h: string, secure: bool)
    requires Plain(h, if secure then ":443" else ":80")
    ensures var scheme, port := if secure then "https" else "http", if secure then ":443" else ":80";
      && NormalHost(scheme, h) == h && NormalHost(scheme, "www." + h) == h
      && NormalHost(scheme, h + port) == h && NormalHost(scheme, "www." + h + port) == h
  {
    var scheme, port := if secure then "https" else "http", if secure then ":443" else ":80";
    assert Lower("https") == "https" && Lower("http") == "http" && Lower("www.") == "www." && Lower(port) == port;
    assert NormalScheme(scheme) == scheme && DefaultPort(scheme) == port;
    hide Lower, DropWww, DropPort, StartsWith, EndsWith, NormalScheme;
    LowerConcat("www.", h);
    LowerConcat(h, port);
    LowerConcat("www." + h, port);
    PortExact(h, port);
    PortDropped(scheme, h, port);
  }

  /** Under any other scheme the port stays. */
  lemma OtherScheme(scheme: string, h: string)
    requires Lower(scheme) !in ["https", "http", ""]
    ensures NormalHost(scheme, h) == DropWww(Lower(h))
  {
  }

  function Slashes(n: nat): string {
    seq(n, _ => '/')
  }

  lemma {:induction false} StripExact(path: string, n: nat)
    requires path != "" && path[|path| - 1] != '/'
    ensures StripSlashes(path + Slashes(n)) == path
  {
    var p := path + Slashes(n);
    if n == 0 {
      assert p == path;
    } else {
      assert p[..|p| - 1] == path + Slashes(n - 1) && p[|p| - 1] == '/';
      StripExact(path, n - 1);
    }
  }

  /** Slashes at the end of a path say nothing, and an empty path is the root. */
  lemma PathExact(path: string, n: nat)
    requires path != "" && path[|path| - 1] != '/'
    ensures NormalPath(path + Slashes(n)) == path
    ensures NormalPath("") == NormalPath("/") == "/"
  {
    StripExact(path, n);
    assert n > 0 ==> (path + Slashes(n))[|path| + n - 1] == '/';
    assert n == 0 ==> path + Slashes(n) == path;
  }

  /** A tracking parameter is one in any letter case. */
  lemma TrackingExact(key: string, other: string)
    requires SameLetters(key, other)
    ensures IsTracking(key) <==> IsTracking(other)
  {
    LowerExact(key, other);
  }

  // ----- The query: order and tracking parameters do not show -----

  predicate Ascending(s: seq<Pair>) {
    forall i, j :: 0 <= i < j < |s| ==> !PairLess(s[j], s[i])
  }

  lemma PairTotal(a: Pair, b: Pair)
    ensures PairLess(a, b) || a == b || PairLess(b, a)
    ensures !(PairLess(a, b) && PairLess(b, a)) && !PairLess(a, a)
  {
    LessTotal(a.0, b.0);
    LessTotal(a.1, b.1);
    LessTotal(a.0, a.0);
    LessTotal(a.1, a.1);
  }

  lemma PairTransitive(a: Pair, b: Pair, c: Pair)
    requires !PairLess(b, a) && !PairLess(c, b)
    ensures !PairLess(c, a)
  {
    PairTotal(a, b);
    PairTotal(b, c);
    PairTotal(a, c);
    LessTotal(a.0, b.0);
    LessTotal(b.0, c.0);
    LessTotal(a.0, c.0);
    if Less(a.0, b.0) && Less(b.0, c.0) {
      LessTransitive(a.0, b.0, c.0);
    }
    if a.0 == b.0 == c.0 && Less(a.1, b.1) && Less(b.1, c.1) {
      LessTransitive(a.1, b.1, c.1);
      LessTotal(a.1, c.1);
    }
  }

  predicate AtMostAll(x: Pair, s: seq<Pair>) {
    forall y :: y in s ==> !PairLess(y, x)
  }

  lemma AscendingHead(x: Pair, s: seq<Pair>)
    ensures Ascending([x] + s) <==> AtMostAll(x, s) && Ascending(s)
  {
    var xs := [x] + s;
    if Ascending(xs) {
      forall y | y in s ensures !PairLess(y, x) {
        var i :| 0 <= i < |s| && s[i] == y;
        assert xs[0] == x && xs[i + 1] == y;
      }
      forall i, j | 0 <= i < j < |s| ensures !PairLess(s[j], s[i]) {
        assert xs[i + 1] == s[i] && xs[j + 1] == s[j];
      }
    }
  }

  lemma {:induction false} InsertPairSorted(x: Pair, s: seq<Pair>)
    requires Ascending(s)
    ensures Ascending(InsertPair(x, s)) && multiset(InsertPair(x, s)) == multiset{x} + multiset(s)
  {
    if s != [] {
      assert s == [s[0]] + s[1..];
      AscendingHead(s[0], s[1..]);
      if !PairLess(s[0], x) {
        forall y | y in s ensures !PairLess(y, x) {
          if y != s[0] {
            PairTransitive(x, s[0], y);
          }
        }
        AscendingHead(x, s);
      } else {
        InsertPairSorted(x, s[1..]);
        PairTotal(s[0], x);
        var r := InsertPair(x, s[1..]);
        forall y | y in r ensures !PairLess(y, s[0]) {
          assert y in multiset(r);
        }
        AscendingHead(s[0], r);
      }
    }
  }

  lemma {:induction false} SortPairsExact(s: seq<Pair>)
    ensures Ascending(SortPairs(s)) && multiset(SortPairs(s)) == multiset(s)
  {
    if s != [] {
      SortPairsExact(s[1..]);
      InsertPairSorted(s[0], SortPairs(s[1..]));
      assert s == [s[0]] + s[1..];
    }
  }

  lemma HeadsEqual(a: seq<Pair>, b: seq<Pair>)
    requires Ascending(a) && Ascending(b) && a != [] && b != [] && a[0] in b && b[0] in a
    ensures a[0] == b[0] && Ascending(a[1..]) && Ascending(b[1..])
  {
    assert a == [a[0]] + a[1..] && b == [b[0]] + b[1..];
    AscendingHead(a[0], a[1..]);
    AscendingHead(b[0], b[1..]);
    PairTotal(a[0], b[0]);
  }

  lemma TailsEqual(a: seq<Pair>, b: seq<Pair>)
    requires a != [] && b != [] && a[0] == b[0] && multiset(a) == multiset(b)
    ensures multiset(a[1..]) == multiset(b[1..])
  {
    assert a == [a[0]] + a[1..] && b == [b[0]] + b[1..];
    assert multiset(a) == multiset{a[0]} + multiset(a[1..]);
    assert multiset(b) == multiset{b[0]} + multiset(b[1..]);
    forall x ensures multiset(a[1..])[x] == multiset(b[1..])[x] {
      assert multiset(a)[x] == multiset(b)[x];
    }
  }

  lemma SameElements(a: seq<Pair>, b: seq<Pair>)
    requires multiset(a) == multiset(b)
    ensures |a| == |b| && forall x :: x in a <==> x in b
  {
    assert |a| == |multiset(a)| && |b| == |multiset(b)|;
    forall x ensures x in a <==> x in b {
      assert x in multiset(a) <==> x in multiset(b);
    }
  }

  /** One multiset of pairs has one ascending list. */
  lemma {:induction false} AscendingUnique(a: seq<Pair>, b: seq<Pair>)
    requires Ascending(a) && Ascending(b) && multiset(a) == multiset(b)
    ensures a == b
  {
    hide Ascending;
    SameElements(a, b);
    if a != [] {
      HeadsEqual(a, b);
      TailsEqual(a, b);
      AscendingUnique(a[1..], b[1..]);
      assert a == [a[0]] + a[1..] && b == [b[0]] + b[1..];
    }
  }

  /** Two queries have one canonical form exactly when they keep the same pairs equally often, wherever they stand. */
  lemma QueryExact(p: seq<Pair>, q: seq<Pair>)
    ensures SortPairs(Kept(p)) == SortPairs(Kept(q)) <==> multiset(Kept(p)) == multiset(Kept(q))
  {
    SortPairsExact(Kept(p));
    SortPairsExact(Kept(q));
    if multiset(Kept(p)) == multiset(Kept(q)) {
      AscendingUnique(SortPairs(Kept(p)), SortPairs(Kept(q)));
    }
  }

  lemma CountLast(q: seq<Pair>, x: Pair)
    requires q != []
    ensures multiset(q)[x] == multiset(q[..|q| - 1])[x] + if q[|q| - 1] == x then 1 else 0
  {
    assert q == q[..|q| - 1] + [q[|q| - 1]];
  }

  /** How often a pair is kept: as often as it stands in the query, or never if it tracks. */
  lemma {:induction false} KeptCount(q: seq<Pair>, x: Pair)
    ensures multiset(Kept(q))[x] == if IsTracking(x.0) then 0 else multiset(q)[x]
  {
    if q != [] {
      hide IsTracking;
      KeptCount(q[..|q| - 1], x);
      CountLast(q, x);
    }
  }

  /** Permuted queries, and queries that differ in tracking parameters only, have one canonical form. */
  lemma QueryInvariant(p: seq<Pair>, q: seq<Pair>)
    requires forall x: Pair :: !IsTracking(x.0) ==> multiset(p)[x] == multiset(q)[x]
    ensures SortPairs(Kept(p)) == SortPairs(Kept(q))
  {
    forall x: Pair ensures multiset(Kept(p))[x] == multiset(Kept(q))[x] {
      KeptCount(p, x);
      KeptCount(q, x);
    }
    QueryExact(p, q);
  }

  // ----- Normalising twice -----

  lemma LowerTwice(s: string)
    ensures Lower(Lower(s)) == Lower(s)
  {
  }

  /** Lower-cased text with a prefix or a suffix cut off is still lower case. */
  lemma LowerPart(s: string, i: nat, j: nat)
    requires i <= j <= |s| && Lower(s) == s
    ensures Lower(s[i..j]) == s[i..j]
  {
    forall k | 0 <= k < j - i ensures LowerChar(s[i..j][k]) == s[i..j][k] {
      assert Lower(s)[i + k] == s[i + k];
    }
  }

  lemma SchemeTwice(scheme: string)
    ensures NormalScheme(NormalScheme(scheme)) == NormalScheme(scheme)
  {
    LowerTwice(if scheme == "" then "https" else scheme);
  }

  lemma KeptTwice(q: seq<Pair>)
    ensures SortPairs(Kept(SortPairs(Kept(q)))) == SortPairs(Kept(q))
  {
    SortPairsExact(Kept(q));
    forall x: Pair ensures multiset(Kept(SortPairs(Kept(q))))[x] == multiset(Kept(q))[x] {
      KeptCount(SortPairs(Kept(q)), x);
      KeptCount(q, x);
    }
    assert multiset(Kept(SortPairs(Kept(q)))) == multiset(Kept(q));
    QueryExact(SortPairs(Kept(q)), q);
  }

  predicate OnlySlashes(path: string) {
    forall i :: 0 <= i < |path| ==> path[i] == '/'
  }

  lemma {:induction false} StripSlashesExact(path: string)
    ensures var r := StripSlashes(path);
      && (r == "" <==> OnlySlashes(path))
      && (r != "" ==> r[|r| - 1] != '/')
  {
    if path != "" && path[|path| - 1] == '/' {
      var n := |path| - 1;
      StripSlashesExact(path[..n]);
      assert OnlySlashes(path) <==> OnlySlashes(path[..n]) by {
        assert forall i :: 0 <= i < n ==> path[..n][i] == path[i];
      }
    }
  }

  /** A path changes again only if it was nothing but two or more slashes. */
  lemma PathTwice(path: string)
    ensures NormalPath(NormalPath(path)) == NormalPath(path) <==> !(|path| > 1 && OnlySlashes(path))
  {
    StripSlashesExact(path);
  }

  /** A host of which "www." stands twice in front, or the default port twice at the end. */
  predicate Doubled(scheme: string, host: string) {
    || StartsWith(host, "www.www.")
    || (DefaultPort(scheme) != "" && EndsWith(host, DefaultPort(scheme) + DefaultPort(scheme)))
  }

  lemma WwwTwice(h: string)
    ensures StartsWith(DropWww(h), "www.") <==> StartsWith(h, "www.www.")
  {
    if StartsWith(h, "www.") && |h| >= 8 {
      assert h[..8] == h[..4] + h[4..8] && h[4..][..4] == h[4..8];
      assert "www.www." == "www." + "www.";
      if h[..8] == "www.www." {
        assert h[4..8] == "www.www."[4..8];
      }
    }
    if StartsWith(h, "www.www.") {
      assert h[..4] == h[..8][..4] == "www.";
    }
  }

  /** A port, or two, begins with a colon, which "www." has none of. */
  lemma NoOverlap(h: string, port: string)
    requires StartsWith(h, "www.") && EndsWith(h, port) && port != "" && port[0] == ':'
    ensures |h| >= 4 + |port|
  {
    var i := |h| - |port|;
    assert h[i] == h[i..][0] == ':';
    forall j | 0 <= j < 4 ensures h[j] != ':' {
      assert h[j] == h[..4][j] == "www."[j];
    }
  }

  lemma PortWww(scheme: string, g: string)
    ensures StartsWith(DropPort(scheme, g), "www.") <==> StartsWith(g, "www.")
  {
    var port := DefaultPort(scheme);
    if port != "" && EndsWith(g, port) {
      var k := g[..|g| - |port|];
      if StartsWith(g, "www.") {
        NoOverlap(g, port);
      }
      assert |k| >= 4 ==> k[..4] == g[..4];
    }
  }

  lemma EndsTwice(g: string, port: string)
    requires EndsWith(g, port)
    ensures EndsWith(g[..|g| - |port|], port) <==> EndsWith(g, port + port)
  {
    var n := |port|;
    if |g| >= 2 * n {
      assert g[|g| - 2 * n..] == g[|g| - 2 * n..|g| - n] + g[|g| - n..];
      assert g[..|g| - n][|g| - 2 * n..] == g[|g| - 2 * n..|g| - n];
      assert (port + port)[..n] == port;
      assert (g[|g| - 2 * n..|g| - n] + g[|g| - n..])[..n] == g[|g| - 2 * n..|g| - n];
    }
  }

  lemma EndsOnce(g: string, port: string)
    ensures EndsWith(g, port + port) ==> EndsWith(g, port)
  {
    if EndsWith(g, port + port) {
      assert g[|g| - |port|..] == g[|g| - 2 * |port|..][|port|..];
      assert (port + port)[|port|..] == port;
    }
  }

  lemma EndsWithout(h: string, ports: string)
    requires ports != "" && ports[0] == ':'
    ensures EndsWith(DropWww(h), ports) <==> EndsWith(h, ports)
  {
    if StartsWith(h, "www.") {
      if EndsWith(h, ports) {
        NoOverlap(h, ports);
      }
      assert |h| >= 4 + |ports| ==> h[4..][|h| - 4 - |ports|..] == h[|h| - |ports|..];
    }
  }

  lemma PortTwice(scheme: string, h: string)
    requires DefaultPort(scheme) != ""
    ensures EndsWith(DropPort(scheme, DropWww(h)), DefaultPort(scheme))
            <==> EndsWith(h, DefaultPort(scheme) + DefaultPort(scheme))
  {
    var port, g := DefaultPort(scheme), DropWww(h);
    assert (port + port)[0] == ':';
    EndsWithout(h, port + port);
    EndsOnce(g, port);
    if EndsWith(g, port) {
      EndsTwice(g, port);
    }
  }

  lemma Shorter(scheme: string, k: string)
    ensures StartsWith(k, "www.") ==> |DropPort(scheme, DropWww(k))| < |k|
    ensures !StartsWith(k, "www.") ==>
      (DropPort(scheme, DropWww(k)) == k <==> DefaultPort(scheme) == "" || !EndsWith(k, DefaultPort(scheme)))
  {
  }

  /** Cutting a lower-case host twice is cutting it once, exactly when nothing stands doubled. */
  lemma HostTwice(scheme: string, h: string)
    ensures var k := DropPort(scheme, DropWww(h));
      DropPort(scheme, DropWww(k)) == k <==> !Doubled(scheme, h)
  {
    hide StartsWith, EndsWith;
    WwwTwice(h);
    PortWww(scheme, DropWww(h));
    if DefaultPort(scheme) != "" {
      PortTwice(scheme, h);
    }
    Shorter(scheme, DropPort(scheme, DropWww(h)));
  }

  lemma HostLower(scheme: string, h: string)
    requires Lower(h) == h
    ensures Lower(DropPort(scheme, DropWww(h))) == DropPort(scheme, DropWww(h))
  {
    var g := DropWww(h);
    if StartsWith(h, "www.") {
      LowerPart(h, 4, |h|);
      assert h[4..|h|] == g;
    }
    if DefaultPort(scheme) != "" && EndsWith(g, DefaultPort(scheme)) {
      LowerPart(g, 0, |g| - |DefaultPort(scheme)|);
    }
  }

  /**
   Normalising twice is normalising once exactly when the lower-cased host has no
   doubled "www." in front and no doubled default port behind, and the path is not
   two or more slashes and nothing else.
   */
  lemma IdempotentExact(u: Url)
    ensures Normalize(Normalize(u)) == Normalize(u) <==>
            !Doubled(NormalScheme(u.scheme), Lower(u.netloc)) && !(|u.path| > 1 && OnlySlashes(u.path))
  {
    var scheme, h := NormalScheme(u.scheme), Lower(u.netloc);
    SchemeTwice(u.scheme);
    PathTwice(u.path);
    KeptTwice(u.query);
    LowerTwice(u.netloc);
    HostLower(scheme, h);
    HostTwice(scheme, h);
  }

  /**
   Two URLs are one mention exactly when scheme, host and path agree in canonical form
   and the same pairs are kept of their queries; fragments never count.
   */
  lemma SameMention(u: Url, v: Url)
    ensures Normalize(u) == Normalize(v) <==>
            && NormalScheme(u.scheme) == NormalScheme(v.scheme)
            && NormalHost(u.scheme, u.netloc) == NormalHost(v.scheme, v.netloc)
            && NormalPath(u.path) == NormalPath(v.path)
            && forall x: Pair :: !IsTracking(x.0) ==> multiset(u.query)[x] == multiset(v.query)[x]
  {
    if forall x: Pair :: !IsTracking(x.0) ==> multiset(u.query)[x] == multiset(v.query)[x] {
      QueryInvariant(u.query, v.query);
    }
    if SortPairs(Kept(u.query)) == SortPairs(Kept(v.query)) {
      QueryExact(u.query, v.query);
      forall x: Pair | !IsTracking(x.0) ensures multiset(u.query)[x] == multiset(v.query)[x] {
        KeptCount(u.query, x);
        KeptCount(v.query, x);
      }
    }
  }
}
