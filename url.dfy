/**
 * The URL resolver: a loose, two-stage URL validator and the builder of the
 * endpoint URL a client calls.
 *
 * The validator tests three fixed regular expressions:
 *   protocolAndDomainRE   ^(?:\w+:)?\/\/(\S+)$
 *   localhostDomainRE     ^localhost[:?\d]*(?:[^:?\d]\S*)?$
 *   nonLocalhostDomainRE  ^[^\s.]+\.\S{2,}$
 * Each one is given twice here: as a ghost predicate that states the language
 * of the pattern (which splits of the string it accepts), and as a function
 * that decides it with one left-to-right scan. The decider's contract and the
 * lemmas beside it tie the two together.
 */
module Url {
  import opened Wrappers

  // ---------------------------------------------------------------------------
  // Character classes
  // ---------------------------------------------------------------------------

  /** `\s`: the ECMAScript WhiteSpace and LineTerminator code points. */
  predicate IsSpace(c: char)
    ensures IsSpace(c) ==> !IsWordChar(c) && !IsPortChar(c) && c != '.' && c != '/'
  {
    || c == '\t' || c == '\n' || c == '\U{B}' || c == '\U{C}' || c == '\r'
    || c == ' ' || c == '\U{A0}' || c == '\U{1680}'
    || ('\U{2000}' <= c <= '\U{200A}')
    || c == '\U{2028}' || c == '\U{2029}' || c == '\U{202F}' || c == '\U{205F}'
    || c == '\U{3000}' || c == '\U{FEFF}'
  }

  /** `\S` */
  predicate IsNonSpace(c: char) {
    !IsSpace(c)
  }

  /** `\w`: ASCII letters, digits and the underscore. */
  predicate IsWordChar(c: char) {
    ('a' <= c <= 'z') || ('A' <= c <= 'Z') || ('0' <= c <= '9') || c == '_'
  }

  /** `[:?\d]` */
  predicate IsPortChar(c: char) {
    c == ':' || c == '?' || ('0' <= c <= '9')
  }

  /** Any character but `.` */
  predicate IsNotDot(c: char) {
    c != '.'
  }

  /** `[^\s.]` */
  predicate IsHostChar(c: char) {
    !IsSpace(c) && c != '.'
  }

  /** Every character of `s` belongs to the class `p`. */
  predicate All(s: string, p: char -> bool) {
    forall i :: 0 <= i < |s| ==> p(s[i])
  }

  /** The length of the longest prefix of `s` whose characters all belong to `p`. */
  function Span(s: string, p: char -> bool): (n: nat)
    ensures n <= |s|
    ensures All(s[..n], p)
    ensures n < |s| ==> !p(s[n])
    decreases |s|
  {
    if s == [] || !p(s[0]) then 0 else 1 + Span(s[1..], p)
  }

  /** The two conditions of `Span` fix its value. */
  lemma {:induction false} SpanUnique(s: string, p: char -> bool, n: nat)
    requires n <= |s| && All(s[..n], p)
    requires n < |s| ==> !p(s[n])
    ensures Span(s, p) == n
    decreases n
  {
    if n > 0 {
      assert s[..n][0] == s[0];
      assert s[1..][..n - 1] == s[..n][1..];
      SpanUnique(s[1..], p, n - 1);
    }
  }

  // ---------------------------------------------------------------------------
  // protocolAndDomainRE  ^(?:\w+:)?\/\/(\S+)$
  // ---------------------------------------------------------------------------

  /** The optional group `(?:\w+:)?`. */
  predicate SchemePrefix(p: string) {
    p == [] || (|p| >= 2 && All(p[..|p| - 1], IsWordChar) && p[|p| - 1] == ':')
  }

  /**
   * `s` matches protocolAndDomainRE with capture group 1 equal to `group`:
   * `s` is a scheme prefix, then `//`, then `group`, which is one or more
   * non-whitespace characters running to the end of `s`.
   */
  ghost predicate ProtocolAndDomainRE(s: string, group: string)
    ensures ProtocolAndDomainRE(s, group) ==>
      && |group| >= 1 && |s| >= |group| + 2
      && s[|s| - |group|..] == group && s[|s| - |group| - 2..|s| - |group|] == "//"
  {
    && |group| >= 1
    && All(group, IsNonSpace)
    && |s| >= |group| + 2
    && var p := s[..|s| - |group| - 2];
       SchemePrefix(p) && s == p + "//" + group
  }

  /** `Some(g)` when `g` runs to the end of the string and matches `(\S+)`. */
  function CaptureRest(g: string): Option<string> {
    if |g| >= 1 && All(g, IsNonSpace) then Some(g) else None
  }

  /**
   * `s.match(protocolAndDomainRE)`, reduced to its capture group 1: either the
   * string starts with `//`, or with a run of word characters, `:` and `//`.
   */
  function MatchProtocolAndDomain(s: string): (m: Option<string>)
    ensures m.Some? ==> ProtocolAndDomainRE(s, m.value)
  {
    if |s| >= 2 && s[0] == '/' && s[1] == '/' then
      var m := CaptureRest(s[2..]);
      assert m.Some? ==> s == s[..0] + "//" + s[2..];
      m
    else
      var n := Span(s, IsWordChar);
      if 0 < n && n + 3 <= |s| && s[n] == ':' && s[n + 1] == '/' && s[n + 2] == '/' then
        var m := CaptureRest(s[n + 3..]);
        assert m.Some? ==> s[..n + 1][..n] == s[..n] && s == s[..n + 1] + "//" + s[n + 3..];
        m
      else
        None
  }

  /**
   * A scheme prefix followed by `//` has a fixed length: 0 when the string
   * starts with `/`, otherwise one past the leading run of word characters.
   */
  lemma SchemePrefixLength(s: string, a: nat)
    requires a + 2 <= |s| && SchemePrefix(s[..a]) && s[a] == '/' && s[a + 1] == '/'
    ensures a == 0 <==> s[0] == '/'
    ensures a > 0 ==> a == Span(s, IsWordChar) + 1
  {
    if a > 0 {
      assert s[..a][..a - 1] == s[..a - 1];
      assert s[..a][0] == s[0];
      assert s[..a - 1][0] == s[0];
      SpanUnique(s, IsWordChar, a - 1);
    }
  }

  /**
   * Completeness of `MatchProtocolAndDomain`: whenever the pattern matches
   * with some capture, the decider returns exactly that capture.
   */
  lemma ProtocolAndDomainComplete(s: string, group: string)
    requires ProtocolAndDomainRE(s, group)
    ensures MatchProtocolAndDomain(s) == Some(group)
  {
    var a := |s| - |group| - 2;
    var p := s[..a];
    assert s[a] == (p + "//" + group)[a];
    assert s[a + 1] == (p + "//" + group)[a + 1];
    assert s[a + 2..] == group;
    SchemePrefixLength(s, a);
  }

  /** The optional `\w+:` prefix parses in one way only: the capture is unique. */
  lemma ProtocolAndDomainUnique(s: string, g1: string, g2: string)
    requires ProtocolAndDomainRE(s, g1) && ProtocolAndDomainRE(s, g2)
    ensures g1 == g2
  {
    ProtocolAndDomainComplete(s, g1);
    ProtocolAndDomainComplete(s, g2);
  }

  // ---------------------------------------------------------------------------
  // localhostDomainRE  ^localhost[:?\d]*(?:[^:?\d]\S*)?$
  // ---------------------------------------------------------------------------

  /** The optional group `(?:[^:?\d]\S*)?` running to the end of the string. */
  predicate LocalhostTail(t: string) {
    t == [] || (!IsPortChar(t[0]) && All(t[1..], IsNonSpace))
  }

  /**
   * `r` matches localhostDomainRE: `localhost`, then a run of `[:?\d]` of
   * some length ending at `k`, then the optional tail.
   */
  ghost predicate LocalhostDomainRE(r: string)
    ensures |r| >= 9 && r[..9] == "localhost" && All(r[9..|r|], IsPortChar) ==> LocalhostDomainRE(r)
  {
    && |r| >= 9 && r[..9] == "localhost"
    && exists k :: 9 <= k <= |r| && All(r[9..k], IsPortChar) && LocalhostTail(r[k..])
  }

  /** `localhostDomainRE.test(r)`: the greedy `[:?\d]*` run is the only split that can work. */
  function TestLocalhostDomain(r: string): (b: bool)
    ensures b <==> LocalhostDomainRE(r)
  {
    if |r| >= 9 && r[..9] == "localhost" then
      var k := 9 + Span(r[9..], IsPortChar);
      assert r[9..][..k - 9] == r[9..k];
      assert k < |r| ==> r[9..][k - 9] == r[k];
      var b := LocalhostTail(r[k..]);
      assert !b ==> forall j :: 9 <= j <= |r| && All(r[9..j], IsPortChar) ==> !LocalhostTail(r[j..]) by {
        forall j | 9 <= j <= |r| && All(r[9..j], IsPortChar) && !b
          ensures !LocalhostTail(r[j..])
        {
          if j < k {
            assert r[9..][j - 9] == r[j] && r[j..][0] == r[j];
          }
        }
      }
      b
    else
      false
  }

  /**
   * For a whitespace-free remainder, localhostDomainRE holds exactly when the
   * remainder starts with `localhost`: whatever follows is absorbed by the
   * greedy `[:?\d]*` run and the optional tail.
   */
  lemma LocalhostIffPrefix(r: string)
    requires All(r, IsNonSpace)
    ensures LocalhostDomainRE(r) <==> |r| >= 9 && r[..9] == "localhost"
  {
    if |r| >= 9 && r[..9] == "localhost" {
      var k := 9 + Span(r[9..], IsPortChar);
      assert r[9..][..k - 9] == r[9..k];
      if k < |r| {
        assert r[9..][k - 9] == r[k] == r[k..][0];
        assert forall i :: 0 <= i < |r[k..][1..]| ==> r[k..][1..][i] == r[k + 1 + i];
      }
      assert LocalhostTail(r[k..]);
    }
  }

  // ---------------------------------------------------------------------------
  // nonLocalhostDomainRE  ^[^\s.]+\.\S{2,}$
  // ---------------------------------------------------------------------------

  /**
   * `r` matches nonLocalhostDomainRE: a non-empty run of characters that are
   * neither whitespace nor `.`, then `.`, then at least two non-whitespace
   * characters running to the end.
   */
  ghost predicate NonLocalhostDomainRE(r: string)
    ensures NonLocalhostDomainRE(r) ==> |r| >= 4 && r[0] != '.' && '.' in r
  {
    exists i :: 1 <= i < |r| && All(r[..i], IsHostChar) && r[i] == '.'
                && |r| - i - 1 >= 2 && All(r[i + 1..], IsNonSpace)
  }

  /** `nonLocalhostDomainRE.test(r)`: the host run must stop at the first `.`. */
  function TestNonLocalhostDomain(r: string): (b: bool)
    ensures b <==> NonLocalhostDomainRE(r)
  {
    var i := Span(r, IsHostChar);
    var b := 1 <= i < |r| && r[i] == '.' && |r| - i - 1 >= 2 && All(r[i + 1..], IsNonSpace);
    assert NonLocalhostDomainRE(r) ==> b by {
      if NonLocalhostDomainRE(r) {
        var j :| 1 <= j < |r| && All(r[..j], IsHostChar) && r[j] == '.'
                 && |r| - j - 1 >= 2 && All(r[j + 1..], IsNonSpace);
        SpanUnique(r, IsHostChar, j);
      }
    }
    b
  }

  /** The index of the first `.` of `s`, or `|s|` when there is none. */
  function FirstDot(s: string): (i: nat)
    ensures i <= |s|
    ensures i < |s| ==> s[i] == '.'
    ensures forall j :: 0 <= j < i ==> s[j] != '.'
  {
    var i := Span(s, IsNotDot);
    assert forall j :: 0 <= j < i ==> s[..i][j] == s[j];
    i
  }

  /**
   * For a whitespace-free remainder, nonLocalhostDomainRE holds exactly when
   * its first `.` is at index 1 or later and at least two characters follow it.
   */
  lemma NonLocalhostIffDot(r: string)
    requires All(r, IsNonSpace)
    ensures NonLocalhostDomainRE(r) <==> var i := FirstDot(r); 1 <= i && i + 3 <= |r|
  {
    var i := FirstDot(r);
    assert forall j :: 0 <= j < i ==> r[..i][j] == r[j];
    assert All(r[..i], IsHostChar);
    if NonLocalhostDomainRE(r) {
      var j :| 1 <= j < |r| && All(r[..j], IsHostChar) && r[j] == '.'
               && |r| - j - 1 >= 2 && All(r[j + 1..], IsNonSpace);
      SpanUnique(r, IsHostChar, j);
      SpanUnique(r, IsHostChar, i);
    }
  }

  // ---------------------------------------------------------------------------
  // isUrl and buildUrl
  // ---------------------------------------------------------------------------

  /**
   * `isUrl(s)`: an absent or empty argument is not a URL; otherwise the
   * string must match protocolAndDomainRE and its captured remainder must
   * match localhostDomainRE or nonLocalhostDomainRE.
   */
  function IsUrl(s: Option<string>): (b: bool)
    ensures s == None ==> !b
    ensures s == Some("") ==> !b
  {
    if s.None? || s.value == "" then
      false
    else
      match MatchProtocolAndDomain(s.value)
      case None => false
      case Some(everythingAfterProtocol) =>
        if everythingAfterProtocol == "" then false
        else TestLocalhostDomain(everythingAfterProtocol) || TestNonLocalhostDomain(everythingAfterProtocol)
  }

  /** `isUrl` holds exactly when the two stages of patterns match. */
  lemma IsUrlMatchesPatterns(s: string)
    ensures IsUrl(Some(s)) <==>
      exists g :: ProtocolAndDomainRE(s, g) && (LocalhostDomainRE(g) || NonLocalhostDomainRE(g))
  {
    var m := MatchProtocolAndDomain(s);
    if m.Some? {
      var g := m.value;
      assert ProtocolAndDomainRE(s, g) && g != "";
      forall g' | ProtocolAndDomainRE(s, g') ensures g' == g {
        ProtocolAndDomainUnique(s, g, g');
      }
    } else {
      forall g ensures !ProtocolAndDomainRE(s, g) {
        if ProtocolAndDomainRE(s, g) {
          ProtocolAndDomainComplete(s, g);
        }
      }
    }
  }

  /**
   * `isUrl` holds exactly when `s` is a scheme prefix, `//` and a
   * whitespace-free remainder that starts with `localhost` or whose first `.`
   * has at least one character before it and two after it.
   */
  lemma IsUrlCharacterisation(s: string, p: string, rest: string)
    requires SchemePrefix(p) && s == p + "//" + rest
    ensures IsUrl(Some(s)) <==>
      && |rest| >= 1 && All(rest, IsNonSpace)
      && ((|rest| >= 9 && rest[..9] == "localhost") || (1 <= FirstDot(rest) && FirstDot(rest) + 3 <= |rest|))
  {
    assert s[..|p|] == p;
    assert s[|p|] == '/' && s[|p| + 1] == '/';
    SchemePrefixLength(s, |p|);
    assert s[|p| + 2..] == rest;
    if |rest| >= 1 && All(rest, IsNonSpace) {
      assert ProtocolAndDomainRE(s, rest);
      ProtocolAndDomainComplete(s, rest);
      LocalhostIffPrefix(rest);
      NonLocalhostIffDot(rest);
    }
  }

  /**
   * `isUrl` is false unless the string starts with `//`, or with a non-empty
   * run of word characters followed by `://`, and has something after it.
   */
  lemma IsUrlNeedsProtocol(s: string)
    requires IsUrl(Some(s))
    ensures |s| >= 3
    ensures (s[0] == '/' && s[1] == '/') ||
            exists n :: 0 < n && n + 3 < |s| && All(s[..n], IsWordChar) && s[n..n + 3] == "://"
  {
    var n := Span(s, IsWordChar);
    if !(s[0] == '/' && s[1] == '/') {
      assert s[n..n + 3] == "://";
    }
  }

  /**
   * `isUrl` is false when nothing follows the `//` after the scheme prefix,
   * or when any whitespace occurs after it.
   */
  lemma IsUrlRejectsBlankRest(s: string, p: string, rest: string)
    requires SchemePrefix(p) && s == p + "//" + rest
    requires rest == [] || exists j :: 0 <= j < |rest| && IsSpace(rest[j])
    ensures !IsUrl(Some(s))
  {
    IsUrlCharacterisation(s, p, rest);
  }

  // The documented examples take their strings as parameters fixed by the
  // requires clauses. On a literal argument the verifier unfolds `IsUrl` and
  // `Span` character by character, which costs many times more than these
  // proofs. A URL is passed as its scheme prefix and the rest after `//`.

  /** `http://localhost:5050` is a URL. */
  lemma IsUrlLocalhostExample(scheme: string, rest: string)
    requires scheme == "http:" && rest == "localhost:5050"
    ensures IsUrl(Some(scheme + "//" + rest))
  {
    IsUrlCharacterisation(scheme + "//" + rest, scheme, rest);
  }

  /** `https://example.com/rpc` is a URL. */
  lemma IsUrlDomainExample(scheme: string, rest: string)
    requires scheme == "https:" && rest == "example.com/rpc"
    ensures IsUrl(Some(scheme + "//" + rest))
  {
    SpanUnique(rest, IsNotDot, 7);
    assert FirstDot(rest) == 7;
    IsUrlCharacterisation(scheme + "//" + rest, scheme, rest);
  }

  /** `//example.co/rpc`, with no scheme, is a URL. */
  lemma IsUrlSchemelessExample(rest: string)
    requires rest == "example.co/rpc"
    ensures IsUrl(Some("//" + rest))
  {
    var s := "//" + rest;
    assert s == [] + "//" + rest;
    SpanUnique(rest, IsNotDot, 7);
    assert FirstDot(rest) == 7;
    IsUrlCharacterisation(s, "", rest);
  }

  /** A bare path is not a URL. */
  lemma IsUrlPathExample(s: string)
    requires s == "/v1/foo"
    ensures !IsUrl(Some(s))
  {
    SpanUnique(s, IsWordChar, 0);
    assert MatchProtocolAndDomain(s) == None;
  }

  /** A file name is not a URL. */
  lemma IsUrlFileNameExample(s: string)
    requires s == "index.html"
    ensures !IsUrl(Some(s))
  {
    SpanUnique(s, IsWordChar, 5);
  }

  /** Whitespace right after `://` makes a string not a URL: `http:// example.com`. */
  lemma IsUrlBlankExample(scheme: string, rest: string)
    requires scheme == "http:" && rest == " example.com"
    ensures !IsUrl(Some(scheme + "//" + rest))
  {
    assert IsSpace(rest[0]);
    IsUrlRejectsBlankRest(scheme + "//" + rest, scheme, rest);
  }

  /**
   * `buildUrl(baseUrl, defaultPath, urlOrPath)`: a URL-shaped override is
   * returned verbatim; otherwise `join(baseUrl, urlOrPath ?? defaultPath)`.
   * `join` stands for the `url-join` library, whose internals are not modelled.
   */
  function BuildUrl(join: (string, string) -> string, baseUrl: string, defaultPath: string,
                    urlOrPath: Option<string>): (u: string)
    ensures IsUrl(urlOrPath) ==> urlOrPath.Some? && u == urlOrPath.value
    ensures !IsUrl(urlOrPath) && urlOrPath.None? ==> u == join(baseUrl, defaultPath)
    ensures !IsUrl(urlOrPath) && urlOrPath.Some? ==> u == join(baseUrl, urlOrPath.value)
  {
    if IsUrl(urlOrPath) then urlOrPath.value else join(baseUrl, urlOrPath.GetOr(defaultPath))
  }

  /** A URL-shaped override makes the base URL and the default path irrelevant. */
  lemma BuildUrlOverrideIgnoresBase(join: (string, string) -> string, base1: string, path1: string,
                                    base2: string, path2: string, url: string)
    requires IsUrl(Some(url))
    ensures BuildUrl(join, base1, path1, Some(url)) == BuildUrl(join, base2, path2, Some(url)) == url
  {
  }

  /**
   * The result is the override itself or the base joined with some path; a
   * present but empty override is joined, and does not fall back to the
   * default path.
   */
  lemma BuildUrlEmptyOverrideIsJoined(join: (string, string) -> string, baseUrl: string, defaultPath: string)
    ensures BuildUrl(join, baseUrl, defaultPath, Some("")) == join(baseUrl, "")
  {
  }

  /** `buildUrl` with no override joins the base with the default path. */
  lemma BuildUrlDefaultExample(join: (string, string) -> string, base: string, path: string)
    requires base == "https://host.test" && path == "/rpc"
    ensures BuildUrl(join, base, path, None) == join(base, path)
  {
  }

  /** `buildUrl` with the path override `v2` joins it with the base. */
  lemma BuildUrlPathExample(join: (string, string) -> string, base: string, path: string, rel: string)
    requires base == "https://host.test" && path == "/rpc" && rel == "v2"
    ensures BuildUrl(join, base, path, Some(rel)) == join(base, rel)
  {
    SpanUnique(rel, IsWordChar, 2);
  }

  /** `buildUrl` with a full URL override returns it, ignoring the base. */
  lemma BuildUrlOverrideExample(join: (string, string) -> string, base: string, path: string,
                                scheme: string, rest: string)
    requires base == "https://host.test" && path == "/rpc"
    requires scheme == "https:" && rest == "other.test/x"
    ensures BuildUrl(join, base, path, Some(scheme + "//" + rest)) == scheme + "//" + rest
  {
    SpanUnique(rest, IsNotDot, 5);
    IsUrlCharacterisation(scheme + "//" + rest, scheme, rest);
  }
}
