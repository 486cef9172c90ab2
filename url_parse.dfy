/**
 * The part of `urllib.parse.urlparse` the feature extractor reads: the
 * scheme, the network location and the path of a URL, following the
 * generic syntax of section 3 of RFC 3986 as Python's `urlsplit` cuts it.
 */
module UrlParse {
  import opened PyStr

  /** The three components of a parsed URL that the extractor uses. */
  datatype Parts = Parts(scheme: string, netloc: string, path: string)

  /** The prefixes of URLs written with the two web schemes. */
  const HttpPrefix := "http://"
  const HttpsPrefix := "https://"

  /** C0 control characters and space, stripped from the front of a URL. */
  predicate IsControlOrSpace(c: char) {
    c <= ' '
  }

  /** Tab, carriage return and line feed, removed from anywhere in a URL. */
  predicate IsUnsafe(c: char) {
    c == '\t' || c == '\r' || c == '\n'
  }

  /** Letters, digits, `+`, `-` and `.` may form a scheme. */
  predicate IsSchemeChar(c: char) {
    IsAlpha(c) || IsDigit(c) || c == '+' || c == '-' || c == '.'
  }

  function LeftStrip(s: string): (r: string)
    ensures |r| <= |s| && r == s[|s| - |r|..]
  {
    if |s| > 0 && IsControlOrSpace(s[0]) then LeftStrip(s[1..]) else s
  }

  function RemoveUnsafe(s: string): (r: string)
    ensures |r| <= |s|
    ensures forall i :: 0 <= i < |r| ==> !IsUnsafe(r[i])
  {
    if |s| == 0 then ""
    else (if IsUnsafe(s[0]) then "" else [s[0]]) + RemoveUnsafe(s[1..])
  }

  lemma {:induction false} RemoveUnsafeAppend(a: string, b: string)
    ensures RemoveUnsafe(a + b) == RemoveUnsafe(a) + RemoveUnsafe(b)
  {
    if |a| > 0 {
      var t := a[1..];
      assert (a + b)[0] == a[0];
      assert (a + b)[1..] == t + b;
      RemoveUnsafeAppend(t, b);
      var h := if IsUnsafe(a[0]) then "" else [a[0]];
      assert RemoveUnsafe(a + b) == h + RemoveUnsafe(t + b);
      assert RemoveUnsafe(a) == h + RemoveUnsafe(t);
    } else {
      assert a + b == b;
    }
  }

  lemma {:induction false} RemoveUnsafeKeepsSafe(s: string)
    requires forall i :: 0 <= i < |s| ==> !IsUnsafe(s[i])
    ensures RemoveUnsafe(s) == s
  {
    if |s| > 0 {
      RemoveUnsafeKeepsSafe(s[1..]);
      assert [s[0]] + s[1..] == s;
    }
  }

  /** The text before the first stop character, when `a` holds none and `c` is one. */
  lemma {:induction false} PrefixBeforeStop(a: string, c: char, b: string, stops: set<char>)
    requires forall i :: 0 <= i < |a| ==> a[i] !in stops
    requires c in stops
    ensures PrefixBefore(a + [c] + b, stops) == a
  {
    if |a| > 0 {
      assert (a + [c] + b)[1..] == a[1..] + [c] + b;
      PrefixBeforeStop(a[1..], c, b, stops);
      assert [a[0]] + a[1..] == a;
    }
  }

  /** A URL with leading controls and spaces stripped and tabs and line breaks dropped. */
  function Clean(url: string): (r: string)
    ensures |r| <= |url|
    ensures forall i :: 0 <= i < |r| ==> !IsUnsafe(r[i])
  {
    RemoveUnsafe(LeftStrip(url))
  }

  /**
   * The scheme before the first `:` (lower-cased) and the text after it,
   * when that prefix starts with a letter and holds only scheme
   * characters; otherwise no scheme and the whole text.
   */
  function SplitScheme(s: string): (r: (string, string))
    ensures |r.0| + |r.1| <= |s| && r.1 == s[|s| - |r.1|..]
  {
    var i := |PrefixBefore(s, {':'})|;
    if 0 < i < |s| && IsAlpha(s[0]) && forall j :: 0 <= j < i ==> IsSchemeChar(s[j])
    then (Lower(s[..i]), s[i + 1..])
    else ("", s)
  }

  /**
   * After a scheme: the netloc that follows `//`, up to the first `/`, `?`
   * or `#`, and the text after it; no netloc when `//` is absent.
   */
  function SplitNetloc(s: string): (r: (string, string))
    ensures |r.0| + |r.1| <= |s| && r.1 == s[|s| - |r.1|..]
    ensures forall i :: 0 <= i < |r.0| ==> r.0[i] in s
  {
    if StartsWith(s, "//") then
      var netloc := PrefixBefore(s[2..], {'/', '?', '#'});
      assert forall i :: 0 <= i < |netloc| ==> netloc[i] == s[2 + i];
      (netloc, s[2 + |netloc|..])
    else ("", s)
  }

  /** The path: what precedes the fragment (`#`) and the query (`?`). */
  function PathOf(s: string): (r: string)
    ensures |r| <= |s|
  {
    PrefixBefore(PrefixBefore(s, {'#'}), {'?'})
  }

  /**
   * `urlparse(url)`, reduced to scheme, netloc and path: the path is what
   * follows the netloc up to the fragment (`#`) and the query (`?`).
   */
  function Parse(url: string): (p: Parts)
    ensures |p.scheme| + |p.netloc| + |p.path| <= |url|
    ensures forall i :: 0 <= i < |p.netloc| ==> !IsUnsafe(p.netloc[i])
  {
    var clean := Clean(url);
    var rest := SplitScheme(clean).1;
    var netloc := SplitNetloc(rest).0;
    assert forall i :: 0 <= i < |netloc| ==> netloc[i] in clean;
    Parts(SplitScheme(clean).0, netloc, PathOf(SplitNetloc(rest).1))
  }

  /** Cleaning leaves a safe prefix that does not start with a control or space alone. */
  lemma CleanSafePrefix(prefix: string, rest: string)
    requires |prefix| > 0 && !IsControlOrSpace(prefix[0])
    requires forall i :: 0 <= i < |prefix| ==> !IsUnsafe(prefix[i])
    ensures Clean(prefix + rest) == prefix + RemoveUnsafe(rest)
  {
    var url := prefix + rest;
    assert url[0] == prefix[0];
    assert LeftStrip(url) == url;
    RemoveUnsafeAppend(prefix, rest);
    RemoveUnsafeKeepsSafe(prefix);
  }

  lemma CleanWebUrl(scheme: string, rest: string)
    requires scheme == "http" || scheme == "https"
    ensures Clean(scheme + "://" + rest) == scheme + "://" + RemoveUnsafe(rest)
  {
    var prefix := scheme + "://";
    if scheme == "http" {
      assert prefix == "http://";
    } else {
      assert prefix == "https://";
    }
    CleanSafePrefix(prefix, rest);
  }

  lemma SplitWebScheme(scheme: string, tail: string)
    requires scheme == "http" || scheme == "https"
    ensures SplitScheme(scheme + [':'] + tail) == (scheme, tail)
  {
    var s := scheme + [':'] + tail;
    PrefixBeforeStop(scheme, ':', tail, {':'});
    assert s[..|scheme|] == scheme;
    assert forall j :: 0 <= j < |scheme| ==> IsSchemeChar(s[j]);
    assert Lower(scheme) == scheme;
    assert s[|scheme| + 1..] == tail;
  }

  /** Text holding no stop character is its own prefix before a stop. */
  lemma PrefixBeforeNone(s: string, stops: set<char>)
    requires forall i :: 0 <= i < |s| ==> s[i] !in stops
    ensures PrefixBefore(s, stops) == s
  {
  }

  /** A netloc free of `/`, `?` and `#`, followed by an empty or `/`-led path, splits back into the two. */
  lemma SplitNetlocHost(host: string, path: string)
    requires forall i :: 0 <= i < |host| ==> host[i] !in {'/', '?', '#'}
    requires path == [] || path[0] == '/'
    ensures SplitNetloc("//" + (host + path)) == (host, path)
  {
    var s := "//" + (host + path);
    assert StartsWith(s, "//");
    assert s[2..] == host + path;
    if path == [] {
      assert host + path == host;
      PrefixBeforeNone(host, {'/', '?', '#'});
    } else {
      assert host + path == host + [path[0]] + path[1..];
      PrefixBeforeStop(host, path[0], path[1..], {'/', '?', '#'});
    }
    assert s[2 + |host|..] == path;
  }

  lemma RegroupColon(a: string, x: string)
    ensures a + "://" + x == a + [':'] + ("//" + x)
  {
    assert "://" == [':'] + "//";
    assert a + "://" + x == a + ([':'] + "//") + x;
  }

  /** A web URL whose rest is already safe is unchanged by cleaning. */
  lemma CleanSafeWebUrl(scheme: string, rest: string)
    requires scheme == "http" || scheme == "https"
    requires forall i :: 0 <= i < |rest| ==> !IsUnsafe(rest[i])
    ensures Clean(scheme + "://" + rest) == scheme + [':'] + ("//" + rest)
  {
    CleanWebUrl(scheme, rest);
    RemoveUnsafeKeepsSafe(rest);
    RegroupColon(scheme, rest);
  }

  /** A URL of the form `scheme://host/path` with a web scheme parses back into its three parts. */
  lemma ParseWebUrl(scheme: string, host: string, path: string)
    requires scheme == "http" || scheme == "https"
    requires forall i :: 0 <= i < |host| ==> host[i] !in {'/', '?', '#'} && !IsUnsafe(host[i])
    requires forall i :: 0 <= i < |path| ==> path[i] !in {'?', '#'} && !IsUnsafe(path[i])
    requires path == [] || path[0] == '/'
    ensures Parse(scheme + "://" + (host + path)) == Parts(scheme, host, path)
  {
    var rest := host + path;
    assert forall i :: 0 <= i < |rest| ==> !IsUnsafe(rest[i]) by {
      assert forall i :: |host| <= i < |rest| ==> rest[i] == path[i - |host|];
    }
    CleanSafeWebUrl(scheme, rest);
    SplitWebScheme(scheme, "//" + rest);
    SplitNetlocHost(host, path);
    PrefixBeforeNone(path, {'#'});
    PrefixBeforeNone(path, {'?'});
    assert PathOf(path) == path;
  }

  /** The scheme of a parse is the scheme split off the cleaned URL. */
  lemma ParseScheme(url: string)
    ensures Parse(url).scheme == SplitScheme(Clean(url)).0
  {
  }

  /** A URL written `http://…` or `https://…` parses with exactly that scheme. */
  lemma ParseWebScheme(scheme: string, rest: string)
    requires scheme == "http" || scheme == "https"
    ensures Parse(scheme + "://" + rest).scheme == scheme
  {
    var url := scheme + "://" + rest;
    ParseScheme(url);
    CleanWebUrl(scheme, rest);
    var tail := "//" + RemoveUnsafe(rest);
    RegroupColon(scheme, RemoveUnsafe(rest));
    SplitWebScheme(scheme, tail);
  }
}
