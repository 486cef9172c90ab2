/**
 * `PhishingDetector.extract_features`: the 20 lexical features of a URL,
 * first as a record of named fields (the source's dictionary), then as
 * the flat vector, in `feature_names` order, that the classifier reads.
 */
module FeatureExtraction {
  import opened PyStr
  import opened UrlParse
  import opened ShannonEntropy

  /** `feature_names`: the order of the vector, shared by training and inference. */
  const FeatureNames: seq<string> := [
    "url_length", "hostname_length", "path_length", "fd_length", "tld_length",
    "count_dash", "count_at", "count_question", "count_percent", "count_dot",
    "count_equal", "count_ampersand", "count_underscore",
    "count_digits", "count_alpha",
    "is_ip", "short_url", "https_token", "sensitive_words", "entropy"
  ]

  /** Host names whose presence marks a URL shortener. */
  const Shorteners: seq<string> := [
    "bit.ly", "goo.gl", "tinyurl.com", "t.co", "is.gd", "buff.ly", "adf.ly", "ow.ly", "lc.chat"
  ]

  /** Keywords looked for in the lower-cased URL. */
  const SensitiveWords: seq<string> := [
    "login", "secure", "account", "update", "verify", "banking", "confirm", "password"
  ]

  /** The named features, one field per entry of `FeatureNames`. */
  datatype Features = Features(
    urlLength: nat, hostnameLength: nat, pathLength: nat, fdLength: nat, tldLength: nat,
    countDash: nat, countAt: nat, countQuestion: nat, countPercent: nat, countDot: nat,
    countEqual: nat, countAmpersand: nat, countUnderscore: nat,
    countDigits: nat, countAlpha: nat,
    isIp: nat, shortUrl: nat, httpsToken: nat, sensitiveWords: nat, entropy: real)

  function Flag(b: bool): (n: nat) {
    if b then 1 else 0
  }

  /**
   * `fd_length`: the length of the second piece of `path.split('/')`, that
   * is of the text between the first `/` and the next `/` (or the end).
   */
  function FirstDirLength(path: string): (n: nat)
    ensures n <= |path|
    ensures '/' !in path ==> n == 0
    ensures '/' in path ==>
      n == |PrefixBefore(path[|PrefixBefore(path, {'/'})| + 1..], {'/'})|
  {
    var parts := Split(path, '/');
    CountZero(path, '/');
    SplitCount(path, '/');
    if |parts| > 1 then
      SplitSecond(path, '/');
      |parts[1]|
    else
      0
  }

  /**
   * `tld_length`: the length of the last piece of `hostname.split('.')`,
   * that is of the text after the last `.`; 0 when there is no `.`.
   */
  function TldLength(hostname: string): (n: nat)
    ensures '.' !in hostname ==> n == 0
    ensures '.' in hostname ==>
      n < |hostname| && hostname[|hostname| - n - 1] == '.' && '.' !in hostname[|hostname| - n..]
  {
    if '.' in hostname then
      var parts := Split(hostname, '.');
      SplitLast(hostname, '.');
      SplitPieces(hostname, '.');
      |parts[|parts| - 1]|
    else
      0
  }

  /** The length of the run of digits that starts `s`. */
  function LeadingDigits(s: string): (n: nat)
    ensures n <= |s|
  {
    if |s| > 0 && IsDigit(s[0]) then 1 + LeadingDigits(s[1..]) else 0
  }

  /** The run is all digits and is not followed by a digit. */
  lemma {:induction false} LeadingDigitsRun(s: string)
    ensures var n := LeadingDigits(s);
      (forall i :: 0 <= i < n ==> IsDigit(s[i])) && (n < |s| ==> !IsDigit(s[n]))
  {
    if |s| > 0 && IsDigit(s[0]) {
      LeadingDigitsRun(s[1..]);
    }
  }

  /** A digit run followed by a non-digit (or nothing) is the leading digit run. */
  lemma {:induction false} LeadingDigitsOf(a: string, b: string)
    requires forall j :: 0 <= j < |a| ==> IsDigit(a[j])
    requires |b| > 0 ==> !IsDigit(b[0])
    ensures LeadingDigits(a + b) == |a|
  {
    if |a| > 0 {
      assert (a + b)[1..] == a[1..] + b;
      LeadingDigitsOf(a[1..], b);
    } else {
      assert a + b == b;
    }
  }

  /** The leading digit run, and the text after the character that follows it. */
  function Head(s: string): string {
    s[..LeadingDigits(s)]
  }

  function Tail(s: string): string {
    var n := LeadingDigits(s);
    if n < |s| then s[n + 1..] else ""
  }

  /** After the leading digits: the end, or one final line feed (what `$` also accepts). */
  predicate AtEnd(s: string) {
    var n := LeadingDigits(s);
    n == |s| || (n + 1 == |s| && s[n] == '\n')
  }

  /** After the leading digits: a dot. */
  predicate AtDot(s: string) {
    var n := LeadingDigits(s);
    n < |s| && s[n] == '.'
  }

  /**
   * The regular expression `\d{1,3}(\.\d{1,3}){groups - 1}$` matched from
   * the start of `s`. A dot is no digit, so the greedy digit run is the
   * only one that can be followed by a dot or the end.
   */
  predicate MatchesOctets(s: string, groups: int)
    decreases groups
  {
    groups > 0 && 1 <= LeadingDigits(s) <= 3 &&
    if groups == 1 then AtEnd(s) else AtDot(s) && MatchesOctets(Tail(s), groups - 1)
  }

  predicate EndsWithLineFeed(s: string) {
    |s| > 0 && s[|s| - 1] == '\n'
  }

  /** One to three digits. */
  predicate IsOctet(t: string) {
    1 <= |t| <= 3 && forall j :: 0 <= j < |t| ==> IsDigit(t[j])
  }

  predicate AllOctets(groups: seq<string>) {
    forall i :: 0 <= i < |groups| ==> IsOctet(groups[i])
  }

  /** Exactly four `.`-separated groups, each of one to three digits. */
  predicate DottedQuad(h: string) {
    |Split(h, '.')| == 4 && AllOctets(Split(h, '.'))
  }

  lemma AllOctetsCons(a: string, rest: seq<string>)
    requires IsOctet(a) && AllOctets(rest)
    ensures AllOctets([a] + rest)
  {
  }

  lemma Around(s: string, n: nat)
    requires n < |s|
    ensures s == s[..n] + [s[n]] + s[n + 1..]
  {
  }

  /** One step of a match of more than one group: an octet, a dot, and a match of the rest. */
  lemma MatchesOctetsMore(s: string, k: nat)
    requires !EndsWithLineFeed(s)
    requires MatchesOctets(s, k) && k > 1
    ensures IsOctet(Head(s)) && s == Head(s) + ['.'] + Tail(s)
    ensures MatchesOctets(Tail(s), k - 1) && !EndsWithLineFeed(Tail(s))
  {
    var n := LeadingDigits(s);
    LeadingDigitsRun(s);
    assert forall j :: 0 <= j < n ==> IsDigit(Head(s)[j]);
    Around(s, n);
  }

  /** A match of one group, not ending in a line feed, is an octet. */
  lemma MatchesOctetsOne(s: string)
    requires !EndsWithLineFeed(s)
    requires MatchesOctets(s, 1)
    ensures IsOctet(s)
  {
    LeadingDigitsRun(s);
    assert s == s[..LeadingDigits(s)];
  }

  /** A match of `k` groups is `k` octets joined by dots. */
  lemma {:induction false} OctetGroups(s: string, k: nat) returns (groups: seq<string>)
    requires !EndsWithLineFeed(s)
    requires MatchesOctets(s, k) && k >= 1
    ensures |groups| == k && AllOctets(groups) && Join(groups, '.') == s
    decreases k
  {
    if k == 1 {
      MatchesOctetsOne(s);
      groups := [s];
    } else {
      MatchesOctetsMore(s, k);
      var j := k - 1;
      var rest := OctetGroups(Tail(s), j);
      groups := [Head(s)] + rest;
      JoinCons(Head(s), rest, '.');
      AllOctetsCons(Head(s), rest);
    }
  }

  /** Matching the octet pattern means splitting into `k` octets. */
  lemma OctetsToGroups(s: string, k: nat)
    requires !EndsWithLineFeed(s)
    requires MatchesOctets(s, k) && k >= 1
    ensures |Split(s, '.')| == k && AllOctets(Split(s, '.'))
  {
    var groups := OctetGroups(s, k);
    forall i | 0 <= i < |groups|
      ensures '.' !in groups[i]
    {
      assert IsOctet(groups[i]);
    }
    SplitJoin(groups, '.');
  }

  /** An octet and a dot in front of a match of `k` groups make a match of `k + 1`. */
  lemma ConsShape(a: string, t: string)
    requires IsOctet(a)
    ensures var s := a + ['.'] + t;
      LeadingDigits(s) == |a| && AtDot(s) && Tail(s) == t
  {
    var s := a + ['.'] + t;
    assert s == a + (['.'] + t);
    LeadingDigitsOf(a, ['.'] + t);
    assert s[|a| + 1..] == t;
  }

  /** An octet and a dot in front of a match of `k - 1` groups make a match of `k`. */
  lemma MatchesOctetsCons(a: string, t: string, k: int)
    requires IsOctet(a) && k > 1 && MatchesOctets(t, k - 1)
    ensures MatchesOctets(a + ['.'] + t, k)
  {
    ConsShape(a, t);
  }

  /** A single octet matches the pattern of one group. */
  lemma OctetMatches(a: string)
    requires IsOctet(a)
    ensures MatchesOctets(a, 1)
  {
    LeadingDigitsOf(a, "");
    assert a + "" == a;
  }

  /** Octets joined by dots match the octet pattern of that many groups. */
  lemma {:induction false} JoinedOctetsMatch(groups: seq<string>)
    requires |groups| >= 1 && AllOctets(groups)
    ensures MatchesOctets(Join(groups, '.'), |groups|)
    decreases |groups|
  {
    var a := groups[0];
    assert IsOctet(a);
    if |groups| == 1 {
      OctetMatches(a);
    } else {
      var rest := groups[1..];
      assert groups == [a] + rest;
      JoinedOctetsMatch(rest);
      JoinCons(a, rest, '.');
      var k := |groups|;
      assert |rest| == k - 1;
      MatchesOctetsCons(a, Join(rest, '.'), k);
    }
  }

  /** Splitting into `k` octets means matching the octet pattern. */
  lemma GroupsToOctets(s: string, k: nat)
    requires k >= 1
    requires |Split(s, '.')| == k && AllOctets(Split(s, '.'))
    ensures MatchesOctets(s, k)
  {
    JoinSplit(s, '.');
    JoinedOctetsMatch(Split(s, '.'));
  }

  /** `is_ip`: the netloc matches `^\d{1,3}\.\d{1,3}\.\d{1,3}\.\d{1,3}$`. */
  function IpFlag(hostname: string): (b: nat)
    ensures b <= 1
  {
    Flag(MatchesOctets(hostname, 4))
  }

  /** Unless it ends in a line feed, a host name is flagged exactly when it is a dotted quad. */
  lemma IpFlagIffDottedQuad(hostname: string)
    requires !EndsWithLineFeed(hostname)
    ensures IpFlag(hostname) == 1 <==> DottedQuad(hostname)
  {
    if MatchesOctets(hostname, 4) {
      OctetsToGroups(hostname, 4);
    }
    if DottedQuad(hostname) {
      GroupsToOctets(hostname, 4);
    }
  }

  /** `short_url`: 1 exactly when some known shortener occurs somewhere in the netloc. */
  function ShortenerFlag(hostname: string): (b: nat)
    ensures b <= 1
    ensures b == 1 <==> exists k, i :: 0 <= k < |Shorteners| && OccursAt(hostname, Shorteners[k], i)
  {
    forall k | 0 <= k < |Shorteners| {
      ContainsIffOccurs(hostname, Shorteners[k]);
    }
    Flag(exists k :: 0 <= k < |Shorteners| && Contains(hostname, Shorteners[k]))
  }

  /** A shortener anywhere in the host name flags it, not only as the whole name. */
  lemma ShortenerAnywhere(a: string, k: nat, b: string)
    requires k < |Shorteners|
    ensures ShortenerFlag(a + Shorteners[k] + b) == 1
  {
    var h := a + Shorteners[k] + b;
    assert h[|a|..|a| + |Shorteners[k]|] == Shorteners[k];
    assert OccursAt(h, Shorteners[k], |a|);
  }

  /** `https_token`: 1 exactly when `https` occurs somewhere in the scheme. */
  function HttpsFlag(scheme: string): (b: nat)
    ensures b <= 1
    ensures b == 1 <==> exists i :: OccursAt(scheme, "https", i)
  {
    ContainsIffOccurs(scheme, "https");
    Flag(Contains(scheme, "https"))
  }

  /** Of the two web schemes only `https` sets the token. */
  lemma HttpsFlagOfWebScheme()
    ensures HttpsFlag("https") == 1 && HttpsFlag("http") == 0
  {
    assert OccursAt("https", "https", 0);
    assert forall i :: !OccursAt("http", "https", i);
  }

  /** How many of `words` occur in `s`. */
  function CountPresent(words: seq<string>, s: string): (n: nat)
    ensures n <= |words|
  {
    if |words| == 0 then 0
    else (if Contains(s, words[0]) then 1 else 0) + CountPresent(words[1..], s)
  }

  /** The distinct words of `words` that occur in `s`. */
  function Present(words: seq<string>, s: string): set<string> {
    set w | w in words && Contains(s, w)
  }

  /** Counting occurring entries of a list without repeats counts the distinct words found. */
  /** The words found in `s`: the first word if found, then those of the rest. */
  lemma PresentCons(words: seq<string>, s: string)
    requires |words| > 0
    ensures Present(words, s) == (if Contains(s, words[0]) then {words[0]} else {}) + Present(words[1..], s)
  {
    assert forall w :: w in words <==> w == words[0] || w in words[1..];
  }

  lemma {:induction false} CountPresentIsCardinality(words: seq<string>, s: string)
    requires forall i, j :: 0 <= i < j < |words| ==> words[i] != words[j]
    ensures CountPresent(words, s) == |Present(words, s)|
  {
    if |words| > 0 {
      var rest := words[1..];
      assert forall i, j :: 0 <= i < j < |rest| ==> rest[i] != rest[j] by {
        assert forall j :: 0 <= j < |rest| ==> rest[j] == words[j + 1];
      }
      CountPresentIsCardinality(rest, s);
      PresentCons(words, s);
      assert words[0] !in Present(rest, s) by {
        assert forall j :: 0 <= j < |rest| ==> rest[j] == words[j + 1];
      }
    }
  }

  /** `sensitive_words`: how many distinct keywords occur in the lower-cased URL. */
  function SensitiveCount(url: string): (n: nat)
    ensures n <= |SensitiveWords|
    ensures n == |Present(SensitiveWords, Lower(url))|
  {
    assert forall i, j :: 0 <= i < j < |SensitiveWords| ==> SensitiveWords[i] != SensitiveWords[j];
    CountPresentIsCardinality(SensitiveWords, Lower(url));
    CountPresent(SensitiveWords, Lower(url))
  }

  /**
   * The named features of `url`: the dictionary `extract_features` fills.
   * Lengths and counts stay within the URL's length, and the flags are 0 or 1.
   */
  function ExtractNamed(url: string, lg: real -> real): (f: Features)
    ensures f.urlLength == |url|
    ensures f.hostnameLength + f.pathLength <= f.urlLength
    ensures f.fdLength <= f.pathLength && f.tldLength <= f.hostnameLength
    ensures f.countDash + f.countAt + f.countQuestion + f.countPercent + f.countDot + f.countEqual
      + f.countAmpersand + f.countUnderscore + f.countDigits + f.countAlpha <= f.urlLength
    ensures f.isIp <= 1 && f.shortUrl <= 1 && f.httpsToken <= 1
    ensures f.sensitiveWords <= |SensitiveWords|
  {
    CharClassTotal(url);
    var parts := Parse(url);
    var hostname := parts.netloc;
    var path := parts.path;
    Features(
      urlLength := |url|,
      hostnameLength := |hostname|,
      pathLength := |path|,
      fdLength := FirstDirLength(path),
      tldLength := TldLength(hostname),
      countDash := Count(url, '-'),
      countAt := Count(url, '@'),
      countQuestion := Count(url, '?'),
      countPercent := Count(url, '%'),
      countDot := Count(url, '.'),
      countEqual := Count(url, '='),
      countAmpersand := Count(url, '&'),
      countUnderscore := Count(url, '_'),
      countDigits := CountDigits(url),
      countAlpha := CountAlpha(url),
      isIp := IpFlag(hostname),
      shortUrl := ShortenerFlag(hostname),
      httpsToken := HttpsFlag(parts.scheme),
      sensitiveWords := SensitiveCount(url),
      entropy := Entropy(url, lg))
  }

  /** `features[name]` */
  function FieldByName(f: Features, name: string): real
    requires name in FeatureNames
  {
    if name == "url_length" then f.urlLength as real
    else if name == "hostname_length" then f.hostnameLength as real
    else if name == "path_length" then f.pathLength as real
    else if name == "fd_length" then f.fdLength as real
    else if name == "tld_length" then f.tldLength as real
    else if name == "count_dash" then f.countDash as real
    else if name == "count_at" then f.countAt as real
    else if name == "count_question" then f.countQuestion as real
    else if name == "count_percent" then f.countPercent as real
    else if name == "count_dot" then f.countDot as real
    else if name == "count_equal" then f.countEqual as real
    else if name == "count_ampersand" then f.countAmpersand as real
    else if name == "count_underscore" then f.countUnderscore as real
    else if name == "count_digits" then f.countDigits as real
    else if name == "count_alpha" then f.countAlpha as real
    else if name == "is_ip" then f.isIp as real
    else if name == "short_url" then f.shortUrl as real
    else if name == "https_token" then f.httpsToken as real
    else if name == "sensitive_words" then f.sensitiveWords as real
    else f.entropy
  }

  /** `[features[key] for key in self.feature_names]` */
  function ToVector(f: Features): (v: seq<real>)
    ensures |v| == |FeatureNames|
    ensures forall i :: 0 <= i < |FeatureNames| ==> v[i] == FieldByName(f, FeatureNames[i])
  {
    [f.urlLength as real, f.hostnameLength as real, f.pathLength as real, f.fdLength as real,
     f.tldLength as real, f.countDash as real, f.countAt as real, f.countQuestion as real,
     f.countPercent as real, f.countDot as real, f.countEqual as real, f.countAmpersand as real,
     f.countUnderscore as real, f.countDigits as real, f.countAlpha as real, f.isIp as real,
     f.shortUrl as real, f.httpsToken as real, f.sensitiveWords as real, f.entropy]
  }

  /**
   * `dict(zip(names, values)).get(name, 0)` when `names` has no repeats:
   * the value paired with `name`, or 0 when `name` is absent or `values`
   * runs out before reaching it.
   */
  function Get(names: seq<string>, values: seq<real>, name: string): real {
    if |names| == 0 || |values| == 0 then 0.0
    else if names[0] == name then values[0]
    else Get(names[1..], values[1..], name)
  }

  /** `dict(zip(self.feature_names, v)).get(name, 0)` */
  function Lookup(v: seq<real>, name: string): real {
    Get(FeatureNames, v, name)
  }

  predicate Distinct(names: seq<string>) {
    forall i, j :: 0 <= i < j < |names| ==> names[i] != names[j]
  }

  lemma {:induction false} GetAt(names: seq<string>, values: seq<real>, i: nat)
    requires Distinct(names) && i < |names| && i < |values|
    ensures Get(names, values, names[i]) == values[i]
  {
    if i > 0 {
      assert names[0] != names[i];
      var j := i - 1;
      assert names[1..][j] == names[i];
      GetAt(names[1..], values[1..], j);
    }
  }

  lemma {:induction false} GetAbsent(names: seq<string>, values: seq<real>, name: string)
    requires name !in names
    ensures Get(names, values, name) == 0.0
  {
    if |names| > 0 && |values| > 0 {
      GetAbsent(names[1..], values[1..], name);
    }
  }

  /** A name that is not a feature reads as 0. */
  lemma LookupUnknown(v: seq<real>, name: string)
    requires name !in FeatureNames
    ensures Lookup(v, name) == 0.0
  {
    GetAbsent(FeatureNames, v, name);
  }

  /** No name is listed twice; names of equal length differ at the character shown. */
  lemma FeatureNamesDistinct()
    ensures Distinct(FeatureNames)
  {
    assert FeatureNames[0][0] != FeatureNames[4][0];
    assert FeatureNames[0][0] != FeatureNames[5][0];
    assert FeatureNames[1][0] != FeatureNames[11][0];
    assert FeatureNames[1][0] != FeatureNames[18][0];
    assert FeatureNames[2][0] != FeatureNames[10][0];
    assert FeatureNames[2][0] != FeatureNames[14][0];
    assert FeatureNames[2][0] != FeatureNames[17][0];
    assert FeatureNames[3][0] != FeatureNames[9][0];
    assert FeatureNames[3][0] != FeatureNames[16][0];
    assert FeatureNames[4][0] != FeatureNames[5][0];
    assert FeatureNames[9][0] != FeatureNames[16][0];
    assert FeatureNames[10][6] != FeatureNames[14][6];
    assert FeatureNames[10][0] != FeatureNames[17][0];
    assert FeatureNames[11][0] != FeatureNames[18][0];
    assert FeatureNames[14][0] != FeatureNames[17][0];
  }

  /** Reading a vector back by a feature's name gives the value at that feature's position. */
  lemma LookupAtPosition(v: seq<real>, i: nat)
    requires i < |FeatureNames| && i < |v|
    ensures Lookup(v, FeatureNames[i]) == v[i]
  {
    FeatureNamesDistinct();
    GetAt(FeatureNames, v, i);
  }

  /**
   * `extract_features`: exactly 20 values, and reading the vector back by
   * name (as the explanation does) yields the feature of that name.
   */
  function ExtractFeatures(url: string, lg: real -> real): (v: seq<real>)
    ensures |v| == |FeatureNames| == 20
    ensures forall i :: 0 <= i < |FeatureNames| ==>
      Lookup(v, FeatureNames[i]) == FieldByName(ExtractNamed(url, lg), FeatureNames[i])
  {
    var v := ToVector(ExtractNamed(url, lg));
    forall i | 0 <= i < |FeatureNames|
      ensures Lookup(v, FeatureNames[i]) == v[i]
    {
      LookupAtPosition(v, i);
    }
    v
  }

  /** The character classes counted are disjoint, so their counts add up to at most the length. */
  lemma {:induction false} CharClassTotal(s: string)
    ensures Count(s, '-') + Count(s, '@') + Count(s, '?') + Count(s, '%') + Count(s, '.')
      + Count(s, '=') + Count(s, '&') + Count(s, '_') + CountDigits(s) + CountAlpha(s) <= |s|
  {
    if |s| > 0 {
      CharClassTotal(s[1..]);
    }
  }

  /** The bounds every feature record satisfies. */
  lemma FeatureBounds(url: string, lg: real -> real)
    requires IsLog2(lg)
    ensures var f := ExtractNamed(url, lg);
      && f.urlLength == |url|
      && f.hostnameLength + f.pathLength <= f.urlLength
      && f.fdLength <= f.pathLength && f.tldLength <= f.hostnameLength
      && f.countDash + f.countAt + f.countQuestion + f.countPercent + f.countDot + f.countEqual
         + f.countAmpersand + f.countUnderscore + f.countDigits + f.countAlpha <= f.urlLength
      && f.isIp <= 1 && f.shortUrl <= 1 && f.httpsToken <= 1
      && f.sensitiveWords <= |SensitiveWords|
      && f.entropy >= 0.0
  {
    EntropyBounds(url, lg);
  }

  /**
   * For a URL written `scheme://host/path`, the host-name and path
   * features are those of `host` and `path`, and `https_token` is 1
   * exactly for `https`.
   */
  lemma WebUrlFeatures(scheme: string, host: string, path: string, lg: real -> real)
    requires scheme == "http" || scheme == "https"
    requires forall i :: 0 <= i < |host| ==> host[i] !in {'/', '?', '#'} && !IsUnsafe(host[i])
    requires forall i :: 0 <= i < |path| ==> path[i] !in {'?', '#'} && !IsUnsafe(path[i])
    requires path == [] || path[0] == '/'
    ensures var f := ExtractNamed(scheme + "://" + (host + path), lg);
      && f.hostnameLength == |host| && f.pathLength == |path|
      && f.fdLength == FirstDirLength(path) && f.tldLength == TldLength(host)
      && (f.isIp == 1 <==> DottedQuad(host))
      && f.shortUrl == ShortenerFlag(host)
      && f.httpsToken == (if scheme == "https" then 1 else 0)
  {
    var url := scheme + "://" + (host + path);
    ParseWebUrl(scheme, host, path);
    assert !EndsWithLineFeed(host) by {
      if |host| > 0 {
        assert !IsUnsafe(host[|host| - 1]);
      }
    }
    IpFlagIffDottedQuad(host);
    HttpsFlagOfWebScheme();
  }

  /** `is_ip` is 1 exactly when the parsed netloc is four dot-separated groups of 1 to 3 digits. */
  lemma IpFeatureIffDottedQuad(url: string, lg: real -> real)
    ensures ExtractNamed(url, lg).isIp == 1 <==> DottedQuad(Parse(url).netloc)
  {
    var h := Parse(url).netloc;
    assert !EndsWithLineFeed(h) by {
      if |h| > 0 {
        assert !IsUnsafe(h[|h| - 1]);
      }
    }
    IpFlagIffDottedQuad(h);
  }
}
