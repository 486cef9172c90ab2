/**
 * `PhishingDetector.explain_prediction`: a fixed list of seven rules read
 * off the feature vector by name; each rule that holds contributes its
 * reason, in rule order.
 */
module Explanation {
  import opened PyStr
  import opened UrlParse
  import opened ShannonEntropy
  import opened FeatureExtraction

  /** The seven indicators, in the order they are tested. */
  datatype Rule = IpHost | Shortener | AtSign | Keywords | HighEntropy | ManyDashes | LongUrl

  const IpReason := "Hostname is an IP address (Indicator #9)."
  const ShortenerReason := "Uses a URL shortening service (Indicator #8)."
  const AtReason := "Contains '@' symbol, often used for obfuscation (Indicator #48)."
  const KeywordReason := "Contains sensitive keywords like 'login' or 'secure' (Indicator #16)."
  const EntropyReason := "High randomness (entropy) in URL structure (Indicator #37)."
  const DashReason := "Excessive hyphens in domain (Indicator #13)."
  const LengthReason := "URL is suspiciously long (Indicator #36)."

  /** The reason given for a malicious verdict when no rule holds. */
  const GenericReason := "Detected suspicious patterns matching known phishing sites."

  /** The only reason given for any verdict other than malicious. */
  const LegitimateReason := "URL structure appears legitimate."

  function Reason(r: Rule): string {
    match r
    case IpHost => IpReason
    case Shortener => ShortenerReason
    case AtSign => AtReason
    case Keywords => KeywordReason
    case HighEntropy => EntropyReason
    case ManyDashes => DashReason
    case LongUrl => LengthReason
  }

  /** The rule's test on the vector, reading features by name with a default of 0. */
  predicate Fires(v: seq<real>, r: Rule) {
    match r
    case IpHost => Lookup(v, "is_ip") == 1.0
    case Shortener => Lookup(v, "short_url") == 1.0
    case AtSign => Lookup(v, "count_at") > 0.0
    case Keywords => Lookup(v, "sensitive_words") > 0.0
    case HighEntropy => Lookup(v, "entropy") > 4.5
    case ManyDashes => Lookup(v, "count_dash") > 3.0
    case LongUrl => Lookup(v, "url_length") > 75.0
  }

  /** The reason a single rule contributes: its own when it fires, none otherwise. */
  function Contribution(v: seq<real>, r: Rule): seq<string> {
    if Fires(v, r) then [Reason(r)] else []
  }

  /** The reasons of the seven rules that fire, in the order the rules are tested. */
  function FiredReasons(v: seq<real>): seq<string> {
    Contribution(v, IpHost) + Contribution(v, Shortener) + Contribution(v, AtSign)
    + Contribution(v, Keywords) + Contribution(v, HighEntropy) + Contribution(v, ManyDashes)
    + Contribution(v, LongUrl)
  }

  /** What `explain_prediction` returns for a vector and a predicted label. */
  function Explain(v: seq<real>, prediction: int): seq<string> {
    if prediction == 1 then
      var fired := FiredReasons(v);
      if |fired| == 0 then [GenericReason] else fired
    else
      [LegitimateReason]
  }

  /** Each rule's contribution, written as the test `explain_prediction` makes. */
  lemma ContributionTests(v: seq<real>)
    ensures Contribution(v, IpHost) == if Lookup(v, "is_ip") == 1.0 then [IpReason] else []
    ensures Contribution(v, Shortener) == if Lookup(v, "short_url") == 1.0 then [ShortenerReason] else []
    ensures Contribution(v, AtSign) == if Lookup(v, "count_at") > 0.0 then [AtReason] else []
    ensures Contribution(v, Keywords) == if Lookup(v, "sensitive_words") > 0.0 then [KeywordReason] else []
    ensures Contribution(v, HighEntropy) == if Lookup(v, "entropy") > 4.5 then [EntropyReason] else []
    ensures Contribution(v, ManyDashes) == if Lookup(v, "count_dash") > 3.0 then [DashReason] else []
    ensures Contribution(v, LongUrl) == if Lookup(v, "url_length") > 75.0 then [LengthReason] else []
  {
  }

  /** `explain_prediction`: build the reasons by successive appends. */
  method ExplainPrediction(v: seq<real>, prediction: int) returns (reasons: seq<string>)
    ensures reasons == Explain(v, prediction)
  {
    reasons := [];
    if prediction == 1 {
      ContributionTests(v);
      reasons := reasons + (if Lookup(v, "is_ip") == 1.0 then [IpReason] else []);
      assert reasons == Contribution(v, IpHost);
      reasons := reasons + (if Lookup(v, "short_url") == 1.0 then [ShortenerReason] else []);
      reasons := reasons + (if Lookup(v, "count_at") > 0.0 then [AtReason] else []);
      reasons := reasons + (if Lookup(v, "sensitive_words") > 0.0 then [KeywordReason] else []);
      reasons := reasons + (if Lookup(v, "entropy") > 4.5 then [EntropyReason] else []);
      reasons := reasons + (if Lookup(v, "count_dash") > 3.0 then [DashReason] else []);
      reasons := reasons + (if Lookup(v, "url_length") > 75.0 then [LengthReason] else []);
      assert reasons == FiredReasons(v);
      if |reasons| == 0 {
        reasons := reasons + [GenericReason];
      }
    } else {
      reasons := reasons + [LegitimateReason];
    }
  }

  /** The nine messages are pairwise different. */
  lemma ReasonsDistinct(r: Rule, s: Rule)
    ensures Reason(r) == Reason(s) <==> r == s
    ensures Reason(r) != GenericReason && Reason(r) != LegitimateReason
  {
  }

  /** A rule's reason is among the fired reasons exactly when the rule fires. */
  lemma FiredReasonsMembership(v: seq<real>, r: Rule)
    ensures Reason(r) in FiredReasons(v) <==> Fires(v, r)
  {
    forall s: Rule
      ensures Reason(r) in Contribution(v, s) <==> s == r && Fires(v, r)
    {
      ReasonsDistinct(r, s);
    }
  }

  /** No reason fires exactly when no rule fires. */
  lemma FiredReasonsEmpty(v: seq<real>)
    ensures |FiredReasons(v)| == 0 <==> forall r :: !Fires(v, r)
  {
  }

  /** The generic and the legitimate message are never among the fired reasons. */
  lemma FiredReasonsOnlyRules(v: seq<real>)
    ensures GenericReason !in FiredReasons(v) && LegitimateReason !in FiredReasons(v)
  {
    forall s: Rule
      ensures GenericReason !in Contribution(v, s) && LegitimateReason !in Contribution(v, s)
    {
      ReasonsDistinct(s, s);
    }
  }

  /** Anything but a malicious verdict is explained by the single legitimate reason. */
  lemma ExplainNotMalicious(v: seq<real>, prediction: int)
    requires prediction != 1
    ensures Explain(v, prediction) == [LegitimateReason]
  {
  }

  /** A malicious verdict has one to seven reasons. */
  lemma ExplainLength(v: seq<real>, prediction: int)
    ensures 1 <= |Explain(v, prediction)| <= 7
  {
  }

  /** For a malicious verdict, a rule's reason appears exactly when the rule fires. */
  lemma ExplainReasonIffFires(v: seq<real>, r: Rule)
    ensures Reason(r) in Explain(v, 1) <==> Fires(v, r)
  {
    FiredReasonsMembership(v, r);
    ReasonsDistinct(r, r);
  }

  /** A malicious verdict gets the generic reason alone exactly when no rule fires. */
  lemma ExplainGenericIffNoRule(v: seq<real>)
    ensures Explain(v, 1) == [GenericReason] <==> forall r :: !Fires(v, r)
  {
    FiredReasonsEmpty(v);
    FiredReasonsOnlyRules(v);
    var fired := FiredReasons(v);
    if |fired| > 0 {
      assert fired[0] in fired;
    }
  }

  /** The rule read off the named features directly, without the vector. */
  predicate HoldsOn(f: Features, r: Rule) {
    match r
    case IpHost => f.isIp == 1
    case Shortener => f.shortUrl == 1
    case AtSign => f.countAt > 0
    case Keywords => f.sensitiveWords > 0
    case HighEntropy => f.entropy > 4.5
    case ManyDashes => f.countDash > 3
    case LongUrl => f.urlLength > 75
  }

  /** A rule fires on the vector of a feature record exactly when it holds on the record. */
  lemma FiresOnVector(f: Features, r: Rule)
    ensures Fires(ToVector(f), r) <==> HoldsOn(f, r)
  {
    var v := ToVector(f);
    match r
    case IpHost => LookupAtPosition(v, 15);
    case Shortener => LookupAtPosition(v, 16);
    case AtSign => LookupAtPosition(v, 6);
    case Keywords => LookupAtPosition(v, 18);
    case HighEntropy => LookupAtPosition(v, 19);
    case ManyDashes => LookupAtPosition(v, 5);
    case LongUrl => LookupAtPosition(v, 0);
  }

  /** What each rule says about the URL itself. */
  predicate ShowsOn(url: string, lg: real -> real, r: Rule) {
    match r
    case IpHost => DottedQuad(Parse(url).netloc)
    case Shortener => exists i :: 0 <= i < |Shorteners| && Contains(Parse(url).netloc, Shorteners[i])
    case AtSign => '@' in url
    case Keywords => exists w :: w in SensitiveWords && Contains(Lower(url), w)
    case HighEntropy => Entropy(url, lg) > 4.5
    case ManyDashes => Count(url, '-') > 3
    case LongUrl => |url| > 75
  }

  /** A rule fires on the features of a URL exactly when the URL shows the rule's indicator. */
  lemma FiresOnUrl(url: string, lg: real -> real, r: Rule)
    ensures Fires(ExtractFeatures(url, lg), r) <==> ShowsOn(url, lg, r)
  {
    var f := ExtractNamed(url, lg);
    assert ExtractFeatures(url, lg) == ToVector(f);
    FiresOnVector(f, r);
    match r
    case IpHost =>
      IpFeatureIffDottedQuad(url, lg);
    case Shortener =>
    case AtSign =>
      assert f.countAt == Count(url, '@');
      CountZero(url, '@');
    case Keywords =>
      assert f.sensitiveWords == |Present(SensitiveWords, Lower(url))|;
      var found := Present(SensitiveWords, Lower(url));
      if exists w :: w in SensitiveWords && Contains(Lower(url), w) {
        var w :| w in SensitiveWords && Contains(Lower(url), w);
        assert w in found;
      }
    case HighEntropy =>
      assert f.entropy == Entropy(url, lg);
    case ManyDashes =>
      assert f.countDash == Count(url, '-');
    case LongUrl =>
      assert f.urlLength == |url|;
  }
}
