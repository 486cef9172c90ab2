/**
 * `DataLoader`: the labelled URL table the detector is trained on. The
 * feeds, the ranking file and the feedback file are outside the model:
 * each is a parameter that either holds what was read or says the read
 * failed. Pandas' seeded sampling and shuffling are oracles of which the
 * model only assumes what every sample and every shuffle satisfies.
 */
module DataLoader {
  import opened Optional
  import opened UrlParse

  /** One row of the table: a URL and its `label` column, here `tag` (1 malicious, 0 benign). */
  datatype Row = Row(url: string, tag: int)

  const Malicious: int := 1
  const Benign: int := 0

  /** The most rows kept per class, and overall when only one class is present. */
  const SampleCap: nat := 2000

  /** How many ranked domains are read from the Tranco list. */
  const TrancoRows: nat := 3000

  /** The domains used when the Tranco list cannot be read. */
  const FallbackDomains: seq<string> := ["google.com", "apple.com", "microsoft.com", "amazon.com", "facebook.com"]

  function Min(a: int, b: int): int {
    if a <= b then a else b
  }

  /** `df['label'] = label` on a one-column table of URLs. */
  function LabelAll(urls: seq<string>, tag: int): (rows: seq<Row>)
    ensures |rows| == |urls|
    ensures forall i :: 0 <= i < |urls| ==> rows[i] == Row(urls[i], tag)
  {
    seq(|urls|, i requires 0 <= i < |urls| => Row(urls[i], tag))
  }

  /** `pd.concat(frames, ignore_index=True)` */
  function Concat(frames: seq<seq<Row>>): seq<Row> {
    if |frames| == 0 then [] else frames[0] + Concat(frames[1..])
  }

  /** `df[df['label'] == label]`, keeping the rows' order. */
  function Labelled(rows: seq<Row>, tag: int): seq<Row> {
    if |rows| == 0 then []
    else (if rows[0].tag == tag then [rows[0]] else []) + Labelled(rows[1..], tag)
  }

  /** A row occurs in the selection as often as in the table when it has the label, else never. */
  lemma {:induction false} LabelledCount(rows: seq<Row>, tag: int, x: Row)
    ensures multiset(Labelled(rows, tag))[x] == if x.tag == tag then multiset(rows)[x] else 0
  {
    if |rows| > 0 {
      LabelledCount(rows[1..], tag, x);
      assert rows == [rows[0]] + rows[1..];
    }
  }

  /** Reordering the table does not change how many rows carry a label. */
  lemma LabelledPermutation(a: seq<Row>, b: seq<Row>, tag: int)
    requires multiset(a) == multiset(b)
    ensures |Labelled(a, tag)| == |Labelled(b, tag)|
  {
    forall x
      ensures multiset(Labelled(a, tag))[x] == multiset(Labelled(b, tag))[x]
    {
      LabelledCount(a, tag, x);
      LabelledCount(b, tag, x);
    }
    assert multiset(Labelled(a, tag)) == multiset(Labelled(b, tag));
  }

  /** Selecting from two tables one after the other selects as many rows as from their concatenation. */
  lemma LabelledAppend(a: seq<Row>, b: seq<Row>, tag: int)
    ensures |Labelled(a + b, tag)| == |Labelled(a, tag)| + |Labelled(b, tag)|
  {
    forall x
      ensures multiset(Labelled(a + b, tag))[x]
        == (multiset(Labelled(a, tag)) + multiset(Labelled(b, tag)))[x]
    {
      LabelledCount(a + b, tag, x);
      LabelledCount(a, tag, x);
      LabelledCount(b, tag, x);
    }
    assert multiset(Labelled(a + b, tag)) == multiset(Labelled(a, tag)) + multiset(Labelled(b, tag));
  }

  /** Rows drawn from the rows of one label all carry that label, and none carries another. */
  lemma LabelledDrawn(xs: seq<Row>, rows: seq<Row>, tag: int, other: int)
    requires multiset(xs) <= multiset(Labelled(rows, tag))
    requires other != tag
    ensures |Labelled(xs, tag)| == |xs| && |Labelled(xs, other)| == 0
  {
    forall x
      ensures multiset(Labelled(xs, tag))[x] == multiset(xs)[x]
      ensures multiset(Labelled(xs, other))[x] == 0
    {
      LabelledCount(rows, tag, x);
      LabelledCount(xs, tag, x);
      LabelledCount(xs, other, x);
    }
    assert multiset(Labelled(xs, tag)) == multiset(xs);
    assert multiset(Labelled(xs, other)) == multiset{};
  }

  /** The malicious and the benign rows together are drawn from the table. */
  lemma ClassesWithin(rows: seq<Row>)
    ensures multiset(Labelled(rows, Malicious)) + multiset(Labelled(rows, Benign)) <= multiset(rows)
  {
    forall x
      ensures multiset(Labelled(rows, Malicious))[x] + multiset(Labelled(rows, Benign))[x] <= multiset(rows)[x]
    {
      LabelledCount(rows, Malicious, x);
      LabelledCount(rows, Benign, x);
    }
  }

  /** What `df.sample(k, random_state=42)` is assumed to give: `k` rows drawn without replacement. */
  ghost predicate IsSampler(sample: (seq<Row>, nat) -> seq<Row>) {
    forall rows: seq<Row>, k: nat :: k <= |rows| ==>
      |sample(rows, k)| == k && multiset(sample(rows, k)) <= multiset(rows)
  }

  /** What `df.sample(frac=1, random_state=42)` is assumed to give: the same rows in some order. */
  ghost predicate IsShuffler(shuffle: seq<Row> -> seq<Row>) {
    forall rows: seq<Row> :: multiset(shuffle(rows)) == multiset(rows)
  }

  /** `n_samples`: the size of the smaller class, capped. */
  function SampleSize(full: seq<Row>): nat {
    Min(Min(|Labelled(full, Malicious)|, |Labelled(full, Benign)|), SampleCap)
  }

  /** Equal draws from both classes, shuffled together. */
  lemma BalancedDraw(full: seq<Row>, ms: seq<Row>, bs: seq<Row>, r: seq<Row>, n: nat)
    requires |ms| == n && multiset(ms) <= multiset(Labelled(full, Malicious))
    requires |bs| == n && multiset(bs) <= multiset(Labelled(full, Benign))
    requires multiset(r) == multiset(ms + bs)
    ensures |Labelled(r, Malicious)| == n && |Labelled(r, Benign)| == n
    ensures |r| == 2 * n && multiset(r) <= multiset(full)
  {
    LabelledDrawn(ms, full, Malicious, Benign);
    LabelledDrawn(bs, full, Benign, Malicious);
    LabelledAppend(ms, bs, Malicious);
    LabelledAppend(ms, bs, Benign);
    LabelledPermutation(r, ms + bs, Malicious);
    LabelledPermutation(r, ms + bs, Benign);
    ClassesWithin(full);
    assert |r| == |multiset(r)| == |ms + bs|;
  }

  /**
   * The class balancing of `get_data` on the combined table. With both
   * classes present: `n` rows of each, `n` the smaller class size capped
   * at 2000, drawn without replacement. Otherwise the table itself, or 2000
   * rows drawn from it when it is longer.
   */
  function Balance(full: seq<Row>, sample: (seq<Row>, nat) -> seq<Row>, shuffle: seq<Row> -> seq<Row>): (r: seq<Row>)
    requires IsSampler(sample) && IsShuffler(shuffle)
    ensures |Labelled(full, Malicious)| > 0 && |Labelled(full, Benign)| > 0 ==>
      var n := SampleSize(full);
      |Labelled(r, Malicious)| == n && |Labelled(r, Benign)| == n && |r| == 2 * n
    ensures !(|Labelled(full, Malicious)| > 0 && |Labelled(full, Benign)| > 0) ==>
      (|full| <= SampleCap ==> r == full) && (|full| > SampleCap ==> |r| == SampleCap)
    ensures multiset(r) <= multiset(full)
  {
    var malicious := Labelled(full, Malicious);
    var benign := Labelled(full, Benign);
    if |malicious| > 0 && |benign| > 0 then
      var n := SampleSize(full);
      var ms := sample(malicious, n);
      var bs := sample(benign, n);
      var r := shuffle(ms + bs);
      BalancedDraw(full, ms, bs, r, n);
      r
    else if |full| > SampleCap then
      sample(full, SampleCap)
    else
      full
  }

  /** `[f"https://{d}", f"http://{d}"]` for each domain, in order. */
  function Expand(domains: seq<string>): seq<string> {
    if |domains| == 0 then []
    else
      var k := |domains| - 1;
      Expand(domains[..k]) + [HttpsPrefix + domains[k], HttpPrefix + domains[k]]
  }

  /** Each domain becomes two URLs, the `https://` one first. */
  lemma {:induction false} ExpandShape(domains: seq<string>)
    ensures |Expand(domains)| == 2 * |domains|
    ensures forall i :: 0 <= i < |domains| ==>
      Expand(domains)[2 * i] == HttpsPrefix + domains[i] && Expand(domains)[2 * i + 1] == HttpPrefix + domains[i]
  {
    if |domains| > 0 {
      var k := |domains| - 1;
      ExpandShape(domains[..k]);
    }
  }

  /** The URL-building loop of `fetch_benign_tranco`. */
  method ExpandDomains(domains: seq<string>) returns (urls: seq<string>)
    ensures urls == Expand(domains)
  {
    urls := [];
    var i := 0;
    while i < |domains|
      invariant 0 <= i <= |domains|
      invariant urls == Expand(domains[..i])
    {
      urls := urls + [HttpsPrefix + domains[i]];
      urls := urls + [HttpPrefix + domains[i]];
      assert domains[..i + 1][..i] == domains[..i];
      i := i + 1;
    }
    assert domains[..i] == domains;
  }

  /** The `https://` URL of each fallback domain. */
  function FallbackUrls(): (urls: seq<string>)
    ensures |urls| == |FallbackDomains|
    ensures forall i :: 0 <= i < |urls| ==> urls[i] == HttpsPrefix + FallbackDomains[i]
  {
    seq(|FallbackDomains|, i requires 0 <= i < |FallbackDomains| => HttpsPrefix + FallbackDomains[i])
  }

  /**
   * The table `fetch_benign_tranco` appends: the two URLs of each of the
   * first 3000 ranked domains, or the fallback URLs when the list cannot
   * be read; all benign.
   */
  function TrancoFrame(ranking: Option<seq<string>>): seq<Row> {
    match ranking
    case Some(domains) => LabelAll(Expand(domains[..Min(|domains|, TrancoRows)]), Benign)
    case None => LabelAll(FallbackUrls(), Benign)
  }

  /** The Tranco table: two benign rows per domain read, or exactly five benign `https://` rows. */
  lemma TrancoFrameShape(ranking: Option<seq<string>>)
    ensures var frame := TrancoFrame(ranking);
      && (forall i :: 0 <= i < |frame| ==> frame[i].tag == Benign)
      && (ranking.Some? ==>
            var k := Min(|ranking.value|, TrancoRows);
            |frame| == 2 * k
            && forall i :: 0 <= i < k ==>
                 frame[2 * i].url == HttpsPrefix + ranking.value[i]
                 && frame[2 * i + 1].url == HttpPrefix + ranking.value[i])
      && (ranking.None? ==>
            |frame| == 5 && forall i :: 0 <= i < 5 ==> frame[i].url == HttpsPrefix + FallbackDomains[i])
  {
    if ranking.Some? {
      var k := Min(|ranking.value|, TrancoRows);
      ExpandShape(ranking.value[..k]);
    }
  }

  /** The rows of a feed, all malicious, or nothing when the feed failed. */
  function FeedFrames(feed: Option<seq<string>>): seq<seq<Row>> {
    if feed.Some? then [LabelAll(feed.value, Malicious)] else []
  }

  /** The feedback rows, or none when there is no feedback file. */
  function FeedbackRows(feedback: Option<seq<Row>>): seq<Row> {
    if feedback.Some? then feedback.value else []
  }

  /** The scraped part of `get_data`: balanced rows, or none when no table was fetched. */
  function Scraped(frames: seq<seq<Row>>, sample: (seq<Row>, nat) -> seq<Row>, shuffle: seq<Row> -> seq<Row>): seq<Row>
    requires IsSampler(sample) && IsShuffler(shuffle)
  {
    if |frames| > 0 then Balance(Concat(frames), sample, shuffle) else []
  }

  class Loader {
    /** `self.data`: the tables fetched so far, in fetch order. */
    var data: seq<seq<Row>>

    constructor ()
      ensures data == []
    {
      data := [];
    }

    /**
     * `fetch_phishtank`, `fetch_openphish` and `fetch_urlhaus`: each
     * appends its URLs labelled malicious when the download and parse
     * succeed, and nothing otherwise.
     */
    method FetchFeed(feed: Option<seq<string>>)
      modifies this
      ensures data == old(data) + FeedFrames(feed)
    {
      if feed.Some? {
        var df := LabelAll(feed.value, Malicious);
        data := data + [df];
      }
    }

    /** `fetch_benign_tranco`: always appends exactly one table. */
    method FetchBenignTranco(ranking: Option<seq<string>>)
      modifies this
      ensures data == old(data) + [TrancoFrame(ranking)]
    {
      match ranking
      case Some(domains) =>
        var top := domains[..Min(|domains|, TrancoRows)];
        var urls := ExpandDomains(top);
        data := data + [LabelAll(urls, Benign)];
      case None =>
        var urls := FallbackUrls();
        data := data + [LabelAll(urls, Benign)];
    }

    /** `get_data`: fetch every source, balance the combined table, then append the feedback rows. */
    method GetData(phishtank: Option<seq<string>>, openphish: Option<seq<string>>, urlhaus: Option<seq<string>>,
                   ranking: Option<seq<string>>, feedback: Option<seq<Row>>,
                   sample: (seq<Row>, nat) -> seq<Row>, shuffle: seq<Row> -> seq<Row>)
      returns (df: seq<Row>)
      requires IsSampler(sample) && IsShuffler(shuffle)
      modifies this
      ensures data == old(data) + FeedFrames(phishtank) + FeedFrames(openphish) + FeedFrames(urlhaus)
        + [TrancoFrame(ranking)]
      ensures df == Scraped(data, sample, shuffle) + FeedbackRows(feedback)
    {
      FetchFeed(phishtank);
      FetchFeed(openphish);
      FetchFeed(urlhaus);
      FetchBenignTranco(ranking);
      var scraped: seq<Row>;
      if |data| > 0 {
        var full := Concat(data);
        scraped := Balance(full, sample, shuffle);
      } else {
        scraped := [];
      }
      df := scraped;
      if feedback.Some? {
        df := df + feedback.value;
      }
    }
  }

  /** A table whose rows all carry one label has no row of another. */
  lemma LabelledNone(rows: seq<Row>, tag: int, other: int)
    requires forall i :: 0 <= i < |rows| ==> rows[i].tag == tag
    requires other != tag
    ensures Labelled(rows, other) == []
  {
    forall x
      ensures multiset(Labelled(rows, other))[x] == 0
    {
      LabelledCount(rows, other, x);
    }
    assert multiset(Labelled(rows, other)) == multiset{};
  }

  /** A table of one class within the cap is kept as it is. */
  lemma SingleClassKept(full: seq<Row>, sample: (seq<Row>, nat) -> seq<Row>, shuffle: seq<Row> -> seq<Row>)
    requires IsSampler(sample) && IsShuffler(shuffle)
    requires forall i :: 0 <= i < |full| ==> full[i].tag == Benign
    requires |full| <= SampleCap
    ensures Balance(full, sample, shuffle) == full
  {
    LabelledNone(full, Benign, Malicious);
  }

  /** When every feed and the Tranco list fail, the training rows are exactly the fallback table. */
  lemma AllSourcesFailed(sample: (seq<Row>, nat) -> seq<Row>, shuffle: seq<Row> -> seq<Row>)
    requires IsSampler(sample) && IsShuffler(shuffle)
    ensures var frames := FeedFrames(None) + FeedFrames(None) + FeedFrames(None) + [TrancoFrame(None)];
      Scraped(frames, sample, shuffle) == TrancoFrame(None)
  {
    var frame := TrancoFrame(None);
    TrancoFrameShape(None);
    var frames := FeedFrames(None) + FeedFrames(None) + FeedFrames(None) + [frame];
    assert frames == [frame];
    assert Concat(frames) == frame + Concat([]) == frame;
    SingleClassKept(frame, sample, shuffle);
    assert Scraped(frames, sample, shuffle) == Balance(frame, sample, shuffle);
  }
}
