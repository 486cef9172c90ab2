# Phishing URL detector, modelled in Dafny

The system classifies a URL as malicious (phishing) or benign. It derives a
20-wide lexical feature vector from the URL (lengths, character counts, an
IP-shaped host, shortener domains, sensitive keywords, Shannon entropy),
gives the vector to a random-forest classifier, and explains the verdict
with a few fixed rules. The training table is assembled from three phishing
feeds and the Tranco list of popular domains, balanced between the two
classes and capped. The `/predict` endpoint normalises the URL, probes it,
extracts its features once, and classifies them. When the classifier is
unfitted or was fitted on vectors of another width, it retrains once,
classifies the same vector again, and explains the result.

Modules, one per file:

- `PyStr` (`py_str.dfy`): the Python string operations the core uses
  (`count`, `in`, `startswith`, `split`, `lower`, `isdigit`, `isalpha`).
- `UrlParse` (`url_parse.dfy`): the part of `urllib.parse.urlparse` that
  yields the scheme, the network location and the path.
- `ShannonEntropy` (`entropy.dfy`): `get_entropy`, as a loop proved
  against a specification function.
- `FeatureExtraction` (`features.dfy`): `feature_names`,
  `extract_features` and lookup of a vector entry by feature name.
- `Explanation` (`explanation.dfy`): `explain_prediction`.
- `DataLoader` (`data_loader.dfy`): the `DataLoader` class. Its `data`
  list of frames is a `seq` field that the fetch methods extend. The
  class also covers `get_data`.
- `Detection` (`detector.dfy`): the `PhishingDetector` classifier slot
  and `train`.
- `App` (`app.py` in `app.dfy`): the `/predict` flow.
- `Optional` (`optional.dfy`): the `Option` type for results that
  I/O may or may not produce.

Where the program depends on the outside world, the model takes that part
as a parameter:

- The feeds' URL lists, the Tranco domain list and the feedback table are
  `Option` values; `None` stands for a failed fetch or a missing file.
- `math.log(p, 2)` is a function `lg`. Lemmas that need its properties
  require `IsLog2(lg)`: `lg(1) == 0` and `lg(p) <= 0` for `0 < p <= 1`.
- pandas' seeded `sample` and the shuffle are oracle functions. They are
  constrained only to draw a sub-multiset of the requested size and to
  permute, respectively.
- The forest's split-and-fit is a function `fit` that returns the fitted
  classifier or nothing, when it raises.
- The liveness probe is a predicate `reachable`.

Classifier outcomes are modelled as follows:

- A `Classifier` is what the program observes of the forest: it is
  unfitted, or it is fitted on some vector width and number of classes
  and has a prediction and a malicious-class probability per vector.
- `predict` and `predict_proba` raise `ValueError` or `AttributeError`
  on an unfitted forest or a vector of the wrong width. This is
  `Mismatch`, the case that triggers the retrain.
- With fewer than two classes, `predict_proba(...)[0][1]` raises
  `IndexError`. This is `Crash`, which `predict` does not catch.

Four behaviours of the program are easy to miss:

- **Scheme normalisation.** Normalisation tests only for a lower-case
  `http://` or `https://`. Any other scheme, and an upper-case one, gets a
  second `http://` prefix (`NormalizeCaseSensitive`).
- **Entropy.** Entropy counts the code points 0-255 of the string, not its
  bytes. Characters above 255 contribute nothing
  (`EntropyIgnoresWideCharacters`).
- **The empty-frame branch of `get_data`.** `fetch_benign_tranco` always
  appends a frame: the Tranco rows, or five fixed domains when its source
  fails. So the branch that builds an empty frame when no frame was
  fetched (data_loader.py:137-138) is unreachable. The scraped table can
  still be empty, when the Tranco list itself has no rows. When every
  source fails, it is exactly the five fallback rows (`AllSourcesFailed`).
- **Uncaught errors in `predict`.** A failed retrain, a second mismatch
  and a single-class model are exceptions that `predict` does not catch.
  They are modelled as the response `Failure`. A fit that matches the width
  of its table rules out the second mismatch (`NoSecondMismatch`).

## Model

| member | source | states |
|---|---|---|
| ShannonEntropy.GetEntropy | train_model.py:23-31 | the loop over the 256 code points computes exactly the Shannon entropy specification `Entropy(text, lg)`, with 0 for the empty text |
| ShannonEntropy.Probability | train_model.py:28 | the empirical probability of a code point lies in [0, 1] and is positive exactly when the character occurs in the text |
| ShannonEntropy.EntropyBounds | train_model.py:24-30 | the entropy is never negative, and is 0 for the empty text |
| ShannonEntropy.EntropyOfRepeated | train_model.py:27-30 | a text made of one repeated character has entropy 0 |
| ShannonEntropy.EntropyPermutation | train_model.py:27-30 | entropy depends only on the multiset of characters, so reordering the text leaves it unchanged |
| ShannonEntropy.EntropyIgnoresWideCharacters | train_model.py:27-28 | characters outside the 256 counted code points contribute nothing, so a text of only such characters has entropy 0 |
| PyStr.CountIsMultiplicity | train_model.py:53-60 | `str.count` of a character equals its multiplicity in the string |
| PyStr.CountZero | train_model.py:53-60 | a character's count is 0 exactly when it does not occur |
| PyStr.ContainsIffOccurs | train_model.py:69 | substring membership holds exactly when the word occurs at some index |
| PyStr.SplitCount | train_model.py:46 | `split` on a character yields one piece more than the separator's count |
| PyStr.SplitPieces | train_model.py:46 | no piece of a split holds the separator, and none is longer than the string |
| PyStr.JoinSplit | train_model.py:46 | joining the pieces of a split with the separator gives back the string |
| PyStr.SplitJoin | train_model.py:46 | splitting a join of separator-free pieces gives back the pieces |
| PyStr.SplitSecond | train_model.py:46 | when the separator occurs, the second piece is the text between the first separator and the next one |
| PyStr.SplitLast | train_model.py:49 | when the separator occurs, the last piece is the text after the last separator |
| PyStr.Lower | train_model.py:74 | lower-casing keeps the length |
| UrlParse.Parse | train_model.py:37-39 | scheme, network location and path together are no longer than the URL; the network location holds no tab, CR or LF |
| UrlParse.ParseWebUrl | train_model.py:37-39 | a URL `scheme://host` followed by an empty or `/`-led path, with a web scheme, no `/ ? #` in the host and no `? #` in the path, parses back into exactly that scheme, host and path |
| UrlParse.ParseWebScheme | train_model.py:71 | a URL written `http://...` or `https://...` parses with exactly that scheme |
| UrlParse.CleanWebUrl | train_model.py:37 | a URL that starts with a web scheme keeps its prefix when cleaned, and only unsafe characters are dropped from the rest |
| FeatureExtraction.FirstDirLength | train_model.py:46 | `fd_length` is 0 without a `/`, else the length of the text between the first `/` and the next one |
| FeatureExtraction.TldLength | train_model.py:49-50 | `tld_length` is 0 without a `.`, else the length of the dot-free text after the last `.` |
| FeatureExtraction.IpFlagIffDottedQuad | train_model.py:66 | the anchored regular expression accepts a hostname exactly when it is four dot-separated groups of 1-3 digits (no range check) |
| FeatureExtraction.IpFeatureIffDottedQuad | train_model.py:37-66 | `is_ip` is 1 exactly when the parsed network location is such a dotted quad |
| FeatureExtraction.ShortenerFlag | train_model.py:68-69 | `short_url` is 1 exactly when some known shortener occurs at some position of the host name, and 0 otherwise |
| FeatureExtraction.ShortenerAnywhere | train_model.py:68-69 | a shortener flags a host name wherever it occurs in it, not only as the whole name |
| FeatureExtraction.HttpsFlag | train_model.py:71 | `https_token` is 1 exactly when `https` occurs at some position of the scheme, and 0 otherwise |
| FeatureExtraction.HttpsFlagOfWebScheme | train_model.py:71 | the scheme `https` sets the token and `http` does not |
| FeatureExtraction.CountPresentIsCardinality | train_model.py:73-74 | the keyword count equals the number of distinct keywords found in the text |
| FeatureExtraction.SensitiveCount | train_model.py:73-74 | `sensitive_words` counts the keywords found in the lower-cased URL, at most 8 |
| FeatureExtraction.ExtractNamed | train_model.py:37-77 | in the feature dictionary, `url_length` is the URL's length; host plus path fit in it; `fd_length` fits in the path and `tld_length` in the host; the character-class counts together fit in it; the three flags are 0 or 1; at most 8 keywords |
| FeatureExtraction.WebUrlFeatures | train_model.py:37-71 | for `scheme://host` plus a path, the host and path features are those of `host` and `path`, `is_ip` is 1 exactly for a dotted-quad host, and `https_token` is 1 exactly for `https` |
| FeatureExtraction.ToVector | train_model.py:80 | the vector lists each named feature at the position of its name in `feature_names` |
| FeatureExtraction.FeatureNamesDistinct | train_model.py:15-21 | the 20 feature names are pairwise distinct |
| FeatureExtraction.LookupAtPosition | train_model.py:88 | looking a name up in the name-to-value pairing yields the entry at that name's position |
| FeatureExtraction.LookupUnknown | train_model.py:88-91 | an unknown name yields the default 0, as `feats.get(name, 0)` does |
| FeatureExtraction.ExtractFeatures | train_model.py:33-80 | the vector has 20 entries, and looking up each feature name yields that feature of the URL |
| FeatureExtraction.CharClassTotal | train_model.py:53-63 | the eight punctuation counts plus the digits and the letters never exceed the URL length |
| FeatureExtraction.FeatureBounds | train_model.py:43-77 | `url_length` is the URL length; host plus path fit in it; `fd_length` and `tld_length` fit in the path and the host; the flags are 0 or 1; at most 8 keywords; entropy is non-negative |
| Explanation.ExplainPrediction | train_model.py:82-110 | the sequence of conditional appends produces exactly the explanation specification `Explain(v, prediction)` |
| Explanation.ReasonsDistinct | train_model.py:91-108 | the seven rule reasons are distinct from each other and from the generic and legitimate reasons |
| Explanation.FiredReasonsMembership | train_model.py:90-104 | a rule's reason is among the fired reasons exactly when the rule fires |
| Explanation.FiredReasonsEmpty | train_model.py:105 | no reason fires exactly when no rule fires |
| Explanation.FiredReasonsOnlyRules | train_model.py:90-104 | the fired reasons never include the generic or the legitimate reason |
| Explanation.ExplainNotMalicious | train_model.py:107-108 | any prediction other than 1 gets only the legitimate reason, without looking at the features |
| Explanation.ExplainLength | train_model.py:86-110 | an explanation has between 1 and 7 reasons |
| Explanation.ExplainReasonIffFires | train_model.py:90-104 | for a malicious prediction, a rule's reason is listed exactly when the rule fires |
| Explanation.ExplainGenericIffNoRule | train_model.py:105-106 | a malicious prediction is explained by the single generic reason exactly when no rule fires |
| Explanation.FiresOnVector | train_model.py:80-104 | a rule fires on a feature vector exactly when its test holds on the named features it was built from |
| Explanation.FiresOnUrl | train_model.py:43-104 | a rule fires on a URL's vector exactly when its condition holds on the URL itself (dotted-quad host, shortener in host, an `@`, a keyword, entropy above 4.5, more than 3 dashes, more than 75 characters) |
| DataLoader.LabelAll | data_loader.py:34-35 | a frame built from a URL list has one row per URL, in order, all with the given label |
| DataLoader.LabelledCount | data_loader.py:123-124 | filtering by label keeps every row of that label as often as it occurs and drops all others |
| DataLoader.LabelledPermutation | data_loader.py:132 | reordering the rows keeps each label's count, so the final shuffle preserves the balance |
| DataLoader.LabelledAppend | data_loader.py:129-131 | the label counts of a concatenation add up |
| DataLoader.ClassesWithin | data_loader.py:123-124 | the malicious and the benign rows together are a sub-multiset of the table |
| DataLoader.BalancedDraw | data_loader.py:126-132 | two equal-size draws, one from each class, shuffled, give exactly that many rows of each label, all from the table |
| DataLoader.Balance | data_loader.py:123-136 | with both labels present, the sample holds `min(malicious, benign, 2000)` rows of each label; otherwise the table is kept whole when at most 2000 rows, else 2000 of its rows; it never holds a row the table lacks |
| DataLoader.SingleClassKept | data_loader.py:133-136 | an all-benign table of at most 2000 rows is passed through unchanged |
| DataLoader.ExpandShape | data_loader.py:95-98 | each domain yields two URLs, the `https://` one first and then the `http://` one, in domain order |
| DataLoader.ExpandDomains | data_loader.py:95-98 | the loop over the domains produces exactly that expansion |
| DataLoader.FallbackUrls | data_loader.py:107-108 | the fallback is the five fixed domains, each as an `https://` URL |
| DataLoader.TrancoFrameShape | data_loader.py:56-109 | the Tranco frame is all benign; from a ranking, it is the https/http expansion of at most 3000 domains; on failure, it is the five fallback URLs |
| DataLoader.AllSourcesFailed | data_loader.py:104-136 | when every source fails, the scraped table is exactly the five benign fallback rows |
| DataLoader.Loader.constructor | data_loader.py:8-9 | a new loader holds no frames |
| DataLoader.Loader.FetchFeed | data_loader.py:11-54 | a feed appends one all-malicious frame when it delivered URLs, and nothing on failure |
| DataLoader.Loader.FetchBenignTranco | data_loader.py:56-109 | the Tranco step always appends exactly one frame, the Tranco frame for what the source delivered |
| DataLoader.Loader.GetData | data_loader.py:111-149 | the four fetches append their frames in order; the result is the balanced and capped concatenation, followed by the feedback rows when that file exists |
| Detection.Classify | app.py:49-50 | classifying raises the mismatch error exactly when the classifier is unfitted or the vector has another width; it fails otherwise exactly when the classifier saw fewer than two classes; a scored outcome carries the classifier's prediction and malicious probability |
| Detection.RetrainAcceptsFeatures | app.py:54-56 | a fit that matches its table's width, succeeding on a non-empty table, leaves a classifier that accepts every extracted feature vector |
| Detection.FeatureMatrix | train_model.py:117 | the training matrix has one 20-wide row per table row: the features of that row's URL |
| Detection.Tags | train_model.py:118 | the label vector lists each row's label in order |
| Detection.PhishingDetector.constructor | train_model.py:13-14 | a new detector holds an unfitted classifier |
| Detection.PhishingDetector.Train | train_model.py:112-133 | training extracts the features of every row and installs the fitted classifier; when fitting fails, the classifier is unchanged |
| App.Normalize | app.py:30-32 | the normalised URL starts with a web scheme; one that already did is unchanged, any other gets `http://` prepended |
| App.NormalizeIdempotent | app.py:37-39 | normalising twice equals normalising once, so the probe's own normalisation changes nothing |
| App.NormalizeCaseSensitive | app.py:31-32 | an upper-case `HTTP://` is not recognised and gets a second prefix |
| App.Predict | app.py:25-67 | the endpoint's response, the classifier afterwards and the numbers of trainings and classification attempts are those of the `predict` flow, given what training produces |
| App.Score | app.py:44-66 | classify the extracted vector, retrain and retry once on a mismatch, then explain; response, classifier and counts are those of the flow |
| App.EmptyUrlRejected | app.py:26-28 | a missing or empty URL is answered with the "No URL provided" error, with no training and no classification |
| App.PredictScores | app.py:30-45 | a present and reachable URL is normalised once, extracted once, and that vector is scored |
| App.RetrainOnce | app.py:47-56 | training happens exactly when the first classification is a mismatch, and at most once; the second attempt happens exactly after a successful training; the classifier changes only by that training |
| App.SecondFailurePropagates | app.py:51-56 | a mismatch followed by a failed retrain, or by a retrained classifier that still cannot score the vector, ends the request with an exception |
| App.NoSecondMismatch | app.py:51-56 | with a fit that matches its table's width and a non-empty table, a request fails only by a failed retrain or a single-class classifier, never by a second mismatch |
| App.VerdictOnSameVector | app.py:44-66 | a verdict carries the URL, the final classifier's prediction and probability for the extracted vector, and the explanation of that same vector and prediction |
| App.VerdictAgreesWithExplanation | app.py:59-66 | for a prediction of 0 or 1, `is_malicious` holds exactly when the explanation is not the single legitimate reason |

## Left out

- Network and file I/O are left out. This covers the feed downloads, the
  local and zipped Tranco files, `feedback_data.csv`, the probe request and
  the `joblib` load and dump. Their results are parameters (`Option` values,
  `reachable`).
- Per-feed parsing is left out: PhishTank's CSV column, OpenPhish's
  `strip().split('\n')` and URLhaus's column 2 with `#` comments.
  `FetchFeed` takes the parsed URL list, so one method models all three
  feeds.
- Which rows pandas' seeded `sample` picks, and in what order the shuffle
  leaves them, is left out. They are oracles constrained only to draw a
  sub-multiset of the right size and to permute.
- The random forest is left out: its fitting, prediction and probability,
  and `train_test_split` with `stratify`. These are the `fit` parameter and
  the functions inside a fitted `Classifier`.
- `PhishingDetector.Train`: does not return the accuracy, and does not model
  `accuracy_score`, `classification_report` or the saved model file. The
  forest is fitted in place, so if the report or `joblib.dump` raises after
  the fit, Python keeps the new classifier while `predict` still fails. The
  model cannot express this: a failed `fit` always keeps the old classifier.
- `Detection.Trained`: `fit` is unconstrained, so by default nothing ties
  the retrained classifier to the feature width. The optional assumption
  `FitsShape` adds that tie (`RetrainAcceptsFeatures`, `NoSecondMismatch`).
- Floating point and `math.log` are left out. Features are `real`, and
  `log2` is the parameter `lg`.
- Unicode is left out. `isdigit`, `isalpha` and `lower` are modelled for
  ASCII only. The same holds for the regular expression's `\d`
  (train_model.py:66), which matches any Unicode decimal digit.
- `UrlParse.Parse`: follows `urlsplit` as Python 3.12 writes it. That
  version strips leading C0 controls and spaces, removes tab, CR and LF, and
  requires a scheme to start with an ASCII letter. Earlier versions differ
  in these steps. The model does not split off `;params`. It does not model
  IPv6 brackets, or the `ValueError` they can raise. It does not model the
  NFKC check of the network location. Its contract gives bounds and the
  absence of tab, CR and LF for every URL. The exact network location and
  path are pinned down only for web URLs of the shape `ParseWebUrl`
  describes.
- The `/retrain` endpoint, the `/` page, Flask and `jsonify` are left out.
  So is loading the model at start-up: the detector is a parameter whose
  classifier may be anything.
- Concurrency between requests is left out, as are the `print` calls.
- `App.Predict`: models only `requests.RequestException` from the probe as
  "unreachable"; other exceptions in the probe are not modelled.
- `static/script.js`, the browser front end, is not part of this model.
