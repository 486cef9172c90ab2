/**
 * Shannon entropy of a string over the 256 single-byte code points, as
 * `PhishingDetector.get_entropy` computes it. The base-2 logarithm is a
 * parameter: the model only assumes `IsLog2` of it.
 */
module ShannonEntropy {
  import opened PyStr

  /** The code points the entropy loop visits: 0 to 255. */
  const Symbols: nat := 256

  /** What the model assumes of `math.log(p, 2)` on probabilities. */
  ghost predicate IsLog2(lg: real -> real) {
    lg(1.0) == 0.0 && forall p :: 0.0 < p <= 1.0 ==> lg(p) <= 0.0
  }

  /** Empirical probability of code point `x`: its count over the whole length. */
  function Probability(text: string, x: nat): (p: real)
    requires |text| > 0 && x < Symbols
    ensures 0.0 <= p <= 1.0
    ensures p > 0.0 <==> (x as char) in text
  {
    CountZero(text, x as char);
    var c, n := Count(text, x as char) as real, |text| as real;
    assert 0.0 <= c <= n && n > 0.0;
    assert c / n * n == c;
    c / n
  }

  /** The contribution of code point `x`; absent code points contribute nothing. */
  function Term(text: string, x: nat, lg: real -> real): real
    requires |text| > 0 && x < Symbols
  {
    var p := Probability(text, x);
    if p > 0.0 then -p * lg(p) else 0.0
  }

  /** The sum of the contributions of code points `0 .. k - 1`. */
  function PartialEntropy(text: string, lg: real -> real, k: nat): real
    requires |text| > 0 && k <= Symbols
  {
    if k == 0 then 0.0 else PartialEntropy(text, lg, k - 1) + Term(text, k - 1, lg)
  }

  /** The value `get_entropy` returns: 0 for the empty string. */
  function Entropy(text: string, lg: real -> real): real {
    if |text| == 0 then 0.0 else PartialEntropy(text, lg, Symbols)
  }

  /** `get_entropy`: accumulate `-p * log2(p)` over the code points 0 to 255. */
  method GetEntropy(text: string, lg: real -> real) returns (entropy: real)
    ensures entropy == Entropy(text, lg)
  {
    if |text| == 0 {
      return 0.0;
    }
    entropy := 0.0;
    var x := 0;
    while x < Symbols
      invariant 0 <= x <= Symbols
      invariant entropy == PartialEntropy(text, lg, x)
    {
      var p := Count(text, x as char) as real / |text| as real;
      if p > 0.0 {
        entropy := entropy + -p * lg(p);
      }
      x := x + 1;
    }
  }

  lemma {:induction false} PartialNonNegative(text: string, lg: real -> real, k: nat)
    requires IsLog2(lg)
    requires |text| > 0 && k <= Symbols
    ensures PartialEntropy(text, lg, k) >= 0.0
  {
    if k > 0 {
      PartialNonNegative(text, lg, k - 1);
      var p := Probability(text, k - 1);
      if p > 0.0 {
        assert lg(p) <= 0.0;
        assert p * lg(p) <= 0.0;
      }
    }
  }

  /** Entropy is 0 for the empty string and never negative. */
  lemma EntropyBounds(text: string, lg: real -> real)
    requires IsLog2(lg)
    ensures Entropy(text, lg) >= 0.0
    ensures |text| == 0 ==> Entropy(text, lg) == 0.0
  {
    if |text| > 0 {
      PartialNonNegative(text, lg, Symbols);
    }
  }

  lemma {:induction false} CountRepeated(n: nat, c: char, e: char)
    ensures Count(seq(n, _ => c), e) == if e == c then n else 0
  {
    if n > 0 {
      var s := seq(n, _ => c);
      assert s[1..] == seq(n - 1, _ => c);
      CountRepeated(n - 1, c, e);
    }
  }

  lemma {:induction false} PartialRepeated(n: nat, c: char, lg: real -> real, k: nat)
    requires lg(1.0) == 0.0
    requires n > 0 && k <= Symbols
    ensures PartialEntropy(seq(n, _ => c), lg, k) == 0.0
  {
    if k > 0 {
      var s := seq(n, _ => c);
      PartialRepeated(n, c, lg, k - 1);
      CountRepeated(n, c, (k - 1) as char);
      var p := Probability(s, k - 1);
      assert p == Count(s, (k - 1) as char) as real / n as real;
      assert p == 0.0 || p == 1.0;
      assert Term(s, k - 1, lg) == 0.0;
    }
  }

  /** A string of one repeated character has entropy 0. */
  lemma EntropyOfRepeated(n: nat, c: char, lg: real -> real)
    requires IsLog2(lg)
    ensures Entropy(seq(n, _ => c), lg) == 0.0
  {
    if n > 0 {
      PartialRepeated(n, c, lg, Symbols);
    }
  }

  lemma {:induction false} PartialPermutation(a: string, b: string, lg: real -> real, k: nat)
    requires multiset(a) == multiset(b)
    requires |a| > 0 && |b| > 0 && k <= Symbols
    ensures PartialEntropy(a, lg, k) == PartialEntropy(b, lg, k)
  {
    if k > 0 {
      PartialPermutation(a, b, lg, k - 1);
      CountIsMultiplicity(a, (k - 1) as char);
      CountIsMultiplicity(b, (k - 1) as char);
      assert |a| == |multiset(a)| == |multiset(b)| == |b|;
    }
  }

  /** Entropy depends only on the characters' counts, not their order. */
  lemma EntropyPermutation(a: string, b: string, lg: real -> real)
    requires multiset(a) == multiset(b)
    ensures Entropy(a, lg) == Entropy(b, lg)
  {
    assert |a| == |multiset(a)| == |multiset(b)| == |b|;
    if |a| > 0 {
      PartialPermutation(a, b, lg, Symbols);
    }
  }

  lemma {:induction false} PartialWide(text: string, lg: real -> real, k: nat)
    requires |text| > 0 && k <= Symbols
    requires forall i :: 0 <= i < |text| ==> text[i] as int >= Symbols
    ensures PartialEntropy(text, lg, k) == 0.0
  {
    if k > 0 {
      PartialWide(text, lg, k - 1);
      assert (k - 1) as char !in text;
    }
  }

  /** Only code points below 256 contribute: a string of wider characters has entropy 0. */
  lemma EntropyIgnoresWideCharacters(text: string, lg: real -> real)
    requires forall i :: 0 <= i < |text| ==> text[i] as int >= Symbols
    ensures Entropy(text, lg) == 0.0
  {
    if |text| > 0 {
      PartialWide(text, lg, Symbols);
    }
  }
}
