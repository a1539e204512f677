/**
 * The word-level rates computed from raw alignment counts (MetricsCalculator.compute_wer,
 * compute_mer, compute_wip, compute_wil and compute_words_metrics). Rates are real numbers.
 */
module Formulas {

  /**
   * The counters of one set of alignment totals. The four rates of the report are functions
   * of the counters and are computed on demand.
   */
  datatype WordsMetrics = WordsMetrics(
    refLen: nat, hypLen: nat, cor: nat, sub: nat, del: nat, ins: nat, errors: nat, aligned: nat)
  {
    function WordErrorRate(): real {
      Wer(sub, del, ins, refLen)
    }

    function MatchErrorRate(): real {
      Mer(cor, sub, del, ins)
    }

    function InformationPreserved(): real {
      Wip(cor, refLen, hypLen)
    }

    function InformationLost(): real {
      Wil(cor, refLen, hypLen)
    }
  }

  /** Word error rate: errors over the reference length, over 1 when the reference is empty. */
  function Wer(sub: nat, del: nat, ins: nat, refLen: nat): (r: real)
    ensures r >= 0.0
    ensures refLen > 0 ==> r * refLen as real == (sub + del + ins) as real
    ensures refLen == 0 ==> r == (sub + del + ins) as real
  {
    var divider := if refLen != 0 then refLen else 1;
    (sub + del + ins) as real / divider as real
  }

  /** Match error rate: errors over all aligned operations, 0 when nothing is aligned. */
  function Mer(cor: nat, sub: nat, del: nat, ins: nat): (r: real)
    ensures 0.0 <= r <= 1.0
    ensures cor + sub + del + ins > 0 ==> r * (cor + sub + del + ins) as real == (sub + del + ins) as real
    ensures cor + sub + del + ins == 0 ==> r == 0.0
  {
    var divider := cor + sub + del + ins;
    if divider != 0 then (sub + del + ins) as real / divider as real else 0.0
  }

  /** Word information preserved: 1 when either length is 0, else (cor/hyp)·(cor/ref). */
  function Wip(cor: nat, refLen: nat, hypLen: nat): (r: real)
    ensures refLen == 0 || hypLen == 0 ==> r == 1.0
    ensures refLen > 0 && hypLen > 0 ==> r * hypLen as real * refLen as real == (cor * cor) as real
    ensures r >= 0.0
    ensures cor <= refLen && cor <= hypLen ==> r <= 1.0
  {
    if refLen == 0 || hypLen == 0 then 1.0
    else
      var h, f := cor as real / hypLen as real, cor as real / refLen as real;
      assert h * hypLen as real == cor as real && f * refLen as real == cor as real;
      assert h * f * hypLen as real * refLen as real == (h * hypLen as real) * (f * refLen as real);
      FractionProduct(cor, refLen, hypLen);
      h * f
  }

  lemma FractionProduct(cor: nat, refLen: nat, hypLen: nat)
    requires refLen > 0 && hypLen > 0
    ensures 0.0 <= (cor as real / hypLen as real) * (cor as real / refLen as real)
    ensures cor <= refLen && cor <= hypLen ==> (cor as real / hypLen as real) * (cor as real / refLen as real) <= 1.0
  {
    var h, f := cor as real / hypLen as real, cor as real / refLen as real;
    assert 0.0 <= h && 0.0 <= f;
    if cor <= refLen && cor <= hypLen {
      FractionAtMostOne(cor, hypLen);
      FractionAtMostOne(cor, refLen);
      ProductAtMostOne(h, f);
    }
  }

  lemma FractionAtMostOne(a: nat, b: nat)
    requires 0 < b && a <= b
    ensures 0.0 <= a as real / b as real <= 1.0
  {
  }

  lemma ProductAtMostOne(x: real, y: real)
    requires 0.0 <= x <= 1.0 && 0.0 <= y <= 1.0
    ensures 0.0 <= x * y <= 1.0
  {
    assert 0.0 <= x * y by { MulNonNegative(x, y); }
    assert x * y <= y by { MulNonNegative(1.0 - x, y); }
  }

  lemma MulNonNegative(x: real, y: real)
    requires 0.0 <= x && 0.0 <= y
    ensures 0.0 <= x * y
  {
  }

  /** Of two quotients of the same non-negative dividend, the one with the larger divider is smaller. */
  lemma QuotientAntitone(e: real, a: real, b: real, x: real, y: real)
    requires 0.0 <= e && 0.0 < b <= a && 0.0 <= x
    requires x * a == e && y * b == e
    ensures x <= y
  {
    assert x * b <= x * a by { MulNonNegative(x, a - b); }
    NonPositiveFactor(x - y, b);
  }

  lemma NonPositiveFactor(c: real, b: real)
    requires 0.0 < b && c * b <= 0.0
    ensures c <= 0.0
  {
  }

  /** Word information lost: the complement of the information preserved. */
  function Wil(cor: nat, refLen: nat, hypLen: nat): (r: real)
    ensures r + Wip(cor, refLen, hypLen) == 1.0
    ensures refLen == 0 || hypLen == 0 ==> r == 0.0
    ensures cor <= refLen && cor <= hypLen ==> 0.0 <= r <= 1.0
  {
    1.0 - Wip(cor, refLen, hypLen)
  }

  /** All counters and rates of one set of raw counts (`compute_words_metrics`). */
  function ComputeWordsMetrics(cor: nat, sub: nat, del: nat, ins: nat, refLen: nat, hypLen: nat): (w: WordsMetrics)
    ensures (w.cor, w.sub, w.del, w.ins, w.refLen, w.hypLen) == (cor, sub, del, ins, refLen, hypLen)
    ensures w.errors == sub + del + ins && w.aligned == w.errors + cor
  {
    WordsMetrics(refLen, hypLen, cor, sub, del, ins, sub + del + ins, cor + sub + del + ins)
  }

  /** The rates of computed totals: a non-negative WER, a MER and a WIL within [0, 1]. */
  lemma RatesBounded(cor: nat, sub: nat, del: nat, ins: nat, refLen: nat, hypLen: nat)
    requires cor <= refLen && cor <= hypLen
    ensures var w := ComputeWordsMetrics(cor, sub, del, ins, refLen, hypLen);
      w.WordErrorRate() >= 0.0 && 0.0 <= w.MatchErrorRate() <= 1.0 &&
      0.0 <= w.InformationPreserved() <= 1.0 && 0.0 <= w.InformationLost() <= 1.0 &&
      w.InformationPreserved() + w.InformationLost() == 1.0
  {
  }

  /** A word error rate of zero means no errors at all. */
  lemma WerZeroIffNoErrors(sub: nat, del: nat, ins: nat, refLen: nat)
    ensures Wer(sub, del, ins, refLen) == 0.0 <==> sub + del + ins == 0
  {
  }

  /**
   * For the totals of an alignment, where the reference length is cor + sub + del, the match
   * error rate never exceeds the word error rate: its divider is larger by the insertions.
   */
  lemma MerAtMostWer(cor: nat, sub: nat, del: nat, ins: nat)
    ensures Mer(cor, sub, del, ins) <= Wer(sub, del, ins, cor + sub + del)
  {
    var e := (sub + del + ins) as real;
    var refLen := cor + sub + del;
    var aligned := refLen + ins;
    if refLen > 0 {
      QuotientAntitone(e, aligned as real, refLen as real, Mer(cor, sub, del, ins), Wer(sub, del, ins, refLen));
    } else if aligned > 0 {
      assert Mer(cor, sub, del, ins) <= 1.0 <= e;
    }
  }

  /**
   * For the totals of an alignment, where both lengths are cor + sub + del, the information
   * preserved is 1 exactly when every aligned reference word is correct.
   */
  lemma WipOneIffAllCorrect(cor: nat, sub: nat, del: nat)
    ensures Wip(cor, cor + sub + del, cor + sub + del) == 1.0 <==> sub + del == 0 || cor + sub + del == 0
  {
    var n := cor + sub + del;
    if n > 0 && sub + del > 0 {
      var r := Wip(cor, n, n);
      assert r * n as real * n as real == (cor * cor) as real;
      assert cor * cor < n * n by {
        assert cor < n;
        assert cor * cor <= cor * n < n * n;
      }
      assert (cor * cor) as real < (n * n) as real;
    }
  }
}
