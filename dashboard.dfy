/**
 * The statistics the dashboard derives from the stored analysis history: counts of healthy
 * and other results, their rounded percentages, the score label and bar colour, the
 * low-risk bar, and the five most recent analyses.
 */
module Dashboard {

  import Strings
  import opened Analysis

  /** A result counts as healthy when its prediction contains "Healthy" (case-sensitive). */
  predicate IsHealthy(r: AnalysisRecord)
  {
    Strings.Contains(r.prediction, "Healthy")
  }

  /** `analysisHistory.filter(item => item.prediction.includes('Healthy'))`. */
  function HealthyResults(history: seq<AnalysisRecord>): (healthy: seq<AnalysisRecord>)
    ensures |healthy| <= |history|
    ensures forall k :: 0 <= k < |healthy| ==> IsHealthy(healthy[k]) && healthy[k] in history
  {
    if |history| == 0 then []
    else if IsHealthy(history[0]) then [history[0]] + HealthyResults(history[1..])
    else HealthyResults(history[1..])
  }

  /** The entries the filter drops, as an independent count. */
  function CountUnhealthy(history: seq<AnalysisRecord>): nat
  {
    if |history| == 0 then 0
    else (if IsHealthy(history[0]) then 0 else 1) + CountUnhealthy(history[1..])
  }

  function HealthyCount(history: seq<AnalysisRecord>): nat
  {
    |HealthyResults(history)|
  }

  /** `issuesCount = totalAnalyses - healthyCount`. */
  function IssuesCount(history: seq<AnalysisRecord>): nat
  {
    |history| - HealthyCount(history)
  }

  /** The two counts split the history: the issues are exactly the results that are not healthy. */
  lemma {:induction false} CountsPartitionHistory(history: seq<AnalysisRecord>)
    ensures HealthyCount(history) + IssuesCount(history) == |history|
    ensures IssuesCount(history) == CountUnhealthy(history)
  {
    if |history| > 0 {
      CountsPartitionHistory(history[1..]);
    }
  }

  /** Every healthy result is counted: a history of healthy results counts in full. */
  lemma {:induction false} AllHealthyCounted(history: seq<AnalysisRecord>)
    requires forall k :: 0 <= k < |history| ==> IsHealthy(history[k])
    ensures HealthyCount(history) == |history| && IssuesCount(history) == 0
  {
    if |history| > 0 {
      AllHealthyCounted(history[1..]);
    }
  }

  /**
   * `total > 0 ? Math.round((part / total) * 100) : 0`, with the quotient taken exactly
   * (rounding half up).
   */
  function RoundedPercent(part: nat, total: nat): (p: nat)
  {
    if total == 0 then 0 else (200 * part + total) / (2 * total)
  }

  /** No analyses gives 0; otherwise a share of the total is a value from 0 to 100. */
  lemma PercentBounds(part: nat, total: nat)
    requires part <= total
    ensures total == 0 ==> RoundedPercent(part, total) == 0
    ensures RoundedPercent(part, total) <= 100
    ensures part == 0 ==> RoundedPercent(part, total) == 0
    ensures 0 < part == total ==> RoundedPercent(part, total) == 100
  {
    if total > 0 {
      var d := 2 * total;
      var n := 200 * part + total;
      assert n < d * 101;
      QuotientBelow(n, d, 101);
      if part == 0 {
        QuotientIs(n, d, 0, total);
      }
      if part == total {
        QuotientIs(n, d, 100, total);
      }
    }
  }

  /** Euclidean division is determined by its remainder's range. */
  lemma QuotientIs(n: int, d: int, q: int, r: int)
    requires d > 0 && n == d * q + r && 0 <= r < d
    ensures n / d == q
  {
    var q', r' := n / d, n % d;
    assert d * (q - q') == r' - r;
    SmallMultiple(d, q - q');
  }

  lemma QuotientBelow(n: int, d: int, b: int)
    requires d > 0 && 0 <= n < d * b
    ensures n / d < b
  {
    var q, r := n / d, n % d;
    assert n == d * q + r;
    assert d * (b - q) == d * b - n + r;
    SmallMultiplePositive(d, b - q, d * b - n + r);
  }

  /** A multiple of `d` strictly between `-d` and `d` is zero. */
  lemma SmallMultiple(d: int, k: int)
    requires d > 0 && -d < d * k < d
    ensures k == 0
  {
    if k > 0 {
      MulAtLeast(d, k);
    } else if k < 0 {
      MulAtLeast(d, -k);
    }
  }

  /** A positive multiple of `d` is positive only for a positive factor. */
  lemma SmallMultiplePositive(d: int, k: int, m: int)
    requires d > 0 && d * k == m && m > 0
    ensures k > 0
  {
    if k <= 0 {
      MulNonPositive(d, k);
    }
  }

  lemma MulAtLeast(d: int, k: int)
    requires d > 0 && k > 0
    ensures d * k >= d
  {
  }

  lemma MulNonPositive(d: int, k: int)
    requires d > 0 && k <= 0
    ensures d * k <= 0
  {
  }

  function HealthyPercentage(history: seq<AnalysisRecord>): nat
  {
    RoundedPercent(HealthyCount(history), |history|)
  }

  function IssuesPercentage(history: seq<AnalysisRecord>): nat
  {
    RoundedPercent(IssuesCount(history), |history|)
  }

  /** Both percentages are 0 with no analyses; otherwise each lies in 0..100 and they add up to 100 or 101. */
  lemma PercentagesOfHistory(history: seq<AnalysisRecord>)
    ensures |history| == 0 ==> HealthyPercentage(history) == 0 && IssuesPercentage(history) == 0
    ensures HealthyPercentage(history) <= 100 && IssuesPercentage(history) <= 100
    ensures |history| > 0 ==> 100 <= HealthyPercentage(history) + IssuesPercentage(history) <= 101
  {
    var t := |history|;
    var h := HealthyCount(history);
    CountsPartitionHistory(history);
    PercentBounds(h, t);
    PercentBounds(t - h, t);
    if t > 0 {
      RoundedSharesSum(h, t);
    }
  }

  /** The rounded shares of a part and of the rest of a total add up to 100 or 101. */
  lemma RoundedSharesSum(part: nat, total: nat)
    requires 0 < total && part <= total
    ensures 100 <= RoundedPercent(part, total) + RoundedPercent(total - part, total) <= 101
  {
    var d := 2 * total;
    var x := 200 * part + total;
    var y := 200 * (total - part) + total;
    var q1, q2 := x / d, y / d;
    var r1, r2 := x % d, y % d;
    assert x == d * q1 + r1 && y == d * q2 + r2;
    assert x + y == d * 101;
    assert d * (101 - q1 - q2) == r1 + r2;
    // r1 + r2 is 0 or lies in (0, 2d): shifting by d puts it strictly between -d and d
    if r1 + r2 < d {
      SmallMultiple(d, 101 - q1 - q2);
    } else {
      assert d * (100 - q1 - q2) == r1 + r2 - d;
      SmallMultiple(d, 100 - q1 - q2);
    }
  }

  /** The score card's label: "Good" exactly when the healthy percentage is above 50. */
  function ScoreLabel(healthyPercentage: nat): string
  {
    if healthyPercentage > 50 then "Good" else "Needs Attention"
  }

  datatype BarColour = Green | Amber | Red

  /** The score bar's colour: green above 70, amber above 40, red otherwise. */
  function ScoreColour(healthyPercentage: nat): BarColour
  {
    if healthyPercentage > 70 then Green else if healthyPercentage > 40 then Amber else Red
  }

  /** A green bar always reads "Good"; a red one never does; amber can read either. */
  lemma ColourAgreesWithLabel(p: nat)
    ensures ScoreColour(p) == Green ==> ScoreLabel(p) == "Good"
    ensures ScoreColour(p) == Red ==> ScoreLabel(p) != "Good"
  {
  }

  /** `riskDistribution.low = Math.max(healthyCount, 1)`. */
  function RiskLow(history: seq<AnalysisRecord>): (low: nat)
    ensures low >= 1 && low >= HealthyCount(history)
  {
    if HealthyCount(history) > 1 then HealthyCount(history) else 1
  }

  /**
   * `totalRisk = low + medium + high`. The medium and high counts come from floating-point
   * products and are taken here as any non-negative integers.
   */
  function TotalRisk(history: seq<AnalysisRecord>, medium: nat, high: nat): (total: nat)
    ensures total >= 1
  {
    RiskLow(history) + medium + high
  }

  /** The risk bars never divide by zero, and the low-risk share is at most 100%. */
  lemma RiskSharesDefined(history: seq<AnalysisRecord>, medium: nat, high: nat)
    ensures TotalRisk(history, medium, high) > 0
    ensures RoundedPercent(RiskLow(history), TotalRisk(history, medium, high)) <= 100
    ensures medium == 0 && high == 0 ==> RoundedPercent(RiskLow(history), TotalRisk(history, medium, high)) == 100
  {
    PercentBounds(RiskLow(history), TotalRisk(history, medium, high));
  }

  /** `analysisHistory.slice(0, 5)`. */
  function RecentAnalyses(history: seq<AnalysisRecord>): (recent: seq<AnalysisRecord>)
    ensures |recent| == if |history| < 5 then |history| else 5
    ensures recent <= history
  {
    if |history| < 5 then history else history[..5]
  }

  /** A new analysis prepended to the history is the first one the recent list shows. */
  lemma NewestShownFirst(record: AnalysisRecord, history: seq<AnalysisRecord>)
    ensures var recent := RecentAnalyses([record] + history);
            recent[0] == record && recent[1..] == RecentAnalyses(history)[..|recent| - 1]
  {
  }
}
