/**
 * src/components/analysis/AttendanceStats.tsx: the four tier counts, their
 * total and each tier's rounded share of it.
 */
module Stats {
  import opened Tiers
  import Extractor

  /** The `stats` prop: one count per tier. */
  datatype Counts = Counts(perfect: int, good: int, poor: int, absent: int)

  /** One tile of the stats grid: its label, count, rounded share and colour. */
  datatype Item = Item(title: string, count: int, percentage: int, hue: Hue)

  function Total(c: Counts): int {
    c.perfect + c.good + c.poor + c.absent
  }

  /**
   * `total > 0 ? Math.round((count / total) * 100) : 0`: the share of
   * `count` in whole percent, the nearest one with halves rounded up.
   */
  function Share(count: int, total: int): (p: int)
    ensures total <= 0 ==> p == 0
    ensures total > 0 ==> 2 * total * p - total <= 200 * count < 2 * total * p + total
    ensures 0 <= count <= total ==> 0 <= p <= 100
  {
    if total > 0 then
      var x := count as real / total as real * 100.0;
      ScaledShare(count, total);
      ShareBounds(count, total, Round(x), x);
      Round(x)
    else
      0
  }

  /**
   * Scaling the rounding bounds `p - 1/2 <= x < p + 1/2` of the exact share
   * `x = 100 * count / total` by `2 * total`.
   */
  lemma ShareBounds(count: int, total: int, p: int, x: real)
    requires total > 0
    requires x * (2.0 * total as real) == (200 * count) as real
    requires p as real - 0.5 <= x < p as real + 0.5
    ensures 2 * total * p - total <= 200 * count < 2 * total * p + total
    ensures 0 <= count <= total ==> 0 <= p <= 100
  {
    HalfScaled(p, total);
    ScaleBetween(p as real - 0.5, x, p as real + 0.5, 2.0 * total as real,
      (2 * total * p - total) as real, (200 * count) as real, (2 * total * p + total) as real);
    if 0 <= count <= total {
      ShareInRange(count, total, p);
    }
  }

  lemma ScaledShare(count: int, total: int)
    requires total > 0
    ensures count as real / total as real * 100.0 * (2.0 * total as real) == (200 * count) as real
  {
    var t := total as real;
    assert count as real / t * t == count as real;
  }

  lemma HalfScaled(p: int, total: int)
    ensures (p as real - 0.5) * (2.0 * total as real) == (2 * total * p - total) as real
    ensures (p as real + 0.5) * (2.0 * total as real) == (2 * total * p + total) as real
  {
  }

  /** Multiplying by a positive factor keeps `a <= x < b`. */
  lemma ScaleBetween(a: real, x: real, b: real, k: real, ak: real, xk: real, bk: real)
    requires a <= x < b && k > 0.0
    requires ak == a * k && xk == x * k && bk == b * k
    ensures ak <= xk < bk
  {
  }

  /** A rounded share of a count no larger than the total lies between 0 and 100. */
  lemma ShareInRange(count: int, total: int, p: int)
    requires 0 <= count <= total && total > 0
    requires 2 * total * p - total <= 200 * count < 2 * total * p + total
    ensures 0 <= p <= 100
  {
    var q := total * p;
    assert 2 * total * p == 2 * q;
    if p > 100 {
      FactorBelow(total, 101, p);
    } else if p < 0 {
      FactorBelow(total, p, 0);
    }
  }

  lemma FactorBelow(t: int, a: int, b: int)
    requires t > 0 && a <= b
    ensures t * a <= t * b
  {
  }

  /** `statItems`: Perfect, Good, Poor and Absent, in that order. */
  function Items(c: Counts): (r: seq<Item>)
    ensures |r| == 4
    ensures r[0].title == "Perfect" && r[1].title == "Good" && r[2].title == "Poor" && r[3].title == "Absent"
    ensures r[0].count == c.perfect && r[1].count == c.good && r[2].count == c.poor && r[3].count == c.absent
    ensures forall i | 0 <= i < 4 :: r[i].percentage == Share(r[i].count, Total(c))
    ensures forall i | 0 <= i < 4 :: r[i].hue == StatusHue([Excellent, Good, Poor, Absent][i])
  {
    var t := Total(c);
    [ Item("Perfect", c.perfect, Share(c.perfect, t), Green),
      Item("Good", c.good, Share(c.good, t), Yellow),
      Item("Poor", c.poor, Share(c.poor, t), Orange),
      Item("Absent", c.absent, Share(c.absent, t), Red) ]
  }

  /** An empty report shows 0% on every tile. */
  lemma EmptyShares(c: Counts)
    requires Total(c) == 0
    ensures forall i | 0 <= i < 4 :: Items(c)[i].percentage == 0
  {
  }

  /** With non-negative counts every tile shows a share between 0% and 100%. */
  lemma SharesBounded(c: Counts)
    requires c.perfect >= 0 && c.good >= 0 && c.poor >= 0 && c.absent >= 0
    ensures forall i | 0 <= i < 4 :: 0 <= Items(c)[i].percentage <= 100
  {
  }

  /** The counts the report view has at hand: the sizes of its four buckets. */
  function CountsOf(b: Buckets): (c: Counts)
    ensures c.perfect >= 0 && c.good >= 0 && c.poor >= 0 && c.absent >= 0
  {
    Counts(|b.perfect|, |b.good|, |b.poor|, |b.absent|)
  }

  /** Fed the bucket sizes of a report, the total is the number of extracted records. */
  lemma ReportTotal(text: string)
    ensures Total(CountsOf(Categorize(Extractor.ParseEmployeeData(text)))) == |Extractor.ParseEmployeeData(text)|
  {
    ReportBucketsCover(text);
  }
}
