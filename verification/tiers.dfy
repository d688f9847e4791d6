/**
 * The attendance tiers of src/components/AnalysisDisplay.tsx: the four
 * buckets the extracted records are filtered into, and the icon, badge and
 * label each row of a bucket shows, all cut at 25, 15 and 0 days.
 */
module Tiers {
  import Extractor
  import Seqs

  type Employee = Extractor.Employee

  /** The status words every component shows: Excellent, Good, Poor, Absent. */
  datatype Status = Excellent | Good | Poor | Absent

  /** The colour family of a class name such as `text-green-500` or `bg-green-500`. */
  datatype Hue = Green | Yellow | Orange | Red

  /** The lucide icons the components pick from. */
  datatype Glyph = CheckCircle | AlertCircle | XCircle | TrendingUp | TrendingDown | Minus

  /** The `variant` of a `Badge`. */
  datatype Variant = Default | Secondary | Destructive

  /** An icon with the colour of its class name. */
  datatype Icon = Icon(glyph: Glyph, hue: Hue)

  /** `Math.round`: the nearest integer, halves rounded up, over exact rationals. */
  function Round(x: real): (n: int)
    ensures n as real - 0.5 <= x < n as real + 0.5
  {
    (x + 0.5).Floor
  }

  /** The hue each status is drawn in, wherever a component colours by status. */
  function StatusHue(s: Status): (h: Hue)
    ensures (h == Green) == (s == Excellent) && (h == Yellow) == (s == Good)
    ensures (h == Orange) == (s == Poor) && (h == Red) == (s == Absent)
  {
    match s
    case Excellent => Green
    case Good => Yellow
    case Poor => Orange
    case Absent => Red
  }

  /** The status label of a table row, the nested conditional that ends in 'Absent'. */
  function Label(d: real): (s: Status)
    ensures s == Excellent <==> d >= 25.0
    ensures s == Good <==> 15.0 <= d < 25.0
    ensures s == Poor <==> 0.0 < d < 15.0
    ensures s == Absent <==> d <= 0.0
  {
    if d >= 25.0 then Excellent
    else if d >= 15.0 then Good
    else if d > 0.0 then Poor
    else Absent
  }

  /** `getAttendanceIcon`: a check, two alerts, a cross. */
  function DisplayIcon(d: real): (i: Icon)
    ensures i.hue == StatusHue(Label(d))
    ensures i.glyph == CheckCircle <==> d >= 25.0
    ensures i.glyph == XCircle <==> d <= 0.0
    ensures i.glyph == AlertCircle <==> 0.0 < d < 25.0
  {
    if d >= 25.0 then Icon(CheckCircle, Green)
    else if d >= 15.0 then Icon(AlertCircle, Yellow)
    else if d > 0.0 then Icon(AlertCircle, Orange)
    else Icon(XCircle, Red)
  }

  /** `getAttendanceBadgeVariant` of the report view: Good and Poor share `secondary`. */
  function DisplayBadge(d: real): (v: Variant)
    ensures v == Default <==> Label(d) == Excellent
    ensures v == Secondary <==> Label(d) in {Good, Poor}
    ensures v == Destructive <==> Label(d) == Absent
  {
    if d >= 25.0 then Default
    else if d >= 15.0 then Secondary
    else if d > 0.0 then Secondary
    else Destructive
  }

  predicate IsPerfect(e: Employee) { e.daysPresent >= 25.0 }
  predicate IsGood(e: Employee) { e.daysPresent >= 15.0 && e.daysPresent < 25.0 }
  predicate IsPoor(e: Employee) { e.daysPresent > 0.0 && e.daysPresent < 15.0 }
  predicate IsAbsent(e: Employee) { e.daysPresent == 0.0 }

  /** The four filtered lists, in the order the report shows them. */
  datatype Buckets = Buckets(perfect: seq<Employee>, good: seq<Employee>, poor: seq<Employee>, absent: seq<Employee>)

  /** `perfectAttendance`, `goodAttendance`, `poorAttendance` and `absent`. */
  function Categorize(es: seq<Employee>): (b: Buckets)
    ensures forall e | e in b.perfect :: e in es && Label(e.daysPresent) == Excellent
    ensures forall e | e in b.good :: e in es && Label(e.daysPresent) == Good
    ensures forall e | e in b.poor :: e in es && Label(e.daysPresent) == Poor
    ensures forall e | e in b.absent :: e in es && e.daysPresent == 0.0
  {
    Buckets(Seqs.Filter(es, IsPerfect), Seqs.Filter(es, IsGood), Seqs.Filter(es, IsPoor), Seqs.Filter(es, IsAbsent))
  }

  /** Every bucket keeps the order of the records it holds. */
  lemma BucketsKeepOrder(es: seq<Employee>)
    ensures Seqs.IsSubsequence(Categorize(es).perfect, es)
    ensures Seqs.IsSubsequence(Categorize(es).good, es)
    ensures Seqs.IsSubsequence(Categorize(es).poor, es)
    ensures Seqs.IsSubsequence(Categorize(es).absent, es)
  {
    Seqs.FilterIsSubsequence(es, IsPerfect);
    Seqs.FilterIsSubsequence(es, IsGood);
    Seqs.FilterIsSubsequence(es, IsPoor);
    Seqs.FilterIsSubsequence(es, IsAbsent);
  }

  /** The bucket a record with a non-negative count falls into. */
  function BucketOf(b: Buckets, s: Status): seq<Employee> {
    match s
    case Excellent => b.perfect
    case Good => b.good
    case Poor => b.poor
    case Absent => b.absent
  }

  /**
   * The buckets split the records exactly: each record with a non-negative
   * count is in the bucket its label names as often as it is in the list,
   * and in no other bucket. A record with a negative count is in none.
   */
  lemma BucketsPartition(es: seq<Employee>, e: Employee, s: Status)
    ensures multiset(BucketOf(Categorize(es), s))[e] ==
      if e.daysPresent >= 0.0 && Label(e.daysPresent) == s then multiset(es)[e] else 0
  {
    var b := Categorize(es);
    match s
    case Excellent => Seqs.FilterMultiset(es, IsPerfect, e);
    case Good => Seqs.FilterMultiset(es, IsGood, e);
    case Poor => Seqs.FilterMultiset(es, IsPoor, e);
    case Absent => Seqs.FilterMultiset(es, IsAbsent, e);
  }

  /** Without negative counts the four bucket sizes add up to the number of records. */
  lemma {:induction false} BucketsCover(es: seq<Employee>)
    requires forall e | e in es :: e.daysPresent >= 0.0
    ensures |Categorize(es).perfect| + |Categorize(es).good| + |Categorize(es).poor| + |Categorize(es).absent| == |es|
  {
    if |es| > 0 {
      BucketsCover(es[1..]);
      assert Categorize(es).perfect == (if IsPerfect(es[0]) then [es[0]] else []) + Categorize(es[1..]).perfect;
      assert Categorize(es).good == (if IsGood(es[0]) then [es[0]] else []) + Categorize(es[1..]).good;
      assert Categorize(es).poor == (if IsPoor(es[0]) then [es[0]] else []) + Categorize(es[1..]).poor;
      assert Categorize(es).absent == (if IsAbsent(es[0]) then [es[0]] else []) + Categorize(es[1..]).absent;
    }
  }

  /** The records extracted from any report are covered by the buckets. */
  lemma ReportBucketsCover(text: string)
    ensures var b := Categorize(Extractor.ParseEmployeeData(text));
      |b.perfect| + |b.good| + |b.poor| + |b.absent| == |Extractor.ParseEmployeeData(text)|
  {
    BucketsCover(Extractor.ParseEmployeeData(text));
  }
}
