/**
 * src/components/analysis/AttendanceOverview.tsx: the per-row icon, badge,
 * status word and progress bar of the attendance table.
 */
module Overview {
  import opened Tiers

  /** `getAttendanceIcon`: trending up for the two upper tiers, down for Poor, a dash for Absent. */
  function TrendIcon(d: real): (i: Icon)
    ensures i.hue == StatusHue(Label(d))
    ensures i.glyph == TrendingUp <==> d >= 15.0
    ensures i.glyph == TrendingDown <==> 0.0 < d < 15.0
    ensures i.glyph == Minus <==> d <= 0.0
  {
    if d >= 25.0 then Icon(TrendingUp, Green)
    else if d >= 15.0 then Icon(TrendingUp, Yellow)
    else if d > 0.0 then Icon(TrendingDown, Orange)
    else Icon(Minus, Red)
  }

  /** `getAttendanceBadgeVariant`. */
  function Badge(d: real): (v: Variant)
    ensures v == Destructive <==> d <= 0.0
    ensures v == Default <==> d >= 25.0
    ensures v == Secondary <==> 0.0 < d < 25.0
  {
    if d >= 25.0 then Default
    else if d >= 15.0 then Secondary
    else if d > 0.0 then Secondary
    else Destructive
  }

  /** `getAttendanceStatus`: the same word the report view's label shows. */
  function StatusOf(d: real): (s: Status)
    ensures s == Label(d)
  {
    if d >= 25.0 then Excellent
    else if d >= 15.0 then Good
    else if d > 0.0 then Poor
    else Absent
  }

  /** `getAttendancePercentage`: days as a share of 25, capped at 100. */
  function Percentage(d: real): (p: real)
    ensures p <= 100.0
    ensures p == 100.0 <==> d >= 25.0
    ensures d <= 25.0 ==> p == 4.0 * d
    ensures d >= 0.0 ==> p >= 0.0
  {
    var x := d / 25.0 * 100.0;
    if x <= 100.0 then x else 100.0
  }

  /** More days never give a smaller percentage. */
  lemma PercentageMonotone(a: real, b: real)
    requires a <= b
    ensures Percentage(a) <= Percentage(b)
  {
  }

  /** The colour of the progress bar, read from the percentage. */
  function Band(p: real): Hue {
    if p >= 100.0 then Green
    else if p >= 60.0 then Yellow
    else if p > 0.0 then Orange
    else Red
  }

  /** The bar of a row is coloured like the row's status, for every day count. */
  function ProgressHue(d: real): (h: Hue)
    ensures h == StatusHue(StatusOf(d))
    ensures h == Green <==> StatusOf(d) == Excellent
    ensures h == Yellow <==> StatusOf(d) == Good
    ensures h == Orange <==> StatusOf(d) == Poor
    ensures h == Red <==> StatusOf(d) == Absent
  {
    Band(Percentage(d))
  }

  /** The whole percent printed beside the bar. */
  function ShownPercent(d: real): (n: int)
    ensures d >= 0.0 ==> 0 <= n <= 100
    ensures n == 100 <==> d >= 24.875
  {
    Round(Percentage(d))
  }

  /** From 24.875 days on the bar reads 100% while the row is still Good. */
  lemma FullBeforeExcellent(d: real)
    requires 24.875 <= d < 25.0
    ensures ShownPercent(d) == 100 && StatusOf(d) == Good && ProgressHue(d) == Yellow
  {
  }
}
