/**
 * src/components/analysis/EmployeeCard.tsx: the status record, progress ring
 * and badge of one employee's card.
 */
module Card {
  import opened Tiers
  import Overview

  /** The record `getAttendanceStatus` returns: status word, avatar colour, icon. */
  datatype Look = Look(status: Status, color: Hue, icon: Glyph)

  /** `getAttendanceStatus` of the card. */
  function CardStatus(d: real): (l: Look)
    ensures l.status == Label(d)
    ensures l.color == StatusHue(l.status)
    ensures l.icon == TrendingUp <==> d >= 15.0
    ensures l.icon == TrendingDown <==> 0.0 < d < 15.0
    ensures l.icon == Minus <==> d <= 0.0
  {
    if d >= 25.0 then Look(Excellent, Green, TrendingUp)
    else if d >= 15.0 then Look(Good, Yellow, TrendingUp)
    else if d > 0.0 then Look(Poor, Orange, TrendingDown)
    else Look(Absent, Red, Minus)
  }

  /** Two cards share an avatar colour exactly when they share a status. */
  lemma ColoursDistinct(d1: real, d2: real)
    ensures CardStatus(d1).color == CardStatus(d2).color <==> CardStatus(d1).status == CardStatus(d2).status
  {
  }

  /** The colour of the small status icon: green for both upper tiers. */
  function MarkerHue(s: Status): (h: Hue)
    ensures h == Green <==> s in {Excellent, Good}
    ensures h == Orange <==> s == Poor
    ensures h == Red <==> s == Absent
  {
    match s
    case Excellent | Good => Green
    case Poor => Orange
    case Absent => Red
  }

  /** The badge variant chosen from the status word. */
  function CardBadge(s: Status): (v: Variant)
    ensures v == Default <==> s == Excellent
    ensures v == Secondary <==> s == Good
    ensures v == Destructive <==> s in {Poor, Absent}
  {
    match s
    case Excellent => Default
    case Good => Secondary
    case Poor | Absent => Destructive
  }

  /** The ring is full exactly for an excellent card. */
  lemma RingFull(d: real)
    ensures Overview.Percentage(d) == 100.0 <==> CardStatus(d).status == Excellent
  {
  }

  /** The card and the overview table agree on the badge except for a Poor record. */
  lemma BadgesDifferOnPoor(d: real)
    ensures CardBadge(CardStatus(d).status) == Overview.Badge(d) <==> Label(d) != Poor
  {
  }
}
