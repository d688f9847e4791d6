/**
 * Recognisers for the six line shapes of `parseEmployeeData`
 * (src/components/AnalysisDisplay.tsx). Each regular expression is written
 * as a function that matches at one start index, plus the leftmost search of
 * module Scan. For every pattern the backtracking engine's choices are fixed
 * once the start index is fixed, so each recogniser computes exactly the
 * groups the engine reports:
 *  - `[^(]+\(` must stop at the first `(`, and `[^)]+\)` at the first `)`;
 *  - `\s*` before a digit, `*` or `|` takes all the whitespace there is;
 *  - `\d+(?:\.\d+)?` is followed by `\s*d`, `\s*|`, `\s*$` or nothing, none
 *    of which can start with a digit or a `.`, so it takes the longest numeral.
 * Each recogniser comes with a declarative reading of what a match looks
 * like (`IsKeyAt`, `IsCountAt`, `IsRowAt`, ...) and lemmas showing the two agree.
 */
module Shapes {
  import opened Wrappers
  import opened Text
  import opened Numeral
  import Scan

  /** The `**name(id):**` part of the bold key-value patterns. */
  datatype Key = Key(name: string, id: string)

  /** Index just past the `):**` of key `k` read from index `i`. */
  function KeyEnd(i: nat, k: Key): nat {
    i + 2 + |k.name| + 1 + |k.id| + 4
  }

  /**
   * `\*\*([^(]+)\(([^)]+)\):\*\*` read from `i`: `**`, a non-empty name
   * without `(`, `(`, a non-empty id without `)`, then `):**`.
   */
  predicate IsKeyAt(s: string, i: nat, k: Key) {
    match k
    case Key(name, id) =>
      var p := i + 2 + |name|;
      var q := p + 1 + |id|;
      && q + 4 <= |s|
      && s[i] == '*' && s[i + 1] == '*'
      && s[i + 2..p] == name && s[p] == '(' && s[p + 1..q] == id
      && s[q] == ')' && s[q + 1] == ':' && s[q + 2] == '*' && s[q + 3] == '*'
      && |name| > 0 && Absent(s, '(', i + 2, p)
      && |id| > 0 && Absent(s, ')', p + 1, q)
  }

  /** The key tried at `i`: the name runs to the first `(`, the id to the next `)`. */
  function KeyAt(s: string, i: nat): (r: Option<Key>)
    ensures r.Some? ==> KeyEnd(i, r.value) <= |s|
  {
    if i + 2 <= |s| && s[i] == '*' && s[i + 1] == '*' then
      match IndexOf(s, '(', i + 2)
      case None => None
      case Some(p) =>
        if p == i + 2 then None
        else
          match IndexOf(s, ')', p + 1)
          case None => None
          case Some(q) =>
            if q == p + 1 || q + 4 > |s| || s[q + 1] != ':' || s[q + 2] != '*' || s[q + 3] != '*' then None
            else Some(Key(s[i + 2..p], s[p + 1..q]))
    else None
  }

  lemma KeyAtSound(s: string, i: nat, k: Key)
    requires KeyAt(s, i) == Some(k)
    ensures IsKeyAt(s, i, k)
  {
  }

  lemma KeyAtComplete(s: string, i: nat, k: Key)
    requires IsKeyAt(s, i, k)
    ensures KeyAt(s, i) == Some(k)
  {
    var p := i + 2 + |k.name|;
    var q := p + 1 + |k.id|;
    IndexOfUnique(s, '(', i + 2, p);
    IndexOfUnique(s, ')', p + 1, q);
  }

  /** `\s*(\d+(?:\.\d+)?)` from `k`: whitespace up to `at`, then the longest numeral `count`. */
  predicate IsCountAt(s: string, k: nat, c: Count) {
    match c
    case Count(at, count) =>
      && k <= at <= |s|
      && SpacesIn(s, k, at)
      && LongestNumeral(s, at, at + |count|)
      && s[at..at + |count|] == count
  }

  /** A captured count: its text and the index where it starts. */
  datatype Count = Count(at: nat, text: string)

  /** `\s*(\d+(?:\.\d+)?)` tried at `k`: the start and the text of the count. */
  function CountAt(s: string, k: nat): (r: Option<Count>)
    requires k <= |s|
    ensures r.Some? ==> k <= r.value.at && r.value.at + |r.value.text| <= |s|
  {
    var j := SkipSpaces(s, k);
    match ScanNumber(s, j)
    case None => None
    case Some(e) => Some(Count(j, s[j..e]))
  }

  /** What the recogniser reads is whitespace and then the longest numeral there. */
  lemma CountAtSound(s: string, k: nat, c: Count)
    requires k <= |s| && CountAt(s, k) == Some(c)
    ensures IsCountAt(s, k, c)
  {
    SkipSpacesSpan(s, k);
    ScanNumberLongest(s, SkipSpaces(s, k));
  }

  /** Whitespace and a longest numeral can be read from `k` in one way only. */
  lemma CountAtComplete(s: string, k: nat, c: Count)
    requires IsCountAt(s, k, c)
    ensures CountAt(s, k) == Some(c)
  {
    NumeralSpanChars(s, c.at, c.at + |c.text|);
    SkipSpacesUnique(s, k, c.at);
    ScanNumberLongest(s, c.at);
    LongestUnique(s, c.at, ScanNumber(s, c.at).value, c.at + |c.text|);
  }

  /** A captured count is a numeral, so `parseFloat` reads all of it. */
  lemma CountIsNumeral(s: string, k: nat, c: Count)
    requires IsCountAt(s, k, c)
    ensures IsNumeral(c.text)
  {
    NumeralSpanSlice(s, c.at, c.at + |c.text|);
  }

  lemma SkipSpacesUnique(s: string, i: nat, j: nat)
    requires i <= j <= |s| && SpacesIn(s, i, j) && (j < |s| ==> !IsSpace(s[j]))
    ensures SkipSpaces(s, i) == j
    decreases j - i
  {
    if i < j {
      SkipSpacesUnique(s, i + 1, j);
    }
  }

  /** Groups of `\*\*([^(]+)\(([^)]+)\):\*\*\s*(\d+(?:\.\d+)?)`; the count starts at index `at`. */
  datatype BoldGroups = BoldGroups(name: string, id: string, count: string, at: nat)

  /**
   * What a match of the bold key-value pattern at `i` looks like:
   * `**` name `(` id `):**` whitespace count, where the name holds no `(`,
   * the id no `)`, and the count is the longest numeral at its position.
   */
  predicate IsBoldMatch(s: string, i: nat, g: BoldGroups) {
    match g
    case BoldGroups(name, id, count, at) =>
      IsKeyAt(s, i, Key(name, id)) && IsCountAt(s, KeyEnd(i, Key(name, id)), Count(at, count))
  }

  /** The bold key-value pattern tried at index `i` (shape 2 of the report code). */
  function BoldAt(s: string, i: nat): (r: Option<BoldGroups>)
    ensures r.Some? ==> r.value.at + |r.value.count| <= |s|
  {
    match KeyAt(s, i)
    case None => None
    case Some(k) =>
      match CountAt(s, KeyEnd(i, k))
      case None => None
      case Some(c) => Some(BoldGroups(k.name, k.id, c.text, c.at))
  }

  lemma BoldMatchSound(s: string, i: nat, g: BoldGroups)
    requires BoldAt(s, i) == Some(g)
    ensures IsBoldMatch(s, i, g)
  {
    KeyAtSound(s, i, Key(g.name, g.id));
    CountAtSound(s, KeyEnd(i, Key(g.name, g.id)), Count(g.at, g.count));
  }

  lemma BoldMatchComplete(s: string, i: nat, g: BoldGroups)
    requires IsBoldMatch(s, i, g)
    ensures BoldAt(s, i) == Some(g)
  {
    var k := Key(g.name, g.id);
    KeyAtComplete(s, i, k);
    CountAtComplete(s, KeyEnd(i, k), Count(g.at, g.count));
  }

  /** The recogniser finds exactly the matches the declarative reading describes. */
  lemma BoldAtIff(s: string, i: nat, g: BoldGroups)
    ensures BoldAt(s, i) == Some(g) <==> IsBoldMatch(s, i, g)
  {
    if IsBoldMatch(s, i, g) {
      BoldMatchComplete(s, i, g);
    }
    if BoldAt(s, i) == Some(g) {
      BoldMatchSound(s, i, g);
    }
  }

  /** The count of a bold match is a numeral. */
  lemma BoldAtNumeral(s: string, i: nat, g: BoldGroups)
    requires BoldAt(s, i) == Some(g)
    ensures IsNumeral(g.count)
  {
    BoldMatchSound(s, i, g);
    CountIsNumeral(s, KeyEnd(i, Key(g.name, g.id)), Count(g.at, g.count));
  }

  /** Every bold match starts with `**`. */
  lemma BoldAtStar(s: string, i: nat)
    ensures BoldAt(s, i).Some? ==> i + 1 < |s| && s[i] == '*' && s[i + 1] == '*'
  {
  }

  /**
   * `\s*days?\s*present?` under the `i` flag, read right after the count
   * ending at `e`: the end of the unit words, or None when they are missing.
   */
  function UnitAt(s: string, e: nat): (r: Option<nat>)
    requires e <= |s|
    ensures r.Some? ==> e + 9 <= r.value <= |s|
  {
    var j := SkipSpaces(s, e);
    if !WordAt(s, j, "day") then None
    else
      var k := if j + 3 < |s| && LowerChar(s[j + 3]) == 's' then j + 4 else j + 3;
      var m := SkipSpaces(s, k);
      if !WordAt(s, m, "presen") then None
      else Some(if m + 6 < |s| && LowerChar(s[m + 6]) == 't' then m + 7 else m + 6)
  }

  /** After count `c`, the line ends with ` days present`, spelled out letter by letter. */
  predicate DaysPresentAfter(s: string, c: Count) {
    match c
    case Count(at, text) =>
      var e := at + |text|;
      && e + 13 == |s|
      && s[e] == ' ' && s[e + 1] == 'd' && s[e + 2] == 'a' && s[e + 3] == 'y' && s[e + 4] == 's'
      && s[e + 5] == ' ' && s[e + 6] == 'p' && s[e + 7] == 'r' && s[e + 8] == 'e' && s[e + 9] == 's'
      && s[e + 10] == 'e' && s[e + 11] == 'n' && s[e + 12] == 't'
  }

  lemma DaysPresentOfSuffix(s: string, c: Count)
    requires c.at + |c.text| + 13 == |s| && s[c.at + |c.text|..] == " days present"
    ensures DaysPresentAfter(s, c)
  {
    var e := c.at + |c.text|;
    assert forall m | 0 <= m < 13 :: s[e + m] == s[e..][m];
  }

  /** The unit words `days present` of the Pattern 1 layout are read to their end. */
  lemma UnitOfDaysPresent(s: string, c: Count)
    requires DaysPresentAfter(s, c)
    ensures UnitAt(s, c.at + |c.text|) == Some(|s|)
  {
    var e := c.at + |c.text|;
    SkipSpacesUnique(s, e, e + 1);
    SkipSpacesUnique(s, e + 5, e + 6);
  }

  /** A numeral between two spaces is what the count pattern reads after the first space. */
  lemma SpacedCount(s: string, k: nat, at: nat, t: string)
    requires at == k + 1 && at + |t| < |s| && IsNumeral(t)
    requires s[k] == ' ' && s[at..at + |t|] == t && s[at + |t|] == ' '
    ensures IsCountAt(s, k, Count(at, t))
  {
    NumeralSpanSlice(s, at, at + |t|);
    EndsLongest(s, at, at + |t|);
  }

  /** A space and then a bar close a pipe row. */
  lemma SpaceThenBar(s: string, e: nat)
    requires e + 1 < |s| && s[e] == ' ' && s[e + 1] == '|'
    ensures ClosingBarAt(s, e)
  {
    SkipSpacesUnique(s, e, e + 1);
  }

  /** The word `w`, matched case-insensitively, starts at index `j`. */
  predicate WordAt(s: string, j: nat, w: string) {
    j + |w| <= |s| && forall m | 0 <= m < |w| :: LowerChar(s[j + m]) == w[m]
  }

  /** Shape 1, `\*\*([^(]+)\(([^)]+)\):\*\*\s*(\d+(?:\.\d+)?)\s*days?\s*present?` with `i`, at index `i`. */
  function BoldWithUnitAt(s: string, i: nat): (r: Option<BoldGroups>)
    ensures r.Some? ==> BoldAt(s, i) == r
  {
    match BoldAt(s, i)
    case None => None
    case Some(g) =>
      if UnitAt(s, g.at + |g.count|).Some? then Some(g) else None
  }

  /**
   * `\s*days?\s*present?` under the `i` flag matches from `e`: whitespace up
   * to `j`, "day" at `j`, an optional `s` ending at `k`, whitespace up to `m`
   * and "presen" at `m`. The final optional `t` never decides whether the
   * pattern matches, so it is left out.
   */
  predicate UnitSplitAt(s: string, e: nat, j: nat, k: nat, m: nat) {
    && e <= j && SpacesIn(s, e, j) && WordAt(s, j, "day")
    && (k == j + 3 || (k == j + 4 && j + 3 < |s| && LowerChar(s[j + 3]) == 's'))
    && k <= m && SpacesIn(s, k, m) && WordAt(s, m, "presen")
  }

  /** Some choice of the optional parts and of the whitespace runs matches. */
  predicate IsUnitAt(s: string, e: nat) {
    exists j: nat, k: nat, m: nat | j <= |s| && k <= |s| && m <= |s| :: UnitSplitAt(s, e, j, k, m)
  }

  /**
   * The greedy reading finds the unit words exactly when some way of
   * matching them exists: backtracking into the whitespace runs or the
   * optional `s` never finds a match the greedy reading misses.
   */
  lemma UnitAtIff(s: string, e: nat)
    requires e <= |s|
    ensures UnitAt(s, e).Some? <==> IsUnitAt(s, e)
  {
    var j := SkipSpaces(s, e);
    SkipSpacesSpan(s, e);
    if UnitAt(s, e).Some? {
      var k := if j + 3 < |s| && LowerChar(s[j + 3]) == 's' then j + 4 else j + 3;
      var m := SkipSpaces(s, k);
      SkipSpacesSpan(s, k);
      assert UnitSplitAt(s, e, j, k, m);
    }
    if IsUnitAt(s, e) {
      var j': nat, k': nat, m': nat :| j' <= |s| && k' <= |s| && m' <= |s| && UnitSplitAt(s, e, j', k', m');
      UnitSplitGreedy(s, e, j', k', m');
    }
  }

  /** Any match of the unit words is the one the greedy reading takes. */
  lemma UnitSplitGreedy(s: string, e: nat, j: nat, k: nat, m: nat)
    requires UnitSplitAt(s, e, j, k, m)
    ensures UnitAt(s, e).Some?
  {
    assert LowerChar(s[j + 0]) == "day"[0];
    SkipSpacesUnique(s, e, j);
    var k0 := if j + 3 < |s| && LowerChar(s[j + 3]) == 's' then j + 4 else j + 3;
    assert LowerChar(s[m + 0]) == "presen"[0];
    if k == j + 3 && j + 3 < m {
      assert IsSpace(s[j + 3]);
    }
    assert k == k0;
    SkipSpacesUnique(s, k, m);
  }

  /** Shape 1 fires where shape 2 does and the unit words follow the count. */
  lemma BoldWithUnitAtOf(s: string, i: nat, g: BoldGroups)
    requires BoldAt(s, i) == Some(g) && UnitAt(s, g.at + |g.count|).Some?
    ensures BoldWithUnitAt(s, i) == Some(g)
  {
  }

  /** Shape 3, `\*\s*\*\*([^(]+)\(([^)]+)\):\*\*\s*(\d+(?:\.\d+)?)`, at index `i`: a bullet, spaces, then shape 2. */
  function BulletBoldAt(s: string, i: nat): Option<BoldGroups> {
    if i < |s| && s[i] == '*' then BoldAt(s, SkipSpaces(s, i + 1)) else None
  }

  /** Leftmost match of shape 1 in a line. */
  function BoldWithUnit(line: string): Option<(nat, BoldGroups)> {
    Scan.FirstFrom(i => BoldWithUnitAt(line, i), 0, |line|)
  }

  /** Leftmost match of shape 2 in a line. */
  function Bold(line: string): Option<(nat, BoldGroups)> {
    Scan.FirstFrom(i => BoldAt(line, i), 0, |line|)
  }

  /** Leftmost match of shape 3 in a line. */
  function BulletBold(line: string): Option<(nat, BoldGroups)> {
    Scan.FirstFrom(i => BulletBoldAt(line, i), 0, |line|)
  }

  /** Whenever shape 3 matches a line, shape 2 matches it too. */
  lemma BulletImpliesBold(line: string)
    ensures BulletBold(line).Some? ==> Bold(line).Some?
  {
    match BulletBold(line)
    case None =>
    case Some(m) =>
      var j := SkipSpaces(line, m.0 + 1);
      BoldAtStar(line, j);
      Scan.FirstFromFinds(i => BoldAt(line, i), 0, |line|, j);
  }

  /** Whenever shape 1 matches a line, shape 2 matches it too. */
  lemma UnitImpliesBold(line: string)
    ensures BoldWithUnit(line).Some? ==> Bold(line).Some?
  {
    match BoldWithUnit(line)
    case None =>
    case Some(m) =>
      Scan.FirstFromFinds(i => BoldAt(line, i), 0, |line|, m.0);
  }

  /** Whatever bold shape matches a line, its count is a numeral. */
  lemma BoldSearchNumeral(line: string)
    ensures BoldWithUnit(line).Some? ==> IsNumeral(BoldWithUnit(line).value.1.count)
    ensures Bold(line).Some? ==> IsNumeral(Bold(line).value.1.count)
    ensures BulletBold(line).Some? ==> IsNumeral(BulletBold(line).value.1.count)
  {
    BoldWithUnitNumeral(line);
    BoldNumeral(line);
    BulletBoldNumeral(line);
  }

  lemma BoldWithUnitNumeral(line: string)
    ensures BoldWithUnit(line).Some? ==> IsNumeral(BoldWithUnit(line).value.1.count)
  {
    if BoldWithUnit(line).Some? {
      BoldAtNumeral(line, BoldWithUnit(line).value.0, BoldWithUnit(line).value.1);
    }
  }

  lemma BoldNumeral(line: string)
    ensures Bold(line).Some? ==> IsNumeral(Bold(line).value.1.count)
  {
    if Bold(line).Some? {
      BoldAtNumeral(line, Bold(line).value.0, Bold(line).value.1);
    }
  }

  lemma BulletBoldNumeral(line: string)
    ensures BulletBold(line).Some? ==> IsNumeral(BulletBold(line).value.1.count)
  {
    if BulletBold(line).Some? {
      BoldAtNumeral(line, SkipSpaces(line, BulletBold(line).value.0 + 1), BulletBold(line).value.1);
    }
  }

  /** A line that starts with a bold match followed by the unit words is a shape 1 line. */
  lemma BoldWithUnitOf(s: string, g: BoldGroups)
    requires IsBoldMatch(s, 0, g)
    requires g.at + |g.count| <= |s| && UnitAt(s, g.at + |g.count|).Some?
    ensures BoldWithUnit(s) == Some((0, g))
  {
    BoldMatchComplete(s, 0, g);
    BoldWithUnitAtOf(s, 0, g);
    BoldWithUnitAtStart(s, g);
  }

  /** A line holding a bold match and then exactly the unit words is a shape 1 line. */
  lemma BoldDaysPresent(s: string, g: BoldGroups)
    requires IsBoldMatch(s, 0, g) && DaysPresentAfter(s, Count(g.at, g.count))
    ensures BoldWithUnit(s) == Some((0, g))
  {
    UnitOfDaysPresent(s, Count(g.at, g.count));
    BoldWithUnitOf(s, g);
  }

  /** A line whose first character starts a shape 1 match. */
  lemma BoldWithUnitAtStart(line: string, g: BoldGroups)
    requires BoldWithUnitAt(line, 0) == Some(g)
    ensures BoldWithUnit(line) == Some((0, g))
  {
    BoldAtStar(line, 0);
  }

  /** A line without `*` matches none of the bold shapes. */
  lemma NoStarNoBold(line: string)
    requires '*' !in line
    ensures BoldWithUnit(line).None? && Bold(line).None? && BulletBold(line).None?
  {
    forall i | 0 <= i < |line|
      ensures BoldAt(line, i).None?
    {
      BoldAtStar(line, i);
    }
  }

  /**
   * Raw text of a pipe row: `cell` is everything between the first two bars,
   * `count` the number after the second bar.
   */
  datatype Row = Row(cell: string, count: Count)

  /** A bar, a non-empty cell without bars, and the next bar, from index `i`. */
  predicate IsCellAt(s: string, i: nat, cell: string) {
    var k := i + 1 + |cell|;
    && k < |s|
    && s[i] == '|' && s[i + 1..k] == cell && s[k] == '|'
    && |cell| > 0 && Absent(s, '|', i + 1, k)
  }

  /** The cell between the bar at `i` and the next bar. */
  function CellAt(s: string, i: nat): (r: Option<string>)
    ensures r.Some? ==> 0 < |r.value| && i + 2 + |r.value| <= |s|
  {
    if i < |s| && s[i] == '|' then
      match IndexOf(s, '|', i + 1)
      case None => None
      case Some(k) => if k == i + 1 then None else Some(s[i + 1..k])
    else None
  }

  lemma CellAtSound(s: string, i: nat, cell: string)
    requires CellAt(s, i) == Some(cell)
    ensures IsCellAt(s, i, cell)
  {
  }

  lemma CellAtComplete(s: string, i: nat, cell: string)
    requires IsCellAt(s, i, cell)
    ensures CellAt(s, i) == Some(cell)
  {
    IndexOfUnique(s, '|', i + 1, i + 1 + |cell|);
  }

  /** Whitespace and then a bar from index `e`. */
  predicate ClosingBarAt(s: string, e: nat)
    requires e <= |s|
  {
    var m := SkipSpaces(s, e);
    m < |s| && s[m] == '|'
  }

  /**
   * What the pipe-row patterns of shapes 4 and 6,
   * `\|\s*([^|]+?)\s*\|\s*(\d+(?:\.\d+)?)\s*\|` and `\|\s*([^|]+)\s*\|\s*(\d+(?:\.\d+)?)\s*\|`,
   * need at `i`: a bar, a non-empty cell without bars, a bar, whitespace,
   * the longest numeral, whitespace and a closing bar. The two patterns differ
   * only in how much of the cell their first group keeps, so they match at
   * the same indices.
   */
  predicate IsRowAt(s: string, i: nat, r: Row) {
    match r
    case Row(cell, c) =>
      && IsCellAt(s, i, cell)
      && IsCountAt(s, i + 2 + |cell|, c)
      && c.at + |c.text| <= |s| && ClosingBarAt(s, c.at + |c.text|)
  }

  /** The pipe-row pattern tried at index `i`. */
  function RowAt(s: string, i: nat): (r: Option<Row>)
    ensures r.Some? ==> |r.value.cell| > 0
  {
    match CellAt(s, i)
    case None => None
    case Some(cell) =>
      match CountAt(s, i + 2 + |cell|)
      case None => None
      case Some(c) =>
        if ClosingBarAt(s, c.at + |c.text|) then Some(Row(cell, c)) else None
  }

  lemma RowAtSound(s: string, i: nat, r: Row)
    requires RowAt(s, i) == Some(r)
    ensures IsRowAt(s, i, r)
  {
    RowAtParts(s, i, r);
    CellAtSound(s, i, r.cell);
    CountAtSound(s, i + 2 + |r.cell|, r.count);
  }

  lemma RowAtParts(s: string, i: nat, r: Row)
    requires RowAt(s, i) == Some(r)
    ensures CellAt(s, i) == Some(r.cell) && i + 2 + |r.cell| <= |s|
    ensures CountAt(s, i + 2 + |r.cell|) == Some(r.count)
    ensures r.count.at + |r.count.text| <= |s| && ClosingBarAt(s, r.count.at + |r.count.text|)
  {
  }

  lemma RowAtComplete(s: string, i: nat, r: Row)
    requires IsRowAt(s, i, r)
    ensures RowAt(s, i) == Some(r)
  {
    CellAtComplete(s, i, r.cell);
    CountAtComplete(s, i + 2 + |r.cell|, r.count);
    RowAtOf(s, i, r);
  }

  lemma RowAtOf(s: string, i: nat, r: Row)
    requires CellAt(s, i) == Some(r.cell) && i + 2 + |r.cell| <= |s|
    requires CountAt(s, i + 2 + |r.cell|) == Some(Count(r.count.at, r.count.text))
    requires r.count.at + |r.count.text| <= |s| && ClosingBarAt(s, r.count.at + |r.count.text|)
    ensures RowAt(s, i) == Some(r)
  {
  }

  /** The recogniser finds exactly the pipe rows the declarative reading describes. */
  lemma RowAtIff(s: string, i: nat, r: Row)
    ensures RowAt(s, i) == Some(r) <==> IsRowAt(s, i, r)
  {
    if IsRowAt(s, i, r) {
      RowAtComplete(s, i, r);
    }
    if RowAt(s, i) == Some(r) {
      RowAtSound(s, i, r);
    }
  }

  /** Leftmost pipe row in a line (shapes 4 and 6). */
  function PipeRow(line: string): (r: Option<(nat, Row)>)
    ensures r.Some? ==> |r.value.1.cell| > 0
  {
    Scan.FirstFrom(i => RowAt(line, i), 0, |line|)
  }

  /** A line whose first character starts a pipe row. */
  lemma PipeRowAtStart(line: string, r: Row)
    ensures RowAt(line, 0) == Some(r) ==> PipeRow(line) == Some((0, r))
  {
  }

  /** A line that starts with a cell, a count and a closing bar is read as a pipe row from its first character. */
  lemma PipeRowOf(s: string, cell: string, k: nat, c: Count)
    requires IsCellAt(s, 0, cell) && k == 2 + |cell|
    requires IsCountAt(s, k, c) && c.at + |c.text| <= |s| && ClosingBarAt(s, c.at + |c.text|)
    ensures PipeRow(s) == Some((0, Row(cell, c)))
  {
    CellAtComplete(s, 0, cell);
    CountAtComplete(s, k, c);
    RowAtOf(s, 0, Row(cell, c));
    PipeRowAtStart(s, Row(cell, c));
  }

  /** The row found is a pipe row at its index, and its count is a numeral. */
  lemma PipeRowSound(line: string)
    ensures PipeRow(line).Some? ==> IsRowAt(line, PipeRow(line).value.0, PipeRow(line).value.1)
    ensures PipeRow(line).Some? ==> IsNumeral(PipeRow(line).value.1.count.text)
  {
    if PipeRow(line).Some? {
      RowAtSound(line, PipeRow(line).value.0, PipeRow(line).value.1);
      CountIsNumeral(line, PipeRow(line).value.0 + 2 + |PipeRow(line).value.1.cell|,
        PipeRow(line).value.1.count);
    }
  }

  /**
   * Group 1 of shape 4's lazy `\|\s*([^|]+?)\s*\|` for the text between the
   * bars: the cell without surrounding whitespace; when the cell is all
   * whitespace the group still needs one character and takes the last one.
   */
  function LazyCell(cell: string): (c: string)
    requires |cell| > 0
    ensures |c| > 0
    ensures Trim(c) == Trim(cell)
  {
    if AllSpaces(cell) then
      assert AllSpaces([cell[|cell| - 1]]);
      [cell[|cell| - 1]]
    else
      TrimAfterTrimStart(cell);
      Trim(cell)
  }

  /**
   * Group 1 of shape 6's greedy `\|\s*([^|]+)\s*\|`: the cell without its
   * leading whitespace, so its trailing whitespace stays in the group.
   */
  function GreedyCell(cell: string): (c: string)
    requires |cell| > 0
  {
    if AllSpaces(cell) then [cell[|cell| - 1]] else TrimStart(cell)
  }

  /** Shape 6's group is shape 4's group followed by whitespace only. */
  lemma GreedyIsLazyPadded(cell: string)
    requires |cell| > 0
    ensures |GreedyCell(cell)| >= |LazyCell(cell)|
    ensures GreedyCell(cell) == LazyCell(cell) + GreedyCell(cell)[|LazyCell(cell)|..]
    ensures AllSpaces(GreedyCell(cell)[|LazyCell(cell)|..])
  {
    if !AllSpaces(cell) {
      var t := TrimStart(cell);
      var a := TrimEnd(t);
      assert LazyCell(cell) == a;
      assert GreedyCell(cell) == t;
      TrimEndSplit(t);
    }
  }

  /** Shape 4 and 6's header test: the lower-cased cell mentions "employee" or "name". */
  predicate IsHeaderCell(c: string) {
    Includes(Lower(c), "employee") || Includes(Lower(c), "name")
  }

  /** Shapes 4 and 6 agree on whether a cell is a header. */
  lemma HeaderAgrees(cell: string)
    requires |cell| > 0
    ensures IsHeaderCell(GreedyCell(cell)) <==> IsHeaderCell(LazyCell(cell))
  {
    var a := LazyCell(cell);
    var w := GreedyCell(cell)[|a|..];
    GreedyIsLazyPadded(cell);
    LowerAppend(a, w);
    LowerOfSpaces(w);
    ContainsPadded(Lower(a), Lower(w), "employee");
    ContainsPadded(Lower(a), Lower(w), "name");
    IncludesIff(Lower(a), "employee");
    IncludesIff(Lower(a), "name");
    IncludesIff(Lower(a + w), "employee");
    IncludesIff(Lower(a + w), "name");
  }

  /** Characters of `[A-Z\s\(\)]`, the name class of shape 5. */
  predicate IsUpperNameChar(c: char) {
    ('A' <= c <= 'Z') || IsSpace(c) || c == '(' || c == ')'
  }

  /** Raw groups of shape 5: the text before the bar and the count. */
  datatype UpperGroups = UpperGroups(name: string, count: Count)

  /**
   * What shape 5, `^([A-Z\s\(\)]+)\s*\|\s*(\d+(?:\.\d+)?)\s*$`, needs of a whole
   * line: a non-empty run of name characters, a bar, whitespace, the longest
   * numeral, and only whitespace after it.
   */
  predicate IsUpperRow(line: string, u: UpperGroups) {
    var k := |u.name|;
    && k < |line|
    && line[..k] == u.name && line[k] == '|'
    && k > 0 && (forall m | 0 <= m < k :: IsUpperNameChar(line[m]))
    && IsCountAt(line, k + 1, u.count)
    && u.count.at + |u.count.text| <= |line|
    && SpacesIn(line, u.count.at + |u.count.text|, |line|)
  }

  /** Shape 5, anchored at both ends of the line. */
  function UpperRow(line: string): Option<UpperGroups> {
    match IndexOf(line, '|', 0)
    case None => None
    case Some(k) =>
      if k > 0 && forall m | 0 <= m < k :: IsUpperNameChar(line[m]) then
        match CountAt(line, k + 1)
        case None => None
        case Some(c) =>
          if SkipSpaces(line, c.at + |c.text|) == |line| then Some(UpperGroups(line[..k], c)) else None
      else None
  }

  lemma UpperRowSound(line: string, u: UpperGroups)
    requires UpperRow(line) == Some(u)
    ensures IsUpperRow(line, u)
    ensures IsNumeral(u.count.text)
  {
    CountAtSound(line, |u.name| + 1, u.count);
    SkipSpacesSpan(line, u.count.at + |u.count.text|);
    CountIsNumeral(line, |u.name| + 1, u.count);
  }

  /** Whatever shape 5 captures as the count is a numeral. */
  lemma UpperRowNumeral(line: string)
    ensures UpperRow(line).Some? ==> IsNumeral(UpperRow(line).value.count.text)
  {
    if UpperRow(line).Some? {
      UpperRowSound(line, UpperRow(line).value);
    }
  }

  lemma UpperRowComplete(line: string, u: UpperGroups)
    requires IsUpperRow(line, u)
    ensures UpperRow(line) == Some(u)
  {
    var k := |u.name|;
    IndexOfUnique(line, '|', 0, k);
    CountAtComplete(line, k + 1, u.count);
    var e := u.count.at + |u.count.text|;
    SkipSpacesUnique(line, e, |line|);
  }

  /** Shape 5 matches exactly the lines the declarative reading describes. */
  lemma UpperRowIff(line: string, u: UpperGroups)
    ensures UpperRow(line) == Some(u) <==> IsUpperRow(line, u)
  {
    if IsUpperRow(line, u) {
      UpperRowComplete(line, u);
    }
    if UpperRow(line) == Some(u) {
      UpperRowSound(line, u);
    }
  }

  /** A line of shape 5 has exactly one bar, right after the name. */
  lemma UpperRowOneBar(line: string, u: UpperGroups)
    requires IsUpperRow(line, u)
    ensures forall j | 0 <= j < |line| && line[j] == '|' :: j == |u.name|
  {
    NumeralSpanChars(line, u.count.at, u.count.at + |u.count.text|);
  }

  /** Shape 5 allows a single bar, a pipe row needs two: no line is both. */
  lemma RowExcludesUpper(line: string)
    ensures PipeRow(line).Some? ==> UpperRow(line).None?
  {
    match PipeRow(line)
    case None =>
    case Some(m) =>
      RowAtSound(line, m.0, m.1);
      match UpperRow(line)
      case None =>
      case Some(u) =>
        UpperRowSound(line, u);
        UpperRowOneBar(line, u);
  }
}
