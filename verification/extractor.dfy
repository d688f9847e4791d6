/**
 * `parseEmployeeData` of src/components/AnalysisDisplay.tsx: every line of the
 * report is tried against six shapes in a fixed order, the first shape that
 * fires decides what the line contributes, and the collected records are
 * de-duplicated by name, first occurrence kept.
 */
module Extractor {
  import opened Wrappers
  import opened Text
  import opened Numeral
  import Shapes
  import Scan
  import Seqs

  /** One extracted record; `id` is present only for the bold shapes. */
  datatype Employee = Employee(name: string, id: Option<string>, daysPresent: real)

  /** The six line shapes, in the order the report code tries them. */
  datatype Shape =
    | BoldWithUnitLine   // 1: **NAME (ID):** n days present
    | BoldLine           // 2: **NAME (ID):** n
    | BulletLine         // 3: * **NAME (ID):** n
    | PipeLine           // 4: | name | n |
    | UpperLine          // 5: NAME | n
    | LoosePipeLine      // 6: | name | n |, greedy cell

  /**
   * What one line contributes: a record, nothing although a shape consumed
   * the line (its callback returned early), or nothing because no shape fired.
   */
  datatype LineResult =
    | Recorded(shape: Shape, employee: Employee)
    | Consumed(shape: Shape)
    | Unmatched

  /** The record of a bold match: trimmed name and id, and the count's value. */
  function FromBold(g: Shapes.BoldGroups): (e: Employee)
    requires IsNumeral(g.count)
    ensures e.id.Some? && e.daysPresent >= 0.0
  {
    Employee(Trim(g.name), Some(Trim(g.id)), Value(g.count))
  }

  /**
   * The callback passed to `lines.forEach`, for one line. The first shape
   * that matches wins: a line any bold shape reads is never handed to the
   * row shapes, and a row shape fires only on a line no bold shape reads.
   */
  function ParseLine(line: string): (r: LineResult)
    ensures r.Recorded? ==> r.employee.daysPresent >= 0.0
    ensures Shapes.BoldWithUnit(line).Some? ==> r.Recorded? && r.shape == BoldWithUnitLine
    ensures Shapes.Bold(line).Some? ==> r.Recorded? && r.shape in {BoldWithUnitLine, BoldLine} && r.employee.id.Some?
    ensures !r.Unmatched? && r.shape in {PipeLine, UpperLine, LoosePipeLine} ==> Shapes.Bold(line).None? && Shapes.BulletBold(line).None?
  {
    Shapes.BulletImpliesBold(line);
    match BoldRecord(line)
    case Some(b) => b
    case None => ParseRowLine(line)
  }

  /** Shapes 1 to 3, tried in that order; None when none of them matches. */
  function BoldRecord(line: string): (r: Option<LineResult>)
    ensures r.Some? ==> r.value.Recorded? && r.value.employee.id.Some? && r.value.employee.daysPresent >= 0.0
  {
    Shapes.BoldSearchNumeral(line);
    match Shapes.BoldWithUnit(line)
    case Some(m) => Some(Recorded(BoldWithUnitLine, FromBold(m.1)))
    case None =>
      match Shapes.Bold(line)
      case Some(m) => Some(Recorded(BoldLine, FromBold(m.1)))
      case None =>
        match Shapes.BulletBold(line)
        case Some(m) => Some(Recorded(BulletLine, FromBold(m.1)))
        case None => None
  }

  /** Shapes 4 to 6, reached only when no bold shape matched. */
  function ParseRowLine(line: string): (r: LineResult)
    ensures r.Recorded? ==> r.employee.daysPresent >= 0.0
    ensures !r.Unmatched? ==> r.shape in {PipeLine, UpperLine, LoosePipeLine}
  {
    Shapes.PipeRowSound(line);
    Shapes.UpperRowNumeral(line);
    RowDecision(RowOf(Shapes.PipeRow(line)), Shapes.UpperRow(line))
  }

  /** The pipe row of a search result, without its index. */
  function RowOf(m: Option<(nat, Shapes.Row)>): (r: Option<Shapes.Row>)
    ensures r.Some? <==> m.Some?
    ensures r.Some? ==> r.value == m.value.1
  {
    match m
    case None => None
    case Some(p) => Some(p.1)
  }

  /**
   * The decision among shapes 4 to 6 given what the pipe-row pattern and
   * shape 5 found on the line: shape 4 unless its cell is a header, then
   * shape 5, then shape 6.
   */
  function RowDecision(row: Option<Shapes.Row>, upper: Option<Shapes.UpperGroups>): (r: LineResult)
    requires row.Some? ==> |row.value.cell| > 0 && IsNumeral(row.value.count.text)
    requires upper.Some? ==> IsNumeral(upper.value.count.text)
    ensures r.Recorded? ==> r.employee.daysPresent >= 0.0
    ensures !r.Unmatched? ==> r.shape in {PipeLine, UpperLine, LoosePipeLine}
  {
    if row.Some? && !Shapes.IsHeaderCell(Shapes.LazyCell(row.value.cell)) then
      TableRecord(row.value)
    else
      match upper
      case Some(u) => UpperRecord(u)
      case None => if row.Some? then LooseRecord(row.value) else Unmatched
  }

  /** Shape 4 once its header test passed: the trimmed lazy cell, unless blank or a dash filler. */
  function TableRecord(row: Shapes.Row): (r: LineResult)
    requires |row.cell| > 0 && IsNumeral(row.count.text)
    ensures r.Recorded? ==> r.employee.daysPresent >= 0.0
    ensures !r.Unmatched? && r.shape == PipeLine
  {
    var name := Trim(Shapes.LazyCell(row.cell));
    if name != "" && name != "---" && name != "-" then
      Recorded(PipeLine, Employee(name, None, Value(row.count.text)))
    else
      Consumed(PipeLine)
  }

  /** Shape 5: the trimmed name before the bar. */
  function UpperRecord(u: Shapes.UpperGroups): (r: LineResult)
    requires IsNumeral(u.count.text)
    ensures r.Recorded? && r.shape == UpperLine && r.employee.daysPresent >= 0.0
  {
    Recorded(UpperLine, Employee(Trim(u.name), None, Value(u.count.text)))
  }

  /** Shape 6: the trimmed greedy cell, when its guard accepts it. */
  function LooseRecord(row: Shapes.Row): (r: LineResult)
    requires |row.cell| > 0 && IsNumeral(row.count.text)
    ensures r.Recorded? ==> r.employee.daysPresent >= 0.0
    ensures !r.Unmatched? ==> r.shape == LoosePipeLine
    ensures r.Unmatched? <==> !LooseCellAccepted(Shapes.GreedyCell(row.cell))
  {
    var c := Shapes.GreedyCell(row.cell);
    if LooseCellAccepted(c) then
      var name := Trim(c);
      if |name| > 0 then Recorded(LoosePipeLine, Employee(name, None, Value(row.count.text)))
      else Consumed(LoosePipeLine)
    else
      Unmatched
  }

  /** Shape 6's guard on its first group: non-empty, no `-`, not a header. */
  predicate LooseCellAccepted(c: string) {
    |c| > 0 && '-' !in c && !Shapes.IsHeaderCell(c)
  }

  /** The records pushed while scanning `lines`, in line order. */
  function Records(lines: seq<string>): (r: seq<Employee>)
    ensures |r| <= |lines|
    ensures forall e | e in r :: e.daysPresent >= 0.0
  {
    if |lines| == 0 then []
    else
      (match ParseLine(lines[0]) case Recorded(_, e) => [e] case _ => [])
      + Records(lines[1..])
  }

  /** `self.findIndex(e => e.name === name)`, -1 when no record has that name. */
  function FindIndex(xs: seq<Employee>, name: string): (r: int)
    ensures -1 <= r < |xs|
    ensures r >= 0 ==> xs[r].name == name && forall j | 0 <= j < r :: xs[j].name != name
    ensures r == -1 ==> forall j | 0 <= j < |xs| :: xs[j].name != name
  {
    if |xs| == 0 then -1
    else if xs[0].name == name then 0
    else
      var r := FindIndex(xs[1..], name);
      if r == -1 then -1 else r + 1
  }

  /** `filter((emp, index, self) => index === self.findIndex(...))`, from index `i` on. */
  function KeepFirstFrom(xs: seq<Employee>, i: nat): seq<Employee>
    requires i <= |xs|
    decreases |xs| - i
  {
    if i == |xs| then []
    else (if FindIndex(xs, xs[i].name) == i then [xs[i]] else []) + KeepFirstFrom(xs, i + 1)
  }

  /** The de-duplication step of `parseEmployeeData`. */
  function Dedup(xs: seq<Employee>): seq<Employee> {
    KeepFirstFrom(xs, 0)
  }

  /** `parseEmployeeData(text)`. */
  function ParseEmployeeData(text: string): (r: seq<Employee>)
    ensures forall e | e in r :: e.daysPresent >= 0.0
    ensures Seqs.IsSubsequence(r, Records(Split(text)))
    ensures Names(r) == Names(Records(Split(text)))
    ensures forall a, b | 0 <= a < b < |r| :: r[a].name != r[b].name
  {
    DedupSpec(Records(Split(text)));
    NubSubsequence(Records(Split(text)), {});
    Dedup(Records(Split(text)))
  }

  function Names(xs: seq<Employee>): set<string> {
    set e | e in xs :: e.name
  }

  /**
   * A streaming reading of the same de-duplication: walk the list once,
   * remembering the names already emitted.
   */
  function Nub(xs: seq<Employee>, seen: set<string>): seq<Employee> {
    if |xs| == 0 then []
    else if xs[0].name in seen then Nub(xs[1..], seen)
    else [xs[0]] + Nub(xs[1..], seen + {xs[0].name})
  }

  lemma {:induction false} NubSubsequence(xs: seq<Employee>, seen: set<string>)
    ensures forall e | e in Nub(xs, seen) :: e in xs
    ensures Seqs.IsSubsequence(Nub(xs, seen), xs)
  {
    if |xs| > 0 {
      var x := xs[0];
      if x.name in seen {
        NubSubsequence(xs[1..], seen);
      } else {
        NubSubsequence(xs[1..], seen + {x.name});
        var r := Nub(xs[1..], seen + {x.name});
        assert ([x] + r)[1..] == r;
      }
    }
  }

  lemma {:induction false} NubNames(xs: seq<Employee>, seen: set<string>)
    ensures Names(Nub(xs, seen)) == Names(xs) - seen
    ensures forall a, b | 0 <= a < b < |Nub(xs, seen)| :: Nub(xs, seen)[a].name != Nub(xs, seen)[b].name
  {
    if |xs| > 0 {
      var x := xs[0];
      assert Names(xs) == {x.name} + Names(xs[1..]) by {
        assert xs == [x] + xs[1..];
      }
      if x.name in seen {
        NubNames(xs[1..], seen);
      } else {
        var seen' := seen + {x.name};
        NubNames(xs[1..], seen');
        var r := Nub(xs[1..], seen');
        assert Names([x] + r) == {x.name} + Names(r);
        forall b | 0 < b < |[x] + r|
          ensures ([x] + r)[0].name != ([x] + r)[b].name
        {
          assert r[b - 1] in r;
        }
      }
    }
  }

  /** An index is its name's first occurrence exactly when no earlier record has that name. */
  lemma FirstIndexIffUnseen(xs: seq<Employee>, i: nat)
    requires i < |xs|
    ensures FindIndex(xs, xs[i].name) == i <==> xs[i].name !in Names(xs[..i])
  {
    var x := xs[i];
    if x.name in Names(xs[..i]) {
      var e :| e in xs[..i] && e.name == x.name;
    } else {
      forall j | 0 <= j < i
        ensures xs[j].name != x.name
      {
        assert xs[..i][j] == xs[j];
      }
    }
  }

  lemma NamesSnoc(xs: seq<Employee>, i: nat)
    requires i < |xs|
    ensures Names(xs[..i + 1]) == Names(xs[..i]) + {xs[i].name}
  {
    assert xs[..i + 1] == xs[..i] + [xs[i]];
  }

  /** The index filter of the report code and the streaming reading agree. */
  lemma {:induction false} KeepFirstFromIsNub(xs: seq<Employee>, i: nat)
    requires i <= |xs|
    ensures KeepFirstFrom(xs, i) == Nub(xs[i..], Names(xs[..i]))
    decreases |xs| - i
  {
    if i < |xs| {
      var x := xs[i];
      var seen := Names(xs[..i]);
      KeepFirstFromIsNub(xs, i + 1);
      FirstIndexIffUnseen(xs, i);
      NamesSnoc(xs, i);
      assert xs[i..][0] == x && xs[i..][1..] == xs[i + 1..];
      if x.name in seen {
        assert Names(xs[..i + 1]) == seen;
        assert KeepFirstFrom(xs, i) == KeepFirstFrom(xs, i + 1);
        assert Nub(xs[i..], seen) == Nub(xs[i + 1..], seen);
      } else {
        assert KeepFirstFrom(xs, i) == [x] + KeepFirstFrom(xs, i + 1);
        assert Nub(xs[i..], seen) == [x] + Nub(xs[i + 1..], seen + {x.name});
      }
    }
  }

  lemma DedupIsNub(xs: seq<Employee>)
    ensures Dedup(xs) == Nub(xs, {})
  {
    KeepFirstFromIsNub(xs, 0);
    assert xs[0..] == xs;
    assert Names(xs[..0]) == {};
  }

  /**
   * De-duplication keeps, in order, exactly one record per name, and that
   * record is the first one in the input with that name.
   */
  lemma DedupSpec(xs: seq<Employee>)
    ensures Seqs.IsSubsequence(Dedup(xs), xs)
    ensures Names(Dedup(xs)) == Names(xs)
    ensures forall a, b | 0 <= a < b < |Dedup(xs)| :: Dedup(xs)[a].name != Dedup(xs)[b].name
    ensures forall e | e in Dedup(xs) :: FindIndex(xs, e.name) >= 0 && xs[FindIndex(xs, e.name)] == e
  {
    DedupIsNub(xs);
    NubSubsequence(xs, {});
    NubNames(xs, {});
    forall e | e in Dedup(xs)
      ensures FindIndex(xs, e.name) >= 0 && xs[FindIndex(xs, e.name)] == e
    {
      KeptIsFirst(xs, 0, e);
    }
  }

  lemma {:induction false} KeptIsFirst(xs: seq<Employee>, i: nat, e: Employee)
    requires i <= |xs| && e in KeepFirstFrom(xs, i)
    ensures FindIndex(xs, e.name) >= 0 && xs[FindIndex(xs, e.name)] == e
    decreases |xs| - i
  {
    if i < |xs| && !(FindIndex(xs, xs[i].name) == i && e == xs[i]) {
      KeptIsFirst(xs, i + 1, e);
    }
  }

  /** Shape 3 is shadowed by shape 2, and shape 6 by shapes 4 and 5: neither ever decides a line. */
  lemma DeadShapes(line: string)
    ensures !ParseLine(line).Unmatched? ==> ParseLine(line).shape != BulletLine
    ensures !ParseLine(line).Unmatched? ==> ParseLine(line).shape != LoosePipeLine
  {
    BulletNeverDecides(line);
    RowNeverLoose(line);
  }

  lemma RowNeverLoose(line: string)
    ensures !ParseRowLine(line).Unmatched? ==> ParseRowLine(line).shape != LoosePipeLine
  {
    Shapes.PipeRowSound(line);
    Shapes.UpperRowNumeral(line);
    LooseNeverDecides(RowOf(Shapes.PipeRow(line)), Shapes.UpperRow(line));
  }

  lemma BulletNeverDecides(line: string)
    ensures BoldRecord(line).Some? ==> BoldRecord(line).value.shape != BulletLine
  {
    Shapes.BulletImpliesBold(line);
  }

  /**
   * Shape 6 is reached only when shape 4 matched with a header cell, and then
   * its own header test rejects the same cell: shape 6 never decides a line.
   */
  lemma LooseNeverDecides(row: Option<Shapes.Row>, upper: Option<Shapes.UpperGroups>)
    requires row.Some? ==> |row.value.cell| > 0 && IsNumeral(row.value.count.text)
    requires upper.Some? ==> IsNumeral(upper.value.count.text)
    ensures RowDecision(row, upper).Unmatched? || RowDecision(row, upper).shape != LoosePipeLine
  {
    if row.Some? {
      Shapes.HeaderAgrees(row.value.cell);
    }
  }

  /** A header row with nothing for shape 5 leaves the line unmatched. */
  lemma HeaderDecision(row: Shapes.Row)
    requires |row.cell| > 0 && IsNumeral(row.count.text)
    requires Shapes.IsHeaderCell(Shapes.LazyCell(row.cell))
    ensures RowDecision(Some(row), None) == Unmatched
  {
    Shapes.HeaderAgrees(row.cell);
  }

  /**
   * A table row whose first cell mentions "employee" or "name" contributes
   * nothing of its own: only a bold match elsewhere on the line can record.
   */
  lemma HeaderRowSkipped(line: string)
    requires Shapes.PipeRow(line).Some?
    requires Shapes.IsHeaderCell(Shapes.LazyCell(Shapes.PipeRow(line).value.1.cell))
    ensures ParseRowLine(line) == Unmatched
    ensures ParseLine(line).Recorded? ==> ParseLine(line).employee.id.Some?
  {
    Shapes.PipeRowSound(line);
    Shapes.RowExcludesUpper(line);
    HeaderDecision(Shapes.PipeRow(line).value.1);
    OnlyBoldRecords(line);
  }

  /**
   * A table row whose first cell trims to nothing, `-` or `---` is consumed
   * by shape 4 without a record, so shapes 5 and 6 never see the line.
   */
  lemma FillerRowConsumed(line: string)
    requires Shapes.PipeRow(line).Some?
    requires !Shapes.IsHeaderCell(Shapes.LazyCell(Shapes.PipeRow(line).value.1.cell))
    requires Trim(Shapes.PipeRow(line).value.1.cell) in {"", "-", "---"}
    ensures ParseRowLine(line) == Consumed(PipeLine)
  {
    Shapes.PipeRowSound(line);
  }

  /** When the row shapes leave a line unmatched, only a bold shape can record it. */
  lemma OnlyBoldRecords(line: string)
    requires ParseRowLine(line) == Unmatched
    ensures ParseLine(line).Recorded? ==> ParseLine(line).employee.id.Some?
  {
  }

  /** The layout of the Pattern 1 comment in the parser: `**NAME (ID):** n days present`. */
  function BoldReportLine(name: string, id: string, n: nat): string {
    "**" + name + " (" + id + "):** " + NatText(n) + " days present"
  }

  /**
   * Where the parts of a bold line `**name (id):** t days present` sit: the
   * key from index 0, the count text `t` after the space that ends the key,
   * and the unit words closing the line.
   */
  predicate IsBoldReport(s: string, name: string, id: string, t: string) {
    && |s| == |name| + |id| + 22 + |t|
    && s[0] == '*' && s[1] == '*'
    && s[2..2 + |name|] == name
    && s[2 + |name|] == ' ' && s[3 + |name|] == '('
    && s[4 + |name|..4 + |name| + |id|] == id
    && s[4 + |name| + |id|] == ')' && s[5 + |name| + |id|] == ':'
    && s[6 + |name| + |id|] == '*' && s[7 + |name| + |id|] == '*' && s[8 + |name| + |id|] == ' '
    && s[9 + |name| + |id|..9 + |name| + |id| + |t|] == t
    && s[9 + |name| + |id| + |t|..] == " days present"
  }

  lemma BoldReportLayout(name: string, id: string, n: nat)
    ensures IsBoldReport(BoldReportLine(name, id, n), name, id, NatText(n))
  {
    var line := BoldReportLine(name, id, n);
    assert line == "**" + name + " (" + id + "):** " + NatText(n) + " days present";
  }

  /** The groups shape 1 reports for a bold report line. */
  function BoldReportGroups(name: string, id: string, t: string): Shapes.BoldGroups {
    Shapes.BoldGroups(name + " ", id, t, |name| + |id| + 9)
  }

  /** The key of a bold report line: the name keeps the space before the `(`. */
  lemma BoldReportKey(s: string, name: string, id: string, t: string)
    requires IsBoldReport(s, name, id, t) && '(' !in name && |id| > 0 && ')' !in id
    ensures Shapes.IsKeyAt(s, 0, Shapes.Key(name + " ", id))
  {
    var p := 3 + |name|;
    assert s[2..p] == name + " " by {
      assert s[2..p] == s[2..2 + |name|] + [s[2 + |name|]];
    }
    AbsentOfSlice(s, '(', 2, p);
    AbsentOfSlice(s, ')', p + 1, p + 1 + |id|);
  }

  lemma BoldReportCount(s: string, name: string, id: string, t: string)
    requires IsBoldReport(s, name, id, t) && IsNumeral(t)
    ensures Shapes.IsCountAt(s, |name| + |id| + 8, Shapes.Count(|name| + |id| + 9, t))
  {
    var e := 9 + |name| + |id| + |t|;
    assert s[e] == s[e..][0];
    Shapes.SpacedCount(s, |name| + |id| + 8, |name| + |id| + 9, t);
  }

  /** A bold report line is a match of the bold key-value pattern with the groups written into it. */
  lemma BoldReportIsMatch(s: string, name: string, id: string, t: string)
    requires IsBoldReport(s, name, id, t) && IsNumeral(t)
    requires '(' !in name && |id| > 0 && ')' !in id
    ensures Shapes.IsBoldMatch(s, 0, BoldReportGroups(name, id, t))
  {
    BoldReportKey(s, name, id, t);
    BoldReportCount(s, name, id, t);
    assert Shapes.KeyEnd(0, Shapes.Key(name + " ", id)) == |name| + |id| + 8;
  }

  /** Shape 1 matches a bold report line at its first character. */
  lemma BoldReportMatch(s: string, name: string, id: string, t: string)
    requires IsBoldReport(s, name, id, t) && IsNumeral(t)
    requires '(' !in name && |id| > 0 && ')' !in id
    ensures Shapes.BoldWithUnit(s) == Some((0, BoldReportGroups(name, id, t)))
  {
    BoldReportIsMatch(s, name, id, t);
    Shapes.DaysPresentOfSuffix(s, Shapes.Count(|name| + |id| + 9, t));
    Shapes.BoldDaysPresent(s, BoldReportGroups(name, id, t));
  }

  /**
   * Any line laid out as a bold report reads back as the name, id and count
   * written into it. The name may be empty: the bold shapes do not insist on one.
   */
  lemma BoldReportReads(s: string, name: string, id: string, t: string)
    requires IsTrimmed(name) && '(' !in name
    requires |id| > 0 && IsTrimmed(id) && ')' !in id
    requires IsNumeral(t)
    ensures IsBoldReport(s, name, id, t)
        ==> ParseLine(s) == Recorded(BoldWithUnitLine, Employee(name, Some(id), Value(t)))
  {
    if IsBoldReport(s, name, id, t) {
      BoldReportMatch(s, name, id, t);
      TrimPadded(name);
      TrimOfTrimmed(id);
      BoldLineDecides(s, BoldReportGroups(name, id, t), name, id);
    }
  }

  /** A line whose shape-1 match starts at index 0 is recorded from that match's trimmed groups. */
  lemma BoldLineDecides(line: string, g: Shapes.BoldGroups, name: string, id: string)
    requires Shapes.BoldWithUnit(line) == Some((0, g)) && IsNumeral(g.count)
    requires Trim(g.name) == name && Trim(g.id) == id
    ensures ParseLine(line) == Recorded(BoldWithUnitLine, Employee(name, Some(id), Value(g.count)))
  {
  }

  /** A Pattern 1 line reads back as the name, id and whole day count written into it. */
  lemma BoldRoundTrip(name: string, id: string, n: nat)
    requires IsTrimmed(name) && '(' !in name
    requires |id| > 0 && IsTrimmed(id) && ')' !in id
    ensures ParseLine(BoldReportLine(name, id, n))
         == Recorded(BoldWithUnitLine, Employee(name, Some(id), n as real))
  {
    BoldReportLayout(name, id, n);
    NatTextValue(n);
    BoldReportReads(BoldReportLine(name, id, n), name, id, NatText(n));
  }

  /** The layout of the Pattern 4 comment in the parser: `| NAME | n |`. */
  function TableRowLine(name: string, n: nat): string {
    "| " + name + " | " + NatText(n) + " |"
  }

  /** Where the parts of a table row `| name | t |` sit. */
  predicate IsTableReport(s: string, name: string, t: string) {
    && |s| == |name| + 7 + |t|
    && s[0] == '|' && s[1] == ' ' && s[2..2 + |name|] == name
    && s[2 + |name|] == ' ' && s[3 + |name|] == '|' && s[4 + |name|] == ' '
    && s[5 + |name|..5 + |name| + |t|] == t
    && s[5 + |name| + |t|] == ' ' && s[6 + |name| + |t|] == '|'
  }

  lemma TableRowLayout(name: string, n: nat)
    ensures IsTableReport(TableRowLine(name, n), name, NatText(n))
  {
    var line := TableRowLine(name, n);
    assert line == "| " + name + " | " + NatText(n) + " |";
  }

  /** The row shapes 4 and 6 see in a table row line. */
  function TableRowGroups(name: string, t: string): Shapes.Row {
    Shapes.Row(" " + name + " ", Shapes.Count(|name| + 5, t))
  }

  lemma TableReportCell(s: string, name: string, t: string)
    requires IsTableReport(s, name, t) && '|' !in name
    ensures Shapes.IsCellAt(s, 0, " " + name + " ")
  {
    var cell := " " + name + " ";
    assert s[1..1 + |cell|] == cell by {
      assert s[1..1 + |cell|] == [s[1]] + s[2..2 + |name|] + [s[2 + |name|]];
    }
    AbsentOfSlice(s, '|', 1, 1 + |cell|);
  }

  lemma TableReportCount(s: string, name: string, t: string)
    requires IsTableReport(s, name, t) && IsNumeral(t)
    ensures Shapes.IsCountAt(s, |name| + 4, Shapes.Count(|name| + 5, t))
  {
    Shapes.SpacedCount(s, |name| + 4, |name| + 5, t);
  }

  /** The leftmost pipe row of a table row line starts at its first bar. */
  lemma TableReportMatch(s: string, name: string, t: string)
    requires IsTableReport(s, name, t) && '|' !in name && IsNumeral(t)
    ensures Shapes.PipeRow(s) == Some((0, TableRowGroups(name, t)))
  {
    TableReportCell(s, name, t);
    TableReportCount(s, name, t);
    Shapes.SpaceThenBar(s, |name| + 5 + |t|);
    Shapes.PipeRowOf(s, " " + name + " ", |name| + 4, Shapes.Count(|name| + 5, t));
  }

  /** A table row line holds no `*`, so no bold shape matches it. */
  lemma TableReportNoBold(s: string, name: string, t: string)
    requires IsTableReport(s, name, t) && '*' !in name && IsNumeral(t)
    ensures BoldRecord(s) == None
  {
    NumeralSpanChars(t, 0, |t|);
    forall m | 0 <= m < |s|
      ensures s[m] != '*'
    {
      if 2 <= m < 2 + |name| {
        assert s[m] == s[2..2 + |name|][m - 2];
      } else if 5 + |name| <= m < 5 + |name| + |t| {
        assert s[m] == s[5 + |name|..5 + |name| + |t|][m - 5 - |name|];
      }
    }
    Shapes.NoStarNoBold(s);
  }

  /**
   * Any line laid out as a table row reads back as its name and count,
   * provided the name is one shape 4 accepts (non-empty, no bar, not a
   * dash filler, not a header word) and holds no star, so that no bold
   * shape fires on the line first.
   */
  lemma TableReportReads(s: string, name: string, t: string)
    requires |name| > 0 && IsTrimmed(name) && '|' !in name && '*' !in name
    requires name != "-" && name != "---" && !Shapes.IsHeaderCell(name)
    requires IsNumeral(t)
    ensures IsTableReport(s, name, t) ==> ParseLine(s) == Recorded(PipeLine, Employee(name, None, Value(t)))
  {
    if IsTableReport(s, name, t) {
      TableReportNoBold(s, name, t);
      TableReportMatch(s, name, t);
      PaddedRowDecides(s, name, t);
    }
  }

  /** The padded cell `" " + name + " "` of a table row trims to the accepted name. */
  lemma PaddedRowDecides(s: string, name: string, t: string)
    requires Shapes.PipeRow(s) == Some((0, TableRowGroups(name, t))) && BoldRecord(s) == None
    requires |name| > 0 && IsTrimmed(name) && IsNumeral(t)
    requires name != "-" && name != "---" && !Shapes.IsHeaderCell(name)
    ensures ParseLine(s) == Recorded(PipeLine, Employee(name, None, Value(t)))
  {
    var cell := " " + name + " ";
    TrimPadded(name);
    assert !AllSpaces(cell) by {
      assert cell[1] == name[0];
    }
    TableRowDecides(s, 0, TableRowGroups(name, t), name);
  }

  /**
   * A line that no bold shape matches and whose leftmost pipe row, wherever
   * it starts, has a cell that trims to a name shape 4 accepts, is recorded
   * by shape 4.
   */
  lemma TableRowDecides(line: string, at: nat, row: Shapes.Row, name: string)
    requires Shapes.PipeRow(line) == Some((at, row)) && BoldRecord(line) == None
    requires IsNumeral(row.count.text)
    requires |row.cell| > 0 && !AllSpaces(row.cell) && Trim(row.cell) == name
    requires name != "" && name != "-" && name != "---" && !Shapes.IsHeaderCell(name)
    ensures ParseLine(line) == Recorded(PipeLine, Employee(name, None, Value(row.count.text)))
  {
    Shapes.RowExcludesUpper(line);
    assert RowOf(Shapes.PipeRow(line)) == Some(row);
    RowRecord(row, name);
  }

  /** Shape 4 alone on the line records a cell that trims to an accepted name. */
  lemma RowRecord(row: Shapes.Row, name: string)
    requires IsNumeral(row.count.text)
    requires |row.cell| > 0 && !AllSpaces(row.cell) && Trim(row.cell) == name
    requires name != "" && name != "-" && name != "---" && !Shapes.IsHeaderCell(name)
    ensures RowDecision(Some(row), None) == Recorded(PipeLine, Employee(name, None, Value(row.count.text)))
  {
    var c := Shapes.LazyCell(row.cell);
    assert c == Trim(row.cell);
    TrimAfterTrimStart(row.cell);
    assert c == name;
    assert TableRecord(row) == Recorded(PipeLine, Employee(name, None, Value(row.count.text)));
  }

  /** A Pattern 4 table row reads back as its name and whole day count. */
  lemma TableRowRoundTrip(name: string, n: nat)
    requires |name| > 0 && IsTrimmed(name) && '|' !in name && '*' !in name
    requires name != "-" && name != "---" && !Shapes.IsHeaderCell(name)
    ensures ParseLine(TableRowLine(name, n)) == Recorded(PipeLine, Employee(name, None, n as real))
  {
    TableRowLayout(name, n);
    NatTextValue(n);
    TableReportReads(TableRowLine(name, n), name, NatText(n));
  }
}
