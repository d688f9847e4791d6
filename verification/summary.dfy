/**
 * `extractSummary` of src/components/AnalysisDisplay.tsx: the plain lines at
 * the top of a report, up to the first line that looks like part of the
 * employee list, trimmed and joined with single spaces.
 */
module Summary {
  import opened Wrappers
  import opened Text
  import Extractor
  import Shapes
  import Numeral

  /** No line terminator (what `.` refuses) at an index in `[a, b)`. */
  predicate NoTerminatorIn(s: string, a: nat, b: nat) {
    forall m | a <= m < b && m < |s| :: !IsLineTerminator(s[m])
  }

  /**
   * `\*\*.*\(.*\):\*\*` matches with its `**` at `p`, its `(` at `q` and its
   * `):**` at `r`; both `.*` runs stay on one line.
   */
  predicate BoldKeyAt(s: string, p: nat, q: nat, r: nat) {
    && p + 2 <= q < r && r + 4 <= |s|
    && s[p] == '*' && s[p + 1] == '*' && s[q] == '('
    && s[r] == ')' && s[r + 1] == ':' && s[r + 2] == '*' && s[r + 3] == '*'
    && NoTerminatorIn(s, p + 2, q) && NoTerminatorIn(s, q + 1, r)
  }

  predicate HasBoldKey(s: string) {
    exists p: nat, q: nat, r: nat | p < |s| && q < |s| && r < |s| :: BoldKeyAt(s, p, q, r)
  }

  /** `\*\s*\*\*.*\(.*\):\*\*`: a star and whitespace before the bold key at `p`. */
  predicate BulletKeyAt(s: string, b: nat, p: nat, q: nat, r: nat) {
    b < p && BoldKeyAt(s, p, q, r) && s[b] == '*' && SpacesIn(s, b + 1, p)
  }

  predicate HasBulletKey(s: string) {
    exists b: nat, p: nat, q: nat, r: nat | b < |s| && p < |s| && q < |s| && r < |s| :: BulletKeyAt(s, b, p, q, r)
  }

  /**
   * `\|\s*[^|]+\s*\|\s*\d+` matches from the bar at `i` to the bar at `k`:
   * the text between them is a non-empty run without bars, and the first
   * non-space after `k` is a digit.
   */
  predicate CellCountAt(s: string, i: nat, k: nat) {
    && i + 1 < k < |s|
    && s[i] == '|' && s[k] == '|' && Absent(s, '|', i + 1, k)
    && SkipSpaces(s, k + 1) < |s| && IsDigit(s[SkipSpaces(s, k + 1)])
  }

  predicate HasCellCount(s: string) {
    exists i: nat, k: nat | i < |s| && k < |s| :: CellCountAt(s, i, k)
  }

  /** The test that ends the scan: the line looks like the start of the employee list. */
  predicate IsBoundary(line: string) {
    || HasBoldKey(line)
    || HasBulletKey(line)
    || HasCellCount(line)
    || Includes(line, "Employee Name")
    || Includes(line, "Days Present")
  }

  /** A line before the boundary is kept when it is neither blank nor markup. */
  predicate Keep(line: string) {
    && |Trim(line)| > 0
    && !StartsWith(line, "*")
    && !Includes(line, "**")
    && !Includes(line, "|")
  }

  /** The text a kept line contributes. */
  predicate IsSummaryText(t: string) {
    |t| > 0 && IsTrimmed(t) && !Includes(t, "**") && !Includes(t, "|")
  }

  /** A kept line, trimmed, is non-empty, trimmed and still free of `**` and `|`. */
  lemma KeptText(line: string)
    requires Keep(line)
    ensures IsSummaryText(Trim(line))
  {
    TrimmedLacks(line, "**");
    TrimmedLacks(line, "|");
  }

  /** Trimming cannot bring in a text the line lacks. */
  lemma TrimmedLacks(line: string, t: string)
    ensures !Includes(line, t) ==> !Includes(Trim(line), t)
  {
    var a := TrimOffset(line);
    IncludesOfSlice(line, a, a + |Trim(line)|, Trim(line), t);
  }

  /** `summaryLines` once the loop is over `lines`. */
  function SummaryLines(lines: seq<string>): (r: seq<string>)
    ensures |r| <= |lines|
    ensures forall k | 0 <= k < |r| :: IsSummaryText(r[k])
  {
    if |lines| == 0 || IsBoundary(lines[0]) then []
    else
      var rest := SummaryLines(lines[1..]);
      if Keep(lines[0]) then
        KeptText(lines[0]);
        SummaryCons(Trim(lines[0]), rest);
        [Trim(lines[0])] + rest
      else rest
  }

  /** A summary text in front of summary texts leaves only summary texts. */
  lemma SummaryCons(t: string, rest: seq<string>)
    requires IsSummaryText(t) && forall k | 0 <= k < |rest| :: IsSummaryText(rest[k])
    ensures forall k | 0 <= k < |rest| + 1 :: IsSummaryText(([t] + rest)[k])
  {
  }

  /** `extractSummary(text)`. */
  function ExtractSummary(text: string): string {
    Trim(Join(SummaryLines(Split(text)), " "))
  }

  /** The index of the first boundary line, or the number of lines when there is none. */
  function FirstBoundary(lines: seq<string>): (b: nat)
    ensures b <= |lines|
    ensures b < |lines| ==> IsBoundary(lines[b])
    ensures forall k | 0 <= k < b :: !IsBoundary(lines[k])
  {
    if |lines| == 0 || IsBoundary(lines[0]) then 0 else 1 + FirstBoundary(lines[1..])
  }

  /** The kept lines of `lines`, trimmed, with no boundary test at all. */
  function Plain(lines: seq<string>): seq<string> {
    if |lines| == 0 then []
    else (if Keep(lines[0]) then [Trim(lines[0])] else []) + Plain(lines[1..])
  }

  /**
   * The summary is exactly the kept lines strictly before the first
   * boundary: neither the boundary line nor anything after it is looked at.
   */
  lemma {:induction false} SummaryBeforeBoundary(lines: seq<string>)
    ensures SummaryLines(lines) == Plain(lines[..FirstBoundary(lines)])
  {
    var b := FirstBoundary(lines);
    if |lines| > 0 && !IsBoundary(lines[0]) {
      SummaryBeforeBoundary(lines[1..]);
      assert b == 1 + FirstBoundary(lines[1..]);
      SummaryStep(lines, 0);
      assert lines[0..] == lines;
      PlainStep(lines[..b]);
      assert lines[..b][0] == lines[0];
      assert lines[..b][1..] == lines[1..][..b - 1];
    } else {
      assert b == 0;
    }
  }

  /** Plain takes its first line and then the rest. */
  lemma PlainStep(lines: seq<string>)
    requires |lines| > 0
    ensures Plain(lines) == (if Keep(lines[0]) then [Trim(lines[0])] else []) + Plain(lines[1..])
  {
  }

  /** Lines after a boundary line never change the summary. */
  lemma {:induction false} TailIgnored(pre: seq<string>, line: string, post: seq<string>)
    requires IsBoundary(line)
    ensures SummaryLines(pre + [line] + post) == SummaryLines(pre + [line])
    ensures SummaryLines(pre + [line]) == SummaryLines(pre) || exists k | 0 <= k < |pre| :: IsBoundary(pre[k])
  {
    if |pre| > 0 && !IsBoundary(pre[0]) {
      assert (pre + [line] + post)[1..] == pre[1..] + [line] + post;
      assert (pre + [line])[1..] == pre[1..] + [line];
      TailIgnored(pre[1..], line, post);
      if SummaryLines(pre[1..] + [line]) != SummaryLines(pre[1..]) {
        var k :| 0 <= k < |pre[1..]| && IsBoundary(pre[1..][k]);
        assert IsBoundary(pre[k + 1]);
      }
    }
  }

  /** The bulleted key contains the plain one, so the second test adds nothing to the first. */
  lemma BulletKeyIsBoldKey(s: string)
    ensures HasBulletKey(s) ==> HasBoldKey(s)
  {
    if HasBulletKey(s) {
      var b: nat, p: nat, q: nat, r: nat :| b < |s| && p < |s| && q < |s| && r < |s| && BulletKeyAt(s, b, p, q, r);
      assert BoldKeyAt(s, p, q, r);
    }
  }

  /**
   * No line that `parseEmployeeData` takes as a record, or consumes, is part
   * of the summary: every one of its shapes puts `**` or `|` on the line.
   */
  lemma ParsedLineNotKept(line: string)
    ensures !Extractor.ParseLine(line).Unmatched? ==> !Keep(line)
  {
    BoldLinesHaveStars(line);
    IncludesChar(line, '|');
    match Shapes.PipeRow(line)
    case Some(m) =>
      Shapes.PipeRowSound(line);
      assert line[m.0] == '|';
    case None =>
    match Shapes.UpperRow(line)
    case Some(u) =>
      Shapes.UpperRowSound(line, u);
      assert line[|u.name|] == '|';
    case None =>
  }

  /** Each of the three bold shapes matches at a `**`. */
  lemma BoldLinesHaveStars(line: string)
    ensures Extractor.BoldRecord(line).Some? ==> Includes(line, "**")
  {
    if Shapes.BoldWithUnit(line).Some? {
      StarsAt(line, Shapes.BoldWithUnit(line).value.0);
    } else if Shapes.Bold(line).Some? {
      StarsAt(line, Shapes.Bold(line).value.0);
    } else if Shapes.BulletBold(line).Some? {
      var m := Shapes.BulletBold(line).value;
      assert Shapes.BulletBoldAt(line, m.0) == Some(m.1);
      StarsAt(line, SkipSpaces(line, m.0 + 1));
    }
  }

  /** A bold match at `i` puts `**` on the line. */
  lemma StarsAt(line: string, i: nat)
    requires Shapes.BoldAt(line, i).Some?
    ensures Includes(line, "**")
  {
    Shapes.BoldAtStar(line, i);
    assert line[i..i + 2] == "**";
    IncludesIff(line, "**");
    assert OccursAt(line, "**", i);
  }

  /** A bold key whose name and id hold no line terminator satisfies the first boundary test. */
  lemma KeyIsBoundary(s: string, i: nat, k: Shapes.Key)
    requires Shapes.IsKeyAt(s, i, k)
    requires NoTerminatorIn(k.name, 0, |k.name|) && NoTerminatorIn(k.id, 0, |k.id|)
    ensures HasBoldKey(s)
  {
    var p := i + 2 + |k.name|;
    var q := p + 1 + |k.id|;
    forall m | i + 2 <= m < p
      ensures !IsLineTerminator(s[m])
    {
      assert s[m] == k.name[m - (i + 2)];
    }
    forall m | p + 1 <= m < q
      ensures !IsLineTerminator(s[m])
    {
      assert s[m] == k.id[m - (p + 1)];
    }
    assert BoldKeyAt(s, i, p, q);
  }

  /**
   * The groups of the leftmost shape 2 match of a line hold no line
   * terminator: the one case where `.` in the summary's key test cannot
   * follow what the extractor's `[^(]` and `[^)]` read.
   */
  predicate KeyOnOneLine(line: string) {
    match Shapes.Bold(line)
    case None => true
    case Some(m) => NoTerminatorIn(m.1.name, 0, |m.1.name|) && NoTerminatorIn(m.1.id, 0, |m.1.id|)
  }

  /** A pipe row of shapes 4 and 6 at `i` satisfies the cell-and-number boundary test. */
  lemma RowIsBoundary(s: string, i: nat, r: Shapes.Row)
    requires Shapes.IsRowAt(s, i, r)
    ensures HasCellCount(s)
  {
    var k := i + 1 + |r.cell|;
    Numeral.NumeralSpanChars(s, r.count.at, r.count.at + |r.count.text|);
    Shapes.SkipSpacesUnique(s, k + 1, r.count.at);
    assert CellCountAt(s, i, k);
  }

  /**
   * A line that one of the pipe-row shapes matches ends the summary, and so
   * does a line one of the bold shapes matches whenever the name and id of
   * its key hold no line terminator. Terminators elsewhere on the line,
   * such as the `\r` a CRLF report leaves at the end of each line, do not
   * matter.
   */
  lemma RecordLinesAreBoundaries(line: string)
    ensures Extractor.BoldRecord(line).Some? && KeyOnOneLine(line) ==> IsBoundary(line)
    ensures Shapes.PipeRow(line).Some? ==> IsBoundary(line)
  {
    Shapes.UnitImpliesBold(line);
    Shapes.BulletImpliesBold(line);
    if Shapes.Bold(line).Some? && KeyOnOneLine(line) {
      var m := Shapes.Bold(line).value;
      Shapes.BoldMatchSound(line, m.0, m.1);
      KeyIsBoundary(line, m.0, Shapes.Key(m.1.name, m.1.id));
    }
    if Shapes.PipeRow(line).Some? {
      Shapes.PipeRowSound(line);
      RowIsBoundary(line, Shapes.PipeRow(line).value.0, Shapes.PipeRow(line).value.1);
    }
  }

  /** A kept first line followed by a boundary line is the whole summary. */
  lemma PlainThenBoundary(p: string, q: string)
    requires '\n' !in p && '\n' !in q
    requires Keep(p) && !IsBoundary(p) && IsBoundary(q)
    ensures ExtractSummary(p + "\n" + q) == Trim(p)
  {
    SplitTwo(p, q, p + "\n" + q);
    TwoLineSummary(p, q);
    assert Join([Trim(p)], " ") == Trim(p);
    TrimAfterTrimStart(p);
  }

  lemma TwoLineSummary(p: string, q: string)
    requires Keep(p) && !IsBoundary(p) && IsBoundary(q)
    ensures SummaryLines([p, q]) == [Trim(p)]
  {
    var lines := [p, q];
    assert lines[0..] == lines;
    SummaryStep(lines, 0);
    SummaryStop(lines, 1);
  }

  /** The bold report line is a boundary line when its name and id hold no line terminator. */
  lemma BoldReportIsBoundary(name: string, id: string, n: nat)
    requires forall c | c in name :: !IsLineTerminator(c)
    requires forall c | c in id :: !IsLineTerminator(c)
    ensures IsBoundary(Extractor.BoldReportLine(name, id, n))
    ensures '\n' !in Extractor.BoldReportLine(name, id, n)
  {
    Extractor.BoldReportLayout(name, id, n);
    BoldReportKey(Extractor.BoldReportLine(name, id, n), name, id, Numeral.NatText(n));
    BoldReportOneLine(name, id, n);
  }

  lemma BoldReportOneLine(name: string, id: string, n: nat)
    requires forall c | c in name :: !IsLineTerminator(c)
    requires forall c | c in id :: !IsLineTerminator(c)
    ensures '\n' !in Extractor.BoldReportLine(name, id, n)
  {
    assert '\n' !in Numeral.NatText(n);
  }

  /** The key of a laid-out bold report line, without line terminators in name or id. */
  lemma BoldReportKey(s: string, name: string, id: string, t: string)
    requires Extractor.IsBoldReport(s, name, id, t)
    requires forall c | c in name :: !IsLineTerminator(c)
    requires forall c | c in id :: !IsLineTerminator(c)
    ensures HasBoldKey(s)
  {
    var q := 3 + |name|;
    var r := 4 + |name| + |id|;
    forall m | 2 <= m < q
      ensures !IsLineTerminator(s[m])
    {
      if m < q - 1 {
        assert s[m] == s[2..2 + |name|][m - 2];
      }
    }
    forall m | q + 1 <= m < r
      ensures !IsLineTerminator(s[m])
    {
      assert s[m] == s[4 + |name|..4 + |name| + |id|][m - q - 1];
    }
    assert BoldKeyAt(s, 0, q, r);
  }

  /**
   * A report that opens with one plain line and then lists a bold record
   * has that line, trimmed, as its summary.
   */
  lemma PlainThenBoldReport(p: string, name: string, id: string, n: nat)
    requires '\n' !in p && Keep(p) && !IsBoundary(p)
    requires forall c | c in name :: !IsLineTerminator(c)
    requires forall c | c in id :: !IsLineTerminator(c)
    ensures ExtractSummary(p + "\n" + Extractor.BoldReportLine(name, id, n)) == Trim(p)
  {
    BoldReportIsBoundary(name, id, n);
    PlainThenBoundary(p, Extractor.BoldReportLine(name, id, n));
  }

  /** At a boundary the remaining lines add nothing. */
  lemma SummaryStop(lines: seq<string>, i: nat)
    requires i < |lines| && IsBoundary(lines[i])
    ensures SummaryLines(lines[i..]) == []
  {
    assert lines[i..][0] == lines[i];
  }

  /** Before a boundary a line adds its trimmed text when it is kept, and nothing otherwise. */
  lemma SummaryStep(lines: seq<string>, i: nat)
    requires i < |lines| && !IsBoundary(lines[i])
    ensures SummaryLines(lines[i..]) == (if Keep(lines[i]) then [Trim(lines[i])] else []) + SummaryLines(lines[i + 1..])
  {
    assert lines[i..][0] == lines[i];
    assert lines[i..][1..] == lines[i + 1..];
  }

  lemma Regroup(kept: seq<string>, t: string, rest: seq<string>, all: seq<string>)
    requires kept + ([t] + rest) == all
    ensures (kept + [t]) + rest == all
  {
  }

  /** The loop of `extractSummary`, with its `break` at the first boundary. */
  method ExtractSummaryLoop(text: string) returns (summary: string)
    ensures summary == ExtractSummary(text)
  {
    var lines := Split(text);
    var kept: seq<string> := [];
    var i := 0;
    while i < |lines|
      invariant i <= |lines|
      invariant kept + SummaryLines(lines[i..]) == SummaryLines(lines)
    {
      var line := lines[i];
      if IsBoundary(line) {
        SummaryStop(lines, i);
        break;
      }
      SummaryStep(lines, i);
      ghost var rest := SummaryLines(lines[i + 1..]);
      if Keep(line) {
        Regroup(kept, Trim(line), rest, SummaryLines(lines));
        kept := kept + [Trim(line)];
      }
      assert kept + rest == SummaryLines(lines);
      i := i + 1;
    }
    assert kept == SummaryLines(lines);
    summary := Trim(Join(kept, " "));
  }
}
