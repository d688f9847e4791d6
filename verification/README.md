# Attendance report analysis, modelled in Dafny

This project models the logic inside the attendance dashboard's React
components. That logic turns the free text of an AI-written attendance
report into employee records, sorts the records into attendance tiers and
derives what each view shows from a day count: icon, colour, badge,
status word, percentage. It also covers the filter and the status counts
of the daily employee list. The rendering is left out. What remains is
pure functions from text and numbers to data, and the model proves their
contracts.

Modules, in dependency order:

- `Wrappers`, `Text`: `Option`, and the string primitives the code relies
  on. These are ECMAScript whitespace, `trim`, `includes`, `startsWith`,
  `toLowerCase` (ASCII letters), and `split('\n')` / `join`.
- `Seqs`, `Scan`: `Array.prototype.filter`, subsequences, and the
  leftmost-match search that `String.prototype.match` performs for an
  unanchored regular expression.
- `Numeral`: the count group `\d+(?:\.\d+)?` and its `parseFloat` value.
- `Shapes`: one recogniser per regular expression of `parseEmployeeData`,
  each fixing the capture groups that backtracking would produce. The
  recognisers of shapes 2, 4 and 5 and of the unit words `days present`
  are proved equal to a declarative reading of their pattern. Shape 1 is
  shape 2 followed by the unit words, shape 3 is a bullet, whitespace and
  shape 2, and shape 6's greedy cell is related to shape 4's lazy one.
- `Extractor`: `parseEmployeeData`. Each line is tried against the six
  shapes in priority order, the first shape that matches decides the line,
  and the records are then de-duplicated by name.
- `Summary`: `extractSummary`, the plain lines before the first line that
  looks like the employee list.
- `Tiers`: the four attendance buckets, and the icon, badge and status
  word of the report table.
- `Overview`, `Card`, `Stats`: the tier logic of the overview table, the
  employee card and the statistics tiles.
- `Roster`: the search-and-status filter and the button counts of the
  employee list.

Day counts are `real`. `Math.round(x)` is modelled as `floor(x + 1/2)`.
A class name such as `text-green-500` becomes its hue (`Green`) and an
icon component becomes its glyph name. These two are the facts about the
markup that the code varies with the day count.

Three facts about the code shape the model:

- The bold shapes accept `**  (ID):** 3` and record the empty name `""`.
  `Extractor.BoldReportReads` is stated for any trimmed name, the empty
  one included.
- Every pipe-row line stops the summary. A bold record line stops it too
  whenever the name and id of its key hold no line terminator (`\r`,
  U+2028 or U+2029). Inside the name or id the summary's `.` stops at a
  terminator while the extractor's `[^(]` and `[^)]` go on. A terminator elsewhere on the line, such as the
  `\r` that `split('\n')` leaves at the end of each line of a CRLF report,
  does not matter. `Summary.RecordLinesAreBoundaries` carries only the
  name-and-id hypothesis.
- Of the six line shapes, shape 3 and shape 6 never decide a line: shape 2
  matches wherever shape 3 does, and shape 6 is reached only for a header
  cell, which it rejects as well (`Extractor.DeadShapes`).

## Model

| member | source | states |
|---|---|---|
| Text.Trim | src/components/AnalysisDisplay.tsx:29 | `trim()` removes leading and trailing whitespace: the result is a slice of the input with only whitespace before and after it, empty exactly when the input is all whitespace, and otherwise starting and ending with a non-space |
| Text.TrimAfterTrimStart | src/components/AnalysisDisplay.tsx:61 | trimming is idempotent, and trimming after removing leading whitespace changes nothing |
| Text.IncludesIff | src/components/AnalysisDisplay.tsx:60 | the left-to-right `includes` search answers true exactly when the text occurs at some index |
| Text.SplitJoin | src/components/AnalysisDisplay.tsx:22 | `split('\n')` yields pieces without a newline that join back to the original text |
| Text.Lower | src/components/AnalysisDisplay.tsx:60 | `toLowerCase` keeps the length, leaves no capital `A`-`Z`, and changes a character only when it is a capital, to the letter 32 code points above |
| Text.LowerIdempotent | src/components/AnalysisDisplay.tsx:60 | lower-casing an already lower-cased string changes nothing |
| Seqs.Filter | src/components/AnalysisDisplay.tsx:131-134 | `filter` keeps exactly the elements satisfying the predicate and no others |
| Seqs.FilterIsSubsequence | src/components/AnalysisDisplay.tsx:131-134 | `filter` keeps the order of the elements it keeps |
| Seqs.FilterMultiset | src/components/AnalysisDisplay.tsx:131-134 | an element occurs in the filtered list as often as in the input when it passes the test, otherwise never |
| Scan.FirstFrom | src/components/AnalysisDisplay.tsx:26 | an unanchored `match` reports the leftmost index at which the pattern matches, and no match at all only when it matches nowhere |
| Scan.FirstFromFinds | src/components/AnalysisDisplay.tsx:26 | when the pattern matches at some index, the search finds a match at or before it |
| Numeral.NumeralIff | src/components/AnalysisDisplay.tsx:26 | the count recogniser accepts exactly the strings of `\d+(?:\.\d+)?`: digits, or digits, a dot and digits |
| Numeral.ScanNumberLongest | src/components/AnalysisDisplay.tsx:26 | the greedy count group at an index is the longest numeral starting there |
| Numeral.LongestUnique | src/components/AnalysisDisplay.tsx:26 | the longest numeral at an index is unique |
| Numeral.NatTextValue | src/components/AnalysisDisplay.tsx:31 | `parseFloat` of the decimal text of a whole number is that number |
| Shapes.KeyAtSound | src/components/AnalysisDisplay.tsx:37 | the key reader finds `**name(id):**` with the name running to the first `(` and the id to the next `)` |
| Shapes.KeyAtComplete | src/components/AnalysisDisplay.tsx:37 | every key the pattern allows at an index is the one the reader finds there |
| Shapes.CountAtSound | src/components/AnalysisDisplay.tsx:37 | `\s*(\d+(?:\.\d+)?)` reads whitespace and then the longest numeral |
| Shapes.CountAtComplete | src/components/AnalysisDisplay.tsx:37 | whitespace and a longest numeral can be read from an index in one way only |
| Shapes.BoldAtIff | src/components/AnalysisDisplay.tsx:37 | the shape 2 recogniser at an index returns exactly the groups of a match of the pattern there |
| Shapes.UnitAtIff | src/components/AnalysisDisplay.tsx:26 | the greedy reader of `\s*days?\s*present?` (case-insensitive) finds the unit words at an index exactly when some split into whitespace, `day`, an optional `s`, whitespace and `presen` exists there |
| Shapes.BulletImpliesBold | src/components/AnalysisDisplay.tsx:37-48 | every line shape 3 matches is matched by shape 2 too |
| Shapes.BoldSearchNumeral | src/components/AnalysisDisplay.tsx:31 | the count group of every bold shape is a numeral, so `parseFloat` reads all of it |
| Shapes.NoStarNoBold | src/components/AnalysisDisplay.tsx:26-48 | a line without `*` matches none of the bold shapes |
| Shapes.RowAtIff | src/components/AnalysisDisplay.tsx:59 | the pipe-row recogniser at an index returns exactly a bar, a bar-free cell, a count and a closing bar |
| Shapes.PipeRowSound | src/components/AnalysisDisplay.tsx:59 | the leftmost pipe row found is a real match and its count is a numeral |
| Shapes.LazyCell | src/components/AnalysisDisplay.tsx:59 | shape 4's lazy group is non-empty and trims to the trimmed cell |
| Shapes.GreedyIsLazyPadded | src/components/AnalysisDisplay.tsx:59-82 | shape 6's greedy group is shape 4's lazy group followed by whitespace only |
| Shapes.HeaderAgrees | src/components/AnalysisDisplay.tsx:60-83 | shapes 4 and 6 agree on whether a cell mentions "employee" or "name" |
| Shapes.UpperRowIff | src/components/AnalysisDisplay.tsx:72 | the anchored shape 5 recogniser accepts exactly upper-case name characters, a bar and a count that end the line |
| Shapes.UpperRowOneBar | src/components/AnalysisDisplay.tsx:72 | a shape 5 line has exactly one bar, right after the name |
| Shapes.RowExcludesUpper | src/components/AnalysisDisplay.tsx:59-72 | no line is both a pipe row and a shape 5 line |
| Extractor.ParseLine | src/components/AnalysisDisplay.tsx:24-93 | the first shape that matches decides the line: a line shape 1 reads is recorded as shape 1, a line shape 2 reads is recorded by a bold shape with an id, a row shape decides only lines no bold shape reads, and every record has a non-negative day count |
| Extractor.BoldRecord | src/components/AnalysisDisplay.tsx:25-56 | a bold shape records a line with an id and a non-negative count |
| Extractor.RowDecision | src/components/AnalysisDisplay.tsx:58-92 | after the bold shapes, only shapes 4, 5 and 6 can decide a line |
| Extractor.LooseRecord | src/components/AnalysisDisplay.tsx:82-91 | shape 6 leaves the line undecided exactly when its cell is empty, has a `-` or is a header |
| Extractor.Records | src/components/AnalysisDisplay.tsx:21-93 | at most one record per line, each with a non-negative count |
| Extractor.FindIndex | src/components/AnalysisDisplay.tsx:97 | `findIndex` is the first index with the name, or -1 when no record has it |
| Extractor.ParseEmployeeData | src/components/AnalysisDisplay.tsx:20-101 | the result keeps the order of the per-line records, covers every name among them and holds no name twice |
| Extractor.NubSubsequence | src/components/AnalysisDisplay.tsx:96-98 | the streaming de-duplication keeps the input order |
| Extractor.NubNames | src/components/AnalysisDisplay.tsx:96-98 | the streaming de-duplication emits every unseen name exactly once |
| Extractor.FirstIndexIffUnseen | src/components/AnalysisDisplay.tsx:97 | `index === findIndex(name)` holds exactly when no earlier record has the name |
| Extractor.KeepFirstFromIsNub | src/components/AnalysisDisplay.tsx:96-98 | the index filter equals the streaming reading that remembers the names seen |
| Extractor.DedupSpec | src/components/AnalysisDisplay.tsx:95-100 | de-duplication keeps, in order, one record per name, and that record is the first one with its name |
| Extractor.KeptIsFirst | src/components/AnalysisDisplay.tsx:97 | a kept record is the one `findIndex` points at |
| Extractor.DeadShapes | src/components/AnalysisDisplay.tsx:47-92 | shape 3 and shape 6 never decide a line |
| Extractor.LooseNeverDecides | src/components/AnalysisDisplay.tsx:59-92 | shape 6 is reached only for a header cell of shape 4, and it rejects that cell too |
| Extractor.HeaderRowSkipped | src/components/AnalysisDisplay.tsx:59-69 | a table row whose first cell mentions "employee" or "name" yields nothing from the row shapes, so only a bold match on it can record |
| Extractor.FillerRowConsumed | src/components/AnalysisDisplay.tsx:59-69 | a table row whose cell trims to nothing, `-` or `---` is consumed by shape 4 without a record |
| Extractor.OnlyBoldRecords | src/components/AnalysisDisplay.tsx:25-56 | when the row shapes leave a line unmatched, any record from it carries an id |
| Extractor.BoldReportReads | src/components/AnalysisDisplay.tsx:26-33 | any line laid out as `**name (id):** t days present` is recorded as that name, id and the value of `t` |
| Extractor.BoldRoundTrip | src/components/AnalysisDisplay.tsx:26-33 | printing a record as the bold report line and parsing it back gives the record |
| Extractor.TableReportReads | src/components/AnalysisDisplay.tsx:59-69 | any line laid out as `\| name \| t \|` with an accepted name is recorded as that name and the value of `t` |
| Extractor.TableRowRoundTrip | src/components/AnalysisDisplay.tsx:59-69 | printing a record as a table row and parsing it back gives the record |
| Summary.KeptText | src/components/AnalysisDisplay.tsx:119-120 | a kept line, trimmed, is non-empty and free of `**` and `\|` |
| Summary.SummaryLines | src/components/AnalysisDisplay.tsx:109-122 | the summary lines number at most the lines, and each is trimmed text without markup |
| Summary.SummaryBeforeBoundary | src/components/AnalysisDisplay.tsx:109-122 | the summary lines are exactly the kept lines strictly before the first boundary line |
| Summary.TailIgnored | src/components/AnalysisDisplay.tsx:116-117 | nothing after a boundary line changes the summary |
| Summary.BulletKeyIsBoldKey | src/components/AnalysisDisplay.tsx:111-112 | the bulleted stop pattern adds nothing to the plain bold one |
| Summary.ParsedLineNotKept | src/components/AnalysisDisplay.tsx:119 | no line the extractor records or consumes is ever kept in the summary |
| Summary.RecordLinesAreBoundaries | src/components/AnalysisDisplay.tsx:111-113 | every line with a pipe row stops the summary, and so does every bold record line whose key name and id hold no line terminator, whatever terminators the rest of the line holds |
| Summary.PlainThenBoundary | src/components/AnalysisDisplay.tsx:104-125 | a kept line followed by a boundary line is the whole summary |
| Summary.PlainThenBoldReport | src/components/AnalysisDisplay.tsx:104-125 | a report that opens with one plain line and then a bold record has that line, trimmed, as its summary |
| Summary.ExtractSummaryLoop | src/components/AnalysisDisplay.tsx:104-125 | the loop with its `break` computes the summary of the whole-list definition |
| Tiers.Round | src/components/analysis/AttendanceOverview.tsx:108 | `Math.round` returns the integer within one half below or strictly less than one half above |
| Tiers.StatusHue | src/components/analysis/AttendanceOverview.tsx:20-23 | each status has its own hue: green, yellow, orange, red |
| Tiers.Label | src/components/AnalysisDisplay.tsx:220-222 | Excellent exactly from 25 days, Good from 15 below 25, Poor above 0 below 15, Absent at 0 or below |
| Tiers.DisplayIcon | src/components/AnalysisDisplay.tsx:136-141 | the icon's hue is the hue of the row's status, a check exactly from 25 days, an alert exactly strictly between 0 and 25, a cross exactly at 0 or below |
| Tiers.DisplayBadge | src/components/AnalysisDisplay.tsx:143-148 | `default` exactly for Excellent, `secondary` for Good and Poor, `destructive` for Absent |
| Tiers.Categorize | src/components/AnalysisDisplay.tsx:131-134 | every bucket holds only records of the input whose label is the bucket's, and the absent bucket only zero counts |
| Tiers.BucketsKeepOrder | src/components/AnalysisDisplay.tsx:131-134 | each bucket keeps the order of the records |
| Tiers.BucketsPartition | src/components/AnalysisDisplay.tsx:131-134 | a record with a non-negative count is in its label's bucket as often as in the list and in no other, and a negative count is in none |
| Tiers.BucketsCover | src/components/AnalysisDisplay.tsx:131-134 | with non-negative counts the four bucket sizes add up to the number of records |
| Tiers.ReportBucketsCover | src/components/AnalysisDisplay.tsx:127-134 | the buckets of any parsed report cover all its records |
| Overview.TrendIcon | src/components/analysis/AttendanceOverview.tsx:19-24 | the icon's hue is the status hue; trending up from 15 days, down above 0 below 15, a dash at 0 or below |
| Overview.Badge | src/components/analysis/AttendanceOverview.tsx:26-31 | `destructive` exactly at 0 or below, `default` exactly from 25, `secondary` in between |
| Overview.StatusOf | src/components/analysis/AttendanceOverview.tsx:33-38 | the overview's status word agrees with the report table's label for every count |
| Overview.Percentage | src/components/analysis/AttendanceOverview.tsx:40 | never above 100, 100 exactly from 25 days, four times the count up to 25 days, non-negative for non-negative counts |
| Overview.PercentageMonotone | src/components/analysis/AttendanceOverview.tsx:40 | more days never give a smaller percentage |
| Overview.ProgressHue | src/components/analysis/AttendanceOverview.tsx:96-100 | the progress bar's percentage bands give exactly the status hue: green for Excellent, yellow for Good, orange for Poor, red for Absent |
| Overview.ShownPercent | src/components/analysis/AttendanceOverview.tsx:108 | the rounded percentage lies in 0..100 for non-negative counts and reads 100 exactly from 24.875 days |
| Overview.FullBeforeExcellent | src/components/analysis/AttendanceOverview.tsx:96-108 | from 24.875 to below 25 days the row shows 100% next to a Good status and a yellow bar |
| Card.CardStatus | src/components/analysis/EmployeeCard.tsx:17-22 | the card's status is the report label, its colour the status hue, its icon trending up from 15, down above 0, a dash at 0 or below |
| Card.ColoursDistinct | src/components/analysis/EmployeeCard.tsx:17-22 | two cards share a colour exactly when they share a status |
| Card.MarkerHue | src/components/analysis/EmployeeCard.tsx:45 | the status icon is green for excellent and good, orange for poor, red for absent |
| Card.CardBadge | src/components/analysis/EmployeeCard.tsx:89 | `default` exactly for excellent, `secondary` exactly for good, `destructive` for poor and absent |
| Card.RingFull | src/components/analysis/EmployeeCard.tsx:24 | the progress ring is full exactly for an excellent card |
| Card.BadgesDifferOnPoor | src/components/analysis/EmployeeCard.tsx:89 | the card's badge agrees with the overview's badge exactly when the status is not Poor |
| Stats.Share | src/components/analysis/AttendanceStats.tsx:23 | the tile percentage is 0 without employees, otherwise the integer nearest to 100 × count / total, halves rounded up, and within 0..100 for a count within the total |
| Stats.ShareBounds | src/components/analysis/AttendanceStats.tsx:23 | a rounding of the exact share satisfies the integer bounds around 200 × count |
| Stats.Items | src/components/analysis/AttendanceStats.tsx:19-60 | four tiles, Perfect, Good, Poor and Absent in that order, each with its count, its share of the total and its status hue |
| Stats.EmptyShares | src/components/analysis/AttendanceStats.tsx:23-53 | with a total of zero every tile shows 0% |
| Stats.SharesBounded | src/components/analysis/AttendanceStats.tsx:23-53 | with non-negative counts every tile shows between 0% and 100% |
| Stats.ReportTotal | src/components/analysis/AttendanceStats.tsx:17 | the total of the bucket counts of a parsed report is its number of records |
| Roster.Filtered | src/components/EmployeeList.tsx:26-31 | an employee is shown exactly when in the list and matching both the search and the status filter, and a status filter shows only that status |
| Roster.FilteredIsSubsequence | src/components/EmployeeList.tsx:26-31 | the shown employees keep the list order |
| Roster.FilteredCounts | src/components/EmployeeList.tsx:26-31 | a shown employee appears as often as in the list |
| Roster.EmptySearchMatches | src/components/EmployeeList.tsx:27-28 | the empty search term matches every employee |
| Roster.ShowAll | src/components/EmployeeList.tsx:23-31 | the initial state, an empty search and `All`, shows the whole list unchanged |
| Roster.WithStatus | src/components/EmployeeList.tsx:83-90 | a status button counts only employees of the list with that status |
| Roster.WithStatusCount | src/components/EmployeeList.tsx:83-90 | a status button's count is the number of employees with that status |
| Roster.CountsPartition | src/components/EmployeeList.tsx:14 | Present, Absent and Late counts add up to the number of employees |
| Roster.ButtonCounts | src/components/EmployeeList.tsx:76-90 | the Present and Absent buttons together never count more than the All button, and the Late employees make up the difference |

## Left out

- Rendering: JSX, layout, animation delays, the `Calendar` and `User`
  icons, shades and the `bg-`/`text-` prefixes of class names. Only the
  hue and the glyph name that vary with the day count are modelled.
- Floating point: day counts and percentages are exact rationals.
  `parseFloat` of a numeral is its exact decimal value, and `Math.round`
  is `floor(x + 1/2)`. IEEE rounding of `days / 25 * 100` or
  `count / total * 100` is not modelled.
- Text.Lower: `toLowerCase` is modelled for ASCII letters only, because
  full Unicode case mapping (including length-changing mappings) is
  outside the model.
- Strings are sequences of Unicode scalar values, while JavaScript strings
  are sequences of UTF-16 code units. No length or index of a string is
  shown by the components, and every pattern character is in the Basic
  Multilingual Plane, so the two readings pick the same matches.
- Roster.Filtered: the `checkIn` and `checkOut` time strings are carried
  but never examined, as the filter does not read them.
- `getStatusColor` and the table markup of `EmployeeList.tsx` are left out.
  They only pick class names.
- The component that fills `stats` for `AttendanceStats` is not part of
  this model. `Stats.CountsOf` connects the tiles to the buckets instead.
- Summary.RecordLinesAreBoundaries: for bold record lines it assumes that
  the name and id of the key hold no `\r`, U+2028 or U+2029. In such a
  line, for example `**A\rB (X):** 3`, the extractor records the line but
  the summary's `.*` cannot reach the `(` and the line does not stop the
  summary.
- Summary.ParsedLineNotKept: shape 5 lines such as `NAME | 12` are not
  boundaries. The model proves only that they are never kept, not that
  they stop the summary.
- The React state hooks (`useState` for the search term and the status
  filter) are modelled as parameters of `Roster.Filtered`.
