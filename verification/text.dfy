/** Option type shared by every module of the model. */
module Wrappers {
  datatype Option<+T> = None | Some(value: T)
}

/**
 * Character classes and the string helpers the report code relies on:
 * `\s`, `\d`, `String.prototype.trim`, `split('\n')`, `join(' ')`,
 * `includes`, `startsWith` and an ASCII model of `toLowerCase`.
 */
module Text {
  import opened Wrappers

  /** ECMAScript line terminators: the characters `.` refuses to match. */
  predicate IsLineTerminator(c: char) {
    c == '\n' || c == '\r' || c == '\U{2028}' || c == '\U{2029}'
  }

  /**
   * ECMAScript WhiteSpace or LineTerminator: the class of `\s`, and what
   * `trim` strips. U+0009 to U+000D are tab, line feed, vertical tab, form
   * feed and carriage return; U+2028 and U+2029 are the line and paragraph
   * separators.
   */
  predicate IsSpace(c: char) {
    || c == ' ' || ('\t' <= c <= '\r')
    || c == '\U{00A0}' || c == '\U{1680}'
    || ('\U{2000}' <= c <= '\U{200A}') || ('\U{2028}' <= c <= '\U{2029}')
    || c == '\U{202F}' || c == '\U{205F}' || c == '\U{3000}' || c == '\U{FEFF}'
  }

  /** The class of `\d`: ASCII digits only. */
  predicate IsDigit(c: char) {
    '0' <= c <= '9'
  }

  predicate AllSpaces(s: string) {
    forall k | 0 <= k < |s| :: IsSpace(s[k])
  }

  /** Every character of `s` at an index in `[a, b)` is whitespace. */
  predicate SpacesIn(s: string, a: nat, b: nat) {
    forall m | a <= m < b && m < |s| :: IsSpace(s[m])
  }

  /** No character of `s` at an index in `[a, b)` is `c`. */
  predicate Absent(s: string, c: char, a: nat, b: nat) {
    forall m | a <= m < b && m < |s| :: s[m] != c
  }

  /** A slice without `c` leaves `c` absent from its index range. */
  lemma AbsentOfSlice(s: string, c: char, a: nat, b: nat)
    requires a <= b <= |s| && c !in s[a..b]
    ensures Absent(s, c, a, b)
  {
    forall m | a <= m < b
      ensures s[m] != c
    {
      assert s[a..b][m - a] == s[m];
    }
  }

  /** Index of the first non-space character at or after `i` (or `|s|`). */
  function SkipSpaces(s: string, i: nat): (j: nat)
    requires i <= |s|
    ensures i <= j <= |s|
    ensures j < |s| ==> !IsSpace(s[j])
    decreases |s| - i
  {
    if i < |s| && IsSpace(s[i]) then SkipSpaces(s, i + 1) else i
  }

  /** Everything `SkipSpaces` steps over is whitespace. */
  lemma {:induction false} SkipSpacesSpan(s: string, i: nat)
    requires i <= |s|
    ensures SpacesIn(s, i, SkipSpaces(s, i))
    decreases |s| - i
  {
    if i < |s| && IsSpace(s[i]) {
      SkipSpacesSpan(s, i + 1);
    }
  }

  /** Index of the first `c` at or after `i`, like `indexOf`. */
  function IndexOf(s: string, c: char, i: nat): (r: Option<nat>)
    requires i <= |s|
    ensures r.Some? ==> i <= r.value < |s| && s[r.value] == c && Absent(s, c, i, r.value)
    ensures r.None? ==> Absent(s, c, i, |s|)
    decreases |s| - i
  {
    if i == |s| then None
    else if s[i] == c then Some(i)
    else IndexOf(s, c, i + 1)
  }

  lemma {:induction false} IndexOfUnique(s: string, c: char, i: nat, p: nat)
    requires i <= p < |s| && s[p] == c && Absent(s, c, i, p)
    ensures IndexOf(s, c, i) == Some(p)
    decreases p - i
  {
    if i < p {
      IndexOfUnique(s, c, i + 1, p);
    }
  }

  /** Leading whitespace removed (`trimStart`). */
  function TrimStart(s: string): (r: string)
    ensures |r| <= |s| && r == s[|s| - |r|..]
    ensures AllSpaces(s[..|s| - |r|])
    ensures |r| > 0 ==> !IsSpace(r[0])
  {
    if |s| > 0 && IsSpace(s[0]) then TrimStart(s[1..]) else s
  }

  /** Trailing whitespace removed (`trimEnd`). */
  function TrimEnd(s: string): (r: string)
    ensures |r| <= |s| && r == s[..|r|]
    ensures AllSpaces(s[|r|..])
    ensures |r| > 0 ==> !IsSpace(r[|r| - 1])
  {
    if |s| > 0 && IsSpace(s[|s| - 1]) then TrimEnd(s[..|s| - 1]) else s
  }

  /** `s` is whitespace, then `r` from index `a`, then whitespace. */
  predicate TrimSplit(s: string, a: nat, r: string) {
    a + |r| <= |s| && r == s[a..a + |r|] && AllSpaces(s[..a]) && AllSpaces(s[a + |r|..])
  }

  /** A prefix of a suffix of `s` is a slice of `s`, and what follows it there is what follows it in `s`. */
  lemma SliceOfSuffix(s: string, a: nat, t: string, r: string)
    requires a <= |s| && t == s[a..] && |r| <= |t| && r == t[..|r|]
    ensures a + |r| <= |s| && r == s[a..a + |r|] && s[a + |r|..] == t[|r|..]
  {
  }

  /** `String.prototype.trim`: a slice of `s` that keeps everything between the outer non-spaces. */
  function Trim(s: string): (r: string)
    ensures |r| <= |s|
    ensures |r| == 0 <==> AllSpaces(s)
    ensures |r| > 0 ==> !IsSpace(r[0]) && !IsSpace(r[|r| - 1])
    ensures exists a: nat :: TrimSplit(s, a, r)
  {
    var t := TrimStart(s);
    assert AllSpaces(s) ==> |t| == 0;
    var r := TrimEnd(t);
    var a := |s| - |t|;
    SliceOfSuffix(s, a, t, r);
    assert TrimSplit(s, a, r);
    r
  }

  /** `trimEnd` keeps a prefix and drops only whitespace. */
  lemma TrimEndSplit(t: string)
    ensures t == TrimEnd(t) + t[|TrimEnd(t)|..]
    ensures AllSpaces(t[|TrimEnd(t)|..])
  {
    var r := TrimEnd(t);
    assert t == t[..|r|] + t[|r|..];
  }

  lemma TrimStartOfTrimmed(s: string)
    requires |s| > 0 ==> !IsSpace(s[0])
    ensures TrimStart(s) == s
  {
  }

  /** Trimming twice, or after `trimStart`, is trimming once. */
  lemma TrimAfterTrimStart(s: string)
    ensures Trim(TrimStart(s)) == Trim(s)
    ensures Trim(Trim(s)) == Trim(s)
  {
    TrimStartOfTrimmed(TrimStart(s));
    var r := Trim(s);
    TrimStartOfTrimmed(r);
    if |r| > 0 {
      assert TrimEnd(r) == r;
    }
  }

  /** No whitespace at either end. */
  predicate IsTrimmed(a: string) {
    |a| > 0 ==> !IsSpace(a[0]) && !IsSpace(a[|a| - 1])
  }

  /** Trimming a trimmed text changes nothing. */
  lemma TrimOfTrimmed(a: string)
    requires IsTrimmed(a)
    ensures Trim(a) == a
  {
    TrimStartOfTrimmed(a);
  }

  /** Spaces added around a trimmed text are trimmed away again. */
  lemma TrimPadded(a: string)
    requires IsTrimmed(a)
    ensures Trim(a + " ") == a
    ensures Trim(" " + a + " ") == a
  {
    var s := " " + a + " ";
    assert s[1..] == a + " ";
    assert (a + " ")[..|a|] == a;
    if |a| > 0 {
      TrimStartOfTrimmed(a + " ");
    } else {
      assert AllSpaces(a + " ") && AllSpaces(s);
    }
  }

  /** Where `Trim(s)` starts in `s`: trimming cuts a slice out of the text. */
  function TrimOffset(s: string): (a: nat)
    ensures a + |Trim(s)| <= |s| && Trim(s) == s[a..a + |Trim(s)|]
  {
    |s| - |TrimStart(s)|
  }

  /** `s.startsWith(p)`. */
  predicate StartsWith(s: string, p: string) {
    |p| <= |s| && s[..|p|] == p
  }

  predicate OccursAt(s: string, t: string, i: nat) {
    i + |t| <= |s| && s[i..i + |t|] == t
  }

  /** `s.includes(t)`. */
  predicate Contains(s: string, t: string) {
    exists i: nat | i <= |s| :: OccursAt(s, t, i)
  }

  /** `s.includes(t)` as a left-to-right search from index `i`. */
  function IncludesFrom(s: string, t: string, i: nat): bool
    decreases |s| - i
  {
    if i + |t| > |s| then false
    else OccursAt(s, t, i) || IncludesFrom(s, t, i + 1)
  }

  function Includes(s: string, t: string): bool {
    IncludesFrom(s, t, 0)
  }

  lemma {:induction false} IncludesFromIff(s: string, t: string, i: nat)
    ensures IncludesFrom(s, t, i) <==> exists j: nat | i <= j <= |s| :: OccursAt(s, t, j)
    decreases |s| - i
  {
    if i + |t| <= |s| {
      IncludesFromIff(s, t, i + 1);
      if exists j: nat | i <= j <= |s| :: OccursAt(s, t, j) {
        var j: nat :| i <= j <= |s| && OccursAt(s, t, j);
        assert j == i || (i + 1 <= j <= |s| && OccursAt(s, t, j));
      }
    }
  }

  /** The search finds an occurrence exactly when there is one. */
  lemma IncludesIff(s: string, t: string)
    ensures Includes(s, t) <==> Contains(s, t)
  {
    IncludesFromIff(s, t, 0);
  }

  /** What occurs in a slice `w == s[a..b]` occurs in the whole text. */
  lemma IncludesOfSlice(s: string, a: nat, b: nat, w: string, t: string)
    requires a <= b <= |s| && w == s[a..b]
    ensures Includes(w, t) ==> Includes(s, t)
  {
    IncludesIff(w, t);
    IncludesIff(s, t);
    if Contains(w, t) {
      var i: nat :| i <= b - a && OccursAt(w, t, i);
      var u := w[i..i + |t|];
      assert forall m | 0 <= m < |t| :: u[m] == s[a + i + m];
      assert s[a + i..a + i + |t|] == u;
      assert OccursAt(s, t, a + i);
    }
  }

  /** A character of `s` is found by `includes` of the one-character string. */
  lemma IncludesChar(s: string, c: char)
    ensures c in s ==> Includes(s, [c])
  {
    IncludesIff(s, [c]);
    if c in s {
      var i :| 0 <= i < |s| && s[i] == c;
      assert OccursAt(s, [c], i);
    }
  }

  /** ASCII model of `toLowerCase`. */
  function LowerChar(c: char): char {
    if 'A' <= c <= 'Z' then (c as int + 32) as char else c
  }

  /**
   * Lower-cases the ASCII capitals and nothing else: no capital survives,
   * and a character changes only when it is a capital, moving up by 32.
   */
  function Lower(s: string): (r: string)
    ensures |r| == |s|
    ensures forall k | 0 <= k < |r| :: !('A' <= r[k] <= 'Z')
    ensures forall k | 0 <= k < |s| :: r[k] != s[k] ==> 'A' <= s[k] <= 'Z' && r[k] as int == s[k] as int + 32
  {
    seq(|s|, k requires 0 <= k < |s| => LowerChar(s[k]))
  }

  /** Lower-casing twice changes nothing more. */
  lemma LowerIdempotent(s: string)
    ensures Lower(Lower(s)) == Lower(s)
  {
    var r := Lower(s);
    forall k | 0 <= k < |r|
      ensures Lower(r)[k] == r[k]
    {
      assert !('A' <= r[k] <= 'Z');
    }
  }

  lemma LowerAppend(a: string, b: string)
    ensures Lower(a + b) == Lower(a) + Lower(b)
  {
  }

  lemma LowerOfSpaces(w: string)
    requires AllSpaces(w)
    ensures AllSpaces(Lower(w))
  {
  }

  /** Trailing whitespace cannot complete an occurrence of a word that ends in a non-space. */
  lemma ContainsPadded(a: string, w: string, t: string)
    requires AllSpaces(w) && |t| > 0 && !IsSpace(t[|t| - 1])
    ensures Contains(a + w, t) <==> Contains(a, t)
  {
    if Contains(a, t) {
      var i: nat :| i <= |a| && OccursAt(a, t, i);
      assert (a + w)[i..i + |t|] == a[i..i + |t|];
      assert OccursAt(a + w, t, i);
    }
    if Contains(a + w, t) {
      var i: nat :| i <= |a + w| && OccursAt(a + w, t, i);
      assert (a + w)[i + |t| - 1] == t[|t| - 1];
      assert i + |t| <= |a|;
      assert (a + w)[i..i + |t|] == a[i..i + |t|];
      assert OccursAt(a, t, i);
    }
  }

  /** `text.split('\n')`, scanning from `start` with the current piece opened at `from`. */
  function SplitFrom(s: string, from: nat, i: nat): (r: seq<string>)
    requires from <= i <= |s|
    ensures |r| > 0
    decreases |s| - i
  {
    if i == |s| then [s[from..]]
    else if s[i] == '\n' then [s[from..i]] + SplitFrom(s, i + 1, i + 1)
    else SplitFrom(s, from, i + 1)
  }

  function Split(s: string): seq<string> {
    SplitFrom(s, 0, 0)
  }

  /** `lines.join(sep)`. */
  function Join(xs: seq<string>, sep: string): string {
    if |xs| == 0 then ""
    else if |xs| == 1 then xs[0]
    else xs[0] + sep + Join(xs[1..], sep)
  }

  lemma {:induction false} SplitFromJoin(s: string, from: nat, i: nat)
    requires from <= i <= |s|
    requires '\n' !in s[from..i]
    ensures Join(SplitFrom(s, from, i), "\n") == s[from..]
    ensures forall k | 0 <= k < |SplitFrom(s, from, i)| :: '\n' !in SplitFrom(s, from, i)[k]
    decreases |s| - i
  {
    if i == |s| {
    } else if s[i] == '\n' {
      SplitFromJoin(s, i + 1, i + 1);
      assert s[from..] == s[from..i] + "\n" + s[i + 1..];
    } else {
      assert s[from..i + 1] == s[from..i] + [s[i]];
      SplitFromJoin(s, from, i + 1);
    }
  }

  /** A stretch without newlines leaves the current piece open. */
  lemma {:induction false} SplitFromSkip(s: string, from: nat, i: nat, j: nat)
    requires from <= i <= j <= |s| && '\n' !in s[i..j]
    ensures SplitFrom(s, from, i) == SplitFrom(s, from, j)
    decreases j - i
  {
    if i < j {
      assert s[i] == s[i..j][0];
      assert s[i + 1..j] == s[i..j][1..];
      SplitFromSkip(s, from, i + 1, j);
    }
  }

  /** Two lines without newlines joined by one newline split back into those two lines. */
  lemma SplitTwo(p: string, q: string, s: string)
    requires s == p + "\n" + q && '\n' !in p && '\n' !in q
    ensures Split(s) == [p, q]
  {
    assert s[0..|p|] == p;
    SplitFromSkip(s, 0, 0, |p|);
    assert s[|p| + 1..|s|] == q;
    SplitFromSkip(s, |p| + 1, |p| + 1, |s|);
    assert s[|p| + 1..] == q;
  }

  /** Splitting on newlines and joining back with newlines gives the original text. */
  lemma SplitJoin(s: string)
    ensures Join(Split(s), "\n") == s
    ensures forall k | 0 <= k < |Split(s)| :: '\n' !in Split(s)[k]
  {
    SplitFromJoin(s, 0, 0);
  }
}
