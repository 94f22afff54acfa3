/** The column-name cleaning of the SCImago journal-rank import: each
    column of the downloaded table is renamed to its lower-cased name with
    every run of characters outside `[A-Za-z0-9_]` replaced by one
    underscore and the underscores at both ends removed. */
module Scimago {
  import opened Common

  predicate IsUpper(c: char)
  {
    'A' <= c <= 'Z'
  }

  /** A character that `\w` matches (the ASCII part of it). */
  predicate IsWordChar(c: char)
  {
    'a' <= c <= 'z' || 'A' <= c <= 'Z' || '0' <= c <= '9' || c == '_'
  }

  function LowerChar(c: char): char
  {
    if IsUpper(c) then (c as int + 32) as char else c
  }

  /** `str.lower()` on ASCII letters. */
  function Lower(s: string): (r: string)
    ensures |r| == |s|
  {
    seq(|s|, i requires 0 <= i < |s| => LowerChar(s[i]))
  }

  /** The length of the run of non-word characters that starts `s`. */
  function RunLength(s: string): (k: nat)
    requires |s| > 0 && !IsWordChar(s[0])
    ensures 1 <= k <= |s|
    ensures forall i | 0 <= i < k :: !IsWordChar(s[i])
    ensures k < |s| ==> IsWordChar(s[k])
  {
    if |s| == 1 || IsWordChar(s[1]) then 1 else 1 + RunLength(s[1..])
  }

  /** `re.sub(r"[^\w\d_]+", "_", s)`: the regex matches maximal runs of
      non-word characters, scanning left to right. */
  function Collapse(s: string): string
    decreases |s|
  {
    if |s| == 0 then ""
    else if IsWordChar(s[0]) then [s[0]] + Collapse(s[1..])
    else "_" + Collapse(s[RunLength(s)..])
  }

  /** The end of the leading underscores of `s`. */
  function LeadingEnd(s: string): (i: nat)
    ensures i <= |s|
    ensures forall k | 0 <= k < i :: s[k] == '_'
    ensures i < |s| ==> s[i] != '_'
  {
    if |s| > 0 && s[0] == '_' then 1 + LeadingEnd(s[1..]) else 0
  }

  /** The start of the trailing underscores of `s`, not before `i`. */
  function TrailingStart(s: string, i: nat): (j: nat)
    requires i <= |s|
    ensures i <= j <= |s|
    ensures forall k | j <= k < |s| :: s[k] == '_'
    ensures j > i ==> s[j - 1] != '_'
    decreases |s|
  {
    if |s| > i && s[|s| - 1] == '_' then TrailingStart(s[..|s| - 1], i) else |s|
  }

  /** `s.strip("_")`. */
  function StripUnderscores(s: string): string
  {
    var i := LeadingEnd(s);
    s[i..TrailingStart(s, i)]
  }

  /** The cleaned name of one column:
      `re.sub(r"[^\w\d_]+", "_", col.lower()).strip("_")`. */
  function CleanColumnName(col: string): string
  {
    StripUnderscores(Collapse(Lower(col)))
  }

  /** A cleaned name is lower-case, made of word characters only, and has
      no underscore at either end. */
  lemma CleanColumnNameShape(col: string)
    ensures var r := CleanColumnName(col);
      LowerWord(r) && (|r| > 0 ==> r[0] != '_' && r[|r| - 1] != '_')
  {
    var lowered := Lower(col);
    assert forall i | 0 <= i < |lowered| :: !IsUpper(lowered[i]);
    var collapsed := Collapse(lowered);
    CollapseChars(lowered);
    var i := LeadingEnd(collapsed);
    var j := TrailingStart(collapsed, i);
  }

  /** Lower-case word characters only. */
  predicate LowerWord(r: string)
  {
    forall i | 0 <= i < |r| :: IsWordChar(r[i]) && !IsUpper(r[i])
  }

  /** On an input without upper-case letters, everything `Collapse` outputs
      is a lower-case word character. */
  lemma {:induction false} CollapseChars(s: string)
    requires forall i | 0 <= i < |s| :: !IsUpper(s[i])
    ensures LowerWord(Collapse(s))
    decreases |s|
  {
    if |s| > 0 {
      var r := Collapse(s);
      var head := if IsWordChar(s[0]) then s[0] else '_';
      var rest := if IsWordChar(s[0]) then s[1..] else s[RunLength(s)..];
      CollapseChars(rest);
      var t := Collapse(rest);
      assert r == [head] + t;
      assert forall i | 1 <= i < |r| :: r[i] == t[i - 1];
    }
  }

  /** A text of word characters is left as it is. */
  lemma {:induction false} CollapseWords(s: string)
    requires forall i | 0 <= i < |s| :: IsWordChar(s[i])
    ensures Collapse(s) == s
  {
    if |s| > 0 {
      CollapseWords(s[1..]);
      assert s == [s[0]] + s[1..];
    }
  }

  /** A maximal run of non-word characters becomes a single underscore, and
      the text on either side is cleaned on its own. */
  lemma {:induction false} CollapseRun(a: string, run: string, b: string)
    requires |run| > 0 && forall i | 0 <= i < |run| :: !IsWordChar(run[i])
    requires |a| > 0 ==> IsWordChar(a[|a| - 1])
    requires |b| > 0 ==> IsWordChar(b[0])
    ensures Collapse(a + run + b) == Collapse(a) + "_" + Collapse(b)
    decreases |a|
  {
    if |a| == 0 {
      assert a + run + b == run + b;
      CollapseLeadingRun(run, b);
    } else {
      var k := if IsWordChar(a[0]) then 1 else RunLength(a);
      var head := if IsWordChar(a[0]) then [a[0]] else "_";
      var tail, rest := a[k..], run + b;
      CollapseRun(tail, run, b);
      CollapseHead(a, rest);
      AppendAssoc(a, run, b);
      DropAppend(a, rest, k);
      AppendAssoc(tail, run, b);
      Regroup(Collapse(a + rest), Collapse(tail + rest), head, Collapse(tail), Collapse(b));
    }
  }

  lemma Regroup(whole: string, inner: string, head: string, x: string, y: string)
    requires whole == head + inner && inner == x + "_" + y
    ensures whole == head + x + "_" + y
  {
  }

  /** A leading maximal run becomes one underscore. */
  lemma CollapseLeadingRun(run: string, b: string)
    requires |run| > 0 && forall i | 0 <= i < |run| :: !IsWordChar(run[i])
    requires |b| > 0 ==> IsWordChar(b[0])
    ensures Collapse(run + b) == Collapse([]) + "_" + Collapse(b)
  {
    RunLengthWhole(run, b);
    DropAppend(run, b, |run|);
    AppendEmptyLeft("_");
  }

  /** The first step of `Collapse` on `a + rest` depends only on `a` when
      `a` ends with a word character. */
  lemma CollapseHead(a: string, rest: string)
    requires |a| > 0 && IsWordChar(a[|a| - 1])
    ensures var k := if IsWordChar(a[0]) then 1 else RunLength(a);
      var head := if IsWordChar(a[0]) then [a[0]] else "_";
      k <= |a| && Collapse(a + rest) == head + Collapse((a + rest)[k..]) && Collapse(a) == head + Collapse(a[k..])
  {
    if !IsWordChar(a[0]) {
      RunLengthPrefix(a, rest);
    }
  }

  lemma AppendEmptyLeft<T>(s: seq<T>)
    ensures [] + s == s
  {
  }

  lemma DropAppend<T>(a: seq<T>, c: seq<T>, k: nat)
    requires k <= |a|
    ensures (a + c)[k..] == a[k..] + c
  {
  }

  /** The run that starts `run + b` is all of `run` when `b` starts with a
      word character. */
  lemma {:induction false} RunLengthWhole(run: string, b: string)
    requires |run| > 0 && forall i | 0 <= i < |run| :: !IsWordChar(run[i])
    requires |b| > 0 ==> IsWordChar(b[0])
    ensures RunLength(run + b) == |run|
  {
    if |run| > 1 {
      RunLengthWhole(run[1..], b);
      assert (run + b)[1..] == run[1..] + b;
    }
  }

  /** A run that ends inside `a` is not changed by what follows `a`. */
  lemma {:induction false} RunLengthPrefix(a: string, rest: string)
    requires |a| > 0 && !IsWordChar(a[0]) && IsWordChar(a[|a| - 1])
    ensures RunLength(a + rest) == RunLength(a)
  {
    if |a| > 1 && !IsWordChar(a[1]) {
      RunLengthPrefix(a[1..], rest);
      assert (a + rest)[1..] == a[1..] + rest;
    }
  }

  lemma LowerLowered(s: string)
    requires forall i | 0 <= i < |s| :: !IsUpper(s[i])
    ensures Lower(s) == s
  {
  }

  /** A cleaned name is clean: cleaning it again changes nothing. */
  lemma CleanIdempotent(col: string)
    ensures CleanColumnName(CleanColumnName(col)) == CleanColumnName(col)
  {
    var r := CleanColumnName(col);
    CleanColumnNameShape(col);
    LowerLowered(r);
    CollapseWords(r);
    StripFixed(r);
  }

  lemma StripFixed(s: string)
    requires |s| > 0 ==> s[0] != '_' && s[|s| - 1] != '_'
    ensures StripUnderscores(s) == s
  {
  }

  /** The columns of the renamed table. */
  function RenamedColumns(columns: seq<string>): (r: seq<string>)
    ensures |r| == |columns|
  {
    seq(|columns|, i requires 0 <= i < |columns| => CleanColumnName(columns[i]))
  }
}
