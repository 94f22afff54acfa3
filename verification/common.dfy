/** Shared vocabulary of the model: an Option type, substring tests, decimal
    rendering (Python's `str(n)` and `f"{n:0Wd}"`), left alignment
    (`f"{s:<W}"`), `sep.join(parts)` and the code-point order Python uses to
    compare strings. */
module Common {

  datatype Option<+T> = None | Some(value: T)

  // ---------------------------------------------------------------------------
  // Substrings (Python's `sub in s`)
  // ---------------------------------------------------------------------------

  predicate OccursAt(s: string, sub: string, i: int)
  {
    0 <= i && i + |sub| <= |s| && s[i..i + |sub|] == sub
  }

  predicate Contains(s: string, sub: string)
  {
    exists i | 0 <= i <= |s| - |sub| :: OccursAt(s, sub, i)
  }

  lemma ContainsAt(s: string, sub: string, i: int)
    requires OccursAt(s, sub, i)
    ensures Contains(s, sub)
  {
  }

  /** `sub in (a + b)` when `sub in b`. */
  lemma {:induction false} ContainsSuffix(a: string, b: string, sub: string)
    requires Contains(b, sub)
    ensures Contains(a + b, sub)
  {
    var i :| 0 <= i <= |b| - |sub| && OccursAt(b, sub, i);
    assert (a + b)[|a| + i..|a| + i + |sub|] == b[i..i + |sub|];
    ContainsAt(a + b, sub, |a| + i);
  }

  /** `sub in (a + b)` when `sub in a`. */
  lemma {:induction false} ContainsPrefix(a: string, b: string, sub: string)
    requires Contains(a, sub)
    ensures Contains(a + b, sub)
  {
    var i :| 0 <= i <= |a| - |sub| && OccursAt(a, sub, i);
    assert (a + b)[i..i + |sub|] == a[i..i + |sub|];
    ContainsAt(a + b, sub, i);
  }

  // ---------------------------------------------------------------------------
  // Decimal digits
  // ---------------------------------------------------------------------------

  predicate IsDigit(c: char)
  {
    '0' <= c <= '9'
  }

  predicate AllDigits(s: string)
  {
    forall i | 0 <= i < |s| :: IsDigit(s[i])
  }

  function DigitChar(d: nat): (c: char)
    requires d < 10
    ensures IsDigit(c) && DigitValue(c) == d
  {
    (48 + d) as char
  }

  function DigitValue(c: char): nat
    requires IsDigit(c)
  {
    (c as int) - 48
  }

  /** Python's `str(n)` for a non-negative int: no leading zeros. */
  function NatToString(n: nat): (s: string)
    ensures 1 <= |s| && AllDigits(s)
    ensures |s| > 1 ==> s[0] != '0'
  {
    if n < 10 then [DigitChar(n)] else NatToString(n / 10) + [DigitChar(n % 10)]
  }

  /** The value of a string of decimal digits, read left to right (leading
      zeros allowed, as `int("007")`). */
  function ParseDigits(s: string): nat
    requires AllDigits(s)
  {
    if |s| == 0 then 0 else ParseDigits(s[..|s| - 1]) * 10 + DigitValue(s[|s| - 1])
  }

  lemma {:induction false} ParseNatToString(n: nat)
    ensures ParseDigits(NatToString(n)) == n
  {
    var s := NatToString(n);
    if n >= 10 {
      assert s[..|s| - 1] == NatToString(n / 10);
      ParseNatToString(n / 10);
    }
  }

  lemma NatToStringInjective(a: nat, b: nat)
    ensures NatToString(a) == NatToString(b) ==> a == b
  {
    ParseNatToString(a);
    ParseNatToString(b);
  }

  function Repeat(c: char, n: nat): (s: string)
    ensures |s| == n && forall i | 0 <= i < n :: s[i] == c
  {
    seq(n, _ => c)
  }

  lemma {:induction false} ParseZeros(k: nat)
    ensures AllDigits(Repeat('0', k)) && ParseDigits(Repeat('0', k)) == 0
  {
    if k > 0 {
      assert Repeat('0', k)[..k - 1] == Repeat('0', k - 1);
      ParseZeros(k - 1);
    }
  }

  /** Leading zeros do not change the value read. */
  lemma {:induction false} ParseLeadingZeros(k: nat, s: string)
    requires AllDigits(s)
    ensures AllDigits(Repeat('0', k) + s)
    ensures ParseDigits(Repeat('0', k) + s) == ParseDigits(s)
  {
    var z := Repeat('0', k);
    if |s| == 0 {
      assert z + s == z;
      ParseZeros(k);
    } else {
      assert (z + s)[..|z + s| - 1] == z + s[..|s| - 1];
      ParseLeadingZeros(k, s[..|s| - 1]);
    }
  }

  /** Python's `f"{n:0{width}d}"` for a non-negative n: left-padded with '0'
      up to `width` characters, never truncated. */
  function PadNumber(n: nat, width: nat): (r: string)
    ensures AllDigits(r)
    ensures |r| >= width
  {
    var s := NatToString(n);
    Repeat('0', if |s| < width then width - |s| else 0) + s
  }

  /** A string of digits holds no other character. */
  lemma DigitsExclude(s: string, c: char)
    requires AllDigits(s) && !IsDigit(c)
    ensures c !in s
  {
  }

  lemma ParsePadNumber(n: nat, width: nat)
    ensures ParseDigits(PadNumber(n, width)) == n
  {
    var s := NatToString(n);
    var k := if |s| < width then width - |s| else 0;
    assert PadNumber(n, width) == Repeat('0', k) + s;
    ParseLeadingZeros(k, s);
    ParseNatToString(n);
  }

  /** Distinct numbers render to distinct padded strings, whatever the width. */
  lemma PadNumberInjective(a: nat, b: nat, width: nat)
    ensures PadNumber(a, width) == PadNumber(b, width) ==> a == b
  {
    ParsePadNumber(a, width);
    ParsePadNumber(b, width);
  }

  function Pow10(k: nat): (p: nat)
    ensures p >= 1
  {
    if k == 0 then 1 else 10 * Pow10(k - 1)
  }

  /** A number below 10^w needs at most w digits (w >= 1). */
  lemma {:induction false} NatToStringLength(n: nat, w: nat)
    requires 1 <= w && n < Pow10(w)
    ensures |NatToString(n)| <= w
  {
    if n >= 10 {
      assert n / 10 < Pow10(w - 1);
      NatToStringLength(n / 10, w - 1);
    }
  }

  /** So `f"{n:0{w}d}"` has exactly w characters when n < 10^w. */
  lemma PadNumberLength(n: nat, w: nat)
    requires 1 <= w && n < Pow10(w)
    ensures |PadNumber(n, w)| == w
  {
    NatToStringLength(n, w);
  }

  // ---------------------------------------------------------------------------
  // Formatting
  // ---------------------------------------------------------------------------

  /** Python's `f"{s:<width}"`: pads with spaces on the right, never truncates. */
  function LeftAlign(s: string, width: nat): (r: string)
    ensures |r| == if |s| < width then width else |s|
    ensures r[..|s|] == s
    ensures forall i | |s| <= i < |r| :: r[i] == ' '
  {
    s + (if |s| < width then Repeat(' ', width - |s|) else "")
  }

  /** Python's `sep.join(parts)`. */
  function Join(parts: seq<string>, sep: string): string
  {
    if |parts| == 0 then ""
    else if |parts| == 1 then parts[0]
    else Join(parts[..|parts| - 1], sep) + sep + parts[|parts| - 1]
  }

  function CountChar(s: string, c: char): nat
  {
    if |s| == 0 then 0 else CountChar(s[..|s| - 1], c) + (if s[|s| - 1] == c then 1 else 0)
  }

  lemma {:induction false} CountCharAppend(a: string, b: string, c: char)
    ensures CountChar(a + b, c) == CountChar(a, c) + CountChar(b, c)
  {
    if |b| > 0 {
      assert (a + b)[..|a + b| - 1] == a + b[..|b| - 1];
      CountCharAppend(a, b[..|b| - 1], c);
    } else {
      assert a + b == a;
    }
  }

  /** Joining parts that do not contain the one-character separator gives a
      text with exactly one separator between consecutive parts, so splitting
      it again yields the same number of parts. */
  lemma {:induction false} CountCharZero(s: string, c: char)
    ensures CountChar(s, c) == 0 <==> c !in s
  {
    if |s| > 0 {
      CountCharZero(s[..|s| - 1], c);
      assert s == s[..|s| - 1] + [s[|s| - 1]];
    }
  }

  lemma {:induction false} JoinSeparatorCount(parts: seq<string>, c: char)
    requires |parts| >= 1
    requires forall i | 0 <= i < |parts| :: CountChar(parts[i], c) == 0
    ensures CountChar(Join(parts, [c]), c) == |parts| - 1
  {
    if |parts| > 1 {
      var init := parts[..|parts| - 1];
      JoinSeparatorCount(init, c);
      CountCharAppend(Join(init, [c]), [c], c);
      CountCharAppend(Join(init, [c]) + [c], parts[|parts| - 1], c);
      assert CountChar([c], c) == 1 by {
        assert [c][..0] == [];
      }
    }
  }

  // ---------------------------------------------------------------------------
  // Code-point order on strings (Python's `<` on str)
  // ---------------------------------------------------------------------------

  predicate LexLess(a: string, b: string)
    decreases |a|
  {
    if |a| == 0 then |b| > 0
    else if |b| == 0 then false
    else if a[0] != b[0] then a[0] < b[0]
    else LexLess(a[1..], b[1..])
  }

  lemma {:induction false} LexLessIrreflexive(a: string)
    ensures !LexLess(a, a)
  {
    if |a| > 0 {
      LexLessIrreflexive(a[1..]);
    }
  }

  lemma {:induction false} LexLessTransitive(a: string, b: string, c: string)
    requires LexLess(a, b) && LexLess(b, c)
    ensures LexLess(a, c)
  {
    if |a| > 0 && |b| > 0 && |c| > 0 && a[0] == b[0] && b[0] == c[0] {
      LexLessTransitive(a[1..], b[1..], c[1..]);
    }
  }

  lemma {:induction false} LexLessTotal(a: string, b: string)
    ensures a == b || LexLess(a, b) || LexLess(b, a)
  {
    if |a| > 0 && |b| > 0 && a[0] == b[0] {
      LexLessTotal(a[1..], b[1..]);
      if a[1..] == b[1..] {
        assert a == [a[0]] + a[1..] && b == [b[0]] + b[1..];
      }
    }
  }

  lemma {:induction false} LexLessAsymmetric(a: string, b: string)
    requires LexLess(a, b)
    ensures !LexLess(b, a)
  {
    if |a| > 0 && |b| > 0 && a[0] == b[0] {
      LexLessAsymmetric(a[1..], b[1..]);
    }
  }

  /** Strictly increasing in code-point order: sorted and duplicate-free. */
  predicate StrictlySorted(s: seq<string>)
  {
    forall i, j | 0 <= i < j < |s| :: LexLess(s[i], s[j])
  }

  // ---------------------------------------------------------------------------
  // Prefixes (stated once for any element type, so that the element type's
  // own equality never enters the proof)
  // ---------------------------------------------------------------------------

  lemma TakeOneMore<T>(s: seq<T>, i: nat)
    requires i < |s|
    ensures s[..i + 1] == s[..i] + [s[i]]
    ensures s[..i + 1][..i] == s[..i]
  {
  }

  lemma TakeAll<T>(s: seq<T>)
    ensures s[..|s|] == s
  {
  }

  lemma SplitAt<T>(s: seq<T>, n: nat)
    requires n <= |s|
    ensures s == s[..n] + s[n..]
  {
  }

  lemma SameElements<T>(a: seq<T>, b: seq<T>)
    requires |a| == |b| && forall i | 0 <= i < |a| :: a[i] == b[i]
    ensures a == b
  {
  }

  lemma HeadTail<T>(s: seq<T>)
    requires |s| > 0
    ensures s == [s[0]] + s[1..]
  {
  }

  lemma AppendEmpty<T>(s: seq<T>)
    ensures s + [] == s && [] + s == s
  {
  }

  lemma TakeOfTake<T>(s: seq<T>, m: nat, q: nat)
    requires q <= m <= |s|
    ensures s[..m][..q] == s[..q]
  {
  }

  lemma DropOfTake<T>(s: seq<T>, m: nat)
    requires 0 < m <= |s|
    ensures s[..m][1..] == s[1..][..m - 1]
  {
  }

  /** Four fields of fixed widths joined by a one-element separator, each
      beginning with its own text: where each text sits in the line. */
  lemma FourFields<T>(a: seq<T>, b: seq<T>, c: seq<T>, d: seq<T>, sep: T,
                      sa: seq<T>, sb: seq<T>, sc: seq<T>, sd: seq<T>, wa: nat, wb: nat, wc: nat, wd: nat)
    requires |a| == wa && |b| == wb && |c| == wc && |d| == wd
    requires |sa| <= wa && |sb| <= wb && |sc| <= wc && |sd| <= wd
    requires a[..|sa|] == sa && b[..|sb|] == sb && c[..|sc|] == sc && d[..|sd|] == sd
    ensures var line := a + [sep] + b + [sep] + c + [sep] + d;
      && |line| == wa + wb + wc + wd + 3
      && line[..|sa|] == sa
      && line[wa + 1..wa + 1 + |sb|] == sb
      && line[wa + wb + 2..wa + wb + 2 + |sc|] == sc
      && line[wa + wb + wc + 3..wa + wb + wc + 3 + |sd|] == sd
  {
    var line := a + [sep] + b + [sep] + c + [sep] + d;
    assert forall i | 0 <= i < |sb| :: line[wa + 1 + i] == b[i];
    assert forall i | 0 <= i < |sc| :: line[wa + wb + 2 + i] == c[i];
    assert forall i | 0 <= i < |sd| :: line[wa + wb + wc + 3 + i] == d[i];
  }

  lemma SliceOneMore<T>(s: seq<T>, lo: nat, i: nat)
    requires lo <= i < |s|
    ensures s[lo..i + 1] == s[lo..i] + [s[i]]
  {
  }

  lemma PrefixCancel<T>(p: seq<T>, x: seq<T>, y: seq<T>)
    requires p + x == p + y
    ensures x == y
  {
    assert x == (p + x)[|p|..];
  }

  lemma MiddleEqual<T>(head: seq<T>, x: seq<T>, y: seq<T>, tail: seq<T>)
    requires head + x + tail == head + y + tail
    ensures x == y
  {
    var s := head + x + tail;
    assert |x| == |y|;
    assert x == s[|head| .. |head| + |x|];
  }

  lemma UpdateOther<K, V>(m: map<K, V>, a: K, b: K, v: V)
    requires a != b && b in m
    ensures b in m[a := v] && m[a := v][b] == m[b]
  {
  }

  lemma UnionUpdate<K, V>(m1: map<K, V>, m2: map<K, V>, k: K, v: V)
    ensures (m1 + m2)[k := v] == m1 + m2[k := v]
  {
  }

  lemma RemoveOneMore<K, V>(m: map<K, V>, found: set<K>, remaining: set<K>, p: K)
    requires p in remaining && remaining <= found
    ensures (m - (found - remaining)) - {p} == m - (found - (remaining - {p}))
  {
  }

  /** A separator that occurs in neither head marks where both heads end. */
  lemma SplitAtSeparator<T>(x1: seq<T>, r1: seq<T>, x2: seq<T>, r2: seq<T>, sep: T)
    requires sep !in x1 && sep !in x2 && x1 + [sep] + r1 == x2 + [sep] + r2
    ensures x1 == x2 && r1 == r2
  {
    var s := x1 + [sep] + r1;
    assert s[|x1|] == sep;
    assert s[|x2|] == (x2 + [sep] + r2)[|x2|] == sep;
    assert forall i | 0 <= i < |x1| :: s[i] == x1[i] && x1[i] != sep;
    assert forall i | 0 <= i < |x2| :: s[i] == x2[i] && x2[i] != sep;
    assert |x1| == |x2|;
    assert x1 == s[..|x1|] == x2;
    assert r1 == s[|x1| + 1..] == r2;
  }

  lemma SuffixOfAppend<T>(a: seq<T>, b: seq<T>, k: nat)
    requires k <= |b|
    ensures (a + b)[|a + b| - k..] == b[|b| - k..]
  {
  }

  lemma FieldsOf<T>(p: seq<T>, a: seq<T>, q: seq<T>, b: seq<T>)
    ensures var s := p + a + q + b;
      && |s| == |p| + |a| + |q| + |b|
      && s[..|p|] == p && s[|p|..|p| + |a|] == a
      && s[|p| + |a|..|p| + |a| + |q|] == q && s[|p| + |a| + |q|..] == b
  {
  }

  lemma AppendAssoc<T>(a: seq<T>, b: seq<T>, c: seq<T>)
    ensures a + b + c == a + (b + c)
  {
  }

  /** Removing a key that was absent before a sequence of updates undoes
      its own update and nothing else. */
  lemma DropTemporary<K, V>(m: map<K, V>, t: K, x: V, a: K, va: V, b: K, vb: V)
    requires t !in m && t != a && t != b
    ensures m - {t} == m && m[t := x] - {t} == m
    ensures m[t := x][a := va] - {t} == m[a := va]
    ensures m[t := x][a := va][b := vb] - {t} == m[a := va][b := vb]
    ensures m[b := vb] - {t} == m[b := vb]
  {
  }

  lemma SuffixCancel<T>(x: seq<T>, y: seq<T>, s: seq<T>)
    requires x + s == y + s
    ensures x == y
  {
    assert x == (x + s)[..|x|];
  }

  /** The elements of `s` that `keep` accepts, in order. */
  function Filter<T>(s: seq<T>, keep: T -> bool): (r: seq<T>)
    ensures |r| <= |s|
  {
    if |s| == 0 then [] else Filter(s[..|s| - 1], keep) + (if keep(s[|s| - 1]) then [s[|s| - 1]] else [])
  }

  lemma FilterOneMore<T>(s: seq<T>, keep: T -> bool, i: nat)
    requires i < |s|
    ensures Filter(s[..i + 1], keep) == Filter(s[..i], keep) + (if keep(s[i]) then [s[i]] else [])
  {
    TakeOneMore(s, i);
  }

  lemma {:induction false} FilterMembers<T>(s: seq<T>, keep: T -> bool)
    ensures forall x :: x in Filter(s, keep) <==> x in s && keep(x)
  {
    if |s| > 0 {
      var n := |s| - 1;
      FilterMembers(s[..n], keep);
      assert s == s[..n] + [s[n]];
    }
  }

  lemma FilterMember<T>(s: seq<T>, keep: T -> bool, x: T)
    ensures x in Filter(s, keep) <==> x in s && keep(x)
  {
    FilterMembers(s, keep);
  }

  /** Filtering keeps a strictly increasing order. */
  lemma {:induction false} FilterIncreasing<T>(s: seq<T>, keep: T -> bool, rank: T -> int)
    requires forall a, b | 0 <= a < b < |s| :: rank(s[a]) < rank(s[b])
    ensures var r := Filter(s, keep); forall a, b | 0 <= a < b < |r| :: rank(r[a]) < rank(r[b])
  {
    if |s| > 0 {
      var n := |s| - 1;
      var r0 := Filter(s[..n], keep);
      FilterIncreasing(s[..n], keep, rank);
      if keep(s[n]) {
        var r := r0 + [s[n]];
        assert Filter(s, keep) == r;
        forall k | 0 <= k < |r0|
          ensures rank(r0[k]) < rank(s[n])
        {
          assert r0[k] in r0;
          FilterMember(s[..n], keep, r0[k]);
          var j :| 0 <= j < n && s[..n][j] == r0[k];
          assert s[j] == r0[k];
        }
        forall a, b | 0 <= a < b < |r|
          ensures rank(r[a]) < rank(r[b])
        {
          assert r[a] == r0[a];
          if b < |r0| {
            assert r[b] == r0[b];
          } else {
            assert r[b] == s[n];
          }
        }
      } else {
        assert Filter(s, keep) == r0;
      }
    }
  }

  lemma UpdateTwice<K, V>(m: map<K, V>, k: K, v: V, w: V)
    ensures (if k in m then m else m[k := v])[k := w] == m[k := w]
  {
  }

  lemma UpdateOver<K, V>(m: map<K, V>, k: K, v: V, w: V)
    ensures m[k := v][k := w] == m[k := w]
  {
  }

  lemma UpdateSame<K, V>(m: map<K, V>, k: K)
    requires k in m
    ensures m[k := m[k]] == m
  {
  }
}
