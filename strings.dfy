/** The Python `str` operations the modelled code relies on, over `seq<char>`:
    prefix and suffix tests, `replace`, `split`/`join` on a one-character
    separator, `upper`/`lower` on ASCII letters, decimal digits, the ordering
    `<` of strings, and list filtering. */
module Strings {

  // ---------------------------------------------------------------------------
  // Prefixes, suffixes and substrings

  predicate StartsWith(s: string, p: string) {
    |p| <= |s| && s[..|p|] == p
  }

  predicate EndsWith(s: string, p: string) {
    |p| <= |s| && s[|s| - |p|..] == p
  }

  lemma EndsWithAppended(a: string, b: string)
    ensures EndsWith(a + b, b)
  {
    assert (a + b)[|a + b| - |b|..] == b;
  }

  /** `q in s` for strings: `q` occurs somewhere inside `s`. */
  predicate Occurs(s: string, q: string) {
    exists i :: 0 <= i <= |s| && StartsWith(s[i..], q)
  }

  lemma OccursSuffix(s: string, k: nat, q: string)
    requires k <= |s|
    ensures Occurs(s[k..], q) ==> Occurs(s, q)
  {
    if Occurs(s[k..], q) {
      var i :| 0 <= i <= |s[k..]| && StartsWith(s[k..][i..], q);
      assert s[k..][i..] == s[k + i..];
    }
  }

  lemma OccursChar(s: string, c: char)
    ensures Occurs(s, [c]) <==> c in s
  {
    if c in s {
      var i :| 0 <= i < |s| && s[i] == c;
      assert StartsWith(s[i..], [c]);
    }
    if Occurs(s, [c]) {
      var i :| 0 <= i <= |s| && StartsWith(s[i..], [c]);
      assert s[i] == c;
    }
  }

  /** s[:n] */
  function Take(s: string, n: nat): string {
    if n <= |s| then s[..n] else s
  }

  // ---------------------------------------------------------------------------
  // Letter case (ASCII letters only)

  function UpperChar(c: char): char {
    if 'a' <= c <= 'z' then (c as int - 32) as char else c
  }

  function LowerChar(c: char): char {
    if 'A' <= c <= 'Z' then (c as int + 32) as char else c
  }

  function Upper(s: string): string {
    seq(|s|, i requires 0 <= i < |s| => UpperChar(s[i]))
  }

  function Lower(s: string): string {
    seq(|s|, i requires 0 <= i < |s| => LowerChar(s[i]))
  }

  /** `a.upper() == b.upper()` */
  predicate EqualsIgnoreCase(a: string, b: string) {
    Upper(a) == Upper(b)
  }

  // ---------------------------------------------------------------------------
  // str.replace: left to right, non-overlapping, every occurrence

  function Replace(s: string, p: string, r: string): string
    requires p != []
    decreases |s|
  {
    if s == [] then []
    else if StartsWith(s, p) then r + Replace(s[|p|..], p, r)
    else [s[0]] + Replace(s[1..], p, r)
  }

  /** The first k characters of a replacement agree with the input, unless a
      replacement text starts among them. */
  lemma {:induction false} ReplaceWindow(s: string, p: string, r: string, k: nat)
    requires p != [] && r != []
    requires k <= |Replace(s, p, r)|
    ensures (k <= |s| && Replace(s, p, r)[..k] == s[..k])
            || (exists j :: 0 <= j < k && Replace(s, p, r)[j] == r[0])
    decreases |s|
  {
    if k == 0 || s == [] {
    } else if StartsWith(s, p) {
      assert Replace(s, p, r)[0] == r[0];
    } else {
      var t := Replace(s[1..], p, r);
      assert Replace(s, p, r) == [s[0]] + t;
      ReplaceWindow(s[1..], p, r, k - 1);
      if exists j :: 0 <= j < k - 1 && t[j] == r[0] {
        var j :| 0 <= j < k - 1 && t[j] == r[0];
        assert Replace(s, p, r)[j + 1] == r[0];
      } else {
        assert Replace(s, p, r)[..k] == [s[0]] + t[..k - 1];
        assert s[..k] == [s[0]] + s[1..][..k - 1];
      }
    }
  }

  /** Replacing p by r leaves no occurrence of q, provided q was absent before
      (or q is p itself) and q and r cannot overlap: q does not start with a
      character of r and r does not start with a character of q. */
  lemma {:induction false} ReplaceAvoids(s: string, p: string, r: string, q: string)
    requires p != [] && r != [] && q != []
    requires q[0] !in r && r[0] !in q
    requires q == p || !Occurs(s, q)
    ensures !Occurs(Replace(s, p, r), q)
    decreases |s|
  {
    var out := Replace(s, p, r);
    if s == [] {
      assert out == [];
    } else if StartsWith(s, p) {
      var t := Replace(s[|p|..], p, r);
      assert out == r + t;
      OccursSuffix(s, |p|, q);
      ReplaceAvoids(s[|p|..], p, r, q);
      forall i | 0 <= i <= |out|
        ensures !StartsWith(out[i..], q)
      {
        if i < |r| {
          assert out[i..][0] == r[i];
        } else {
          assert out[i..] == t[i - |r|..];
        }
      }
    } else {
      var t := Replace(s[1..], p, r);
      assert out == [s[0]] + t;
      OccursSuffix(s, 1, q);
      ReplaceAvoids(s[1..], p, r, q);
      forall i | 0 <= i <= |out|
        ensures !StartsWith(out[i..], q)
      {
        if i >= 1 {
          assert out[i..] == t[i - 1..];
        } else {
          ReplaceAvoidsAtHead(s, p, r, q);
        }
      }
    }
  }

  lemma ConsPrefix(a: char, t: string, u: string, n: nat)
    requires n <= |t| && n <= |u| && t[..n] == u[..n]
    ensures ([a] + t)[..n + 1] == ([a] + u)[..n + 1]
  {
    assert ([a] + t)[..n + 1] == [a] + t[..n];
    assert ([a] + u)[..n + 1] == [a] + u[..n];
  }

  /** The head case of ReplaceAvoids: when s does not start with p, the
      replacement does not start with q. */
  lemma ReplaceAvoidsAtHead(s: string, p: string, r: string, q: string)
    requires p != [] && r != [] && q != []
    requires q[0] !in r && r[0] !in q
    requires s != [] && !StartsWith(s, p)
    requires q == p || !Occurs(s, q)
    ensures !StartsWith(Replace(s, p, r), q)
  {
    var out := Replace(s, p, r);
    var t := Replace(s[1..], p, r);
    assert out == [s[0]] + t;
    if |q| <= |out| {
      ReplaceWindow(s[1..], p, r, |q| - 1);
      if |q| - 1 <= |s[1..]| && t[..|q| - 1] == s[1..][..|q| - 1] {
        ConsPrefix(s[0], t, s[1..], |q| - 1);
        assert s == [s[0]] + s[1..];
        assert StartsWith(s[0..], q) ==> Occurs(s, q);
        assert s[0..] == s;
      } else {
        var j :| 0 <= j < |q| - 1 && t[j] == r[0];
        assert out[j + 1] == r[0];
        assert out[..|q|][j + 1] != q[j + 1];
      }
    }
  }

  /** Replacing one character by another works position by position. */
  lemma {:induction false} ReplaceCharPointwise(s: string, a: char, b: char)
    ensures |Replace(s, [a], [b])| == |s|
    ensures forall i :: 0 <= i < |s| ==> Replace(s, [a], [b])[i] == if s[i] == a then b else s[i]
    decreases |s|
  {
    if s != [] {
      ReplaceCharPointwise(s[1..], a, b);
      assert StartsWith(s, [a]) <==> s[0] == a;
      var t := Replace(s[1..], [a], [b]);
      assert Replace(s, [a], [b]) == (if s[0] == a then [b] else [s[0]]) + t;
    }
  }

  /** Every occurrence of c in s, except perhaps at index 0, follows a backslash. */
  ghost predicate EscapedAfterFirst(s: string, c: char) {
    forall i :: 0 < i < |s| && s[i] == c ==> s[i - 1] == '\\'
  }

  /** Every occurrence of c in s follows a backslash. */
  ghost predicate Escaped(s: string, c: char) {
    EscapedAfterFirst(s, c) && (|s| > 0 ==> s[0] != c)
  }

  /** Replacing each c by a backslash and c escapes every c. */
  lemma {:induction false} EscapeEscapes(s: string, c: char)
    requires c != '\\'
    ensures Escaped(Replace(s, [c], ['\\', c]), c)
    decreases |s|
  {
    if s != [] {
      var out := Replace(s, [c], ['\\', c]);
      var t := Replace(s[1..], [c], ['\\', c]);
      EscapeEscapes(s[1..], c);
      if s[0] == c {
        assert out == ['\\', c] + t;
      } else {
        assert out == [s[0]] + t;
      }
    }
  }

  /** The first character of Replace(s, [a], r). */
  lemma ReplaceHead(s: string, a: char, r: string)
    requires s != [] && r != []
    ensures Replace(s, [a], r)[0] == if s[0] == a then r[0] else s[0]
  {
    assert StartsWith(s, [a]) <==> s[0] == a;
  }

  /** Escaping a character other than c keeps every c escaped. */
  lemma {:induction false} EscapeKeepsEscaped(s: string, a: char, c: char)
    requires a != c && a != '\\' && c != '\\'
    requires EscapedAfterFirst(s, c)
    ensures EscapedAfterFirst(Replace(s, [a], ['\\', a]), c)
    ensures |s| > 0 ==> (Replace(s, [a], ['\\', a])[0] == c <==> s[0] == c)
    decreases |s|
  {
    if s != [] {
      ReplaceHead(s, a, ['\\', a]);
      var out := Replace(s, [a], ['\\', a]);
      var t := Replace(s[1..], [a], ['\\', a]);
      EscapeKeepsEscaped(s[1..], a, c);
      var x: string := if s[0] == a then ['\\', a] else [s[0]];
      assert StartsWith(s, [a]) <==> s[0] == a;
      assert out == x + t;
      forall i | 0 < i < |out| && out[i] == c
        ensures out[i - 1] == '\\'
      {
        if i > |x| {
          assert out[i] == t[i - |x|] && out[i - 1] == t[i - |x| - 1];
        } else if i == |x| {
          assert t[0] == c;
          ReplaceHead(s[1..], a, ['\\', a]);
          assert s[1] == c;
          assert s[0] == '\\';
        }
      }
    }
  }

  // ---------------------------------------------------------------------------
  // str.split and str.join on a one-character separator

  /** s.split(c) */
  function Split(s: string, c: char): (parts: seq<string>)
    ensures |parts| >= 1
    decreases |s|
  {
    if s == [] then [[]]
    else
      var rest := Split(s[1..], c);
      if s[0] == c then [[]] + rest
      else [[s[0]] + rest[0]] + rest[1..]
  }

  /** c.join(parts) */
  function Join(parts: seq<string>, c: char): string {
    if parts == [] then []
    else if |parts| == 1 then parts[0]
    else parts[0] + [c] + Join(parts[1..], c)
  }

  lemma {:induction false} SplitPartsHaveNoSeparator(s: string, c: char)
    ensures forall i :: 0 <= i < |Split(s, c)| ==> c !in Split(s, c)[i]
    decreases |s|
  {
    if s != [] {
      SplitPartsHaveNoSeparator(s[1..], c);
    }
  }

  /** There is more than one part exactly when the separator occurs. */
  lemma {:induction false} SplitCountsSeparators(s: string, c: char)
    ensures c in s <==> |Split(s, c)| >= 2
    decreases |s|
  {
    if s != [] {
      SplitCountsSeparators(s[1..], c);
      assert c in s <==> s[0] == c || c in s[1..];
    }
  }

  /** Splitting and re-joining on the same separator gives the input back. */
  lemma {:induction false} JoinSplit(s: string, c: char)
    ensures Join(Split(s, c), c) == s
    decreases |s|
  {
    if s != [] {
      var rest := Split(s[1..], c);
      JoinSplit(s[1..], c);
      if s[0] == c {
        assert Split(s, c)[1..] == rest;
      } else if |rest| > 1 {
        assert Split(s, c)[1..] == rest[1..];
        assert Join(rest, c) == rest[0] + [c] + Join(rest[1..], c);
      }
    }
  }

  lemma {:induction false} SplitWithoutSeparator(s: string, c: char)
    requires c !in s
    ensures Split(s, c) == [s]
    decreases |s|
  {
    if s != [] {
      SplitWithoutSeparator(s[1..], c);
      assert [s[0]] + s[1..] == s;
    }
  }

  lemma {:induction false} SplitAfterSegment(a: string, c: char, rest: string)
    requires c !in a
    ensures Split(a + [c] + rest, c) == [a] + Split(rest, c)
    decreases |a|
  {
    if a == [] {
      assert (a + [c] + rest)[1..] == rest;
    } else {
      SplitAfterSegment(a[1..], c, rest);
      assert (a + [c] + rest)[1..] == a[1..] + [c] + rest;
      assert [a[0]] + a[1..] == a;
    }
  }

  /** Joining parts that contain no separator and splitting again gives the parts back. */
  lemma {:induction false} SplitJoin(parts: seq<string>, c: char)
    requires |parts| >= 1
    requires forall i :: 0 <= i < |parts| ==> c !in parts[i]
    ensures Split(Join(parts, c), c) == parts
    decreases |parts|
  {
    if |parts| == 1 {
      SplitWithoutSeparator(parts[0], c);
    } else {
      SplitJoin(parts[1..], c);
      SplitAfterSegment(parts[0], c, Join(parts[1..], c));
    }
  }

  lemma {:induction false} JoinLast(parts: seq<string>, c: char)
    requires |parts| >= 2
    ensures Join(parts, c) == Join(parts[..|parts| - 1], c) + [c] + parts[|parts| - 1]
    decreases |parts|
  {
    if |parts| > 2 {
      JoinLast(parts[1..], c);
      assert parts[1..][..|parts| - 2] == parts[..|parts| - 1][1..];
    }
  }

  /** The first part of a split is the text before the first separator, or
      the whole string when the separator does not occur. */
  lemma {:induction false} SplitHead(s: string, c: char)
    ensures var h := Split(s, c)[0];
            StartsWith(s, h) && c !in h
            && (c in s ==> |h| < |s| && s[|h|] == c)
            && (c !in s ==> h == s)
    decreases |s|
  {
    if s != [] && s[0] != c {
      SplitHead(s[1..], c);
      var h' := Split(s[1..], c)[0];
      assert Split(s, c)[0] == [s[0]] + h';
      assert c in s <==> c in s[1..];
      if c in s {
        assert s[|h'| + 1] == s[1..][|h'|];
      }
      assert s[..|h'| + 1] == [s[0]] + s[1..][..|h'|];
    }
  }

  /** c.join(s.split(c)[:-1]): everything before the last separator, or the
      empty string when there is none. */
  function DropLastSegment(s: string, c: char): string {
    Join(Split(s, c)[..|Split(s, c)| - 1], c)
  }

  /** Without a separator nothing is kept; otherwise s is what is kept, the
      separator, and a last segment free of separators. */
  lemma DropLastSegmentSpec(s: string, c: char)
    ensures c !in s ==> DropLastSegment(s, c) == []
    ensures c in s ==> s == DropLastSegment(s, c) + [c] + Split(s, c)[|Split(s, c)| - 1]
                       && c !in Split(s, c)[|Split(s, c)| - 1]
  {
    var parts := Split(s, c);
    if c !in s {
      SplitWithoutSeparator(s, c);
    } else {
      JoinSplit(s, c);
      SplitPartsHaveNoSeparator(s, c);
      SplitCountsSeparators(s, c);
      JoinLast(parts, c);
    }
  }

  /** s.lstrip(c) */
  function LStrip(s: string, c: char): (r: string)
    ensures |r| > 0 ==> r[0] != c
    ensures exists k :: 0 <= k <= |s| && r == s[k..] && forall i :: 0 <= i < k ==> s[i] == c
    decreases |s|
  {
    if s != [] && s[0] == c then
      var r := LStrip(s[1..], c);
      assert exists k :: 0 <= k <= |s[1..]| && r == s[1..][k..] && forall i :: 0 <= i < k ==> s[1..][i] == c;
      var k :| 0 <= k <= |s[1..]| && r == s[1..][k..] && forall i :: 0 <= i < k ==> s[1..][i] == c;
      assert r == s[k + 1..];
      r
    else
      assert s == s[0..];
      s
  }

  /** The position of the first x in xs (list.index). */
  function IndexOf<T(==)>(xs: seq<T>, x: T): (i: nat)
    requires x in xs
    ensures i < |xs| && xs[i] == x && x !in xs[..i]
  {
    if xs[0] == x then 0 else 1 + IndexOf(xs[1..], x)
  }

  // ---------------------------------------------------------------------------
  // os.path on POSIX paths

  /** os.path.join(a, b) */
  function PathJoin(a: string, b: string): (r: string)
    ensures EndsWith(r, b)
    ensures StartsWith(b, "/") ==> r == b
    ensures !StartsWith(b, "/") && a != [] ==> StartsWith(r, a) && |r| >= |a| + |b|
  {
    if StartsWith(b, "/") || a == [] then b
    else if EndsWith(a, "/") then a + b
    else a + "/" + b
  }

  /** os.path.basename(p): the part after the last '/'. */
  function Basename(p: string): (r: string)
    ensures '/' !in r && EndsWith(p, r)
    ensures |r| == |p| || p[|p| - |r| - 1] == '/'
  {
    var parts := Split(p, '/');
    SplitPartsHaveNoSeparator(p, '/');
    JoinSplit(p, '/');
    if |parts| >= 2 then
      JoinLast(parts, '/');
      parts[|parts| - 1]
    else
      parts[0]
  }

  // ---------------------------------------------------------------------------
  // Decimal digits

  predicate IsDigit(ch: char) {
    '0' <= ch <= '9'
  }

  predicate AllDigits(s: string) {
    forall i :: 0 <= i < |s| ==> IsDigit(s[i])
  }

  function DigitChar(d: int): char
    requires 0 <= d < 10
  {
    ('0' as int + d) as char
  }

  function DigitVal(ch: char): int
    requires IsDigit(ch)
  {
    ch as int - '0' as int
  }

  function Pow10(w: nat): nat {
    if w == 0 then 1 else 10 * Pow10(w - 1)
  }

  /** The value of a string of decimal digits (int(s) for such strings). */
  function DigitsValue(s: string): nat
    requires AllDigits(s)
  {
    if s == [] then 0 else 10 * DigitsValue(s[..|s| - 1]) + DigitVal(s[|s| - 1])
  }

  /** n written with exactly w digits, zero padded ('%0wd' for n below 10^w). */
  function Pad(n: nat, w: nat): (r: string)
    ensures |r| == w && AllDigits(r)
  {
    if w == 0 then [] else Pad(n / 10, w - 1) + [DigitChar(n % 10)]
  }

  /** str(n) for a natural number. */
  function NatToString(n: nat): string {
    if n < 10 then [DigitChar(n)] else NatToString(n / 10) + [DigitChar(n % 10)]
  }

  /** str(i), or '%d' % i. */
  function IntToString(i: int): string {
    if i < 0 then "-" + NatToString(-i) else NatToString(i)
  }

  /** Reading a zero-padded number back gives the number. */
  lemma {:induction false} PadValue(n: nat, w: nat)
    requires n < Pow10(w)
    ensures |Pad(n, w)| == w && AllDigits(Pad(n, w)) && DigitsValue(Pad(n, w)) == n
  {
    if w > 0 {
      PadValue(n / 10, w - 1);
      var p := Pad(n, w);
      assert p[..|p| - 1] == Pad(n / 10, w - 1);
    }
  }

  /** Writing the value of a digit string back, padded to its length, gives the string. */
  lemma {:induction false} ValuePad(s: string)
    requires AllDigits(s)
    ensures DigitsValue(s) < Pow10(|s|) && Pad(DigitsValue(s), |s|) == s
  {
    if s != [] {
      var init := s[..|s| - 1];
      ValuePad(init);
      var v := DigitsValue(s);
      assert v / 10 == DigitsValue(init) && v % 10 == DigitVal(s[|s| - 1]);
      assert s == init + [s[|s| - 1]];
    }
  }

  /** str(n) is a digit string whose value is n. */
  lemma {:induction false} NatToStringValue(n: nat)
    ensures AllDigits(NatToString(n)) && DigitsValue(NatToString(n)) == n
  {
    if n >= 10 {
      NatToStringValue(n / 10);
      var s := NatToString(n);
      assert s[..|s| - 1] == NatToString(n / 10);
    }
  }

  // ---------------------------------------------------------------------------
  // The ordering of Python strings, and max()

  /** a <= b for Python strings: lexicographic by code point, a prefix first. */
  predicate LexLe(a: string, b: string)
    decreases |a|
  {
    a == [] || (b != [] && (a[0] < b[0] || (a[0] == b[0] && LexLe(a[1..], b[1..]))))
  }

  lemma {:induction false} LexLeTotal(a: string, b: string)
    ensures LexLe(a, b) || LexLe(b, a)
    decreases |a|
  {
    if a != [] && b != [] && a[0] == b[0] {
      LexLeTotal(a[1..], b[1..]);
    }
  }

  lemma {:induction false} LexLeTransitive(a: string, b: string, c: string)
    requires LexLe(a, b) && LexLe(b, c)
    ensures LexLe(a, c)
    decreases |a|
  {
    if a != [] && a[0] == b[0] && b[0] == c[0] {
      LexLeTransitive(a[1..], b[1..], c[1..]);
    }
  }

  lemma {:induction false} LexLeAntisymmetric(a: string, b: string)
    requires LexLe(a, b) && LexLe(b, a)
    ensures a == b
    decreases |a|
  {
    if a != [] {
      LexLeAntisymmetric(a[1..], b[1..]);
      assert a == [a[0]] + a[1..] && b == [b[0]] + b[1..];
    }
  }

  /** max(xs): scans left to right and keeps an element only when it is
      strictly greater than the current maximum. */
  function MaxOf(xs: seq<string>): (m: string)
    requires |xs| > 0
    ensures m in xs
    ensures forall i :: 0 <= i < |xs| ==> LexLe(xs[i], m)
  {
    if |xs| == 1 then
      assert LexLe(xs[0], xs[0]) by { LexLeTotal(xs[0], xs[0]); }
      xs[0]
    else
      var init := xs[..|xs| - 1];
      var m := MaxOf(init);
      var last := xs[|xs| - 1];
      if !LexLe(last, m) then
        LexLeTotal(last, m);
        LexLeTotal(last, last);
        forall i | 0 <= i < |xs| - 1 ensures LexLe(xs[i], last) {
          assert xs[i] == init[i];
          LexLeTransitive(xs[i], m, last);
        }
        last
      else
        assert forall i :: 0 <= i < |xs| - 1 ==> xs[i] == init[i];
        m
  }

  // ---------------------------------------------------------------------------
  // List comprehensions with a condition

  /** [x for x in s if p(x)] */
  function Filter<T>(s: seq<T>, p: T -> bool): (r: seq<T>)
    ensures |r| <= |s|
  {
    if s == [] then []
    else (if p(s[0]) then [s[0]] else []) + Filter(s[1..], p)
  }

  /** The filter keeps exactly the elements that pass. */
  lemma {:induction false} FilterMembers<T>(s: seq<T>, p: T -> bool)
    ensures forall x :: x in Filter(s, p) <==> x in s && p(x)
    decreases |s|
  {
    if s != [] {
      FilterMembers(s[1..], p);
      assert forall x :: x in s <==> x == s[0] || x in s[1..];
    }
  }

  lemma {:induction false} FilterAppend<T>(a: seq<T>, b: seq<T>, p: T -> bool)
    ensures Filter(a + b, p) == Filter(a, p) + Filter(b, p)
    decreases |a|
  {
    if a != [] {
      FilterAppend(a[1..], b, p);
      assert (a + b)[1..] == a[1..] + b;
    } else {
      assert a + b == b;
    }
  }

  /** Filtering one more element of a prefix. */
  lemma FilterPrefix<T>(s: seq<T>, i: nat, p: T -> bool)
    requires i < |s|
    ensures Filter(s[..i + 1], p) == Filter(s[..i], p) + (if p(s[i]) then [s[i]] else [])
  {
    FilterAppend(s[..i], [s[i]], p);
    assert Filter([s[i]], p) == (if p(s[i]) then [s[i]] else []) + Filter([s[i]][1..], p);
    assert [s[i]][1..] == [];
    assert s[..i + 1] == s[..i] + [s[i]];
  }

  /** Filtering twice keeps what both conditions keep. */
  lemma {:induction false} FilterFilter<T>(s: seq<T>, p: T -> bool, q: T -> bool)
    ensures Filter(Filter(s, p), q) == Filter(s, x => p(x) && q(x))
    decreases |s|
  {
    if s != [] {
      FilterFilter(s[1..], p, q);
      var head: seq<T> := if p(s[0]) then [s[0]] else [];
      FilterAppend(head, Filter(s[1..], p), q);
    }
  }
}
