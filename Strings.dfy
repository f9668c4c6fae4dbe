/** Text primitives of the JavaScript and Python runtimes that the
    recommendation service and its web client rely on: JavaScript white
    space (`\s`, `trim`), `split("\n")`, Python's `" ".join`, decimal and
    comma-grouped integer text (`f"{n}"`, `f"{n:,}"`), and the code-unit
    ordering that `sorted` applies to strings. */
module Strings {

  datatype Option<+T> = None | Some(value: T)

  /** The characters JavaScript's `\s` class and `String.prototype.trim`
      treat as white space (WhiteSpace and LineTerminator). */
  predicate IsSpace(c: char) {
    c == '\t' || c == '\n' || c == '\U{B}' || c == '\U{C}' || c == '\r' || c == ' ' ||
    c == '\U{A0}' || c == '\U{1680}' || ('\U{2000}' <= c <= '\U{200A}') ||
    c == '\U{2028}' || c == '\U{2029}' || c == '\U{202F}' || c == '\U{205F}' ||
    c == '\U{3000}' || c == '\U{FEFF}'
  }

  /** `!s.trim()`: the string is empty or made of white space only. */
  predicate IsBlank(s: string) {
    forall i :: 0 <= i < |s| ==> IsSpace(s[i])
  }

  predicate StartsWith(s: string, prefix: string) {
    |prefix| <= |s| && s[..|prefix|] == prefix
  }

  predicate EndsWith(s: string, suffix: string) {
    |suffix| <= |s| && s[|s| - |suffix|..] == suffix
  }

  /** Leading white space removed. */
  function TrimStart(s: string): (r: string)
    ensures |r| <= |s|
  {
    if s == [] || !IsSpace(s[0]) then s else TrimStart(s[1..])
  }

  /** The result is the longest suffix of `s` that does not start with
      white space. */
  lemma {:induction false} TrimStartSpec(s: string)
    ensures var r := TrimStart(s);
      r == s[|s| - |r|..] && (r == [] || !IsSpace(r[0])) &&
      forall i :: 0 <= i < |s| - |r| ==> IsSpace(s[i])
  {
    if s != [] && IsSpace(s[0]) {
      TrimStartSpec(s[1..]);
    }
  }

  /** Trailing white space removed. */
  function TrimEnd(s: string): (r: string)
    ensures |r| <= |s|
  {
    if s == [] || !IsSpace(s[|s| - 1]) then s else TrimEnd(s[..|s| - 1])
  }

  /** The result is the longest prefix of `s` that does not end with white
      space. */
  lemma {:induction false} TrimEndSpec(s: string)
    ensures var r := TrimEnd(s);
      r == s[..|r|] && (r == [] || !IsSpace(r[|r| - 1])) &&
      forall i :: |r| <= i < |s| ==> IsSpace(s[i])
  {
    if s != [] && IsSpace(s[|s| - 1]) {
      TrimEndSpec(s[..|s| - 1]);
    }
  }

  /** JavaScript `String.prototype.trim`. */
  function Trim(s: string): string {
    TrimEnd(TrimStart(s))
  }

  /** A string is left unchanged by `trim` exactly when it neither starts nor
      ends with white space; it trims to "" exactly when it is blank. */
  lemma TrimFacts(s: string)
    ensures Trim(s) == s <==> (s == [] || (!IsSpace(s[0]) && !IsSpace(s[|s| - 1])))
    ensures Trim(s) == [] <==> IsBlank(s)
  {
    var t := TrimStart(s);
    TrimStartSpec(s);
    TrimEndSpec(t);
    if s != [] && !IsSpace(s[0]) && !IsSpace(s[|s| - 1]) {
      assert t == s;
    }
    if IsBlank(s) {
      TrimStartBlank(s);
    }
  }

  lemma {:induction false} TrimStartBlank(s: string)
    requires IsBlank(s)
    ensures TrimStart(s) == []
  {
    if s != [] {
      TrimStartBlank(s[1..]);
    }
  }

  /** JavaScript `s.split(sep)` for a one-character separator: the pieces
      between separators, always at least one (`"".split("\n")` is `[""]`). */
  function SplitOn(s: string, sep: char): (pieces: seq<string>)
    ensures |pieces| >= 1
  {
    if s == [] then [""]
    else
      var rest := SplitOn(s[1..], sep);
      if s[0] == sep then [""] + rest else [[s[0]] + rest[0]] + rest[1..]
  }

  /** No piece of a split holds the separator. */
  lemma {:induction false} SplitNoSeparator(s: string, sep: char)
    ensures forall i :: 0 <= i < |SplitOn(s, sep)| ==> sep !in SplitOn(s, sep)[i]
  {
    if s != [] {
      SplitNoSeparator(s[1..], sep);
      var rest := SplitOn(s[1..], sep);
      if s[0] != sep {
        assert sep !in [s[0]] + rest[0];
      }
    }
  }

  /** Python `sep.join(parts)` (and JavaScript `parts.join(sep)`). */
  function Join(parts: seq<string>, sep: string): string {
    if parts == [] then ""
    else if |parts| == 1 then parts[0]
    else parts[0] + sep + Join(parts[1..], sep)
  }

  /** Joining the pieces of a split with the separator gives the text back. */
  lemma {:induction false} JoinSplit(s: string, sep: char)
    ensures Join(SplitOn(s, sep), [sep]) == s
  {
    if s != [] {
      var rest := SplitOn(s[1..], sep);
      JoinSplit(s[1..], sep);
      if s[0] == sep {
        assert SplitOn(s, sep) == [""] + rest;
        assert Join([""] + rest, [sep]) == "" + [sep] + Join(rest, [sep]);
      } else if |rest| == 1 {
        assert SplitOn(s, sep) == [[s[0]] + rest[0]];
      } else {
        var p := SplitOn(s, sep);
        assert p == [[s[0]] + rest[0]] + rest[1..];
        assert p[1..] == rest[1..];
        assert Join(p, [sep]) == [s[0]] + rest[0] + [sep] + Join(rest[1..], [sep]);
      }
    }
  }

  /** Splitting a join of separator-free pieces gives the pieces back. */
  lemma {:induction false} SplitJoin(parts: seq<string>, sep: char)
    requires |parts| >= 1
    requires forall i :: 0 <= i < |parts| ==> sep !in parts[i]
    ensures SplitOn(Join(parts, [sep]), sep) == parts
  {
    if |parts| == 1 {
      SplitPiece(parts[0], sep);
    } else {
      SplitJoin(parts[1..], sep);
      SplitAppend(parts[0], Join(parts[1..], [sep]), sep);
      SplitPiece(parts[0], sep);
    }
  }

  /** A separator-free text splits into itself. */
  lemma {:induction false} SplitPiece(s: string, sep: char)
    requires sep !in s
    ensures SplitOn(s, sep) == [s]
  {
    if s != [] {
      SplitPiece(s[1..], sep);
      assert [s[0]] + s[1..] == s;
    }
  }

  /** Splitting `x + sep + y` splits `x` and `y` separately: the last piece
      of `x` and the first of `y` are not glued together. */
  lemma {:induction false} SplitAppend(x: string, y: string, sep: char)
    ensures SplitOn(x + [sep] + y, sep) == SplitOn(x, sep) + SplitOn(y, sep)
  {
    if x == [] {
      assert x + [sep] + y == [sep] + y;
      SplitCons(sep, y, sep);
      assert SplitOn(x, sep) == [""];
    } else {
      var t := x[1..] + [sep] + y;
      assert x + [sep] + y == [x[0]] + t;
      assert x == [x[0]] + x[1..];
      SplitAppend(x[1..], y, sep);
      SplitCons(x[0], t, sep);
      SplitCons(x[0], x[1..], sep);
      ConsAlgebra(x[0], sep, SplitOn(x[1..], sep), SplitOn(y, sep));
    }
  }

  /** The pieces of `[c] + s` from the pieces `px + py` of `s`, when the
      first piece comes from `px`. */
  lemma ConsAlgebra(c: char, sep: char, px: seq<string>, py: seq<string>)
    requires |px| >= 1
    ensures var r := px + py;
      (if c == sep then [""] + r else [[c] + r[0]] + r[1..]) ==
      (if c == sep then [""] + px else [[c] + px[0]] + px[1..]) + py
  {
    var r := px + py;
    assert r[0] == px[0];
    assert r[1..] == px[1..] + py;
  }

  /** Splitting text that starts with `c`. */
  lemma SplitCons(c: char, t: string, sep: char)
    ensures var rest := SplitOn(t, sep);
      SplitOn([c] + t, sep) == if c == sep then [""] + rest else [[c] + rest[0]] + rest[1..]
  {
    assert ([c] + t)[1..] == t;
  }

  /** Splitting a concatenation: every piece of `x` but the last is kept,
      and the last one is glued to the front of `y` before that is split. */
  lemma {:induction false} SplitConcat(x: string, y: string, sep: char)
    ensures var px := SplitOn(x, sep);
      SplitOn(x + y, sep) == px[..|px| - 1] + SplitOn(px[|px| - 1] + y, sep)
  {
    if x != [] {
      assert x + y == [x[0]] + (x[1..] + y);
      assert x == [x[0]] + x[1..];
      SplitConcat(x[1..], y, sep);
      SplitConcatStep(x[0], x[1..], y, sep);
    } else {
      assert x + y == y;
    }
  }

  /** The step of `SplitConcat` for one more leading character `c`. */
  lemma SplitConcatStep(c: char, x: string, y: string, sep: char)
    requires var pt := SplitOn(x, sep);
      SplitOn(x + y, sep) == pt[..|pt| - 1] + SplitOn(pt[|pt| - 1] + y, sep)
    ensures var px := SplitOn([c] + x, sep);
      SplitOn([c] + (x + y), sep) == px[..|px| - 1] + SplitOn(px[|px| - 1] + y, sep)
  {
    var pt := SplitOn(x, sep);
    if c == sep {
      SplitConcatSep(c, x, y, sep);
    } else if |pt| > 1 {
      SplitConcatGlue(c, x, y, sep);
    } else {
      SplitConcatLast(c, x, y, sep);
    }
  }

  lemma SplitConcatSep(c: char, x: string, y: string, sep: char)
    requires c == sep
    requires var pt := SplitOn(x, sep);
      SplitOn(x + y, sep) == pt[..|pt| - 1] + SplitOn(pt[|pt| - 1] + y, sep)
    ensures var px := SplitOn([c] + x, sep);
      SplitOn([c] + (x + y), sep) == px[..|px| - 1] + SplitOn(px[|px| - 1] + y, sep)
  {
    SplitCons(c, x + y, sep);
    SplitCons(c, x, sep);
    var pt := SplitOn(x, sep);
    SepAlgebra(pt, SplitOn(pt[|pt| - 1] + y, sep));
  }

  lemma SepAlgebra(pt: seq<string>, last: seq<string>)
    requires |pt| >= 1
    ensures var px := [""] + pt;
      [""] + (pt[..|pt| - 1] + last) == px[..|px| - 1] + last && px[|px| - 1] == pt[|pt| - 1]
  {
    var px := [""] + pt;
    assert px[..|px| - 1] == [""] + pt[..|pt| - 1];
  }

  lemma SplitConcatGlue(c: char, x: string, y: string, sep: char)
    requires c != sep && |SplitOn(x, sep)| > 1
    requires var pt := SplitOn(x, sep);
      SplitOn(x + y, sep) == pt[..|pt| - 1] + SplitOn(pt[|pt| - 1] + y, sep)
    ensures var px := SplitOn([c] + x, sep);
      SplitOn([c] + (x + y), sep) == px[..|px| - 1] + SplitOn(px[|px| - 1] + y, sep)
  {
    SplitCons(c, x + y, sep);
    SplitCons(c, x, sep);
    var pt := SplitOn(x, sep);
    GlueAlgebra(c, pt, SplitOn(pt[|pt| - 1] + y, sep));
  }

  lemma GlueAlgebra(c: char, pt: seq<string>, last: seq<string>)
    requires |pt| > 1
    ensures var rest, px := pt[..|pt| - 1] + last, [[c] + pt[0]] + pt[1..];
      [[c] + rest[0]] + rest[1..] == px[..|px| - 1] + last && px[|px| - 1] == pt[|pt| - 1]
  {
    var rest, px := pt[..|pt| - 1] + last, [[c] + pt[0]] + pt[1..];
    assert rest[0] == pt[0];
    assert rest[1..] == pt[1..|pt| - 1] + last;
    assert px[..|px| - 1] == [[c] + pt[0]] + pt[1..|pt| - 1];
  }

  lemma SplitConcatLast(c: char, x: string, y: string, sep: char)
    requires c != sep && |SplitOn(x, sep)| == 1
    ensures var px := SplitOn([c] + x, sep);
      SplitOn([c] + (x + y), sep) == px[..|px| - 1] + SplitOn(px[|px| - 1] + y, sep)
  {
    var pt := SplitOn(x, sep);
    JoinSplit(x, sep);
    assert Join(pt, [sep]) == pt[0];
    assert pt == [x];
    SplitCons(c, x, sep);
    var px := SplitOn([c] + x, sep);
    assert px == [[c] + x];
    assert [c] + (x + y) == ([c] + x) + y;
  }

  lemma AppendAssoc<T>(a: seq<T>, b: seq<T>, c: seq<T>)
    ensures a + (b + c) == (a + b) + c
  {
  }

  /** JavaScript `parts.join("")`. */
  function Concat(parts: seq<string>): string {
    if parts == [] then "" else parts[0] + Concat(parts[1..])
  }

  lemma {:induction false} ConcatAppend(a: seq<string>, b: seq<string>)
    ensures Concat(a + b) == Concat(a) + Concat(b)
  {
    if a != [] {
      ConcatAppend(a[1..], b);
      assert (a + b)[1..] == a[1..] + b;
    } else {
      assert a + b == b;
    }
  }

  /** The decimal digit `d` as a character. */
  function DigitChar(d: nat): (c: char)
    requires d < 10
    ensures '0' <= c <= '9' && c as int - '0' as int == d
  {
    ('0' as int + d) as char
  }

  predicate AllDigits(s: string) {
    forall i :: 0 <= i < |s| ==> '0' <= s[i] <= '9'
  }

  /** Python `f"{n}"` (and JavaScript `String(n)`) for a natural number:
      digits without leading zeros. */
  function Decimal(n: nat): (r: string)
    ensures |r| >= 1 && AllDigits(r)
    ensures r[0] == '0' <==> n == 0
  {
    if n < 10 then [DigitChar(n)] else Decimal(n / 10) + [DigitChar(n % 10)]
  }

  /** The value of a string of decimal digits. */
  function DigitsValue(s: string): nat
    requires AllDigits(s)
  {
    if s == [] then 0 else DigitsValue(s[..|s| - 1]) * 10 + (s[|s| - 1] as int - '0' as int)
  }

  /** Reading back the digits that `Decimal` writes gives the number. */
  lemma {:induction false} DecimalRoundTrip(n: nat)
    ensures DigitsValue(Decimal(n)) == n
  {
    if n >= 10 {
      DecimalRoundTrip(n / 10);
      var s := Decimal(n);
      assert s == Decimal(n / 10) + [DigitChar(n % 10)];
      assert s[..|s| - 1] == Decimal(n / 10);
      assert s[|s| - 1] as int - '0' as int == n % 10;
      assert DigitsValue(s) == (n / 10) * 10 + n % 10;
    }
  }

  /** Python `f"{n}"` for any integer. */
  function IntText(n: int): (r: string)
    ensures |r| >= 1
    ensures r[0] == '-' <==> n < 0
  {
    if n < 0 then "-" + Decimal(-n) else Decimal(n)
  }

  /** Commas inserted between groups of three digits, counted from the right. */
  function GroupDigits(s: string): (r: string)
    ensures |r| >= |s|
  {
    if |s| <= 3 then s else GroupDigits(s[..|s| - 3]) + "," + s[|s| - 3..]
  }

  /** Python `f"{n:,}"` for a natural number. */
  function Grouped(n: nat): string {
    GroupDigits(Decimal(n))
  }

  /** Python `f"{n:,}"` for any integer. */
  function GroupedInt(n: int): string {
    if n < 0 then "-" + Grouped(-n) else Grouped(n)
  }

  function RemoveCommas(s: string): (r: string)
    ensures |r| <= |s|
  {
    if s == [] then [] else (if s[0] == ',' then [] else [s[0]]) + RemoveCommas(s[1..])
  }

  lemma {:induction false} RemoveCommasAppend(a: string, b: string)
    ensures RemoveCommas(a + b) == RemoveCommas(a) + RemoveCommas(b)
  {
    if a != [] {
      RemoveCommasAppend(a[1..], b);
      var head := if a[0] == ',' then [] else [a[0]];
      assert (a + b)[0] == a[0];
      assert (a + b)[1..] == a[1..] + b;
      calc {
        RemoveCommas(a + b);
        head + RemoveCommas(a[1..] + b);
        head + (RemoveCommas(a[1..]) + RemoveCommas(b));
        (head + RemoveCommas(a[1..])) + RemoveCommas(b);
        RemoveCommas(a) + RemoveCommas(b);
      }
    } else {
      assert a + b == b;
    }
  }

  lemma {:induction false} RemoveCommasDigits(s: string)
    requires AllDigits(s)
    ensures RemoveCommas(s) == s
  {
    if s != [] {
      RemoveCommasDigits(s[1..]);
    }
  }

  lemma RemoveCommasGroup(x: string, lo: string)
    requires AllDigits(lo)
    ensures RemoveCommas(x + ("," + lo)) == RemoveCommas(x) + lo
  {
    var t := "," + lo;
    assert t[0] == ',' && t[1..] == lo;
    assert RemoveCommas(t) == RemoveCommas(lo);
    RemoveCommasAppend(x, t);
    RemoveCommasDigits(lo);
  }

  lemma DigitsSplit(s: string, n: nat)
    requires AllDigits(s) && n <= |s|
    ensures AllDigits(s[..n]) && AllDigits(s[n..])
  {
    assert forall i :: 0 <= i < n ==> s[..n][i] == s[i];
    assert forall i :: 0 <= i < |s| - n ==> s[n..][i] == s[n + i];
  }

  lemma AppendAssocText(a: string, b: string, c: string)
    ensures a + b + c == a + (b + c)
  {
  }

  /** Dropping the commas from grouped digits leaves the digits. */
  lemma {:induction false} GroupDigitsRemoveCommas(s: string)
    requires AllDigits(s)
    ensures RemoveCommas(GroupDigits(s)) == s
  {
    if |s| <= 3 {
      RemoveCommasDigits(s);
    } else {
      var hi, lo := s[..|s| - 3], s[|s| - 3..];
      DigitsSplit(s, |s| - 3);
      GroupDigitsRemoveCommas(hi);
      var g := GroupDigits(hi);
      assert GroupDigits(s) == g + "," + lo;
      AppendAssocText(g, ",", lo);
      RemoveCommasGroup(g, lo);
      assert RemoveCommas(g) == hi;
      assert hi + lo == s;
    }
  }

  /** The grouped text of `n` reads as the plain decimal text once its commas
      are dropped. */
  lemma GroupedDigits(n: nat)
    ensures RemoveCommas(Grouped(n)) == Decimal(n)
  {
    GroupDigitsRemoveCommas(Decimal(n));
  }

  /** The order `sorted` puts strings in: lexicographic by character, a
      proper prefix first. */
  predicate Less(a: string, b: string)
    decreases |a|
  {
    |b| > 0 && (|a| == 0 || a[0] < b[0] || (a[0] == b[0] && Less(a[1..], b[1..])))
  }

  lemma {:induction false} LessIrreflexive(a: string)
    ensures !Less(a, a)
  {
    if |a| > 0 {
      LessIrreflexive(a[1..]);
    }
  }

  lemma {:induction false} LessTransitive(a: string, b: string, c: string)
    requires Less(a, b) && Less(b, c)
    ensures Less(a, c)
  {
    if |a| > 0 && a[0] == b[0] && b[0] == c[0] {
      LessTransitive(a[1..], b[1..], c[1..]);
    }
  }

  lemma {:induction false} LessTotal(a: string, b: string)
    ensures a == b || Less(a, b) || Less(b, a)
  {
    if |a| > 0 && |b| > 0 && a[0] == b[0] {
      LessTotal(a[1..], b[1..]);
      if a[1..] == b[1..] {
        assert a == [a[0]] + a[1..];
        assert b == [b[0]] + b[1..];
      }
    }
  }

  predicate StrictlySorted(s: seq<string>) {
    forall i, j :: 0 <= i < j < |s| ==> Less(s[i], s[j])
  }

  /** Insert `x` into a strictly sorted list unless it is already there. */
  function InsertUnique(x: string, s: seq<string>): (r: seq<string>)
    requires StrictlySorted(s)
    ensures StrictlySorted(r)
    ensures forall y :: y in r <==> y == x || y in s
  {
    if s == [] then [x]
    else if x == s[0] then s
    else if Less(x, s[0]) then
      assert forall j :: 0 <= j < |s| ==> Less(x, s[j]) by {
        forall j | 0 <= j < |s| ensures Less(x, s[j]) {
          if j > 0 { LessTransitive(x, s[0], s[j]); }
        }
      }
      [x] + s
    else
      LessTotal(x, s[0]);
      var rest := InsertUnique(x, s[1..]);
      assert forall y :: y in rest ==> Less(s[0], y);
      [s[0]] + rest
  }

  /** Python `sorted(set(xs))` (and JavaScript `[...new Set(xs)].sort()` on
      text of the Basic Multilingual Plane): the distinct values in order. */
  function SortedUnique(xs: seq<string>): (r: seq<string>)
    ensures StrictlySorted(r)
    ensures forall y :: y in r <==> y in xs
  {
    if xs == [] then [] else InsertUnique(xs[0], SortedUnique(xs[1..]))
  }

  /** A strictly sorted list holds no value twice. */
  lemma StrictlySortedDistinct(s: seq<string>, i: nat, j: nat)
    requires StrictlySorted(s) && i < j < |s|
    ensures s[i] != s[j]
  {
    LessIrreflexive(s[i]);
  }
}
