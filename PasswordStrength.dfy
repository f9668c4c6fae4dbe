/** The sign-up page's password-strength meter: four independent tests,
    a label and a colour chosen by how many pass, and four bars of which
    that many are lit. */
module PasswordStrength {
  import opened Strings

  predicate IsUpper(c: char) { 'A' <= c <= 'Z' }
  predicate IsDigit(c: char) { '0' <= c <= '9' }
  predicate IsLower(c: char) { 'a' <= c <= 'z' }
  /** A character outside `[A-Za-z0-9]`. */
  predicate IsSymbol(c: char) { !IsUpper(c) && !IsLower(c) && !IsDigit(c) }

  /** The UTF-16 code units of a character: two for one above U+FFFF,
      which JavaScript stores as a surrogate pair. */
  function Units(c: char): nat { if c as int > 0xFFFF then 2 else 1 }

  /** JavaScript's `password.length`: the number of UTF-16 code units. */
  function Utf16Length(p: string): nat {
    if p == [] then 0 else Units(p[0]) + Utf16Length(p[1..])
  }

  lemma {:induction false} Utf16LengthAppend(p: string, q: string)
    ensures Utf16Length(p + q) == Utf16Length(p) + Utf16Length(q)
  {
    if p != [] {
      assert (p + q)[0] == p[0] && (p + q)[1..] == p[1..] + q;
      Utf16LengthAppend(p[1..], q);
    } else {
      assert p + q == q;
    }
  }

  predicate LongEnough(p: string) { Utf16Length(p) >= 8 }
  predicate HasUpper(p: string) { exists i :: 0 <= i < |p| && IsUpper(p[i]) }
  predicate HasDigit(p: string) { exists i :: 0 <= i < |p| && IsDigit(p[i]) }
  predicate HasSymbol(p: string) { exists i :: 0 <= i < |p| && IsSymbol(p[i]) }

  function Indicator(b: bool): nat { if b then 1 else 0 }

  /** `pwStrength`: 0 for the empty password, otherwise one point per test
      passed. */
  function Strength(p: string): (s: nat)
    ensures s <= 4
    ensures p == "" ==> s == 0
  {
    if |p| == 0 then 0
    else Indicator(LongEnough(p)) + Indicator(HasUpper(p)) + Indicator(HasDigit(p)) + Indicator(HasSymbol(p))
  }

  /** The highest score is reached exactly when every test passes, and a
      score of 0 means the password is empty or passes none. */
  lemma StrengthExtremes(p: string)
    ensures Strength(p) == 4 <==> LongEnough(p) && HasUpper(p) && HasDigit(p) && HasSymbol(p)
    ensures Strength(p) == 0 <==> p == "" || (!LongEnough(p) && !HasUpper(p) && !HasDigit(p) && !HasSymbol(p))
  {
    if LongEnough(p) { assert p != ""; }
  }

  /** A non-empty password can score 0, so a score of 0 does not mean the
      box is empty. */
  lemma NonEmptyZero()
    ensures Strength("abc") == 0
  {
    var p := "abc";
    assert !HasUpper(p) by {
      forall i | 0 <= i < |p| ensures !IsUpper(p[i]) { }
    }
    assert !HasDigit(p) by {
      forall i | 0 <= i < |p| ensures !IsDigit(p[i]) { }
    }
    assert !HasSymbol(p) by {
      forall i | 0 <= i < |p| ensures !IsSymbol(p[i]) { assert IsLower(p[i]); }
    }
  }

  /** Length is counted in UTF-16 code units: four emoji are eight units,
      long enough, and each is a symbol, so they score 2. */
  lemma AstralCountsTwice()
    ensures Strength("\U{1F600}\U{1F600}\U{1F600}\U{1F600}") == 2
  {
    var p := "\U{1F600}\U{1F600}\U{1F600}\U{1F600}";
    assert Utf16Length(p) == 8 by {
      assert p[1..][1..][1..][1..] == [];
    }
    assert !HasUpper(p) by {
      forall i | 0 <= i < |p| ensures !IsUpper(p[i]) { }
    }
    assert !HasDigit(p) by {
      forall i | 0 <= i < |p| ensures !IsDigit(p[i]) { }
    }
    assert IsSymbol(p[0]);
  }

  /** A character present in `p` is still present once more text is typed. */
  lemma PresentInExtension(p: string, q: string, i: int)
    requires 0 <= i < |p|
    ensures 0 <= i < |p + q| && (p + q)[i] == p[i]
  {
  }

  /** Typing more characters never lowers the strength: every test that
      passes on `p` passes on `p + q`. */
  lemma StrengthMonotone(p: string, q: string)
    ensures Strength(p) <= Strength(p + q)
  {
    if p != "" {
      assert p + q != "" by { assert |p + q| == |p| + |q|; }
      Utf16LengthAppend(p, q);
      if HasUpper(p) {
        var i :| 0 <= i < |p| && IsUpper(p[i]);
        PresentInExtension(p, q, i);
      }
      if HasDigit(p) {
        var i :| 0 <= i < |p| && IsDigit(p[i]);
        PresentInExtension(p, q, i);
      }
      if HasSymbol(p) {
        var i :| 0 <= i < |p| && IsSymbol(p[i]);
        PresentInExtension(p, q, i);
      }
    }
  }

  /** `strLabels` and `strColors`. */
  function Labels(): seq<string> { ["", "Weak", "Fair", "Good", "Strong"] }
  function Colors(): seq<string> { ["bg-destructive", "bg-orange-400", "bg-yellow-400", "bg-safe", "bg-safe"] }
  /** The class of a bar that is not lit. */
  function Unlit(): string { "bg-muted" }

  /** The label under the bars, indexed by strength; empty only at 0. */
  function Label(p: string): (l: string)
    ensures l == "" <==> Strength(p) == 0
    ensures l in Labels()
  {
    Labels()[Strength(p)]
  }

  /** The four bars: bar `i` (1-based) takes the strength's colour when
      `i <= strength`, and the unlit class otherwise. */
  function Bars(p: string): (bars: seq<string>)
    ensures |bars| == 4
  {
    var s := Strength(p);
    seq(4, k => if k + 1 <= s then Colors()[s] else Unlit())
  }

  /** How many of the bars are lit. */
  function LitCount(bars: seq<string>): nat {
    if bars == [] then 0
    else Indicator(bars[0] != Unlit()) + LitCount(bars[1..])
  }

  /** A run of `n` lit bars followed by unlit ones has `n` lit. */
  lemma {:induction false} LitPrefix(bars: seq<string>, n: nat)
    requires n <= |bars|
    requires forall k :: 0 <= k < |bars| ==> (bars[k] != Unlit() <==> k < n)
    ensures LitCount(bars) == n
  {
    if bars != [] {
      if n > 0 {
        LitPrefix(bars[1..], n - 1);
      } else {
        LitPrefix(bars[1..], 0);
      }
    }
  }

  /** Exactly `pwStrength` of the four bars are lit, all at the left. */
  lemma BarsShowStrength(p: string)
    ensures LitCount(Bars(p)) == Strength(p)
    ensures forall k :: 0 <= k < 4 ==> (Bars(p)[k] != Unlit() <==> k < Strength(p))
  {
    var s := Strength(p);
    var bars := Bars(p);
    forall k | 0 <= k < 4 ensures bars[k] != Unlit() <==> k < s {
      if k < s { assert bars[k] == Colors()[s]; }
    }
    LitPrefix(bars, s);
  }

  /** The meter as shown: nothing for an empty password, otherwise the
      bars and the label. */
  function Meter(p: string): (m: Option<(seq<string>, string)>)
    ensures m.None? <==> p == ""
    ensures m.Some? ==> LitCount(m.value.0) == Strength(p) && m.value.1 in Labels()
  {
    BarsShowStrength(p);
    if |p| > 0 then Some((Bars(p), Label(p))) else None
  }
}
