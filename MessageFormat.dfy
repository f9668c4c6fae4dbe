/** The chat panel's text formatter: `FormattedMessage` cuts a reply into
    blocks (bullet lists, numbered lists, `## ` headings and paragraphs),
    and `InlineFormat` cuts one block's text into plain, `**bold**` and
    `*italic*` spans. Blocks carry the text each one hands to
    `InlineFormat`. */
module MessageFormat {
  import opened Strings

  // ---------------------------------------------------------------------
  // Line classification
  // ---------------------------------------------------------------------

  datatype ListKind = Bullet | Numbered

  datatype Block =
    | List(kind: ListKind, items: seq<string>)
    | Heading(text: string)
    | Paragraph(text: string)

  /** The marker class of the bullet pattern as the source file spells it:
      the bullet `•` (U+2022) saved as UTF-8 and read back as Windows-1252
      turns into the three characters `â`, `€` and `¢`. */
  const WrittenMarkers: set<char> := {'-', '*', '\U{E2}', '\U{20AC}', '\U{A2}'}

  /** The marker class the pattern is meant to hold: dash, star, bullet. */
  const BulletMarkers: set<char> := {'-', '*', '\U{2022}'}

  predicate IsDigit(c: char) {
    '0' <= c <= '9'
  }

  /** Markers the formatter can work with: none of them is white space or a
      digit, so a list line is never blank and never both kinds of item. */
  predicate ValidMarkers(markers: set<char>) {
    forall c :: c in markers ==> !IsSpace(c) && !IsDigit(c)
  }

  /** How many digits `s` starts with. */
  function LeadingDigits(s: string): (n: nat)
    ensures n <= |s|
  {
    if s == [] || !IsDigit(s[0]) then 0 else 1 + LeadingDigits(s[1..])
  }

  /** `^[markers]\s`: a marker, then one white-space character. */
  predicate IsBulletItem(line: string, markers: set<char>) {
    |line| >= 2 && line[0] in markers && IsSpace(line[1])
  }

  /** `^\d+\.\s`: digits, a dot, then one white-space character. */
  predicate IsNumberedItem(line: string) {
    var d := LeadingDigits(line);
    d >= 1 && d + 2 <= |line| && line[d] == '.' && IsSpace(line[d + 1])
  }

  predicate IsItem(line: string, kind: ListKind, markers: set<char>) {
    match kind
    case Bullet => IsBulletItem(line, markers)
    case Numbered => IsNumberedItem(line)
  }

  /** The line with its list prefix replaced by nothing. */
  function ItemText(line: string, kind: ListKind, markers: set<char>): string
    requires IsItem(line, kind, markers)
  {
    match kind
    case Bullet => line[2..]
    case Numbered => line[LeadingDigits(line) + 2..]
  }

  /** How many lines at the front of `lines` are items of `kind`. */
  function RunLength(lines: seq<string>, kind: ListKind, markers: set<char>): (n: nat)
    ensures n <= |lines|
    ensures lines != [] && IsItem(lines[0], kind, markers) ==> n >= 1
  {
    if lines == [] || !IsItem(lines[0], kind, markers) then 0
    else 1 + RunLength(lines[1..], kind, markers)
  }

  /** The item texts of that run. */
  function RunItems(lines: seq<string>, kind: ListKind, markers: set<char>): (items: seq<string>)
    ensures |items| == RunLength(lines, kind, markers)
  {
    if lines == [] || !IsItem(lines[0], kind, markers) then []
    else [ItemText(lines[0], kind, markers)] + RunItems(lines[1..], kind, markers)
  }

  /** The blocks of a reply cut into lines: blank lines are skipped; a line
      that is a bullet item opens a bullet list holding it and every
      following bullet item; then the same for numbered items; then a line
      starting with `## ` is a heading of the rest of the line; any other
      line is a paragraph of the whole line, untrimmed. */
  function Blocks(lines: seq<string>, markers: set<char>): seq<Block>
    decreases |lines|
  {
    if lines == [] then []
    else if IsBlank(lines[0]) then Blocks(lines[1..], markers)
    else if IsItem(lines[0], Bullet, markers) then
      [List(Bullet, RunItems(lines, Bullet, markers))] + Blocks(lines[RunLength(lines, Bullet, markers)..], markers)
    else if IsItem(lines[0], Numbered, markers) then
      [List(Numbered, RunItems(lines, Numbered, markers))] + Blocks(lines[RunLength(lines, Numbered, markers)..], markers)
    else if StartsWith(lines[0], "## ") then
      [Heading(lines[0][3..])] + Blocks(lines[1..], markers)
    else
      [Paragraph(lines[0])] + Blocks(lines[1..], markers)
  }

  // ---------------------------------------------------------------------
  // The formatter
  // ---------------------------------------------------------------------

  /** `FormattedMessage`: nothing at all for an empty reply; otherwise the
      blocks of its lines, collected by one scan whose index only moves
      forward and whose inner loops gather a list's run of items. */
  method FormattedMessage(content: string) returns (r: Option<seq<Block>>)
    ensures content == "" <==> r.None?
    ensures r.Some? ==> r.value == Blocks(SplitOn(content, '\n'), BulletMarkers)
  {
    if content == "" {
      return None;
    }
    var blocks := FormatLines(SplitOn(content, '\n'), BulletMarkers);
    return Some(blocks);
  }

  /** The scan over the lines of a non-empty reply. */
  method FormatLines(lines: seq<string>, markers: set<char>) returns (blocks: seq<Block>)
    ensures blocks == Blocks(lines, markers)
  {
    blocks := [];
    var i := 0;
    while i < |lines|
      invariant i <= |lines|
      invariant blocks + Blocks(lines[i..], markers) == Blocks(lines, markers)
    {
      var line := lines[i];
      TrimEmpty(line);
      if Trim(line) == "" {
        StepBlank(lines, i, markers);
        i := i + 1;
      } else if IsBulletItem(line, markers) || IsNumberedItem(line) {
        var kind := if IsBulletItem(line, markers) then Bullet else Numbered;
        var items, j := ReadRun(lines, i, kind, markers);
        StepList(lines, i, kind, markers);
        AppendAssoc(blocks, [List(kind, items)], Blocks(lines[j..], markers));
        blocks := blocks + [List(kind, items)];
        i := j;
      } else {
        var b := if StartsWith(line, "## ") then Heading(line[3..]) else Paragraph(line);
        StepLine(lines, i, markers);
        AppendAssoc(blocks, [b], Blocks(lines[i + 1..], markers));
        blocks := blocks + [b];
        i := i + 1;
      }
    }
    assert lines[i..] == [];
  }

  /** The inner grouping loop: the items of the run of `kind` lines starting
      at `i`, and the index just past it. */
  method ReadRun(lines: seq<string>, i: nat, kind: ListKind, markers: set<char>) returns (items: seq<string>, j: nat)
    requires i <= |lines|
    ensures items == RunItems(lines[i..], kind, markers)
    ensures j == i + RunLength(lines[i..], kind, markers) && j <= |lines|
  {
    items := [];
    j := i;
    while j < |lines| && IsItem(lines[j], kind, markers)
      invariant i <= j <= |lines|
      invariant items + RunItems(lines[j..], kind, markers) == RunItems(lines[i..], kind, markers)
      invariant (j - i) + RunLength(lines[j..], kind, markers) == RunLength(lines[i..], kind, markers)
    {
      RunStep(lines, j, kind, markers);
      AppendAssoc(items, [ItemText(lines[j], kind, markers)], RunItems(lines[j + 1..], kind, markers));
      items := items + [ItemText(lines[j], kind, markers)];
      j := j + 1;
    }
  }

  lemma RunStep(lines: seq<string>, j: nat, kind: ListKind, markers: set<char>)
    requires j < |lines| && IsItem(lines[j], kind, markers)
    ensures RunItems(lines[j..], kind, markers) == [ItemText(lines[j], kind, markers)] + RunItems(lines[j + 1..], kind, markers)
    ensures RunLength(lines[j..], kind, markers) == 1 + RunLength(lines[j + 1..], kind, markers)
  {
    assert lines[j..][0] == lines[j] && lines[j..][1..] == lines[j + 1..];
  }

  /** A line trims to nothing exactly when it is blank. */
  lemma TrimEmpty(line: string)
    ensures Trim(line) == "" <==> IsBlank(line)
  {
    TrimFacts(line);
  }

  lemma StepBlank(lines: seq<string>, i: nat, markers: set<char>)
    requires i < |lines| && IsBlank(lines[i])
    ensures Blocks(lines[i..], markers) == Blocks(lines[i + 1..], markers)
  {
    assert lines[i..][1..] == lines[i + 1..];
  }

  lemma StepList(lines: seq<string>, i: nat, kind: ListKind, markers: set<char>)
    requires i < |lines| && !IsBlank(lines[i])
    requires kind == (if IsItem(lines[i], Bullet, markers) then Bullet else Numbered)
    requires IsItem(lines[i], kind, markers)
    ensures var n := RunLength(lines[i..], kind, markers);
      Blocks(lines[i..], markers) == [List(kind, RunItems(lines[i..], kind, markers))] + Blocks(lines[i + n..], markers)
  {
    var rest := lines[i..];
    assert rest[0] == lines[i];
    var n := RunLength(rest, kind, markers);
    assert rest[n..] == lines[i + n..];
  }

  lemma StepLine(lines: seq<string>, i: nat, markers: set<char>)
    requires i < |lines| && !IsBlank(lines[i])
    requires !IsItem(lines[i], Bullet, markers) && !IsItem(lines[i], Numbered, markers)
    ensures var line := lines[i];
      Blocks(lines[i..], markers) ==
        [if StartsWith(line, "## ") then Heading(line[3..]) else Paragraph(line)] + Blocks(lines[i + 1..], markers)
  {
    var rest := lines[i..];
    assert rest[0] == lines[i] && rest[1..] == lines[i + 1..];
  }

  lemma AppendAssoc<T>(a: seq<T>, b: seq<T>, c: seq<T>)
    ensures a + (b + c) == (a + b) + c
  {
  }

  // ---------------------------------------------------------------------
  // What the blocks hold
  // ---------------------------------------------------------------------

  /** The block a non-blank line contributes on its own: a one-item list,
      a heading or a paragraph, by the same precedence as `Blocks`. */
  function LineEntry(line: string, markers: set<char>): Block {
    if IsItem(line, Bullet, markers) then List(Bullet, [ItemText(line, Bullet, markers)])
    else if IsItem(line, Numbered, markers) then List(Numbered, [ItemText(line, Numbered, markers)])
    else if StartsWith(line, "## ") then Heading(line[3..])
    else Paragraph(line)
  }

  /** The entries of the non-blank lines, in order. */
  function Entries(lines: seq<string>, markers: set<char>): seq<Block> {
    if lines == [] then []
    else (if IsBlank(lines[0]) then [] else [LineEntry(lines[0], markers)]) + Entries(lines[1..], markers)
  }

  /** A list cut back into one-item lists. */
  function Singles(kind: ListKind, items: seq<string>): seq<Block> {
    if items == [] then [] else [List(kind, [items[0]])] + Singles(kind, items[1..])
  }

  /** Blocks cut back into one entry per source line. */
  function Flatten(blocks: seq<Block>): seq<Block> {
    if blocks == [] then []
    else
      (match blocks[0]
       case List(kind, items) => Singles(kind, items)
       case _ => [blocks[0]]) + Flatten(blocks[1..])
  }

  lemma FlattenCons(b: Block, bs: seq<Block>)
    ensures Flatten([b] + bs) ==
      (match b case List(kind, items) => Singles(kind, items) case _ => [b]) + Flatten(bs)
  {
    assert ([b] + bs)[1..] == bs;
  }

  /** Both marker classes are usable: no white space, no digit. */
  lemma MarkersValid()
    ensures ValidMarkers(BulletMarkers) && ValidMarkers(WrittenMarkers)
  {
  }

  /** An item line is never blank, is never an item of the other kind
      first, and on its own gives a one-item list. */
  lemma ItemFacts(line: string, kind: ListKind, markers: set<char>)
    requires ValidMarkers(markers) && IsItem(line, kind, markers)
    ensures !IsBlank(line) && kind == (if IsItem(line, Bullet, markers) then Bullet else Numbered)
    ensures LineEntry(line, markers) == List(kind, [ItemText(line, kind, markers)])
  {
    if kind == Bullet {
      assert line[0] in markers;
    } else {
      assert IsDigit(line[0]);
    }
  }

  /** A run of list items gives the entries of its own lines. */
  lemma {:induction false} RunEntries(lines: seq<string>, kind: ListKind, markers: set<char>)
    requires ValidMarkers(markers)
    ensures var n := RunLength(lines, kind, markers);
      Singles(kind, RunItems(lines, kind, markers)) + Entries(lines[n..], markers) == Entries(lines, markers)
    decreases |lines|
  {
    var n := RunLength(lines, kind, markers);
    if n > 0 {
      var line := lines[0];
      ItemFacts(line, kind, markers);
      RunEntries(lines[1..], kind, markers);
      var t := RunItems(lines[1..], kind, markers);
      assert lines[n..] == lines[1..][n - 1..];
      var e := List(kind, [ItemText(line, kind, markers)]);
      assert Entries(lines, markers) == [e] + Entries(lines[1..], markers);
      assert Singles(kind, RunItems(lines, kind, markers)) == [e] + Singles(kind, t);
      AppendAssoc([e], Singles(kind, t), Entries(lines[n..], markers));
    } else {
      assert lines[0..] == lines;
    }
  }

  /** Every non-blank line lands in exactly one block, in line order, and a
      blank line in none: cut back into one entry per line, the blocks are
      the entries of the non-blank lines. */
  lemma {:induction false} BlocksCoverLines(lines: seq<string>, markers: set<char>)
    requires ValidMarkers(markers)
    ensures Flatten(Blocks(lines, markers)) == Entries(lines, markers)
    decreases |lines|
  {
    if lines != [] {
      var line := lines[0];
      if IsBlank(line) {
        BlocksCoverLines(lines[1..], markers);
      } else if IsItem(line, Bullet, markers) || IsItem(line, Numbered, markers) {
        var kind := if IsItem(line, Bullet, markers) then Bullet else Numbered;
        var n := RunLength(lines, kind, markers);
        BlocksCoverLines(lines[n..], markers);
        FlattenCons(List(kind, RunItems(lines, kind, markers)), Blocks(lines[n..], markers));
        RunEntries(lines, kind, markers);
        assert Entries(lines, markers) == Entries(lines, markers);
      } else {
        BlocksCoverLines(lines[1..], markers);
        FlattenCons(LineEntry(line, markers), Blocks(lines[1..], markers));
      }
    }
  }

  /** The run stops at the first line that is not an item of its kind (a
      blank line included), and every line before it is one. */
  lemma {:induction false} RunMaximal(lines: seq<string>, kind: ListKind, markers: set<char>)
    ensures var n := RunLength(lines, kind, markers);
      (forall k :: 0 <= k < n ==> IsItem(lines[k], kind, markers)) &&
      (n < |lines| ==> !IsItem(lines[n], kind, markers))
  {
    if lines != [] && IsItem(lines[0], kind, markers) {
      RunMaximal(lines[1..], kind, markers);
      var n := RunLength(lines, kind, markers);
      forall k | 1 <= k < n ensures IsItem(lines[k], kind, markers) {
        assert lines[k] == lines[1..][k - 1];
      }
    }
  }

  /** Lines that are all items of one kind make exactly one list, holding
      every line's item text in order. */
  lemma {:induction false} WholeRunIsOneList(lines: seq<string>, kind: ListKind, markers: set<char>)
    requires lines != [] && forall k :: 0 <= k < |lines| ==> IsItem(lines[k], kind, markers)
    requires kind == (if IsItem(lines[0], Bullet, markers) then Bullet else Numbered)
    requires ValidMarkers(markers)
    ensures Blocks(lines, markers) == [List(kind, seq(|lines|, k requires 0 <= k < |lines| => ItemText(lines[k], kind, markers)))]
  {
    RunWhole(lines, kind, markers);
    assert !IsBlank(lines[0]) by {
      if kind == Bullet { assert lines[0][0] in markers; } else { assert IsDigit(lines[0][0]); }
    }
    assert lines[|lines|..] == [];
  }

  lemma {:induction false} RunWhole(lines: seq<string>, kind: ListKind, markers: set<char>)
    requires forall k :: 0 <= k < |lines| ==> IsItem(lines[k], kind, markers)
    ensures RunLength(lines, kind, markers) == |lines|
    ensures RunItems(lines, kind, markers) == seq(|lines|, k requires 0 <= k < |lines| => ItemText(lines[k], kind, markers))
  {
    if lines != [] {
      forall k | 0 <= k < |lines| - 1 ensures IsItem(lines[1..][k], kind, markers) {
        assert lines[1..][k] == lines[k + 1];
      }
      RunWhole(lines[1..], kind, markers);
    }
  }

  // ---------------------------------------------------------------------
  // Inline spans
  // ---------------------------------------------------------------------

  datatype Span = Text(text: string) | Bold(text: string) | Italic(text: string)

  /** How many characters other than `*` start at position `p`. */
  function NonStarRun(s: string, p: nat): (k: nat)
    requires p <= |s|
    ensures p + k <= |s|
    decreases |s| - p
  {
    if p == |s| || s[p] == '*' then 0 else 1 + NonStarRun(s, p + 1)
  }

  /** The length of a match of `\*\*[^*]+\*\*` at `p`, 0 when there is none:
      the run of non-stars is maximal, so it is followed by a star and the
      pattern only needs a second one. */
  function BoldAt(s: string, p: nat): (n: nat)
    requires p <= |s|
    ensures p + n <= |s|
  {
    if p + 2 <= |s| && s[p] == '*' && s[p + 1] == '*' then
      var k := NonStarRun(s, p + 2);
      if k >= 1 && p + k + 4 <= |s| && s[p + k + 3] == '*' then k + 4 else 0
    else 0
  }

  /** The length of a match of `\*[^*]+\*` at `p`, 0 when there is none. */
  function ItalicAt(s: string, p: nat): (n: nat)
    requires p <= |s|
    ensures p + n <= |s|
  {
    if p < |s| && s[p] == '*' then
      var k := NonStarRun(s, p + 1);
      if k >= 1 && p + k + 2 <= |s| then k + 2 else 0
    else 0
  }

  /** The alternation tries the bold pattern first. */
  function MatchAt(s: string, p: nat): (n: nat)
    requires p <= |s|
    ensures p + n <= |s|
  {
    if BoldAt(s, p) > 0 then BoldAt(s, p) else ItalicAt(s, p)
  }

  /** Match lengths `ms` for `s`, one per position, none running past the
      end. */
  predicate Fits(s: string, ms: seq<nat>) {
    |ms| == |s| && forall q :: 0 <= q < |ms| ==> q + ms[q] <= |s|
  }

  /** What the pattern finds when tried at each position of `s`. */
  function Matches(s: string): (ms: seq<nat>)
    ensures Fits(s, ms)
  {
    seq(|s|, q requires 0 <= q < |s| => MatchAt(s, q))
  }

  /** `split` with a capturing pattern from position `q`, the current piece
      having started at `from`, `ms` holding the match length at each
      position: each match closes the piece before it and is kept as a
      piece of its own; the text after the last match is the last piece. */
  function Scan(s: string, ms: seq<nat>, from: nat, q: nat): seq<string>
    requires Fits(s, ms) && from <= q <= |s|
    decreases |s| - q
  {
    if q == |s| then [s[from..]]
    else if ms[q] > 0 then [s[from..q], s[q..q + ms[q]]] + Scan(s, ms, q + ms[q], q + ms[q])
    else Scan(s, ms, from, q + 1)
  }

  /** `text.split(/(\*\*[^*]+\*\*|\*[^*]+\*)/g)` */
  function InlineSplit(text: string): seq<string> {
    Scan(text, Matches(text), 0, 0)
  }

  /** JavaScript `s.slice(start, -fromEnd)`: empty once the ends cross. */
  function Slice(s: string, start: nat, fromEnd: nat): string {
    if start + fromEnd < |s| then s[start..|s| - fromEnd] else ""
  }

  /** The element one piece renders as. */
  function ToSpan(part: string): Span {
    if StartsWith(part, "**") && EndsWith(part, "**") then Bold(Slice(part, 2, 2))
    else if StartsWith(part, "*") && EndsWith(part, "*") then Italic(Slice(part, 1, 1))
    else Text(part)
  }

  /** `InlineFormat`: the split, then one element per piece. */
  function InlineFormat(text: string): seq<Span> {
    var parts := InlineSplit(text);
    seq(|parts|, i requires 0 <= i < |parts| => ToSpan(parts[i]))
  }

  predicate StarFree(x: string) {
    '*' !in x
  }

  /** A piece the pattern matched: `**x**` or `*x*` with `x` non-empty and
      free of stars. */
  predicate IsMatch(t: string) {
    (|t| >= 5 && t[..2] == "**" && t[|t| - 2..] == "**" && StarFree(t[2..|t| - 2])) ||
    (|t| >= 3 && t[0] == '*' && t[|t| - 1] == '*' && StarFree(t[1..|t| - 1]))
  }

  lemma {:induction false} NonStarRunFree(s: string, p: nat)
    requires p <= |s|
    ensures StarFree(s[p..p + NonStarRun(s, p)])
    ensures p + NonStarRun(s, p) < |s| ==> s[p + NonStarRun(s, p)] == '*'
    decreases |s| - p
  {
    if p < |s| && s[p] != '*' {
      NonStarRunFree(s, p + 1);
      var k := NonStarRun(s, p);
      assert s[p..p + k] == [s[p]] + s[p + 1..p + k];
    }
  }

  /** What `MatchAt` finds is a match. */
  lemma MatchAtShape(s: string, q: nat)
    requires q <= |s| && MatchAt(s, q) > 0
    ensures IsMatch(s[q..q + MatchAt(s, q)])
  {
    if BoldAt(s, q) > 0 {
      BoldShape(s, q);
    } else {
      ItalicShape(s, q);
    }
  }

  lemma BoldShape(s: string, q: nat)
    requires q <= |s| && BoldAt(s, q) > 0
    ensures IsMatch(s[q..q + BoldAt(s, q)])
  {
    var k := NonStarRun(s, q + 2);
    NonStarRunFree(s, q + 2);
    var n := BoldAt(s, q);
    assert n == k + 4;
    SliceOfSlice(s, q, n, 0, 2);
    SliceOfSlice(s, q, n, 2, n - 2);
    SliceOfSlice(s, q, n, n - 2, n);
  }

  /** A slice of a slice is a slice of the whole. */
  lemma SliceOfSlice(s: string, q: nat, n: nat, a: nat, b: nat)
    requires q + n <= |s| && a <= b <= n
    ensures s[q..q + n][a..b] == s[q + a..q + b]
  {
    var t := s[q..q + n];
    forall k | 0 <= k < b - a ensures t[a..b][k] == s[q + a..q + b][k] {
      assert t[a + k] == s[q + a + k];
    }
  }

  lemma ItalicShape(s: string, q: nat)
    requires q <= |s| && ItalicAt(s, q) > 0
    ensures IsMatch(s[q..q + ItalicAt(s, q)])
  {
    var k := NonStarRun(s, q + 1);
    NonStarRunFree(s, q + 1);
    var n := ItalicAt(s, q);
    assert n == k + 2;
    var t := s[q..q + n];
    assert t[0] == s[q] && t[|t| - 1] == s[q + 1 + k];
    SliceOfSlice(s, q, n, 1, n - 1);
  }

  /** Joining the pieces gives the text back. */
  lemma {:induction false} ScanConcat(s: string, ms: seq<nat>, from: nat, q: nat)
    requires Fits(s, ms) && from <= q <= |s|
    ensures Concat(Scan(s, ms, from, q)) == s[from..]
    decreases |s| - q
  {
    if q < |s| {
      var n := ms[q];
      if n > 0 {
        ScanConcat(s, ms, q + n, q + n);
        ConcatPair(s[from..q], s[q..q + n], Scan(s, ms, q + n, q + n));
        SliceThree(s, from, q, q + n);
      } else {
        ScanConcat(s, ms, from, q + 1);
      }
    } else {
      ConcatCons(s[from..], []);
    }
  }

  lemma ConcatCons(x: string, rest: seq<string>)
    ensures Concat([x] + rest) == x + Concat(rest)
  {
    assert ([x] + rest)[1..] == rest;
  }

  lemma ConcatPair(a: string, m: string, rest: seq<string>)
    ensures Concat([a, m] + rest) == a + (m + Concat(rest))
  {
    assert [a, m] + rest == [a] + ([m] + rest);
    ConcatCons(a, [m] + rest);
    ConcatCons(m, rest);
  }

  lemma SliceThree(s: string, from: nat, q: nat, e: nat)
    requires from <= q <= e <= |s|
    ensures s[from..] == s[from..q] + (s[q..e] + s[e..])
  {
  }

  /** Every positive match length in `ms` marks a match. */
  predicate MarksMatches(s: string, ms: seq<nat>)
    requires Fits(s, ms)
  {
    forall q :: 0 <= q < |ms| && ms[q] > 0 ==> IsMatch(s[q..q + ms[q]])
  }

  lemma MatchesMarked(s: string)
    ensures MarksMatches(s, Matches(s))
  {
    var ms := Matches(s);
    forall q | 0 <= q < |ms| && ms[q] > 0 ensures IsMatch(s[q..q + ms[q]]) {
      assert ms[q] == MatchAt(s, q);
      MatchAtShape(s, q);
    }
  }

  /** The pieces alternate: an odd number of them, and every odd-numbered
      one (counting from zero) is a match. */
  lemma {:induction false} ScanAlternates(s: string, ms: seq<nat>, from: nat, q: nat)
    requires Fits(s, ms) && MarksMatches(s, ms) && from <= q <= |s|
    ensures Alternating(Scan(s, ms, from, q))
    decreases |s| - q
  {
    if q < |s| {
      var n := ms[q];
      if n > 0 {
        ScanAlternates(s, ms, q + n, q + n);
        AlternatesCons(s[from..q], s[q..q + n], Scan(s, ms, q + n, q + n));
      } else {
        ScanAlternates(s, ms, from, q + 1);
      }
    }
  }

  /** Alternating pieces: odd in number, odd-numbered ones matches. */
  predicate Alternating(r: seq<string>) {
    |r| % 2 == 1 && forall i :: 0 <= i < |r| && i % 2 == 1 ==> IsMatch(r[i])
  }

  lemma AlternatesCons(a: string, m: string, rest: seq<string>)
    requires IsMatch(m) && Alternating(rest)
    ensures Alternating([a, m] + rest)
  {
    var r := [a, m] + rest;
    forall i | 2 <= i < |r| ensures r[i] == rest[i - 2] { }
  }

  /** A matched piece renders as bold or italic of what lies between its
      stars, which is not empty and holds no star. */
  lemma MatchSpan(t: string)
    requires IsMatch(t)
    ensures var sp := ToSpan(t);
      sp.text != "" && StarFree(sp.text) && !sp.Text? &&
      t == (if sp.Bold? then "**" + sp.text + "**" else "*" + sp.text + "*")
  {
    assert t[..2][1] == t[1];
    if t[1] == '*' {
      assert t[1..|t| - 1][0] == t[1];
      assert t[..2] == "**" && t[|t| - 2..] == "**";
      assert ToSpan(t) == Bold(t[2..|t| - 2]);
      assert t == t[..2] + t[2..|t| - 2] + t[|t| - 2..];
    } else {
      assert t[..1] == "*" && t[|t| - 1..] == "*";
      assert ToSpan(t) == Italic(t[1..|t| - 1]);
      assert t == t[..1] + t[1..|t| - 1] + t[|t| - 1..];
    }
  }

  /** `InlineFormat` cuts the whole text into pieces that join back to it,
      one element per piece; the odd-numbered pieces are matches, each
      rendered as bold or italic of its inside. (A plain piece renders as
      text, except a lone `*` or `**`: see `LoneStars`.) */
  lemma InlineFormatParts(text: string)
    ensures var parts, spans := InlineSplit(text), InlineFormat(text);
      Concat(parts) == text && |spans| == |parts| && |parts| % 2 == 1 &&
      (forall i :: 0 <= i < |parts| && i % 2 == 1 ==>
        IsMatch(parts[i]) && spans[i].text != "" && StarFree(spans[i].text) && !spans[i].Text? &&
        parts[i] == (if spans[i].Bold? then "**" + spans[i].text + "**" else "*" + spans[i].text + "*"))
  {
    var parts, spans := InlineSplit(text), InlineFormat(text);
    ScanConcat(text, Matches(text), 0, 0);
    MatchesMarked(text);
    ScanAlternates(text, Matches(text), 0, 0);
    forall i | 0 <= i < |parts| && i % 2 == 1
      ensures spans[i].text != "" && StarFree(spans[i].text) && !spans[i].Text?
      ensures parts[i] == (if spans[i].Bold? then "**" + spans[i].text + "**" else "*" + spans[i].text + "*")
    {
      assert spans[i] == ToSpan(parts[i]);
      MatchSpan(parts[i]);
    }
  }

  /** Where piece `i` of `parts` starts in the text they join into. */
  function Offset(parts: seq<string>, i: nat): nat
    requires i <= |parts|
  {
    |Concat(parts[..i])|
  }

  /** A piece of `s` at offset `o` as the pattern sees it: a match piece is
      exactly what the pattern matches at `o`, and no position inside a
      plain piece starts a match. */
  predicate FoundAt(s: string, part: string, o: nat, isMatch: bool) {
    o + |part| <= |s| &&
    (isMatch ==> MatchAt(s, o) == |part|) &&
    (!isMatch ==> forall r :: o <= r < o + |part| ==> MatchAt(s, r) == 0)
  }

  lemma OffsetPair(a: string, m: string, rest: seq<string>, i: nat)
    requires 2 <= i <= |rest| + 2
    ensures Offset([a, m] + rest, i) == |a| + |m| + Offset(rest, i - 2)
  {
    assert ([a, m] + rest)[..i] == [a, m] + rest[..i - 2];
    ConcatPair(a, m, rest[..i - 2]);
  }

  /** Every piece of `ps`, laid out from offset `from`, is found as the
      pattern finds it. */
  predicate AllFound(s: string, ps: seq<string>, from: nat) {
    forall i :: 0 <= i < |ps| ==> FoundAt(s, ps[i], from + Offset(ps, i), i % 2 == 1)
  }

  lemma {:induction false} ScanFound(s: string, ms: seq<nat>, from: nat, q: nat)
    requires ms == Matches(s) && from <= q <= |s|
    requires forall r :: from <= r < q ==> MatchAt(s, r) == 0
    ensures AllFound(s, Scan(s, ms, from, q), from)
    decreases |s| - q
  {
    if q == |s| {
      FoundLast(s, from);
    } else if ms[q] > 0 {
      var n := ms[q];
      ScanFound(s, ms, q + n, q + n);
      FoundPair(s, from, q, n, Scan(s, ms, q + n, q + n));
    } else {
      ScanFound(s, ms, from, q + 1);
    }
  }

  /** The text after the last match is plain. */
  lemma FoundLast(s: string, from: nat)
    requires from <= |s|
    requires forall r :: from <= r < |s| ==> MatchAt(s, r) == 0
    ensures AllFound(s, [s[from..]], from)
  {
    var ps := [s[from..]];
    assert ps[..0] == [];
  }

  /** A plain stretch, a match right after it, then pieces already found. */
  lemma FoundPair(s: string, from: nat, q: nat, n: nat, rest: seq<string>)
    requires from <= q && q + n <= |s| && n > 0 && MatchAt(s, q) == n
    requires forall r :: from <= r < q ==> MatchAt(s, r) == 0
    requires AllFound(s, rest, q + n)
    ensures AllFound(s, [s[from..q], s[q..q + n]] + rest, from)
  {
    var a, m := s[from..q], s[q..q + n];
    var ps := [a, m] + rest;
    forall i | 0 <= i < |ps| ensures FoundAt(s, ps[i], from + Offset(ps, i), i % 2 == 1) {
      if i == 0 {
        assert ps[..0] == [];
      } else if i == 1 {
        assert ps[..1] == [a] + [];
        ConcatCons(a, []);
      } else {
        OffsetPair(a, m, rest, i);
        var j := i - 2;
        assert ps[i] == rest[j];
        assert FoundAt(s, rest[j], q + n + Offset(rest, j), j % 2 == 1);
      }
    }
  }

  /** The converse of `InlineFormatParts`: the split finds every match.
      A match piece is exactly what the pattern matches where it stands,
      and no plain piece holds a position where the pattern matches, so
      the pieces are those of the leftmost-first search. */
  lemma InlineFormatFound(text: string)
    ensures var parts := InlineSplit(text);
      forall i :: 0 <= i < |parts| ==> FoundAt(text, parts[i], Offset(parts, i), i % 2 == 1)
  {
    ScanFound(text, Matches(text), 0, 0);
    var parts := InlineSplit(text);
    assert parts == Scan(text, Matches(text), 0, 0);
    forall i | 0 <= i < |parts| ensures FoundAt(text, parts[i], Offset(parts, i), i % 2 == 1) {
      assert FoundAt(text, parts[i], 0 + Offset(parts, i), i % 2 == 1);
    }
  }

  /** How many non-stars start at `p` when the first star after `p` is at
      `e`. */
  lemma {:induction false} NonStarRunTo(s: string, p: nat, e: nat)
    requires p <= e < |s| && s[e] == '*'
    requires forall r :: p <= r < e ==> s[r] != '*'
    ensures NonStarRun(s, p) == e - p
    decreases e - p
  {
    if p < e {
      NonStarRunTo(s, p + 1, e);
    }
  }

  /** `**x**` with a non-empty, star-free `x` is one bold element between two
      empty text elements. */
  lemma BoldFound(x: string)
    requires x != "" && StarFree(x)
    ensures InlineFormat("**" + x + "**") == [Text(""), Bold(x), Text("")]
  {
    var s := "**" + x + "**";
    var n := |s|;
    forall r | 2 <= r < n - 2 ensures s[r] != '*' {
      assert s[r] == x[r - 2];
    }
    NonStarRunTo(s, 2, n - 2);
    assert MatchAt(s, 0) == n;
    var ms := Matches(s);
    assert ms[0] == n;
    assert s[0..0] == "" && s[0..n] == s && s[n..] == "";
    assert InlineSplit(s) == [s[0..0], s[0..n]] + Scan(s, ms, n, n);
    assert InlineSplit(s) == ["", s, ""];
    assert s[..2] == "**" && s[n - 2..] == "**" && s[2..n - 2] == x;
    assert ToSpan(s) == Bold(x);
  }

  /** `*x*` with a non-empty, star-free `x` is one italic element between two
      empty text elements. */
  lemma ItalicFound(x: string)
    requires x != "" && StarFree(x)
    ensures InlineFormat("*" + x + "*") == [Text(""), Italic(x), Text("")]
  {
    var s := "*" + x + "*";
    var n := |s|;
    forall r | 1 <= r < n - 1 ensures s[r] != '*' {
      assert s[r] == x[r - 1];
    }
    NonStarRunTo(s, 1, n - 1);
    assert s[1] == x[0];
    assert BoldAt(s, 0) == 0;
    assert MatchAt(s, 0) == n;
    var ms := Matches(s);
    assert ms[0] == n;
    assert s[0..0] == "" && s[0..n] == s && s[n..] == "";
    assert InlineSplit(s) == [s[0..0], s[0..n]] + Scan(s, ms, n, n);
    assert InlineSplit(s) == ["", s, ""];
    assert !StartsWith(s, "**");
    assert s[..1] == "*" && s[n - 1..] == "*" && s[1..n - 1] == x;
    assert ToSpan(s) == Italic(x);
  }

  /** A plain piece made of one or two stars alone renders as an empty
      italic or bold element: `*` and `**` pass the start and end tests. */
  lemma LoneStars()
    ensures InlineFormat("*") == [Italic("")]
    ensures InlineFormat("**") == [Bold("")]
  {
    assert Matches("*") == [0];
    assert MatchAt("**", 0) == 0 && MatchAt("**", 1) == 0;
    assert Matches("**") == [0, 0];
    assert InlineSplit("*") == ["*"];
    assert InlineSplit("**") == ["**"];
  }

  // ---------------------------------------------------------------------
  // The bullet marker as written
  // ---------------------------------------------------------------------

  /** A lone line that is a bullet item makes a one-item bullet list. */
  lemma LoneBullet(line: string, markers: set<char>)
    requires IsBulletItem(line, markers) && !IsBlank(line)
    ensures Blocks([line], markers) == [List(Bullet, [line[2..]])]
  {
    var one: seq<string> := [line];
    assert one[1..] == [];
    assert RunItems([line], Bullet, markers) == [line[2..]];
  }

  /** As written, a reply line `• a` is not a bullet item but a paragraph,
      while a line starting with `¢ ` is one. */
  lemma WrittenBulletMissed()
    ensures Blocks(["\U{2022} a"], WrittenMarkers) == [Paragraph("\U{2022} a")]
    ensures Blocks(["\U{A2} a"], WrittenMarkers) == [List(Bullet, ["a"])]
  {
    var l1: string, l2: string := "\U{2022} a", "\U{A2} a";
    assert !IsSpace(l1[0]) && !IsSpace(l2[0]);
    assert LeadingDigits(l1) == 0;
    assert l1[..3] != "## ";
    var one: seq<string> := [l1];
    assert one[1..] == [];
    assert l2[2..] == "a";
    LoneBullet(l2, WrittenMarkers);
  }

  /** With the intended class the `•` line opens a one-item bullet list. */
  lemma IntendedBulletFound()
    ensures Blocks(["\U{2022} a"], BulletMarkers) == [List(Bullet, ["a"])]
  {
    var l1 := "\U{2022} a";
    assert !IsSpace(l1[0]);
    assert l1[2..] == "a";
    LoneBullet(l1, BulletMarkers);
  }
}
