/** The recommendation service of backend/main.py: filtering the college
    table against a student's preferences, scoring and classifying each
    eligible college, ranking them, the rule-based explanation, the summary
    line, and the drop-down metadata. The language-model explanation is a
    parameter of the model. */
module Recommend {
  import opened Strings

  datatype College = College(
    id: int, name: string, state: string, city: string, course: string, exam: string,
    closingRank: int, fees: int, collegeType: string, nirfRanking: int, placementRate: int)

  datatype Prefs = Prefs(
    exam: string, rank: int, budgetMin: int, budgetMax: int, state: string,
    course: string, collegeType: string, useAI: bool)

  /** What request validation guarantees of every preference record that
      reaches the endpoints: a positive rank and budget ceiling, a
      non-negative budget floor. */
  predicate ValidPrefs(p: Prefs) {
    p.rank > 0 && p.budgetMin >= 0 && p.budgetMax > 0
  }

  datatype Chance = Safe | Target | Dream

  function ChanceName(ch: Chance): string {
    match ch
    case Safe => "Safe"
    case Target => "Target"
    case Dream => "Dream"
  }

  /** How far a chance is from a sure admission: Safe < Target < Dream. */
  function Risk(ch: Chance): nat {
    match ch
    case Safe => 0
    case Target => 1
    case Dream => 2
  }

  /** `classify_chance`: the ratio of the student's rank to the closing rank
      decides the tag; the decimal thresholds are compared exactly by
      cross-multiplying. */
  function ClassifyChance(studentRank: int, closingRank: int): (ch: Chance)
    requires closingRank > 0
    ensures var ratio := (studentRank as real) / (closingRank as real);
      (ch == Safe <==> ratio <= 0.7) &&
      (ch == Target <==> 0.7 < ratio <= 1.0) &&
      (ch == Dream <==> 1.0 < ratio)
  {
    RatioFacts(studentRank, closingRank);
    if 10 * studentRank <= 7 * closingRank then Safe
    else if studentRank <= closingRank then Target
    else Dream
  }

  /** Comparing a quotient by a positive divisor is comparing the dividend
      with the multiplied bound. */
  lemma DivLe(a: real, c: real, k: real)
    requires c > 0.0
    ensures a / c <= k <==> a <= k * c
  {
    var q := a / c;
    assert q * c == a;
    if q <= k {
      assert (k - q) * c >= 0.0;
    } else {
      assert (q - k) * c > 0.0;
    }
  }

  lemma RatioFacts(a: int, c: int)
    requires c > 0
    ensures (a as real) / (c as real) <= 0.7 <==> 10 * a <= 7 * c
    ensures (a as real) / (c as real) <= 1.0 <==> a <= c
  {
    DivLe(a as real, c as real, 0.7);
    DivLe(a as real, c as real, 1.0);
  }

  /** A worse (larger) rank never yields a safer tag. */
  lemma {:induction false} ChanceMonotone(rank1: int, rank2: int, closingRank: int)
    requires closingRank > 0 && rank1 <= rank2
    ensures Risk(ClassifyChance(rank1, closingRank)) <= Risk(ClassifyChance(rank2, closingRank))
  {
    RatioFacts(rank1, closingRank);
    RatioFacts(rank2, closingRank);
  }

  /** The last filter test of `filter_colleges`: the rank is not beyond the
      closing rank plus a margin of 30% of the rank itself. */
  predicate WithinRankMargin(rank: int, closingRank: int)
    ensures WithinRankMargin(rank, closingRank) <==> 7 * rank <= 10 * closingRank
  {
    !((rank as real) > (closingRank as real) + (rank as real) * 0.3)
  }

  /** The tests `filter_colleges` applies to one college, in source order. */
  predicate Keep(c: College, p: Prefs)
    ensures Keep(c, p) && p.rank > 0 ==> c.closingRank > 0 && 10 * c.closingRank + 3 * p.rank >= 10 * p.rank
  {
    c.exam == p.exam
    && c.course == p.course
    && c.fees <= p.budgetMax
    && (p.state == "" || p.state == "Any" || c.state == p.state)
    && (p.collegeType == "Any" || c.collegeType == p.collegeType)
    && WithinRankMargin(p.rank, c.closingRank)
  }

  /** The colleges of `cs` that pass the filter, in their order. */
  function Filtered(cs: seq<College>, p: Prefs): (r: seq<College>)
    ensures |r| <= |cs|
    ensures forall k :: 0 <= k < |r| ==> Keep(r[k], p) && r[k] in cs
  {
    if cs == [] then []
    else
      var last := cs[|cs| - 1];
      Filtered(cs[..|cs| - 1], p) + (if Keep(last, p) then [last] else [])
  }

  /** The positions of `cs` whose college passes the filter, ascending. */
  function KeptPositions(cs: seq<College>, p: Prefs): seq<nat> {
    if cs == [] then []
    else KeptPositions(cs[..|cs| - 1], p) + (if Keep(cs[|cs| - 1], p) then [|cs| - 1] else [])
  }

  /** `filter_colleges` keeps an order-preserving subsequence of its input:
      exactly the colleges at the positions that pass every test; nothing
      else is dropped. */
  lemma FilteredIsKeptSubsequence(cs: seq<College>, p: Prefs)
    ensures var r, ix := Filtered(cs, p), KeptPositions(cs, p);
      |r| == |ix| &&
      (forall k :: 0 <= k < |ix| ==> ix[k] < |cs| && r[k] == cs[ix[k]]) &&
      (forall k, l :: 0 <= k < l < |ix| ==> ix[k] < ix[l]) &&
      (forall i :: 0 <= i < |cs| ==> (i in ix <==> Keep(cs[i], p)))
  {
    KeptPositionsPick(cs, p);
    KeptPositionsAscending(cs, p);
    KeptPositionsExact(cs, p);
  }

  /** The kept colleges are the colleges at the kept positions. */
  lemma {:induction false} KeptPositionsPick(cs: seq<College>, p: Prefs)
    ensures var r, ix := Filtered(cs, p), KeptPositions(cs, p);
      |r| == |ix| && forall k :: 0 <= k < |ix| ==> ix[k] < |cs| && r[k] == cs[ix[k]]
  {
    if cs != [] {
      var init := cs[..|cs| - 1];
      KeptPositionsPick(init, p);
      assert forall i :: 0 <= i < |init| ==> cs[i] == init[i];
    }
  }

  /** The kept positions ascend and stay below `|cs|`. */
  lemma {:induction false} KeptPositionsAscending(cs: seq<College>, p: Prefs)
    ensures forall k :: 0 <= k < |KeptPositions(cs, p)| ==> KeptPositions(cs, p)[k] < |cs|
    ensures forall k, l :: 0 <= k < l < |KeptPositions(cs, p)| ==> KeptPositions(cs, p)[k] < KeptPositions(cs, p)[l]
  {
    if cs != [] {
      var init := cs[..|cs| - 1];
      KeptPositionsAscending(init, p);
      assert KeptPositions(cs, p) == KeptPositions(init, p) + (if Keep(cs[|cs| - 1], p) then [|cs| - 1] else []);
    }
  }

  /** A position is kept exactly when its college passes the filter. */
  lemma {:induction false} KeptPositionsExact(cs: seq<College>, p: Prefs)
    ensures forall i :: 0 <= i < |cs| ==> (i in KeptPositions(cs, p) <==> Keep(cs[i], p))
  {
    if cs != [] {
      var init := cs[..|cs| - 1];
      KeptPositionsExact(init, p);
      KeptPositionsAscending(init, p);
      assert forall i :: 0 <= i < |init| ==> cs[i] == init[i];
    }
  }

  /** `filter_colleges`: one pass over the table, skipping a college at the
      first test it fails. */
  method FilterColleges(all: seq<College>, p: Prefs) returns (filtered: seq<College>)
    ensures filtered == Filtered(all, p)
  {
    filtered := [];
    for i := 0 to |all|
      invariant filtered == Filtered(all[..i], p)
    {
      assert all[..i + 1][..i] == all[..i];
      var c := all[i];
      if c.exam != p.exam { continue; }
      if c.course != p.course { continue; }
      if c.fees > p.budgetMax { continue; }
      if p.state != "" && p.state != "Any" && c.state != p.state { continue; }
      if p.collegeType != "Any" && c.collegeType != p.collegeType { continue; }
      if (p.rank as real) > (c.closingRank as real) + (p.rank as real) * 0.3 { continue; }
      filtered := filtered + [c];
    }
    assert all[..|all|] == all;
  }

  function Max0(x: real): real {
    if x < 0.0 then 0.0 else x
  }

  /** `max(0, min(1, x))`. */
  function Clamp01(x: real): (r: real)
    ensures 0.0 <= r <= 1.0
    ensures 0.0 <= x <= 1.0 ==> r == x
  {
    Max0(if x < 1.0 then x else 1.0)
  }

  /** `rank_proximity`: how far the rank is inside the closing rank widened
      by the 30% margin, clamped to [0, 1]. The divisor
      `closing_rank + 0.3 * rank` must not be zero; the precondition states
      that times ten. */
  function RankProximity(rank: int, closingRank: int): (r: real)
    requires 10 * closingRank + 3 * rank != 0
    ensures 0.0 <= r <= 1.0
  {
    assert (closingRank as real) + (rank as real) * 0.3 == (10 * closingRank + 3 * rank) as real / 10.0;
    Clamp01(1.0 - (rank as real) / ((closingRank as real) + (rank as real) * 0.3))
  }

  /** For a fixed positive closing rank, a better (smaller) positive rank
      never lowers the proximity. */
  lemma RankProximityMonotone(rank1: int, rank2: int, closingRank: int)
    requires 0 < rank1 <= rank2 && closingRank > 0
    ensures RankProximity(rank2, closingRank) <= RankProximity(rank1, closingRank)
  {
    RatioGrows(rank1 as real, rank2 as real, closingRank as real);
  }

  /** `a / (c + 0.3 a)` grows with `a` for a positive `c`. */
  lemma RatioGrows(a: real, b: real, c: real)
    requires 0.0 < a <= b && c > 0.0
    ensures a / (c + a * 0.3) <= b / (c + b * 0.3)
  {
    var da, db := c + a * 0.3, c + b * 0.3;
    var x, y := a / da, b / db;
    assert x * da == a && y * db == b;
    assert a * db <= b * da by {
      assert a * db == a * c + a * b * 0.3;
      assert b * da == b * c + a * b * 0.3;
      assert a * c <= b * c;
    }
    assert (x - y) * (da * db) == a * db - b * da by {
      assert (x - y) * (da * db) == (x * da) * db - (y * db) * da;
    }
    MulPositive(da, db);
    if x > y {
      MulPositive(x - y, da * db);
    }
  }

  lemma MulPositive(u: real, v: real)
    requires u > 0.0 && v > 0.0
    ensures u * v > 0.0
  {
  }

  /** `nirf_score`: 1 for rank 0, falling by 0.01 per place, never below 0. */
  function NirfScore(nirfRanking: int): (r: real)
    ensures r >= 0.0
    ensures nirfRanking >= 0 ==> r <= 1.0
  {
    Max0((100.0 - nirfRanking as real) / 100.0)
  }

  /** `budget_fit`: the share of the budget left after the fees, never below
      0, and 0 outright when there is no positive budget. */
  function BudgetFit(fees: int, budgetMax: int): (r: real)
    ensures r >= 0.0
    ensures budgetMax <= 0 ==> r == 0.0
    ensures budgetMax > 0 && fees >= budgetMax ==> r == 0.0
    ensures fees >= 0 ==> r <= 1.0
  {
    if budgetMax > 0 then
      var share := (fees as real) / (budgetMax as real);
      assert fees >= budgetMax ==> share >= 1.0 by {
        assert share * (budgetMax as real) == fees as real;
      }
      assert fees >= 0 ==> share >= 0.0;
      Max0(1.0 - share)
    else 0.0
  }

  /** The weighted sum inside `score_college`, before rounding: weights 0.4,
      0.2, 0.2 and 0.2 on rank proximity, NIRF, placement and budget fit. */
  function UnroundedScore(c: College, p: Prefs): (s: real)
    requires 10 * c.closingRank + 3 * p.rank != 0
    ensures 0 <= c.placementRate <= 100 && c.nirfRanking >= 0 && c.fees >= 0 ==> 0.0 <= s <= 100.0
  {
    var rp := RankProximity(p.rank, c.closingRank);
    var ns := NirfScore(c.nirfRanking);
    var ps := (c.placementRate as real) / 100.0;
    var bf := BudgetFit(c.fees, p.budgetMax);
    (0.4 * rp + 0.2 * ns + 0.2 * ps + 0.2 * bf) * 100.0
  }

  /** Python's `round` on a real: the nearest integer, halves to the even
      neighbour. */
  function RoundHalfEven(x: real): (n: int)
    ensures (n as real) - 0.5 <= x <= (n as real) + 0.5
    ensures x - (x.Floor as real) == 0.5 ==> n % 2 == 0
  {
    var f := x.Floor;
    var d := x - f as real;
    if d < 0.5 then f
    else if d > 0.5 then f + 1
    else if f % 2 == 0 then f
    else f + 1
  }

  /** `score_college`: the weighted sum rounded to an integer, within half a
      point of it and in [0, 100] for in-range college data. */
  function ScoreCollege(c: College, p: Prefs): (score: int)
    requires 10 * c.closingRank + 3 * p.rank != 0
    ensures (score as real) - 0.5 <= UnroundedScore(c, p) <= (score as real) + 0.5
    ensures 0 <= c.placementRate <= 100 && c.nirfRanking >= 0 && c.fees >= 0 ==> 0 <= score <= 100
  {
    RoundHalfEven(UnroundedScore(c, p))
  }

  // ---------------------------------------------------------------------
  // Rule-based explanation (`_fallback_explanation`)
  // ---------------------------------------------------------------------

  /** The sentences the rule-based explanation can contain. */
  datatype Sentence =
    | RankLine(chance: Chance, rank: int, closingRank: int)
    | FeeLine(fees: int)
    | PlacementLine(placementRate: int)
    | NirfLine(nirfRanking: int)

  /** The position a sentence kind takes in an explanation. */
  function Slot(s: Sentence): nat {
    match s
    case RankLine(_, _, _) => 0
    case FeeLine(_) => 1
    case PlacementLine(_) => 2
    case NirfLine(_) => 3
  }

  /** The text of each sentence, numbers formatted as Python's `{:,}` and
      `{}` print them. */
  function Render(s: Sentence): string {
    match s
    case RankLine(Safe, rank, closingRank) =>
      "Your rank (" + GroupedInt(rank) + ") is comfortably within the closing rank of "
      + GroupedInt(closingRank) + ", giving you a strong chance."
    case RankLine(Target, rank, closingRank) =>
      "Your rank (" + GroupedInt(rank) + ") is close to the closing rank of "
      + GroupedInt(closingRank) + " — competitive but achievable."
    case RankLine(Dream, rank, closingRank) =>
      "Your rank (" + GroupedInt(rank) + ") is above the closing rank of "
      + GroupedInt(closingRank) + " — an aspirational pick worth monitoring."
    case FeeLine(fees) =>
      "The fees of ₹" + GroupedInt(fees) + " are well within your budget."
    case PlacementLine(placementRate) =>
      "Outstanding placement record of " + IntText(placementRate) + "%."
    case NirfLine(nirfRanking) =>
      "Ranked #" + IntText(nirfRanking) + " nationally by NIRF."
  }

  function RenderAll(ss: seq<Sentence>): (texts: seq<string>)
    ensures |texts| == |ss|
    ensures forall k :: 0 <= k < |ss| ==> texts[k] == Render(ss[k])
  {
    seq(|ss|, k requires 0 <= k < |ss| => Render(ss[k]))
  }

  function Indicator(b: bool): nat {
    if b then 1 else 0
  }

  /** One optional sentence: present exactly when its condition holds. */
  function Optional(b: bool, s: Sentence): (r: seq<Sentence>)
    ensures |r| == Indicator(b)
    ensures forall x :: x in r <==> b && x == s
  {
    if b then [s] else []
  }

  /** The sentences `_fallback_explanation` collects: the rank sentence for
      the chance, always and first, then one to three optional ones. */
  function FallbackSentences(c: College, p: Prefs, ch: Chance): (parts: seq<Sentence>)
    ensures |parts| == 1 + Indicator(10 * c.fees <= 7 * p.budgetMax)
      + Indicator(c.placementRate >= 90) + Indicator(c.nirfRanking <= 10)
    ensures 1 <= |parts| <= 4
    ensures parts[0] == RankLine(ch, p.rank, c.closingRank)
  {
    var feeOk := (c.fees as real) <= (p.budgetMax as real) * 0.7;
    assert feeOk <==> 10 * c.fees <= 7 * p.budgetMax;
    [RankLine(ch, p.rank, c.closingRank)] + Optional(feeOk, FeeLine(c.fees))
      + Optional(c.placementRate >= 90, PlacementLine(c.placementRate))
      + Optional(c.nirfRanking <= 10, NirfLine(c.nirfRanking))
  }

  /** Which sentences are chosen: the fee sentence exactly when the fees are
      at most 70% of the budget; the placement sentence exactly when
      placement is at least 90%; the NIRF sentence exactly when the NIRF rank
      is at most 10. */
  lemma FallbackSentencesChosen(c: College, p: Prefs, ch: Chance)
    ensures var parts := FallbackSentences(c, p, ch);
      (FeeLine(c.fees) in parts <==> 10 * c.fees <= 7 * p.budgetMax) &&
      (PlacementLine(c.placementRate) in parts <==> c.placementRate >= 90) &&
      (NirfLine(c.nirfRanking) in parts <==> c.nirfRanking <= 10)
  {
    var feeOk := (c.fees as real) <= (p.budgetMax as real) * 0.7;
    assert feeOk <==> 10 * c.fees <= 7 * p.budgetMax;
    var r := [RankLine(ch, p.rank, c.closingRank)];
    var o1, o2, o3 := Optional(feeOk, FeeLine(c.fees)), Optional(c.placementRate >= 90, PlacementLine(c.placementRate)),
      Optional(c.nirfRanking <= 10, NirfLine(c.nirfRanking));
    var parts := r + o1 + o2 + o3;
    assert parts == FallbackSentences(c, p, ch);
    forall x ensures x in parts <==> x in r || x in o1 || x in o2 || x in o3 { }
  }

  /** Sentences strictly in slot order. */
  predicate InSlotOrder(parts: seq<Sentence>) {
    forall k, l :: 0 <= k < l < |parts| ==> Slot(parts[k]) < Slot(parts[l])
  }

  /** Appending an optional sentence of a later slot keeps the slot order. */
  lemma AppendLaterSlot(a: seq<Sentence>, b: bool, s: Sentence)
    requires InSlotOrder(a) && forall x :: x in a ==> Slot(x) < Slot(s)
    ensures InSlotOrder(a + Optional(b, s))
    ensures forall x :: x in a + Optional(b, s) ==> Slot(x) <= Slot(s)
  {
    var r := a + Optional(b, s);
    if b {
      forall k, l | 0 <= k < l < |r| ensures Slot(r[k]) < Slot(r[l]) {
        assert r[k] in a;
        if l == |a| { assert r[l] == s; } else { assert r[l] == a[l]; }
      }
    } else {
      assert r == a;
    }
  }

  /** The sentences come in the order rank, fees, placement, NIRF. */
  lemma FallbackSentencesOrdered(c: College, p: Prefs, ch: Chance)
    ensures InSlotOrder(FallbackSentences(c, p, ch))
  {
    var feeOk := (c.fees as real) <= (p.budgetMax as real) * 0.7;
    var r := [RankLine(ch, p.rank, c.closingRank)];
    AppendLaterSlot(r, feeOk, FeeLine(c.fees));
    var r1 := r + Optional(feeOk, FeeLine(c.fees));
    AppendLaterSlot(r1, c.placementRate >= 90, PlacementLine(c.placementRate));
    var r2 := r1 + Optional(c.placementRate >= 90, PlacementLine(c.placementRate));
    AppendLaterSlot(r2, c.nirfRanking <= 10, NirfLine(c.nirfRanking));
  }

  /** `_fallback_explanation`: collects the sentences one by one (the
      chance's if/elif is the match in `Render`), then renders them and joins
      them with single spaces. */
  method FallbackExplanation(c: College, p: Prefs, ch: Chance) returns (text: string)
    ensures text == Join(RenderAll(FallbackSentences(c, p, ch)), " ")
  {
    var parts := [RankLine(ch, p.rank, c.closingRank)];
    var feeOk := (c.fees as real) <= (p.budgetMax as real) * 0.7;
    if feeOk {
      parts := parts + [FeeLine(c.fees)];
    }
    if c.placementRate >= 90 {
      parts := parts + [PlacementLine(c.placementRate)];
    }
    if c.nirfRanking <= 10 {
      parts := parts + [NirfLine(c.nirfRanking)];
    }
    assert parts == FallbackSentences(c, p, ch);
    text := Join(RenderAll(parts), " ");
  }

  /** The explanation a result carries: the language model's when the request
      asks for it (that call, with its own fallback, is the parameter `llm`),
      the rule-based one otherwise. */
  function Explanation(c: College, p: Prefs, ch: Chance, score: int,
                       llm: (College, Prefs, Chance, int) -> string): string
  {
    if p.useAI then llm(c, p, ch, score) else Join(RenderAll(FallbackSentences(c, p, ch)), " ")
  }

  // ---------------------------------------------------------------------
  // Ranking and the recommendations endpoint
  // ---------------------------------------------------------------------

  /** A `RecommendedCollege`: the college's own fields plus the score, the
      chance tag and the explanation. */
  datatype Recommended = Recommended(college: College, matchScore: int, admissionChance: Chance, explanation: string)

  datatype Response = Response(totalFiltered: nat, results: seq<Recommended>, summary: string)

  const NoMatchSummary: string :=
    "No colleges found matching your criteria. Try increasing your budget or removing the state filter."

  /** Position `i` goes before position `j` in a descending stable sort by
      score: a higher score, or an equal score and an earlier position. */
  predicate Before(scores: seq<int>, i: nat, j: nat)
    requires i < |scores| && j < |scores|
  {
    scores[i] > scores[j] || (scores[i] == scores[j] && i < j)
  }

  predicate SortedByScore(scores: seq<int>, order: seq<nat>) {
    (forall k :: 0 <= k < |order| ==> order[k] < |scores|) &&
    (forall k, l :: 0 <= k < l < |order| ==> Before(scores, order[k], order[l]))
  }

  function InsertByScore(scores: seq<int>, x: nat, order: seq<nat>): (r: seq<nat>)
    requires x < |scores| && x !in order && SortedByScore(scores, order)
    ensures SortedByScore(scores, r)
    ensures |r| == |order| + 1
    ensures forall y :: y in r <==> y in order || y == x
  {
    if order == [] then [x]
    else if Before(scores, x, order[0]) then
      [x] + order
    else
      var rest := InsertByScore(scores, x, order[1..]);
      HeadFirst(scores, x, order, rest);
      [order[0]] + rest
  }

  /** When `x` does not go before the head of `order`, the head goes before
      every position of `order[1..]` with `x` inserted, and stays first. */
  lemma HeadFirst(scores: seq<int>, x: nat, order: seq<nat>, rest: seq<nat>)
    requires x < |scores| && x !in order && SortedByScore(scores, order) && order != []
    requires !Before(scores, x, order[0])
    requires SortedByScore(scores, rest) && forall y :: y in rest <==> y in order[1..] || y == x
    ensures SortedByScore(scores, [order[0]] + rest)
    ensures forall y :: y in [order[0]] + rest <==> y in order || y == x
  {
    var r := [order[0]] + rest;
    forall l | 0 <= l < |rest| ensures Before(scores, order[0], rest[l]) {
      assert rest[l] in rest;
      if rest[l] != x {
        var k :| 0 <= k < |order[1..]| && order[1..][k] == rest[l];
        assert Before(scores, order[0], order[k + 1]);
      }
    }
    forall k, l | 0 <= k < l < |r| ensures Before(scores, r[k], r[l]) {
      if k > 0 {
        assert r[k] == rest[k - 1] && r[l] == rest[l - 1];
      } else {
        assert r[l] == rest[l - 1];
      }
    }
    assert order == [order[0]] + order[1..];
  }

  /** `scored.sort(key=score, reverse=True)` on positions `0..n-1`: Python's
      sort is stable, so equal scores keep their filter order. The result
      is a permutation of `0..n-1`. */
  function StableOrder(scores: seq<int>, n: nat): (order: seq<nat>)
    requires n <= |scores|
    ensures SortedByScore(scores, order)
    ensures |order| == n
    ensures forall i: nat :: i in order <==> i < n
  {
    if n == 0 then []
    else InsertByScore(scores, n - 1, StableOrder(scores, n - 1))
  }

  function Scores(f: seq<College>, p: Prefs): (scores: seq<int>)
    requires p.rank > 0 && forall k :: 0 <= k < |f| ==> Keep(f[k], p)
    ensures |scores| == |f|
    ensures forall k :: 0 <= k < |f| ==> Keep(f[k], p) && scores[k] == ScoreCollege(f[k], p)
  {
    seq(|f|, k requires 0 <= k < |f| => assert Keep(f[k], p); ScoreCollege(f[k], p))
  }

  function Min(a: int, b: int): int {
    if a <= b then a else b
  }

  /** The result entry built for an eligible college. */
  function Entry(c: College, p: Prefs, llm: (College, Prefs, Chance, int) -> string): (e: Recommended)
    requires ValidPrefs(p) && Keep(c, p)
    ensures e.college == c && e.matchScore == ScoreCollege(c, p)
  {
    var score := ScoreCollege(c, p);
    var ch := ClassifyChance(p.rank, c.closingRank);
    Recommended(c, score, ch, Explanation(c, p, ch, score, llm))
  }

  /** The first ten (or fewer) entries in stable descending score order. */
  function TopTen(f: seq<College>, p: Prefs, llm: (College, Prefs, Chance, int) -> string): (rs: seq<Recommended>)
    requires ValidPrefs(p) && forall k :: 0 <= k < |f| ==> Keep(f[k], p)
    ensures |rs| == Min(10, |f|)
  {
    var order := StableOrder(Scores(f, p), |f|);
    seq(Min(10, |f|), k requires 0 <= k < Min(10, |f|) => Entry(f[order[k]], p, llm))
  }

  /** The first `m` positions of the stable order: no repeats, scores
      non-increasing, ties in position order, and every position left out
      scores at most as much as any position taken. */
  lemma OrderRanking(scores: seq<int>, m: nat)
    requires m <= |scores|
    ensures var order := StableOrder(scores, |scores|);
      (forall k, l :: 0 <= k < l < m ==> order[k] != order[l] && scores[order[k]] >= scores[order[l]]) &&
      (forall k, l :: 0 <= k < l < m && scores[order[k]] == scores[order[l]] ==> order[k] < order[l]) &&
      (forall i, k :: 0 <= i < |scores| && i !in order[..m] && 0 <= k < m ==> scores[i] <= scores[order[k]])
  {
    var order := StableOrder(scores, |scores|);
    forall k, l | 0 <= k < l < m
      ensures order[k] != order[l] && scores[order[k]] >= scores[order[l]]
      ensures scores[order[k]] == scores[order[l]] ==> order[k] < order[l]
    {
      assert Before(scores, order[k], order[l]);
    }
    assert forall j :: 0 <= j < m ==> order[..m][j] == order[j];
    forall i, k | 0 <= i < |scores| && i !in order[..m] && 0 <= k < m
      ensures scores[i] <= scores[order[k]]
    {
      assert i in order;
      var j :| 0 <= j < |order| && order[j] == i;
      assert Before(scores, order[k], order[j]);
    }
  }

  /** The results are the best of the eligible colleges: in non-increasing
      score order; equal scores in filter order; no eligible college left out
      scores higher than one shown; and no college is shown twice. */
  lemma TopTenRanking(f: seq<College>, p: Prefs, llm: (College, Prefs, Chance, int) -> string)
    requires ValidPrefs(p) && forall k :: 0 <= k < |f| ==> Keep(f[k], p)
    ensures var rs, order := TopTen(f, p, llm), StableOrder(Scores(f, p), |f|);
      (forall k :: 0 <= k < |rs| ==> rs[k].college == f[order[k]]) &&
      (forall k, l :: 0 <= k < l < |rs| ==> order[k] != order[l]) &&
      (forall k, l :: 0 <= k < l < |rs| ==> rs[k].matchScore >= rs[l].matchScore) &&
      (forall k, l :: 0 <= k < l < |rs| && rs[k].matchScore == rs[l].matchScore ==> order[k] < order[l]) &&
      (forall i, k :: 0 <= i < |f| && i !in order[..|rs|] && 0 <= k < |rs| ==> ScoreCollege(f[i], p) <= rs[k].matchScore)
  {
    var scores := Scores(f, p);
    var order := StableOrder(scores, |f|);
    var rs := TopTen(f, p, llm);
    OrderRanking(scores, |rs|);
    TopTenPick(f, p, llm);
    forall i, k | 0 <= i < |f| && i !in order[..|rs|] && 0 <= k < |rs|
      ensures ScoreCollege(f[i], p) <= rs[k].matchScore
    {
      assert scores[i] <= scores[order[k]];
    }
    forall k, l | 0 <= k < l < |rs|
      ensures rs[k].matchScore >= rs[l].matchScore
      ensures rs[k].matchScore == rs[l].matchScore ==> order[k] < order[l]
    {
      assert scores[order[k]] >= scores[order[l]];
    }
  }

  /** Result `k` is the college at position `k` of the stable order, with its score. */
  lemma TopTenPick(f: seq<College>, p: Prefs, llm: (College, Prefs, Chance, int) -> string)
    requires ValidPrefs(p) && forall k :: 0 <= k < |f| ==> Keep(f[k], p)
    ensures var rs, scores := TopTen(f, p, llm), Scores(f, p);
      var order := StableOrder(scores, |f|);
      forall k :: 0 <= k < |rs| ==> rs[k].college == f[order[k]] && rs[k].matchScore == scores[order[k]]
  {
    var scores := Scores(f, p);
    var order := StableOrder(scores, |f|);
    var rs := TopTen(f, p, llm);
    forall k | 0 <= k < |rs|
      ensures rs[k].college == f[order[k]] && rs[k].matchScore == scores[order[k]]
    {
      assert rs[k] == Entry(f[order[k]], p, llm);
    }
  }

  /** How many results carry the chance tag `ch`. */
  function CountChance(rs: seq<Recommended>, ch: Chance): nat {
    if rs == [] then 0
    else CountChance(rs[..|rs| - 1], ch) + (if rs[|rs| - 1].admissionChance == ch then 1 else 0)
  }

  /** Every result carries exactly one of the three tags, so the three counts
      of the summary add up to the number of results. */
  lemma {:induction false} ChanceCountsCover(rs: seq<Recommended>)
    ensures CountChance(rs, Safe) + CountChance(rs, Target) + CountChance(rs, Dream) == |rs|
  {
    if rs != [] {
      ChanceCountsCover(rs[..|rs| - 1]);
    }
  }

  function SummaryText(eligible: nat, database: nat, shown: nat, safe: nat, target: nat, dream: nat): string {
    "Found " + Decimal(eligible) + " eligible colleges from " + Decimal(database)
    + " in our database. Showing top " + Decimal(shown) + ": "
    + Decimal(safe) + " Safe, " + Decimal(target) + " Target, " + Decimal(dream) + " Dream colleges."
  }

  datatype Scored = Scored(college: College, score: int, chance: Chance)

  /** The scoring loop of `get_recommendations`: a score and a chance tag for
      every eligible college, in filter order. */
  method ScoreAll(filtered: seq<College>, p: Prefs) returns (scored: seq<Scored>)
    requires ValidPrefs(p) && forall k :: 0 <= k < |filtered| ==> Keep(filtered[k], p)
    ensures |scored| == |filtered|
    ensures forall k :: 0 <= k < |filtered| ==>
      Keep(filtered[k], p) && scored[k] == Scored(filtered[k], ScoreCollege(filtered[k], p), ClassifyChance(p.rank, filtered[k].closingRank))
  {
    scored := [];
    for i := 0 to |filtered|
      invariant |scored| == i
      invariant forall k :: 0 <= k < i ==>
        Keep(filtered[k], p) && scored[k] == Scored(filtered[k], ScoreCollege(filtered[k], p), ClassifyChance(p.rank, filtered[k].closingRank))
    {
      var c := filtered[i];
      var score := ScoreCollege(c, p);
      var chance := ClassifyChance(p.rank, c.closingRank);
      scored := scored + [Scored(c, score, chance)];
    }
  }

  /** The result loop of `get_recommendations`: each shown college gets the
      language model's explanation or the rule-based one. */
  method Explain(top: seq<Scored>, p: Prefs, llm: (College, Prefs, Chance, int) -> string)
    returns (results: seq<Recommended>)
    ensures |results| == |top|
    ensures forall k :: 0 <= k < |top| ==>
      results[k] == Recommended(top[k].college, top[k].score, top[k].chance,
        Explanation(top[k].college, p, top[k].chance, top[k].score, llm))
  {
    results := [];
    for k := 0 to |top|
      invariant |results| == k
      invariant forall j :: 0 <= j < k ==>
        results[j] == Recommended(top[j].college, top[j].score, top[j].chance,
          Explanation(top[j].college, p, top[j].chance, top[j].score, llm))
    {
      var entry := top[k];
      var explanation;
      if p.useAI {
        explanation := llm(entry.college, p, entry.chance, entry.score);
      } else {
        explanation := FallbackExplanation(entry.college, p, entry.chance);
      }
      results := results + [Recommended(entry.college, entry.score, entry.chance, explanation)];
    }
  }

  /** `get_recommendations`: filter the table, score and tag each eligible
      college, sort by score (stable, descending), keep the first ten, attach
      explanations and summarise. */
  method GetRecommendations(db: seq<College>, p: Prefs, llm: (College, Prefs, Chance, int) -> string)
    returns (resp: Response)
    requires ValidPrefs(p)
    ensures resp.totalFiltered == |Filtered(db, p)|
    ensures Filtered(db, p) == [] ==> resp == Response(0, [], NoMatchSummary)
    ensures Filtered(db, p) != [] ==>
      resp.results == TopTen(Filtered(db, p), p, llm) &&
      resp.summary == SummaryText(|Filtered(db, p)|, |db|, |resp.results|, CountChance(resp.results, Safe),
        CountChance(resp.results, Target), CountChance(resp.results, Dream))
  {
    var filtered := FilterColleges(db, p);
    if filtered == [] {
      return Response(0, [], NoMatchSummary);
    }
    var scored := ScoreAll(filtered, p);
    var order := StableOrder(Scores(filtered, p), |filtered|);
    var sorted := seq(|order|, k requires 0 <= k < |order| => scored[order[k]]);
    var top10 := sorted[..Min(10, |sorted|)];
    var results := Explain(top10, p, llm);
    assert results == TopTen(filtered, p, llm);
    var safe := CountChance(results, Safe);
    var target := CountChance(results, Target);
    var dream := CountChance(results, Dream);
    var summary := SummaryText(|filtered|, |db|, |results|, safe, target, dream);
    resp := Response(|filtered|, results, summary);
  }

  // ---------------------------------------------------------------------
  // Drop-down metadata (`get_meta`)
  // ---------------------------------------------------------------------

  datatype Meta = Meta(exams: seq<string>, courses: map<string, seq<string>>, states: seq<string>, collegeTypes: seq<string>)

  function Exams(db: seq<College>): seq<string> {
    seq(|db|, i requires 0 <= i < |db| => db[i].exam)
  }

  function States(db: seq<College>): seq<string> {
    seq(|db|, i requires 0 <= i < |db| => db[i].state)
  }

  /** The courses offered under exam `e`, in table order, repeats included. */
  function CoursesFor(db: seq<College>, e: string): seq<string> {
    if db == [] then []
    else CoursesFor(db[..|db| - 1], e) + (if db[|db| - 1].exam == e then [db[|db| - 1].course] else [])
  }

  /** Extending a prefix of the table by one record extends its exams and
      its per-exam courses by that record's. */
  lemma PrefixStep(db: seq<College>, i: nat)
    requires i < |db|
    ensures Exams(db[..i + 1]) == Exams(db[..i]) + [db[i].exam]
    ensures forall e :: (CoursesFor(db[..i + 1], e) ==
      CoursesFor(db[..i], e) + (if db[i].exam == e then [db[i].course] else []))
  {
    assert db[..i + 1][..i] == db[..i];
  }

  /** The course sets of `get_meta`, one per exam, each kept as a list
      without repeats. */
  method CoursesByExam(db: seq<College>) returns (byExam: map<string, seq<string>>)
    ensures forall e :: e in byExam <==> e in Exams(db)
    ensures forall e, x :: e in byExam ==> (x in byExam[e] <==> x in CoursesFor(db, e))
  {
    byExam := map[];
    for i := 0 to |db|
      invariant forall e :: e in byExam <==> e in Exams(db[..i])
      invariant forall e :: e !in byExam ==> CoursesFor(db[..i], e) == []
      invariant forall e, x :: e in byExam ==> (x in byExam[e] <==> x in CoursesFor(db[..i], e))
    {
      var c := db[i];
      PrefixStep(db, i);
      var courses := if c.exam in byExam then byExam[c.exam] else [];
      if c.course !in courses {
        courses := courses + [c.course];
      }
      byExam := byExam[c.exam := courses];
    }
    assert db[..|db|] == db;
  }

  /** `get_meta`: the distinct exams sorted, for each exam the sorted
      distinct courses offered under it, the sorted distinct states, and the
      fixed list of college types. */
  method GetMeta(db: seq<College>) returns (m: Meta)
    ensures StrictlySorted(m.exams) && forall e :: e in m.exams <==> e in Exams(db)
    ensures forall e :: e in m.courses <==> e in Exams(db)
    ensures forall e :: e in m.courses ==>
      StrictlySorted(m.courses[e]) && forall x :: x in m.courses[e] <==> x in CoursesFor(db, e)
    ensures StrictlySorted(m.states) && forall s :: s in m.states <==> s in States(db)
    ensures m.collegeTypes == ["Any", "Government", "Private"]
  {
    var exams := SortedUnique(Exams(db));
    var byExam := CoursesByExam(db);
    var courses := map e | e in byExam :: SortedUnique(byExam[e]);
    var states := SortedUnique(States(db));
    m := Meta(exams, courses, states, ["Any", "Government", "Private"]);
  }
}
