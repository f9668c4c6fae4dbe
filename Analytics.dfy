/** The analytics view of one recommended college: chart series derived
    from the college, its peers in the result list and the student's
    optional rank and budget. Numbers are exact reals; `Math.round` is
    rounding half up. */
module Analytics {
  import opened Strings
  import opened Recommend

  function Max(a: real, b: real): real { if a >= b then a else b }
  function Min(a: real, b: real): real { if a <= b then a else b }

  /** `Math.round`: the nearest integer, halves going up. */
  function Round(x: real): (n: int)
    ensures x - 0.5 < n as real <= x + 0.5
  {
    (x + 0.5).Floor
  }

  lemma RoundMonotone(x: real, y: real)
    requires x <= y
    ensures Round(x) <= Round(y)
  {
    var a := (x + 0.5).Floor;
    var b := (y + 0.5).Floor;
    assert a as real <= x + 0.5 <= y + 0.5 < b as real + 1.0;
  }

  /** Rounding a value in [0,100] stays in [0,100]. */
  lemma RoundInPercent(x: real)
    requires 0.0 <= x <= 100.0
    ensures 0 <= Round(x) <= 100
  {
    RoundMonotone(0.0, x);
    RoundMonotone(x, 100.0);
    assert Round(0.0) == 0;
    assert Round(100.0) == 100;
  }

  lemma DivMonotone(a: real, b: real, d: real)
    requires a <= b && d > 0.0
    ensures a / d <= b / d
  {
    assert b / d - a / d == (b - a) / d;
  }

  /** The optional student rank or budget counts only when present and
      non-zero, as a JavaScript truthiness test does. */
  predicate Truthy(o: Option<int>) { o.Some? && o.value != 0 }

  /** The clamp to [0,100] that `normalize` applies. */
  function Clamp(x: real): (r: real)
    ensures 0.0 <= r <= 100.0
    ensures 0.0 <= x <= 100.0 ==> r == x
  {
    Max(0.0, Min(100.0, x))
  }

  /** `normalize`: where `value` falls between `lo` and `hi`, as a clamped
      percentage, or 100 minus that when inverted. */
  function Normalize(value: real, lo: real, hi: real, invert: bool): (r: real)
    requires hi != lo
    ensures 0.0 <= r <= 100.0
    ensures invert ==> r == 100.0 - Normalize(value, lo, hi, false)
  {
    var n := Clamp((value - lo) / (hi - lo) * 100.0);
    if invert then 100.0 - n else n
  }

  /** On an increasing range, `normalize` grows with `value`, and its
      inverted form shrinks; values at or past the ends map to the ends. */
  lemma NormalizeMonotone(v1: real, v2: real, lo: real, hi: real)
    requires lo < hi && v1 <= v2
    ensures Normalize(v1, lo, hi, false) <= Normalize(v2, lo, hi, false)
    ensures Normalize(v1, lo, hi, true) >= Normalize(v2, lo, hi, true)
  {
    DivMonotone(v1 - lo, v2 - lo, hi - lo);
  }

  lemma NormalizeEnds(v: real, lo: real, hi: real)
    requires lo < hi
    ensures v <= lo ==> Normalize(v, lo, hi, false) == 0.0
    ensures v >= hi ==> Normalize(v, lo, hi, false) == 100.0
  {
    if v <= lo { DivMonotone(v - lo, 0.0, hi - lo); }
    if v >= hi {
      DivMonotone(hi - lo, v - lo, hi - lo);
      assert (hi - lo) / (hi - lo) == 1.0;
    }
  }

  datatype Point = Point(metric: string, value: real)

  /** The radar's rank-safety score: 50 above the cutoff ratio's midpoint,
      clamped to [0,100]. */
  function RadarRankSafety(rank: int, closing: int): real
    requires closing != 0
  {
    Clamp(Round((1.0 - rank as real / closing as real) * 100.0 + 50.0) as real)
  }

  /** `radarData`: six metrics. Budget fit defaults to 60 without a budget
      and rank safety to 50 without a rank; every derived value lies in
      [0,100]. */
  function RadarData(c: Recommended, rank: Option<int>, budget: Option<int>): (r: seq<Point>)
    requires Truthy(rank) ==> c.college.closingRank != 0
    ensures |r| == 6
    ensures r[0] == Point("Match Score", c.matchScore as real)
    ensures r[1] == Point("Placement", c.college.placementRate as real)
    ensures r[2].metric == "NIRF Score" && r[3].metric == "Budget Fit"
    ensures r[4].metric == "Rank Safety" && r[5].metric == "Prestige"
    ensures forall k :: 2 <= k < 6 ==> 0.0 <= r[k].value <= 100.0
    ensures !Truthy(budget) ==> r[3].value == 60.0
    ensures !Truthy(rank) ==> r[4].value == 50.0
    ensures Truthy(rank) ==> r[4].value == RadarRankSafety(rank.value, c.college.closingRank)
  {
    var fees := c.college.fees as real;
    var nirf := c.college.nirfRanking as real;
    [ Point("Match Score", c.matchScore as real),
      Point("Placement", c.college.placementRate as real),
      Point("NIRF Score", Normalize(nirf, 1.0, 100.0, true)),
      Point("Budget Fit", if Truthy(budget) then Normalize(fees, 0.0, budget.value as real, true) else 60.0),
      Point("Rank Safety", if Truthy(rank) then RadarRankSafety(rank.value, c.college.closingRank) else 50.0),
      Point("Prestige", Normalize(nirf, 1.0, 80.0, true)) ]
  }

  /** `radialData`: four gauges; the derived two are rounded percentages. */
  function RadialData(c: Recommended, budget: Option<int>): (r: seq<Point>)
    ensures |r| == 4
    ensures r[0] == Point("Match Score", c.matchScore as real)
    ensures r[1] == Point("Placement %", c.college.placementRate as real)
    ensures r[2].metric == "NIRF Score" && r[3].metric == "Budget Fit"
    ensures forall k :: 2 <= k < 4 ==> 0.0 <= r[k].value <= 100.0 && r[k].value == r[k].value.Floor as real
    ensures !Truthy(budget) ==> r[3].value == 60.0
  {
    var nirf := Normalize(c.college.nirfRanking as real, 1.0, 100.0, true);
    RoundInPercent(nirf);
    var fit := if Truthy(budget) then Normalize(c.college.fees as real, 0.0, budget.value as real, true) else 60.0;
    RoundInPercent(fit);
    [ Point("Match Score", c.matchScore as real),
      Point("Placement %", c.college.placementRate as real),
      Point("NIRF Score", Round(nirf) as real),
      Point("Budget Fit", if Truthy(budget) then Round(fit) as real else 60.0) ]
  }

  /** The word under each gauge. */
  function RatingLabel(v: real): string {
    if v >= 80.0 then "Excellent" else if v >= 60.0 then "Good" else if v >= 40.0 then "Average" else "Below avg"
  }

  /** The labels from worst to best. */
  function Ratings(): seq<string> { ["Below avg", "Average", "Good", "Excellent"] }

  /** Each label covers one band of scores, and a higher score never gets
      a worse label. */
  lemma RatingBands(v: real, w: real)
    requires v <= w
    ensures RatingLabel(v) == "Excellent" <==> v >= 80.0
    ensures RatingLabel(v) == "Good" <==> 60.0 <= v < 80.0
    ensures RatingLabel(v) == "Average" <==> 40.0 <= v < 60.0
    ensures RatingLabel(v) == "Below avg" <==> v < 40.0
    ensures exists i, j :: 0 <= i <= j < 4 && Ratings()[i] == RatingLabel(v) && Ratings()[j] == RatingLabel(w)
  {
    var rs := Ratings();
    var i := if v >= 80.0 then 3 else if v >= 60.0 then 2 else if v >= 40.0 then 1 else 0;
    var j := if w >= 80.0 then 3 else if w >= 60.0 then 2 else if w >= 40.0 then 1 else 0;
    assert rs[i] == RatingLabel(v) && rs[j] == RatingLabel(w);
  }

  /** A college name as a chart axis shows it: names longer than 14
      characters keep their first 13 and gain an ellipsis. */
  function ShortName(name: string): (r: string)
    ensures |r| <= 14
    ensures |name| <= 14 ==> r == name
    ensures |name| > 14 ==> |r| == 14 && r[..13] == name[..13] && r[13] == '…'
  {
    if |name| > 14 then name[..13] + "…" else name
  }

  /** Shortening an axis label twice changes nothing more. */
  lemma ShortNameIdempotent(name: string)
    ensures ShortName(ShortName(name)) == ShortName(name)
  {
  }

  /** `allColleges.slice(0, 5)`. */
  function Peers(all: seq<Recommended>): (p: seq<Recommended>)
    ensures |p| <= 5 && |p| <= |all|
    ensures |p| == |all| || |p| == 5
    ensures p == all[..|p|]
  {
    if |all| <= 5 then all else all[..5]
  }

  datatype BarRow = BarRow(name: string, fullName: string, matchScore: int, placement: int, nirfScore: int, isCurrent: bool)

  /** `barData`: one row per peer, in result order, highlighting the rows
      of the selected college. */
  function BarData(all: seq<Recommended>, current: Recommended): (rows: seq<BarRow>)
    ensures |rows| == |Peers(all)|
    ensures forall i :: 0 <= i < |rows| ==>
      rows[i].fullName == all[i].college.name && rows[i].name == ShortName(all[i].college.name)
      && rows[i].matchScore == all[i].matchScore && rows[i].placement == all[i].college.placementRate
      && 0 <= rows[i].nirfScore <= 100
      && (rows[i].isCurrent <==> all[i].college.id == current.college.id)
  {
    var peers := Peers(all);
    seq(|peers|, i requires 0 <= i < |peers| =>
      var c := peers[i];
      var nirf := Normalize(c.college.nirfRanking as real, 1.0, 100.0, true);
      RoundInPercent(nirf);
      BarRow(ShortName(c.college.name), c.college.name, c.matchScore, c.college.placementRate,
             Round(nirf), c.college.id == current.college.id))
  }

  datatype BudgetRow = BudgetRow(name: string, fullName: string, feesLakhs: real, isCurrent: bool)

  /** Fees in lakhs to one decimal place, ties going up. */
  function Lakhs(fees: int): (l: real)
    ensures fees as real / 100000.0 - 0.05 < l <= fees as real / 100000.0 + 0.05
  {
    Round(fees as real / 10000.0) as real / 10.0
  }

  /** `budgetData`: the same peers with their fees in lakhs. */
  function BudgetData(all: seq<Recommended>, current: Recommended): (rows: seq<BudgetRow>)
    ensures |rows| == |Peers(all)|
    ensures forall i :: 0 <= i < |rows| ==>
      rows[i].fullName == all[i].college.name && rows[i].name == ShortName(all[i].college.name)
      && rows[i].feesLakhs == Lakhs(all[i].college.fees)
      && (rows[i].isCurrent <==> all[i].college.id == current.college.id)
  {
    var peers := Peers(all);
    seq(|peers|, i requires 0 <= i < |peers| =>
      BudgetRow(ShortName(peers[i].college.name), peers[i].college.name, Lakhs(peers[i].college.fees),
                peers[i].college.id == current.college.id))
  }

  /** How many bar rows are highlighted. */
  function CurrentCount(rows: seq<BarRow>): nat {
    if rows == [] then 0 else (if rows[0].isCurrent then 1 else 0) + CurrentCount(rows[1..])
  }

  /** How many colleges carry identifier `id`. */
  function IdCount(cs: seq<Recommended>, id: int): nat {
    if cs == [] then 0 else (if cs[0].college.id == id then 1 else 0) + IdCount(cs[1..], id)
  }

  predicate DistinctIds(cs: seq<Recommended>) {
    forall i, j :: 0 <= i < j < |cs| ==> cs[i].college.id != cs[j].college.id
  }

  lemma {:induction false} CountMatches(rows: seq<BarRow>, cs: seq<Recommended>, id: int)
    requires |rows| == |cs|
    requires forall i :: 0 <= i < |rows| ==> (rows[i].isCurrent <==> cs[i].college.id == id)
    ensures CurrentCount(rows) == IdCount(cs, id)
  {
    if rows != [] {
      CountMatches(rows[1..], cs[1..], id);
    }
  }

  lemma {:induction false} IdCountDistinct(cs: seq<Recommended>, id: int)
    requires DistinctIds(cs)
    ensures IdCount(cs, id) == if exists i :: 0 <= i < |cs| && cs[i].college.id == id then 1 else 0
  {
    if cs != [] {
      var rest := cs[1..];
      assert DistinctIds(rest) by {
        forall i, j | 0 <= i < j < |rest| ensures rest[i].college.id != rest[j].college.id {
          assert rest[i] == cs[i + 1] && rest[j] == cs[j + 1];
        }
      }
      IdCountDistinct(rest, id);
      if cs[0].college.id == id {
        forall i | 0 <= i < |rest| ensures rest[i].college.id != id {
          assert rest[i] == cs[i + 1];
        }
      } else {
        if exists i :: 0 <= i < |cs| && cs[i].college.id == id {
          var i :| 0 <= i < |cs| && cs[i].college.id == id;
          assert rest[i - 1] == cs[i];
        }
        if exists i :: 0 <= i < |rest| && rest[i].college.id == id {
          var i :| 0 <= i < |rest| && rest[i].college.id == id;
          assert cs[i + 1] == rest[i];
        }
      }
    }
  }

  /** With distinct identifiers, the comparison chart highlights exactly
      one bar when the selected college is among the first five results,
      and none otherwise. */
  lemma CurrentHighlightedOnce(all: seq<Recommended>, current: Recommended)
    requires DistinctIds(all)
    ensures CurrentCount(BarData(all, current)) ==
      if exists i :: 0 <= i < |Peers(all)| && all[i].college.id == current.college.id then 1 else 0
  {
    var peers := Peers(all);
    var rows := BarData(all, current);
    forall i | 0 <= i < |rows| ensures rows[i].isCurrent <==> peers[i].college.id == current.college.id {
      assert peers[i] == all[i];
    }
    CountMatches(rows, peers, current.college.id);
    assert DistinctIds(peers) by {
      forall i, j | 0 <= i < j < |peers| ensures peers[i].college.id != peers[j].college.id {
        assert peers[i] == all[i] && peers[j] == all[j];
      }
    }
    IdCountDistinct(peers, current.college.id);
    if exists i :: 0 <= i < |Peers(all)| && all[i].college.id == current.college.id {
      var i :| 0 <= i < |Peers(all)| && all[i].college.id == current.college.id;
      assert peers[i] == all[i];
    }
    if exists i :: 0 <= i < |peers| && peers[i].college.id == current.college.id {
      var i :| 0 <= i < |peers| && peers[i].college.id == current.college.id;
      assert peers[i] == all[i];
    }
  }

  datatype TrendPoint = TrendPoint(year: string, closingRank: int, yourRank: Option<int>)

  /** The simulated closing ranks, 2020 to the 2025 projection. */
  function BaseTrend(closing: int): (t: seq<TrendPoint>)
    ensures |t| == 6
    ensures t[4] == TrendPoint("2024", closing, None)
    ensures forall k :: 0 <= k < 6 ==> t[k].yourRank.None?
  {
    var c := closing as real;
    [ TrendPoint("2020", Round(c * 0.78), None),
      TrendPoint("2021", Round(c * 0.85), None),
      TrendPoint("2022", Round(c * 0.91), None),
      TrendPoint("2023", Round(c * 0.97), None),
      TrendPoint("2024", closing, None),
      TrendPoint("2025*", Round(c * 1.04), None) ]
  }

  /** For a non-negative closing rank the simulated ranks never fall from
      one year to the next. */
  lemma TrendNonDecreasing(closing: int)
    requires closing >= 0
    ensures forall k :: 0 <= k < 5 ==> BaseTrend(closing)[k].closingRank <= BaseTrend(closing)[k + 1].closingRank
  {
    var c := closing as real;
    RoundMonotone(c * 0.78, c * 0.85);
    RoundMonotone(c * 0.85, c * 0.91);
    RoundMonotone(c * 0.91, c * 0.97);
    RoundMonotone(c * 0.97, c);
    assert Round(c) == closing;
    RoundMonotone(c, c * 1.04);
  }

  /** The trend points, each carrying the student's rank when one is given. */
  function TrendWithRank(closing: int, rank: Option<int>): seq<TrendPoint> {
    var base := BaseTrend(closing);
    if Truthy(rank) then seq(6, k requires 0 <= k < 6 => base[k].(yourRank := Some(rank.value))) else base
  }

  /** `trendData`, built and then given "Your Rank" in place. */
  method TrendData(closing: int, rank: Option<int>) returns (points: array<TrendPoint>)
    ensures fresh(points)
    ensures points[..] == TrendWithRank(closing, rank)
    ensures points.Length == 6 && points[4].closingRank == closing
    ensures forall k :: 0 <= k < 6 ==> points[k].yourRank == (if Truthy(rank) then Some(rank.value) else None)
  {
    var base := BaseTrend(closing);
    points := new TrendPoint[6](k requires 0 <= k < 6 => base[k]);
    if Truthy(rank) {
      for i := 0 to 6
        invariant forall k :: 0 <= k < i ==> points[k] == base[k].(yourRank := Some(rank.value))
        invariant forall k :: i <= k < 6 ==> points[k] == base[k]
      {
        points[i] := points[i].(yourRank := Some(rank.value));
      }
    }
  }

  /** The key-figure card's rank safety: a non-negative rounded percentage
      of headroom below the cutoff, and nothing without a rank. */
  function RankSafety(rank: Option<int>, closing: int): (r: Option<int>)
    requires Truthy(rank) ==> closing != 0
    ensures r.Some? <==> Truthy(rank)
    ensures r.Some? ==> r.value >= 0
  {
    if Truthy(rank) then
      var x := Max(0.0, (1.0 - rank.value as real / closing as real) * 100.0);
      RoundMonotone(0.0, x);
      Some(Round(x))
    else None
  }

  /** A worse rank is never safer, and at or past the cutoff safety is 0. */
  lemma RankSafetyDecreasing(r1: int, r2: int, closing: int)
    requires closing > 0 && r1 != 0 && r2 != 0 && r1 <= r2
    ensures RankSafety(Some(r1), closing).value >= RankSafety(Some(r2), closing).value
    ensures r1 >= closing ==> RankSafety(Some(r1), closing).value == 0
  {
    var c := closing as real;
    DivMonotone(r1 as real, r2 as real, c);
    var x1 := Max(0.0, (1.0 - r1 as real / c) * 100.0);
    var x2 := Max(0.0, (1.0 - r2 as real / c) * 100.0);
    RoundMonotone(x2, x1);
    if r1 >= closing {
      DivMonotone(c, r1 as real, c);
      assert c / c == 1.0;
      assert x1 == 0.0;
    }
  }

  /** The width of the rank bar, in percent: never under 5 or over 100. */
  function RankBarWidth(rank: int, closing: int): (w: real)
    requires closing != 0
    ensures 5.0 <= w <= 100.0
  {
    Min(100.0, Max(5.0, rank as real / closing as real * 100.0))
  }

  /** The note under the rank bar. */
  datatype RankNote = Buffer(amount: int) | AboveCutoff(amount: int)

  /** A buffer below the cutoff, or the distance above it; the amount is
      the non-negative gap either way. */
  function RankMessage(rank: int, closing: int): (n: RankNote)
    ensures n.amount >= 0
    ensures n.Buffer? <==> rank < closing
    ensures n.Buffer? ==> rank + n.amount == closing
    ensures n.AboveCutoff? ==> closing + n.amount == rank
  {
    if rank < closing then Buffer(closing - rank) else AboveCutoff(rank - closing)
  }

  /** The note under the budget gauge. */
  datatype BudgetNote = Savings(amount: int) | OverBudget(amount: int)

  function BudgetMessage(fees: int, budget: int): (n: BudgetNote)
    ensures n.amount >= 0
    ensures n.Savings? <==> fees <= budget
    ensures n.Savings? ==> fees + n.amount == budget
    ensures n.OverBudget? ==> budget + n.amount == fees
  {
    if fees <= budget then Savings(budget - fees) else OverBudget(fees - budget)
  }

  /** The three four-year line items: tuition, hostel, books. */
  function CostItems(fees: int): seq<int> { [fees * 4, 80000 * 4, 30000 * 4] }

  function Sum(xs: seq<int>): int { if xs == [] then 0 else xs[0] + Sum(xs[1..]) }

  /** The four-year total shown under the line items is their sum. */
  function FourYearTotal(fees: int): (t: int)
    ensures t == Sum(CostItems(fees))
    ensures t == fees * 4 + 440000
  {
    var items := CostItems(fees);
    assert Sum(items) == items[0] + Sum(items[1..]);
    assert Sum(items[1..]) == items[1] + Sum(items[2..]);
    assert items[2..] == [items[2]];
    (fees + 80000 + 30000) * 4
  }
}
