/**
 * The header of one pipeline column: deal count, total value, overdue count, rounded
 * average health with its coloured indicator, and the displayed stage name.
 */
module KanbanHeader {
  import opened Wrappers
  import Text

  /**
   * The fields of a deal the header reads; `value` is `Number(deal.value)` in integer
   * cents, dates are timestamps.
   */
  datatype Deal = Deal(value: int, expectedCloseDate: Option<int>, healthScore: Option<int>)

  /** The `reduce` over the deal values. */
  function TotalValue(deals: seq<Deal>): int {
    if deals == [] then 0 else TotalValue(deals[..|deals| - 1]) + deals[|deals| - 1].value
  }

  /** The column total of two runs of deals is the sum of their totals. */
  lemma {:induction false} TotalValueAppend(a: seq<Deal>, b: seq<Deal>)
    ensures TotalValue(a + b) == TotalValue(a) + TotalValue(b)
    decreases |b|
  {
    if b != [] {
      var ab := a + b;
      assert ab[..|ab| - 1] == a + b[..|b| - 1];
      assert ab[|ab| - 1] == b[|b| - 1];
      TotalValueAppend(a, b[..|b| - 1]);
    } else {
      assert a + b == a;
    }
  }

  /**
   * Whether the header counts `d` as overdue: its expected close date compares before
   * `now`, a missing date comparing as 0.
   */
  predicate CountedOverdue(d: Deal, now: int) {
    d.expectedCloseDate.GetOr(0) < now
  }

  /** The `filter(...).length` over the deals. */
  function OverdueCount(deals: seq<Deal>, now: int): (n: nat)
    ensures n <= |deals|
  {
    if deals == [] then 0
    else OverdueCount(deals[..|deals| - 1], now) + (if CountedOverdue(deals[|deals| - 1], now) then 1 else 0)
  }

  /** Overdue counts split over runs of deals. */
  lemma {:induction false} OverdueCountAppend(a: seq<Deal>, b: seq<Deal>, now: int)
    ensures OverdueCount(a + b, now) == OverdueCount(a, now) + OverdueCount(b, now)
    decreases |b|
  {
    if b != [] {
      var ab := a + b;
      assert ab[..|ab| - 1] == a + b[..|b| - 1];
      assert ab[|ab| - 1] == b[|b| - 1];
      OverdueCountAppend(a, b[..|b| - 1], now);
    } else {
      assert a + b == a;
    }
  }

  /** A deal without an expected close date is counted overdue at any positive time. */
  lemma MissingDateCountedOverdue(d: Deal, now: int)
    requires d.expectedCloseDate.None? && now > 0
    ensures OverdueCount([d], now) == 1
  {
    assert [d][..0] == [];
  }

  /** The sum of the health scores, a missing score adding nothing. */
  function HealthSum(deals: seq<Deal>): int {
    if deals == [] then 0 else HealthSum(deals[..|deals| - 1]) + deals[|deals| - 1].healthScore.GetOr(0)
  }

  /** `avgHealthScore`: 0 for an empty column, else the mean rounded to the nearest integer. */
  function AverageHealth(deals: seq<Deal>): (r: int)
    ensures |deals| == 0 ==> r == 0
    ensures |deals| > 0 ==> 2 * |deals| * r - |deals| <= 2 * HealthSum(deals) < 2 * |deals| * r + |deals|
  {
    if |deals| > 0 then RoundDiv(HealthSum(deals), |deals|) else 0
  }

  /** With every health score between 0 and 100, the average is too. */
  lemma AverageHealthBounded(deals: seq<Deal>)
    requires forall d :: d in deals ==> 0 <= d.healthScore.GetOr(0) <= 100
    ensures 0 <= AverageHealth(deals) <= 100
  {
    HealthSumBounded(deals);
    if |deals| > 0 {
      RoundDivBounds(HealthSum(deals), |deals|, 0, 100);
    }
  }

  lemma {:induction false} HealthSumBounded(deals: seq<Deal>)
    requires forall d :: d in deals ==> 0 <= d.healthScore.GetOr(0) <= 100
    ensures 0 <= HealthSum(deals) <= 100 * |deals|
  {
    if deals != [] {
      var init := deals[..|deals| - 1];
      assert forall d :: d in init ==> d in deals;
      assert deals[|deals| - 1] in deals;
      HealthSumBounded(init);
    }
  }

  /** The health dot: none ("N/A") unless the average is positive, then by band. */
  datatype Indicator = NotAvailable | Green | Amber | Red

  function HealthIndicator(avg: int): Indicator {
    if avg > 0 then (if avg >= 70 then Green else if avg >= 40 then Amber else Red)
    else NotAvailable
  }

  /** The bands: green from 70, amber from 40, red below, "N/A" at 0 or below. */
  lemma IndicatorBands(avg: int)
    ensures HealthIndicator(avg) == Green <==> avg >= 70
    ensures HealthIndicator(avg) == Amber <==> 40 <= avg < 70
    ensures HealthIndicator(avg) == Red <==> 0 < avg < 40
    ensures HealthIndicator(avg) == NotAvailable <==> avg <= 0
  {
  }

  /** The stage name as displayed: the first " & " becomes a single space. */
  function DisplayName(name: string): string {
    Text.ReplaceFirst(name, " & ", " ")
  }

  /**
   * A name without " & " is shown as it is; otherwise only its first " & " is replaced,
   * so the displayed name is two characters shorter.
   */
  lemma DisplayNameReplacesFirst(name: string)
    ensures !Text.Contains(name, " & ") ==> DisplayName(name) == name
    ensures Text.Contains(name, " & ") ==>
              |DisplayName(name)| == |name| - 2
              && exists i: nat :: Text.MatchesAt(name, " & ", i)
                                  && (forall j :: 0 <= j < i ==> !Text.MatchesAt(name, " & ", j))
                                  && DisplayName(name) == name[..i] + " " + name[i + 3..]
  {
    Text.ReplaceFirstSpec(name, " & ", " ");
  }

  /** What the header shows for a column. */
  datatype Stats = Stats(count: nat, totalValue: int, overdue: nat, avgHealth: int, indicator: Indicator)

  function HeaderStats(deals: seq<Deal>, now: int): (s: Stats)
    ensures s.count == |deals| && s.overdue <= s.count
    ensures s.count == 0 ==> s.totalValue == 0 && s.overdue == 0 && s.indicator == NotAvailable
  {
    var avg := AverageHealth(deals);
    Stats(|deals|, TotalValue(deals), OverdueCount(deals, now), avg, HealthIndicator(avg))
  }
}
