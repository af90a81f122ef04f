/**
 * The pipeline page's summary cards (deal count, pipeline value, won, lost, overdue and
 * average health over all stages) and the handler that forwards a board payload to the
 * bulk update. Money is in integer cents; dates are integer timestamps.
 */
module ManagePipeline {
  import opened Wrappers
  import opened Reconcile

  /**
   * The fields of a deal the summary reads. `value` is `None` where `parseFloat` gives
   * `NaN`.
   */
  datatype Deal = Deal(
    value: Option<int>,
    healthScore: Option<int>,
    actualCloseDate: Option<int>,
    lostReason: Option<string>,
    expectedCloseDate: Option<int>)

  datatype Stage = Stage(deals: seq<Deal>)

  /** Won: closed, and no lost reason. */
  predicate Won(d: Deal) {
    d.actualCloseDate.Some? && !Truthy(d.lostReason)
  }

  /** Lost: a lost reason is given. */
  predicate Lost(d: Deal) {
    Truthy(d.lostReason)
  }

  /** Overdue: expected to close before `now`, and neither closed nor lost. */
  predicate Overdue(d: Deal, now: int) {
    d.expectedCloseDate.Some? && d.expectedCloseDate.value < now && d.actualCloseDate.None? && !Truthy(d.lostReason)
  }

  /** A deal is at most one of won, lost and overdue. */
  lemma OutcomesDisjoint(d: Deal, now: int)
    ensures !(Won(d) && Lost(d)) && !(Won(d) && Overdue(d, now)) && !(Lost(d) && Overdue(d, now))
  {
  }

  /** The six counters of `pipelineSummary`. */
  datatype Summary = Summary(
    totalDeals: int,
    totalValue: int,
    wonDeals: int,
    lostDeals: int,
    overdueDeals: int,
    totalHealth: int)

  /** The counters after counting one more deal. */
  function Tally(s: Summary, d: Deal, now: int): Summary {
    Summary(
      s.totalDeals + 1,
      s.totalValue + d.value.GetOr(0),
      s.wonDeals + (if Won(d) then 1 else 0),
      s.lostDeals + (if Lost(d) then 1 else 0),
      s.overdueDeals + (if Overdue(d, now) then 1 else 0),
      s.totalHealth + d.healthScore.GetOr(0))
  }

  /** The counters over `deals`, taken in order. */
  function SummaryOf(deals: seq<Deal>, now: int): (s: Summary)
    ensures s.totalDeals == |deals|
    ensures 0 <= s.wonDeals && 0 <= s.lostDeals && 0 <= s.overdueDeals
    ensures s.wonDeals + s.lostDeals + s.overdueDeals <= s.totalDeals
  {
    if deals == [] then Summary(0, 0, 0, 0, 0, 0)
    else
      OutcomesDisjoint(deals[|deals| - 1], now);
      Tally(SummaryOf(deals[..|deals| - 1], now), deals[|deals| - 1], now)
  }

  lemma SummaryOfStep(before: seq<Deal>, deals: seq<Deal>, j: nat, now: int)
    requires j < |deals|
    ensures SummaryOf(before + deals[..j + 1], now) == Tally(SummaryOf(before + deals[..j], now), deals[j], now)
  {
    var next := before + deals[..j + 1];
    assert next[..|next| - 1] == before + deals[..j];
  }

  /** The deals of all stages, stage after stage. */
  function AllDeals(stages: seq<Stage>): seq<Deal> {
    if stages == [] then [] else AllDeals(stages[..|stages| - 1]) + stages[|stages| - 1].deals
  }

  lemma AllDealsStep(stages: seq<Stage>, i: nat)
    requires i < |stages|
    ensures AllDeals(stages[..i + 1]) == AllDeals(stages[..i]) + stages[i].deals
  {
    assert stages[..i + 1][..i] == stages[..i];
  }

  /** The sum of the stages' deal counts. */
  function DealCount(stages: seq<Stage>): nat {
    if stages == [] then 0 else DealCount(stages[..|stages| - 1]) + |stages[|stages| - 1].deals|
  }

  /** `pipelineSummary`: the nested `forEach` that bumps the counters deal by deal. */
  method Summarize(stages: seq<Stage>, now: int) returns (s: Summary)
    ensures s == SummaryOf(AllDeals(stages), now)
  {
    s := Summary(0, 0, 0, 0, 0, 0);
    var i := 0;
    while i < |stages|
      invariant 0 <= i <= |stages|
      invariant s == SummaryOf(AllDeals(stages[..i]), now)
    {
      ghost var before := AllDeals(stages[..i]);
      assert before + stages[i].deals[..0] == before;
      s := CountStage(s, before, stages[i].deals, now);
      assert stages[i].deals[..|stages[i].deals|] == stages[i].deals;
      AllDealsStep(stages, i);
      i := i + 1;
    }
    assert stages[..i] == stages;
  }

  /** The inner `forEach` over one stage's deals. */
  method CountStage(s0: Summary, ghost before: seq<Deal>, deals: seq<Deal>, now: int) returns (s: Summary)
    requires s0 == SummaryOf(before, now)
    ensures s == SummaryOf(before + deals, now)
  {
    var totalDeals, totalValue, wonDeals, lostDeals, overdueDeals, totalHealth :=
      s0.totalDeals, s0.totalValue, s0.wonDeals, s0.lostDeals, s0.overdueDeals, s0.totalHealth;
    var j := 0;
    assert before + deals[..0] == before;
    while j < |deals|
      invariant 0 <= j <= |deals|
      invariant Summary(totalDeals, totalValue, wonDeals, lostDeals, overdueDeals, totalHealth)
                == SummaryOf(before + deals[..j], now)
    {
      var deal := deals[j];
      ghost var prev := Summary(totalDeals, totalValue, wonDeals, lostDeals, overdueDeals, totalHealth);
      totalDeals := totalDeals + 1;
      totalValue := totalValue + deal.value.GetOr(0);
      totalHealth := totalHealth + deal.healthScore.GetOr(0);
      if deal.actualCloseDate.Some? && !Truthy(deal.lostReason) {
        wonDeals := wonDeals + 1;
      }
      if Truthy(deal.lostReason) {
        lostDeals := lostDeals + 1;
      }
      if deal.expectedCloseDate.Some? {
        if deal.expectedCloseDate.value < now && deal.actualCloseDate.None? && !Truthy(deal.lostReason) {
          overdueDeals := overdueDeals + 1;
        }
      }
      assert Summary(totalDeals, totalValue, wonDeals, lostDeals, overdueDeals, totalHealth) == Tally(prev, deal, now);
      SummaryOfStep(before, deals, j, now);
      j := j + 1;
    }
    assert deals[..j] == deals;
    s := Summary(totalDeals, totalValue, wonDeals, lostDeals, overdueDeals, totalHealth);
  }

  /** The deal count shown is the sum of the stages' deal counts. */
  lemma {:induction false} TotalIsSumOfStages(stages: seq<Stage>, now: int)
    ensures SummaryOf(AllDeals(stages), now).totalDeals == DealCount(stages)
  {
    AllDealsLength(stages);
  }

  lemma {:induction false} AllDealsLength(stages: seq<Stage>)
    ensures |AllDeals(stages)| == DealCount(stages)
  {
    if stages != [] {
      AllDealsLength(stages[..|stages| - 1]);
    }
  }

  /** Average health in hundredths (`toFixed(2)`): 0 without deals, else the rounded mean. */
  function AverageHealth(s: Summary): (r: int)
    requires s.totalDeals >= 0
    ensures s.totalDeals == 0 ==> r == 0
    ensures s.totalDeals > 0 ==> 2 * s.totalDeals * r - s.totalDeals <= 200 * s.totalHealth < 2 * s.totalDeals * r + s.totalDeals
  {
    if s.totalDeals > 0 then RoundDiv(100 * s.totalHealth, s.totalDeals) else 0
  }

  /** With every health score between 0 and 100, so is the average. */
  lemma AverageHealthBounded(deals: seq<Deal>, now: int)
    requires forall d :: d in deals ==> 0 <= d.healthScore.GetOr(0) <= 100
    ensures 0 <= AverageHealth(SummaryOf(deals, now)) <= 10000
  {
    var s := SummaryOf(deals, now);
    HealthTotalBounded(deals, now);
    if s.totalDeals > 0 {
      RoundDivBounds(100 * s.totalHealth, s.totalDeals, 0, 10000);
    }
  }

  lemma {:induction false} HealthTotalBounded(deals: seq<Deal>, now: int)
    requires forall d :: d in deals ==> 0 <= d.healthScore.GetOr(0) <= 100
    ensures 0 <= SummaryOf(deals, now).totalHealth <= 100 * |deals|
  {
    if deals != [] {
      var init := deals[..|deals| - 1];
      assert forall d :: d in init ==> d in deals;
      assert deals[|deals| - 1] in deals;
      HealthTotalBounded(init, now);
    }
  }

  /** The page's calls to the bulk update. */
  class PipelinePage {
    var bulkUpdates: seq<seq<Update<string>>>

    constructor()
      ensures bulkUpdates == []
    {
      bulkUpdates := [];
    }

    /**
     * `handleOnPipelineChange`: the board's payload is sent to the bulk update as it is;
     * a failure of the call is swallowed.
     */
    method HandleOnPipelineChange(data: seq<Update<string>>)
      modifies this
      ensures bulkUpdates == old(bulkUpdates) + [data]
    {
      bulkUpdates := bulkUpdates + [data];
    }
  }
}
