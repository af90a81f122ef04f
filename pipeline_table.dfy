/**
 * The pipeline table: the deals of all stages flattened into one list ordered by creation
 * time, the health label and colour of a deal, the stage colour lookup and the "Days"
 * column's order. Timestamps are integer milliseconds.
 */
module PipelineTable {
  import opened Wrappers
  import opened Sorting

  /** The fields of a deal row the table reads. */
  datatype Deal = Deal(
    id: string,
    createdAt: int,
    currentStageId: string,
    healthScore: int,
    currentStageSince: int)

  datatype Stage = Stage(id: string, color: Option<string>, deals: seq<Deal>)

  /** The `flatMap` over the stages' deal lists: stage after stage, each in its own order. */
  function Flatten(stages: seq<Stage>): seq<Deal> {
    if stages == [] then [] else Flatten(stages[..|stages| - 1]) + stages[|stages| - 1].deals
  }

  /** The comparator `a.createdAt - b.createdAt`, as a sort key. */
  function CreatedAt(d: Deal): int {
    d.createdAt
  }

  /** The table's `deals` state: the flattened deals in ascending creation order. */
  function TableDeals(stages: seq<Stage>): seq<Deal> {
    SortBy(Flatten(stages), CreatedAt)
  }

  /** The sum of the stages' deal counts. */
  function DealCount(stages: seq<Stage>): nat {
    if stages == [] then 0 else DealCount(stages[..|stages| - 1]) + |stages[|stages| - 1].deals|
  }

  lemma {:induction false} FlattenLength(stages: seq<Stage>)
    ensures |Flatten(stages)| == DealCount(stages)
  {
    if stages != [] {
      FlattenLength(stages[..|stages| - 1]);
    }
  }

  /** A deal is flattened exactly when some stage holds it. */
  lemma {:induction false} FlattenMembers(stages: seq<Stage>, d: Deal)
    ensures d in Flatten(stages) <==> exists i :: 0 <= i < |stages| && d in stages[i].deals
  {
    if stages != [] {
      var init, last := stages[..|stages| - 1], stages[|stages| - 1];
      FlattenMembers(init, d);
      if exists i :: 0 <= i < |stages| && d in stages[i].deals {
        var i :| 0 <= i < |stages| && d in stages[i].deals;
        if i < |init| {
          assert init[i] == stages[i];
        }
      }
      if d in Flatten(init) {
        var i :| 0 <= i < |init| && d in init[i].deals;
        assert stages[i] == init[i];
      }
    }
  }

  /**
   * The table lists every deal of every stage and nothing else: the row count ("of N
   * deals") is the sum of the stages' deal counts and the rows are in creation order.
   */
  lemma TableDealsComplete(stages: seq<Stage>, d: Deal)
    ensures |TableDeals(stages)| == DealCount(stages)
    ensures SortedBy(TableDeals(stages), CreatedAt)
    ensures d in TableDeals(stages) <==> exists i :: 0 <= i < |stages| && d in stages[i].deals
  {
    FlattenLength(stages);
    FlattenMembers(stages, d);
    var t := TableDeals(stages);
    assert d in t <==> d in multiset(t);
    assert d in Flatten(stages) <==> d in multiset(Flatten(stages));
  }

  /** Deals created at the same instant keep their stage-by-stage order (the sort is stable). */
  lemma TableDealsTies(stages: seq<Stage>, t: int)
    ensures WithKey(TableDeals(stages), CreatedAt, t) == WithKey(Flatten(stages), CreatedAt, t)
  {
    SortByIsStable(Flatten(stages), CreatedAt, t);
  }

  /** `getHealthLabel`. */
  function HealthLabel(health: int): string {
    if health >= 80 then "Healthy" else if health >= 50 then "Warning" else "At Risk"
  }

  /** `getHealthColor`. */
  function HealthColor(health: int): string {
    if health >= 80 then "bg-green-100 text-green-800"
    else if health >= 50 then "bg-yellow-100 text-yellow-800"
    else "bg-red-100 text-red-800"
  }

  /** The label bands, and the colour always matching the label. */
  lemma HealthLabelBands(health: int)
    ensures HealthLabel(health) == "Healthy" <==> health >= 80
    ensures HealthLabel(health) == "Warning" <==> 50 <= health < 80
    ensures HealthLabel(health) == "At Risk" <==> health < 50
    ensures HealthLabel(health) == "Healthy" <==> HealthColor(health) == "bg-green-100 text-green-800"
    ensures HealthLabel(health) == "Warning" <==> HealthColor(health) == "bg-yellow-100 text-yellow-800"
    ensures HealthLabel(health) == "At Risk" <==> HealthColor(health) == "bg-red-100 text-red-800"
  {
  }

  /** `pipelineStages.find(stage => stage.id === stageId)`. */
  function FindStage(stages: seq<Stage>, stageId: string): (r: Option<nat>)
    ensures r.Some? ==> r.value < |stages| && stages[r.value].id == stageId
                        && forall j :: 0 <= j < r.value ==> stages[j].id != stageId
    ensures r.None? ==> forall j :: 0 <= j < |stages| ==> stages[j].id != stageId
  {
    if stages == [] then None
    else if stages[0].id == stageId then Some(0)
    else
      match FindStage(stages[1..], stageId)
      case None => None
      case Some(k) => Some(k + 1)
  }

  /** `getStageColor`: the colour of the first stage with that id, else "bg-muted". */
  function StageColor(stages: seq<Stage>, stageId: string): (c: string)
    ensures c == "bg-muted" || exists i :: 0 <= i < |stages| && stages[i].id == stageId && stages[i].color == Some(c)
  {
    match FindStage(stages, stageId)
    case None => "bg-muted"
    case Some(i) => OrElse(stages[i].color, "bg-muted")
  }

  /**
   * With no stage of that id the colour is "bg-muted"; otherwise it is the first such
   * stage's colour when that is non-empty, and "bg-muted" when it is missing or empty.
   */
  lemma StageColorCases(stages: seq<Stage>, stageId: string, i: nat)
    requires i < |stages| && stages[i].id == stageId
    requires forall j :: 0 <= j < i ==> stages[j].id != stageId
    ensures Truthy(stages[i].color) ==> StageColor(stages, stageId) == stages[i].color.value
    ensures !Truthy(stages[i].color) ==> StageColor(stages, stageId) == "bg-muted"
  {
    var r := FindStage(stages, stageId);
    assert r.Some?;
    assert r.value == i;
  }

  lemma StageColorMissing(stages: seq<Stage>, stageId: string)
    requires forall j :: 0 <= j < |stages| ==> stages[j].id != stageId
    ensures StageColor(stages, stageId) == "bg-muted"
  {
    assert FindStage(stages, stageId).None?;
  }

  const MillisPerDay := 86_400_000

  /**
   * `calculateDays`: whole days from `since` to `now`, truncated toward zero as a count of
   * full days is.
   */
  function DaysSince(now: int, since: int): int {
    var diff := now - since;
    if diff >= 0 then diff / MillisPerDay else -((-diff) / MillisPerDay)
  }

  lemma DivMonotone(x: int, y: int)
    requires 0 <= x <= y
    ensures x / MillisPerDay <= y / MillisPerDay
  {
    var qx, qy := x / MillisPerDay, y / MillisPerDay;
    var px, py := MillisPerDay * qx, MillisPerDay * qy;
    assert px <= x && y < py + MillisPerDay;
    if qy < qx {
      MulMonotone(MillisPerDay, qy + 1, qx);
    }
  }

  /** An earlier stage entry never shows fewer days. */
  lemma DaysSinceAntitone(now: int, a: int, b: int)
    requires a <= b
    ensures DaysSince(now, a) >= DaysSince(now, b)
  {
    var da, db := now - a, now - b;
    if db >= 0 {
      DivMonotone(db, da);
    } else if da >= 0 {
    } else {
      DivMonotone(-da, -db);
    }
  }

  /** The "Days" column sorted ascending by the `daysA - daysB` comparator. */
  function DaysKey(now: int): Deal -> int {
    (d: Deal) => DaysSince(now, d.currentStageSince)
  }

  function SortedByDays(rows: seq<Deal>, now: int): seq<Deal> {
    SortBy(rows, DaysKey(now))
  }

  /**
   * Sorting by days keeps the rows and puts fewer days first: a row that entered its stage
   * no later than a row after it shows the same number of days.
   */
  lemma SortedByDaysOrder(rows: seq<Deal>, now: int, i: nat, j: nat)
    requires i < j < |rows|
    ensures multiset(SortedByDays(rows, now)) == multiset(rows)
    ensures var r := SortedByDays(rows, now);
            DaysSince(now, r[i].currentStageSince) <= DaysSince(now, r[j].currentStageSince)
    ensures var r := SortedByDays(rows, now);
            r[i].currentStageSince <= r[j].currentStageSince ==>
              DaysSince(now, r[i].currentStageSince) == DaysSince(now, r[j].currentStageSince)
  {
    var r := SortedByDays(rows, now);
    assert DaysKey(now)(r[i]) <= DaysKey(now)(r[j]);
    assert DaysKey(now)(r[i]) == DaysSince(now, r[i].currentStageSince);
    assert DaysKey(now)(r[j]) == DaysSince(now, r[j].currentStageSince);
    if r[i].currentStageSince <= r[j].currentStageSince {
      DaysSinceAntitone(now, r[i].currentStageSince, r[j].currentStageSince);
    }
  }
}
