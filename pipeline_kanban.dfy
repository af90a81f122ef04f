/**
 * The deal pipeline board: stages ordered by their `order`, each stage name mapped to its
 * deals ordered by stored position, and the drag handler shared with the task board.
 * Here a column is named by its stage name and a deal's `status` field carries that name.
 */
module PipelineKanban {
  import opened Wrappers
  import opened Sorting
  import opened Reconcile
  import opened ReconcileProperties

  type Deal = Card<string>

  /** A pipeline stage as passed in: its name, its `order` and its deals. */
  datatype Stage = Stage(name: string, order: int, deals: seq<Deal>)

  /** The stage comparator `a.order - b.order`, as a sort key. */
  function Order(s: Stage): int {
    s.order
  }

  /** The deal comparator `a.position - b.position`, as a sort key. */
  function Position(d: Deal): int {
    d.position
  }

  /**
   * `Object.fromEntries` over `[name, sorted deals]` pairs: every stage name becomes a key,
   * and when two stages share a name the later entry wins.
   */
  function FromStages(stages: seq<Stage>): Board<string> {
    if stages == [] then map[]
    else
      var last := stages[|stages| - 1];
      FromStages(stages[..|stages| - 1])[last.name := SortBy(last.deals, Position)]
  }

  /** The pipeline state built from the stages: ordered by `order`, then keyed by name. */
  function Built(stages: seq<Stage>): Board<string> {
    FromStages(SortBy(stages, Order))
  }

  /** One more entry: its name now holds its stage's sorted deals. */
  lemma FromStagesSnoc(init: seq<Stage>, last: Stage)
    ensures FromStages(init + [last]) == FromStages(init)[last.name := SortBy(last.deals, Position)]
  {
    assert (init + [last])[..|init|] == init;
  }

  lemma FromStagesPrefix(stages: seq<Stage>, i: nat)
    requires i < |stages|
    ensures FromStages(stages[..i + 1]) == FromStages(stages[..i])[stages[i].name := SortBy(stages[i].deals, Position)]
  {
    assert stages[..i + 1] == stages[..i] + [stages[i]];
    FromStagesSnoc(stages[..i], stages[i]);
  }

  /** The state initializer and the effect on `pipelineStages`. */
  method BuildPipeline(stages: seq<Stage>) returns (board: Board<string>)
    ensures board == Built(stages)
  {
    var sorted := SortBy(stages, Order);
    board := map[];
    var i := 0;
    while i < |sorted|
      invariant 0 <= i <= |sorted|
      invariant board == FromStages(sorted[..i])
    {
      var stage := sorted[i];
      FromStagesPrefix(sorted, i);
      board := board[stage.name := SortBy(stage.deals, Position)];
      i := i + 1;
    }
    assert sorted[..i] == sorted;
  }

  /** A name is a key exactly when some stage carries it. */
  lemma {:induction false} FromStagesKey(stages: seq<Stage>, n: string)
    ensures n in FromStages(stages) <==> exists i :: 0 <= i < |stages| && stages[i].name == n
  {
    if stages != [] {
      var init, last := stages[..|stages| - 1], stages[|stages| - 1];
      FromStagesKey(init, n);
      FromStagesSnocKey(init, last, n);
      assert stages == init + [last];
      if n in FromStages(stages) {
        if n == last.name {
          assert stages[|stages| - 1].name == n;
        } else {
          var i :| 0 <= i < |init| && init[i].name == n;
          assert stages[i].name == n;
        }
      } else {
        forall i | 0 <= i < |stages| ensures stages[i].name != n {
          if i < |init| {
            assert stages[i] == init[i];
          }
        }
      }
    }
  }

  lemma FromStagesSnocKey(init: seq<Stage>, last: Stage, n: string)
    ensures n in FromStages(init + [last]) <==> n in FromStages(init) || n == last.name
  {
    FromStagesSnoc(init, last);
  }

  /** Every key holds the sorted deals of some stage carrying that name. */
  lemma {:induction false} FromStagesValue(stages: seq<Stage>, n: string)
    requires n in FromStages(stages)
    ensures exists i :: 0 <= i < |stages| && stages[i].name == n
                        && FromStages(stages)[n] == SortBy(stages[i].deals, Position)
  {
    var init, last := stages[..|stages| - 1], stages[|stages| - 1];
    assert stages == init + [last];
    FromStagesSnoc(init, last);
    if n == last.name {
      assert stages[|stages| - 1].name == n;
    } else {
      FromStagesValue(init, n);
      var i :| 0 <= i < |init| && init[i].name == n && FromStages(init)[n] == SortBy(init[i].deals, Position);
      assert stages[i] == init[i];
    }
  }

  /** The last stage carrying a name is the one whose deals that key holds. */
  lemma {:induction false} FromStagesLastWins(stages: seq<Stage>, i: nat)
    requires i < |stages|
    requires forall j :: i < j < |stages| ==> stages[j].name != stages[i].name
    ensures stages[i].name in FromStages(stages)
    ensures FromStages(stages)[stages[i].name] == SortBy(stages[i].deals, Position)
  {
    var init, last := stages[..|stages| - 1], stages[|stages| - 1];
    assert stages == init + [last];
    FromStagesSnoc(init, last);
    if i < |init| {
      assert stages[|stages| - 1].name != stages[i].name;
      forall j | i < j < |init| ensures init[j].name != init[i].name {
        assert init[j] == stages[j] && init[i] == stages[i];
      }
      FromStagesLastWins(init, i);
      assert init[i] == stages[i];
    }
  }

  /** Sorting the stages keeps exactly the same stages. */
  lemma SortedStagesSame(stages: seq<Stage>, s: Stage)
    ensures s in SortBy(stages, Order) <==> s in stages
  {
    var sorted := SortBy(stages, Order);
    assert s in stages <==> s in multiset(stages);
    assert s in sorted <==> s in multiset(sorted);
  }

  /** The built state has a key for every stage name and no other key. */
  lemma BuiltKeys(stages: seq<Stage>, n: string)
    ensures n in Built(stages) <==> exists s :: s in stages && s.name == n
  {
    var sorted := SortBy(stages, Order);
    FromStagesKey(sorted, n);
    if n in Built(stages) {
      var i :| 0 <= i < |sorted| && sorted[i].name == n;
      SortedStagesSame(stages, sorted[i]);
    }
    if exists s :: s in stages && s.name == n {
      var s :| s in stages && s.name == n;
      SortedStagesSame(stages, s);
      var i :| 0 <= i < |sorted| && sorted[i] == s;
    }
  }

  /**
   * Every column of the built state is ordered by position and holds exactly the deals of
   * a stage of that name.
   */
  lemma BuiltColumn(stages: seq<Stage>, n: string)
    requires n in Built(stages)
    ensures SortedBy(Built(stages)[n], Position)
    ensures exists s :: s in stages && s.name == n && multiset(Built(stages)[n]) == multiset(s.deals)
  {
    var sorted := SortBy(stages, Order);
    FromStagesValue(sorted, n);
    var i :| 0 <= i < |sorted| && sorted[i].name == n && Built(stages)[n] == SortBy(sorted[i].deals, Position);
    SortedStagesSame(stages, sorted[i]);
  }

  /** With distinct stage names, each stage's column is its own deals, sorted by position. */
  lemma BuiltDistinctNames(stages: seq<Stage>, s: Stage)
    requires forall i, j :: 0 <= i < j < |stages| ==> stages[i].name != stages[j].name
    requires s in stages
    ensures s.name in Built(stages) && Built(stages)[s.name] == SortBy(s.deals, Position)
  {
    var sorted := SortBy(stages, Order);
    BuiltKeys(stages, s.name);
    FromStagesValue(sorted, s.name);
    var i :| 0 <= i < |sorted| && sorted[i].name == s.name && Built(stages)[s.name] == SortBy(sorted[i].deals, Position);
    SortedStagesSame(stages, sorted[i]);
    SameNameSameStage(stages, sorted[i], s);
  }

  /** With distinct names, two stages of the list sharing a name are one stage. */
  lemma SameNameSameStage(stages: seq<Stage>, s: Stage, t: Stage)
    requires forall i, j :: 0 <= i < j < |stages| ==> stages[i].name != stages[j].name
    requires s in stages && t in stages && s.name == t.name
    ensures s == t
  {
    var a :| 0 <= a < |stages| && stages[a] == s;
    var c :| 0 <= c < |stages| && stages[c] == t;
  }

  /** The mounted pipeline component: its `pipelines` state. */
  class PipelineBoard {
    var pipelines: Board<string>

    constructor(stages: seq<Stage>)
      ensures pipelines == Built(stages)
    {
      var board := BuildPipeline(stages);
      pipelines := board;
    }

    /** The effect run when `pipelineStages` changes: the state is rebuilt from scratch. */
    method Refresh(stages: seq<Stage>)
      modifies this
      ensures pipelines == Built(stages)
    {
      pipelines := BuildPipeline(stages);
    }

    /**
     * `onDragEnd`. Returns the payload handed to `onChange`, or `None` when dropped outside
     * every stage. Columns are rendered from the stage names, so both droppable ids of a
     * drop are keys of the state. No stage appears or disappears, and unique deal ids stay
     * unique.
     */
    method OnDragEnd(drop: DropResult<string>) returns (sent: Option<seq<Update<string>>>)
      requires drop.destination.Some? ==>
                 drop.source.droppableId in pipelines && drop.destination.value.droppableId in pipelines
      modifies this
      ensures pipelines.Keys == old(pipelines).Keys
      ensures BoardIdsDistinct(old(pipelines)) ==> BoardIdsDistinct(pipelines)
      ensures drop.destination.None? ==> pipelines == old(pipelines) && sent == None
      ensures drop.destination.Some? ==>
                var move := ApplyMove(old(pipelines), drop.source, drop.destination.value);
                && (move.None? ==> pipelines == old(pipelines) && sent == Some([]))
                && (move.Some? ==>
                      pipelines == move.value.board
                      && sent == Some(Payload(move.value, drop.source.droppableId, drop.destination.value)))
    {
      if drop.destination.None? {
        return None;
      }
      var destination := drop.destination.value;
      var board, payload := Reconcile.Reconcile(pipelines, drop.source, destination);
      if drop.source.index < |pipelines[drop.source.droppableId]| {
        MoveKeepsCards(pipelines, drop.source, destination);
        if BoardIdsDistinct(pipelines) {
          MoveKeepsIdsDistinct(pipelines, drop.source, destination);
        }
      }
      pipelines := board;
      sent := Some(payload);
    }
  }
}
