/**
 * The task board: tasks grouped into the four status columns, each ordered by stored
 * position, and the drag handler that moves a task and reports the position changes.
 */
module DataKanban {
  import opened Wrappers
  import opened Sorting
  import opened Reconcile
  import opened ReconcileProperties

  /** The task statuses, in column order. */
  datatype TaskStatus = Backlog | Todo | InProgress | Done

  const AllStatuses: seq<TaskStatus> := [Backlog, Todo, InProgress, Done]

  /** The column a status is shown in, counting from the left. */
  function ColumnIndex(s: TaskStatus): (k: nat)
    ensures k < |AllStatuses| && AllStatuses[k] == s
  {
    match s
    case Backlog => 0
    case Todo => 1
    case InProgress => 2
    case Done => 3
  }

  lemma ColumnIndexOf(j: nat)
    requires j < |AllStatuses|
    ensures ColumnIndex(AllStatuses[j]) == j
  {
    if j == 0 {
    } else if j == 1 {
    } else if j == 2 {
    } else {
    }
  }

  lemma StatusListed(s: TaskStatus)
    ensures s in AllStatuses
  {
    match s {
      case Backlog =>
      case Todo =>
      case InProgress =>
      case Done =>
    }
  }

  type Task = Card<TaskStatus>

  /** The sort key of a column: the stored position. */
  function Position(t: Task): int {
    t.position
  }

  /** The tasks of `data` whose status is `s`, in input order (what the `push` loop collects). */
  function OfStatus(data: seq<Task>, s: TaskStatus): seq<Task> {
    if data == [] then []
    else
      var last := data[|data| - 1];
      OfStatus(data[..|data| - 1], s) + (if last.status == s then [last] else [])
  }

  /** The board built from `data`: one column per status, ordered by stored position. */
  function Grouped(data: seq<Task>): Board<TaskStatus> {
    map s | s in AllStatuses :: SortBy(OfStatus(data, s), Position)
  }

  /** The `forEach` that pushes every task onto the column its status names. */
  method CollectByStatus(data: seq<Task>) returns (board: Board<TaskStatus>)
    ensures forall s: TaskStatus :: s in board && board[s] == OfStatus(data, s)
  {
    board := map[Backlog := [], Todo := [], InProgress := [], Done := []];
    forall s: TaskStatus ensures s in board && board[s] == [] {
      match s {
        case Backlog =>
        case Todo =>
        case InProgress =>
        case Done =>
      }
    }
    var i := 0;
    while i < |data|
      invariant 0 <= i <= |data|
      invariant forall s: TaskStatus :: s in board && board[s] == OfStatus(data[..i], s)
    {
      var task := data[i];
      assert data[..i + 1][..i] == data[..i];
      board := board[task.status := board[task.status] + [task]];
      i := i + 1;
    }
    assert data[..i] == data;
  }

  /** Column `s` after the first `j` columns were sorted. */
  function ColumnAfter(data: seq<Task>, s: TaskStatus, j: nat): seq<Task> {
    if ColumnIndex(s) < j then SortBy(OfStatus(data, s), Position) else OfStatus(data, s)
  }

  /** The first `j` columns of `board` are sorted, the others still as collected. */
  ghost predicate SortedThrough(data: seq<Task>, board: Board<TaskStatus>, j: nat) {
    && Backlog in board && board[Backlog] == ColumnAfter(data, Backlog, j)
    && Todo in board && board[Todo] == ColumnAfter(data, Todo, j)
    && InProgress in board && board[InProgress] == ColumnAfter(data, InProgress, j)
    && Done in board && board[Done] == ColumnAfter(data, Done, j)
  }

  lemma SortColumnStep(data: seq<Task>, board: Board<TaskStatus>, j: nat)
    requires j < |AllStatuses| && SortedThrough(data, board, j)
    ensures var status := AllStatuses[j];
            SortedThrough(data, board[status := SortBy(board[status], Position)], j + 1)
  {
    if j == 0 {
      assert AllStatuses[j] == Backlog;
    } else if j == 1 {
      assert AllStatuses[j] == Todo;
    } else if j == 2 {
      assert AllStatuses[j] == InProgress;
    } else {
      assert AllStatuses[j] == Done;
    }
  }

  /**
   * The state initializer and the effect on `data`: collect the tasks by status, then sort
   * each column by position.
   */
  method GroupByStatus(data: seq<Task>) returns (board: Board<TaskStatus>)
    ensures board == Grouped(data)
  {
    board := CollectByStatus(data);
    assert board[Backlog] == OfStatus(data, Backlog) && board[Todo] == OfStatus(data, Todo);
    assert board[InProgress] == OfStatus(data, InProgress) && board[Done] == OfStatus(data, Done);
    var j := 0;
    while j < |AllStatuses|
      invariant 0 <= j <= |AllStatuses|
      invariant SortedThrough(data, board, j)
    {
      var status := AllStatuses[j];
      SortColumnStep(data, board, j);
      board := board[status := SortBy(board[status], Position)];
      j := j + 1;
    }
    GroupedByColumns(data, board);
  }

  /** A board whose every column is the sorted collection of its status is the built board. */
  lemma GroupedByColumns(data: seq<Task>, board: Board<TaskStatus>)
    requires SortedThrough(data, board, |AllStatuses|)
    ensures board == Grouped(data)
  {
    forall s: TaskStatus ensures s in Grouped(data) && s in board && board[s] == Grouped(data)[s] {
      StatusListed(s);
      match s {
        case Backlog =>
        case Todo =>
        case InProgress =>
        case Done =>
      }
    }
    assert board.Keys == Grouped(data).Keys;
  }

  /** A task is collected for `s` exactly when it occurs in `data` with status `s`. */
  lemma {:induction false} OfStatusMembers(data: seq<Task>, s: TaskStatus, t: Task)
    ensures t in OfStatus(data, s) <==> t in data && t.status == s
  {
    if data != [] {
      var init, last := data[..|data| - 1], data[|data| - 1];
      OfStatusMembers(init, s, t);
      assert data == init + [last];
    }
  }

  /** Every task lands in exactly the column its status names. */
  lemma GroupedPlacesEachTask(data: seq<Task>)
    ensures forall s: TaskStatus :: s in Grouped(data)
    ensures forall s, t :: s in Grouped(data) ==> (t in Grouped(data)[s] <==> t in data && t.status == s)
  {
    forall s: TaskStatus ensures s in Grouped(data) {
      StatusListed(s);
    }
    forall s, t | s in Grouped(data) ensures t in Grouped(data)[s] <==> t in data && t.status == s {
      OfStatusMembers(data, s, t);
      assert multiset(Grouped(data)[s]) == multiset(OfStatus(data, s));
      assert t in Grouped(data)[s] <==> t in multiset(Grouped(data)[s]);
    }
  }

  /** A task is collected into its own status as often as it occurs, and never into another. */
  lemma {:induction false} OfStatusCount(data: seq<Task>, s: TaskStatus, t: Task)
    ensures multiset(OfStatus(data, s))[t] == if t.status == s then multiset(data)[t] else 0
  {
    if data != [] {
      var init, last := data[..|data| - 1], data[|data| - 1];
      OfStatusCount(init, s, t);
      assert data == init + [last];
    }
  }

  /** Splitting by status loses and duplicates nothing: the four columns together are `data`. */
  lemma OfStatusPartition(data: seq<Task>)
    ensures multiset(OfStatus(data, Backlog)) + multiset(OfStatus(data, Todo))
            + multiset(OfStatus(data, InProgress)) + multiset(OfStatus(data, Done)) == multiset(data)
  {
    var all := multiset(OfStatus(data, Backlog)) + multiset(OfStatus(data, Todo))
               + multiset(OfStatus(data, InProgress)) + multiset(OfStatus(data, Done));
    forall t ensures all[t] == multiset(data)[t] {
      OfStatusCount(data, Backlog, t);
      OfStatusCount(data, Todo, t);
      OfStatusCount(data, InProgress, t);
      OfStatusCount(data, Done, t);
    }
  }

  /** The built board holds exactly the tasks of `data`, each column ordered by position. */
  lemma GroupedKeepsTasks(data: seq<Task>)
    ensures var b := Grouped(data);
            multiset(b[Backlog]) + multiset(b[Todo]) + multiset(b[InProgress]) + multiset(b[Done]) == multiset(data)
    ensures forall s :: s in Grouped(data) ==> SortedBy(Grouped(data)[s], Position)
    ensures StatusMatchesBucket(Grouped(data))
  {
    OfStatusPartition(data);
    GroupedPlacesEachTask(data);
    var b: map<TaskStatus, seq<Task>> := Grouped(data);
    forall s: TaskStatus, i: int | s in b && 0 <= i < |b[s]| ensures b[s][i].status == s {
      assert b[s][i] in b[s];
    }
  }

  /** Tasks of one column sharing a position keep their input order (the sort is stable). */
  lemma GroupedKeepsTies(data: seq<Task>, s: TaskStatus, p: int)
    ensures WithKey(Grouped(data)[s], Position, p) == WithKey(OfStatus(data, s), Position, p)
  {
    SortByIsStable(OfStatus(data, s), Position, p);
  }

  /** A board with the four status columns whose every task sits in its status's column. */
  ghost predicate WellFormed(board: Board<TaskStatus>) {
    (forall s: TaskStatus :: s in board) && StatusMatchesBucket(board)
  }

  /** The mounted board component: its `tasks` state and the props its drag handler captured. */
  class TaskBoard {
    var tasks: Board<TaskStatus>
    /** The `isReadOnly` prop as first rendered; the handler is memoised without dependencies. */
    const isReadOnly: bool

    ghost predicate Valid()
      reads this
    {
      WellFormed(tasks)
    }

    constructor(data: seq<Task>, isReadOnly: bool)
      ensures Valid()
      ensures tasks == Grouped(data) && this.isReadOnly == isReadOnly
    {
      var board := GroupByStatus(data);
      this.isReadOnly := isReadOnly;
      tasks := board;
      GroupedKeepsTasks(data);
      GroupedPlacesEachTask(data);
    }

    /** The effect run when `data` changes: the board is rebuilt from scratch. */
    method Refresh(data: seq<Task>)
      modifies this
      ensures Valid()
      ensures tasks == Grouped(data)
    {
      tasks := GroupByStatus(data);
      GroupedKeepsTasks(data);
      GroupedPlacesEachTask(data);
    }

    /**
     * `onDragEnd`. Returns the payload handed to `onChange`, or `None` when the handler
     * returns early (read-only board, or dropped outside every column).
     */
    method OnDragEnd(drop: DropResult<TaskStatus>) returns (sent: Option<seq<Update<TaskStatus>>>)
      requires Valid()
      modifies this
      ensures Valid()
      ensures isReadOnly || drop.destination.None? ==> tasks == old(tasks) && sent == None
      ensures !isReadOnly && drop.destination.Some? ==>
                var move := ApplyMove(old(tasks), drop.source, drop.destination.value);
                && (move.None? ==> tasks == old(tasks) && sent == Some([]))
                && (move.Some? ==>
                      tasks == move.value.board
                      && sent == Some(Payload(move.value, drop.source.droppableId, drop.destination.value)))
    {
      if isReadOnly {
        return None;
      }
      if drop.destination.None? {
        return None;
      }
      var destination := drop.destination.value;
      var board, payload := Reconcile.Reconcile(tasks, drop.source, destination);
      if drop.source.index < |tasks[drop.source.droppableId]| {
        MoveKeepsCards(tasks, drop.source, destination);
        MoveKeepsStatusMatch(tasks, drop.source, destination);
      }
      tasks := board;
      sent := Some(payload);
    }
  }
}
