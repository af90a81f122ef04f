/**
 * The drag-and-drop reconciliation shared by the task board (`DataKanban`) and the deal
 * pipeline board (`PipelineKanban`): cards grouped into named columns ("buckets") ordered by
 * an integer position; a drop removes the card at the source index, inserts it at the
 * destination index (re-tagging its status when the column changes) and emits the list of
 * `{id, status, position}` updates for the persistence layer.
 *
 * The bucket key type `S` is the task status enumeration for the task board and the stage
 * name for the pipeline board.
 */
module Reconcile {
  import opened Wrappers

  const PositionStep: int := 1000
  const MaxPosition: int := 1_000_000

  /** The position written for the card at `index` of a column: `min((index + 1) * 1000, 1_000_000)`. */
  function SlotPosition(index: nat): (p: int)
    ensures p % PositionStep == 0 && PositionStep <= p <= MaxPosition
  {
    var raw := (index + 1) * PositionStep;
    assert raw % PositionStep == 0;
    Min(raw, MaxPosition)
  }

  /** A task or deal as the board sees it (the fields the reconciler reads or writes). */
  datatype Card<S> = Card(id: string, status: S, position: int)

  /** One entry of the payload handed to `onChange`. */
  datatype Update<S> = Update(id: string, status: S, position: int)

  /** The board state: bucket name -> cards of that column, in display order. */
  type Board<S(==)> = map<S, seq<Card<S>>>

  /** A place on the board, as the drag-and-drop library reports it. */
  datatype Location<S> = Location(droppableId: S, index: nat)

  /** The drag-and-drop library's drop report; no destination when dropped outside any column. */
  datatype DropResult<S> = DropResult(source: Location<S>, destination: Option<Location<S>>)

  /** `column.splice(i, 1)` for an index holding a card. */
  function RemoveAt<T>(s: seq<T>, i: nat): (r: seq<T>)
    requires i < |s|
    ensures |r| == |s| - 1
    ensures forall k :: 0 <= k < i ==> r[k] == s[k]
    ensures forall k :: i <= k < |r| ==> r[k] == s[k + 1]
    ensures multiset(r) == multiset(s) - multiset{s[i]}
  {
    assert s == s[..i] + [s[i]] + s[i + 1..];
    s[..i] + s[i + 1..]
  }

  /** Where `column.splice(i, 0, x)` puts `x`: at `i`, or at the end when `i` is past it. */
  function LandingIndex<T>(s: seq<T>, i: nat): (k: nat)
    ensures k <= |s|
  {
    Min(i, |s|)
  }

  /** `column.splice(i, 0, x)`. */
  function InsertAt<T>(s: seq<T>, i: nat, x: T): (r: seq<T>)
    ensures |r| == |s| + 1
    ensures r[LandingIndex(s, i)] == x
    ensures forall k :: 0 <= k < LandingIndex(s, i) ==> r[k] == s[k]
    ensures forall k :: LandingIndex(s, i) < k < |r| ==> r[k] == s[k - 1]
    ensures multiset(r) == multiset(s) + multiset{x}
  {
    var j := LandingIndex(s, i);
    assert s == s[..j] + s[j..];
    s[..j] + [x] + s[j..]
  }

  /** The board after a move, and the moved card as it now is. */
  datatype Move<S> = Move(board: map<S, seq<Card<S>>>, moved: Card<S>)

  /**
   * The board after dropping the card at `source` onto `destination`, or `None` when the
   * source index holds no card. The card's status becomes the destination bucket only when
   * the buckets differ; no stored position is rewritten.
   */
  function ApplyMove<S(==)>(board: Board<S>, source: Location<S>, destination: Location<S>): Option<Move<S>>
    requires source.droppableId in board && destination.droppableId in board
  {
    var src, dst := source.droppableId, destination.droppableId;
    if source.index >= |board[src]| then None
    else
      var card := board[src][source.index];
      var moved := if src != dst then card.(status := dst) else card;
      var afterRemoval := board[src := RemoveAt(board[src], source.index)];
      Some(Move(afterRemoval[dst := InsertAt(afterRemoval[dst], destination.index, moved)], moved))
  }

  /**
   * Updates for the cards of `column[..n]` whose stored position differs from the slot
   * position of their index, in column order; a card whose id is `skip` is left out.
   */
  function Renumbered<S>(column: seq<Card<S>>, n: nat, status: S, skip: Option<string>): seq<Update<S>>
    requires n <= |column|
  {
    if n == 0 then []
    else
      var c := column[n - 1];
      Renumbered(column, n - 1, status, skip)
        + (if Some(c.id) != skip && c.position != SlotPosition(n - 1)
           then [Update(c.id, status, SlotPosition(n - 1))] else [])
  }

  /**
   * The payload of a move: the moved card first, at the slot of the requested destination
   * index; then the other destination cards whose position changed; then, on a move between
   * columns, the source cards whose position changed.
   */
  function Payload<S(==)>(m: Move<S>, src: S, destination: Location<S>): seq<Update<S>>
    requires src in m.board && destination.droppableId in m.board
  {
    var dst := destination.droppableId;
    [Update(m.moved.id, dst, SlotPosition(destination.index))]
      + Renumbered(m.board[dst], |m.board[dst]|, dst, Some(m.moved.id))
      + (if src != dst then Renumbered(m.board[src], |m.board[src]|, src, None) else [])
  }

  /**
   * The body of the `setTasks`/`setPipelines` updater in `onDragEnd`, run as one step:
   * copy and splice the two columns, then push the payload entries column by column.
   * When the source index holds no card the board is returned unchanged and the payload
   * stays empty.
   */
  method Reconcile<S(==)>(board: Board<S>, source: Location<S>, destination: Location<S>)
    returns (newBoard: Board<S>, payload: seq<Update<S>>)
    requires source.droppableId in board && destination.droppableId in board
    ensures ApplyMove(board, source, destination).None? ==> newBoard == board && payload == []
    ensures ApplyMove(board, source, destination).Some? ==>
              newBoard == ApplyMove(board, source, destination).value.board
              && payload == Payload(ApplyMove(board, source, destination).value, source.droppableId, destination)
  {
    var sourceStatus, destStatus := source.droppableId, destination.droppableId;
    var sourceColumn := board[sourceStatus];
    if source.index >= |sourceColumn| {
      return board, [];
    }
    var movedTask := sourceColumn[source.index];
    sourceColumn := sourceColumn[..source.index] + sourceColumn[source.index + 1..];
    var updatedMovedTask := if sourceStatus != destStatus then movedTask.(status := destStatus) else movedTask;
    newBoard := board[sourceStatus := sourceColumn];

    var destColumn := newBoard[destStatus];
    var at := Min(destination.index, |destColumn|);
    destColumn := destColumn[..at] + [updatedMovedTask] + destColumn[at..];
    newBoard := newBoard[destStatus := destColumn];

    ghost var m := Move(newBoard, updatedMovedTask);
    assert ApplyMove(board, source, destination) == Some(m);

    var first := Update(updatedMovedTask.id, destStatus, SlotPosition(destination.index));
    payload := PushRenumbered([first], destColumn, destStatus, Some(updatedMovedTask.id));
    if sourceStatus != destStatus {
      payload := PushRenumbered(payload, sourceColumn, sourceStatus, None);
    }
    assert newBoard[sourceStatus] == sourceColumn || sourceStatus == destStatus;
  }

  /**
   * One of the `forEach` passes of `onDragEnd`: append an entry for every card of `column`
   * whose stored position differs from the slot position of its index, skipping the card
   * whose id is `skip` (the moved card, in the destination pass).
   */
  method PushRenumbered<S>(payload: seq<Update<S>>, column: seq<Card<S>>, status: S, skip: Option<string>)
    returns (out: seq<Update<S>>)
    ensures out == payload + Renumbered(column, |column|, status, skip)
  {
    out := payload;
    var i := 0;
    while i < |column|
      invariant 0 <= i <= |column|
      invariant out == payload + Renumbered(column, i, status, skip)
    {
      var card := column[i];
      ghost var before := out;
      if Some(card.id) != skip {
        var newPosition := SlotPosition(i);
        if card.position != newPosition {
          out := out + [Update(card.id, status, newPosition)];
        }
      }
      assert Renumbered(column, i + 1, status, skip)
             == Renumbered(column, i, status, skip) + (out[|before|..]);
      i := i + 1;
    }
  }
}
