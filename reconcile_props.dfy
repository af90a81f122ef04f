/**
 * What the reconciler guarantees: the payload names each card at most once, carries only
 * bounded multiples of 1000, lists exactly the cards whose stored position is stale, and,
 * once persisted, leaves both touched columns numbered slot by slot; the move loses and
 * duplicates no card, changes only the moved card's status, and is undone by the reverse drag.
 */
module ReconcileProperties {
  import opened Wrappers
  import opened Reconcile

  /** No two cards of a column share an id. */
  ghost predicate DistinctIds<S>(column: seq<Card<S>>) {
    forall i, j :: 0 <= i < j < |column| ==> column[i].id != column[j].id
  }

  /** No two payload entries share an id. */
  ghost predicate DistinctUpdateIds<S>(p: seq<Update<S>>) {
    forall i, j :: 0 <= i < j < |p| ==> p[i].id != p[j].id
  }

  /** Every card id occurs once on the whole board. */
  ghost predicate BoardIdsDistinct<S>(board: Board<S>) {
    forall b1, b2, i, j ::
      (b1 in board && b2 in board && 0 <= i < |board[b1]| && 0 <= j < |board[b2]|
       && board[b1][i].id == board[b2][j].id) ==> b1 == b2 && i == j
  }

  /** Every card's status names the column it sits in (true of a freshly grouped task board). */
  ghost predicate StatusMatchesBucket<S>(board: Board<S>) {
    forall b, i :: b in board && 0 <= i < |board[b]| ==> board[b][i].status == b
  }

  /** Every card of the column is stored at the slot position of its index. */
  ghost predicate Numbered<S>(column: seq<Card<S>>) {
    forall k :: 0 <= k < |column| ==> column[k].position == SlotPosition(k)
  }

  /** The card as stored after the persistence layer applies the payload entries in turn, keyed by id. */
  function Persist<S>(c: Card<S>, p: seq<Update<S>>): (r: Card<S>)
    ensures r.id == c.id
    decreases |p|
  {
    if p == [] then c
    else Persist(if p[0].id == c.id then c.(status := p[0].status, position := p[0].position) else c, p[1..])
  }

  // ---------------------------------------------------------------- slot positions

  /**
   * Slot positions never decrease along a column and strictly increase up to index 999;
   * from index 999 on every card shares position 1,000,000 (the clamp is not repaired).
   */
  lemma SlotPositionOrder(i: nat, j: nat)
    requires i < j
    ensures SlotPosition(i) <= SlotPosition(j)
    ensures j <= 999 ==> SlotPosition(i) < SlotPosition(j)
    ensures i >= 999 ==> SlotPosition(i) == SlotPosition(j) == MaxPosition
  {
  }

  // ---------------------------------------------------------------- the renumbering pass

  /** An entry is produced for exactly the non-skipped cards whose stored position is stale. */
  lemma {:induction false} RenumberedExactly<S>(column: seq<Card<S>>, n: nat, status: S, skip: Option<string>)
    requires n <= |column|
    ensures forall u :: u in Renumbered(column, n, status, skip) ==>
              exists k :: 0 <= k < n && u == Update(column[k].id, status, SlotPosition(k))
                          && Some(column[k].id) != skip && column[k].position != SlotPosition(k)
    ensures forall k :: 0 <= k < n && Some(column[k].id) != skip && column[k].position != SlotPosition(k) ==>
              Update(column[k].id, status, SlotPosition(k)) in Renumbered(column, n, status, skip)
  {
    if n > 0 {
      RenumberedExactly(column, n - 1, status, skip);
    }
  }

  /** Within one column's pass no id repeats, when the column's ids are distinct. */
  lemma {:induction false} RenumberedDistinct<S>(column: seq<Card<S>>, n: nat, status: S, skip: Option<string>)
    requires n <= |column|
    requires DistinctIds(column)
    ensures DistinctUpdateIds(Renumbered(column, n, status, skip))
  {
    if n > 0 {
      RenumberedDistinct(column, n - 1, status, skip);
      RenumberedExactly(column, n - 1, status, skip);
      var prev := Renumbered(column, n - 1, status, skip);
      forall u | u in prev ensures u.id != column[n - 1].id {
        var k :| 0 <= k < n - 1 && u == Update(column[k].id, status, SlotPosition(k));
      }
    }
  }

  lemma DistinctUpdateIdsAppend<S>(a: seq<Update<S>>, b: seq<Update<S>>)
    requires DistinctUpdateIds(a) && DistinctUpdateIds(b)
    requires forall u, v :: u in a && v in b ==> u.id != v.id
    ensures DistinctUpdateIds(a + b)
  {
    forall i, j | 0 <= i < j < |a + b| ensures (a + b)[i].id != (a + b)[j].id {
      if j < |a| {
      } else if i >= |a| {
        assert (a + b)[i] == b[i - |a|] && (a + b)[j] == b[j - |a|];
      } else {
        assert (a + b)[i] in a && (a + b)[j] in b;
      }
    }
  }

  // ---------------------------------------------------------------- the move

  /** Taking back a card just inserted restores the column. */
  lemma RemoveInserted<T>(s: seq<T>, i: nat, x: T)
    ensures RemoveAt(InsertAt(s, i, x), LandingIndex(s, i)) == s
  {
  }

  /** Putting a removed card back at its index restores the column. */
  lemma InsertRemoved<T>(s: seq<T>, i: nat)
    requires i < |s|
    ensures InsertAt(RemoveAt(s, i), i, s[i]) == s
  {
  }

  /**
   * A move loses and duplicates no card: the board keeps its columns, columns other than the
   * two involved are untouched, and the two involved columns hold the same cards as before
   * except that the moved card's status is the destination bucket when the buckets differ.
   * The moved card lands at the requested index (or at the end of the column when the index
   * is past it), after the removal for a move within one column.
   */
  lemma MoveKeepsCards<S>(board: Board<S>, source: Location<S>, destination: Location<S>)
    requires source.droppableId in board && destination.droppableId in board
    requires source.index < |board[source.droppableId]|
    ensures ApplyMove(board, source, destination).Some?
    ensures var m := ApplyMove(board, source, destination).value;
            var src, dst := source.droppableId, destination.droppableId;
            var card := board[src][source.index];
            && m.board.Keys == board.Keys
            && (forall b :: b in board && b != src && b != dst ==> m.board[b] == board[b])
            && m.moved == (if src != dst then card.(status := dst) else card)
            && m.moved.id == card.id && m.moved.position == card.position
            && (src == dst ==> multiset(m.board[src]) == multiset(board[src]))
            && (src != dst ==>
                  multiset(m.board[src]) + multiset(m.board[dst])
                  == multiset(board[src]) + multiset(board[dst]) - multiset{card} + multiset{m.moved})
            && (src != dst ==> m.board[dst][LandingIndex(board[dst], destination.index)] == m.moved)
            && (src == dst ==> m.board[dst][LandingIndex(RemoveAt(board[src], source.index), destination.index)] == m.moved)
  {
    var src, dst := source.droppableId, destination.droppableId;
    var card := board[src][source.index];
    if src != dst {
      assert card in multiset(board[src]);
    }
  }

  /** The column the moved card is inserted into: the destination column after the removal. */
  function ColumnBeforeInsert<S>(board: Board<S>, source: Location<S>, destination: Location<S>): seq<Card<S>>
    requires source.droppableId in board && destination.droppableId in board
    requires source.index < |board[source.droppableId]|
  {
    if source.droppableId == destination.droppableId
    then RemoveAt(board[source.droppableId], source.index)
    else board[destination.droppableId]
  }

  /**
   * Dragging the card back from where it landed to where it came from restores the board,
   * provided the card's status named its column (always so on the task board) or the move
   * stayed within one column.
   */
  lemma MoveBackRestores<S>(board: Board<S>, source: Location<S>, destination: Location<S>)
    requires source.droppableId in board && destination.droppableId in board
    requires source.index < |board[source.droppableId]|
    requires source.droppableId == destination.droppableId
             || board[source.droppableId][source.index].status == source.droppableId
    ensures ApplyMove(board, source, destination).Some?
    ensures var landed := LandingIndex(ColumnBeforeInsert(board, source, destination), destination.index);
            ApplyMove(ApplyMove(board, source, destination).value.board,
                      Location(destination.droppableId, landed), source)
            == Some(Move(board, board[source.droppableId][source.index]))
  {
    if source.droppableId == destination.droppableId {
      MoveBackWithinColumn(board, source, destination);
    } else {
      MoveBackAcrossColumns(board, source, destination);
    }
  }

  lemma MoveBackWithinColumn<S>(board: Board<S>, source: Location<S>, destination: Location<S>)
    requires source.droppableId in board && destination.droppableId in board
    requires source.index < |board[source.droppableId]|
    requires source.droppableId == destination.droppableId
    ensures ApplyMove(board, source, destination).Some?
    ensures var landed := LandingIndex(ColumnBeforeInsert(board, source, destination), destination.index);
            ApplyMove(ApplyMove(board, source, destination).value.board,
                      Location(destination.droppableId, landed), source)
            == Some(Move(board, board[source.droppableId][source.index]))
  {
    var src := source.droppableId;
    var col := board[src];
    var card := col[source.index];
    var before := RemoveAt(col, source.index);
    assert ColumnBeforeInsert(board, source, destination) == before;
    var mb := board[src := InsertAt(before, destination.index, card)];
    assert board[src := before][src := InsertAt(before, destination.index, card)] == mb;
    assert ApplyMove(board, source, destination) == Some(Move(mb, card));
    var at := LandingIndex(before, destination.index);
    RemoveInserted(before, destination.index, card);
    InsertRemoved(col, source.index);
    MoveBackWithin(board, Move(mb, card), source, destination, before, at);
  }

  lemma MoveBackAcrossColumns<S>(board: Board<S>, source: Location<S>, destination: Location<S>)
    requires source.droppableId in board && destination.droppableId in board
    requires source.index < |board[source.droppableId]|
    requires source.droppableId != destination.droppableId
    requires board[source.droppableId][source.index].status == source.droppableId
    ensures ApplyMove(board, source, destination).Some?
    ensures var landed := LandingIndex(ColumnBeforeInsert(board, source, destination), destination.index);
            ApplyMove(ApplyMove(board, source, destination).value.board,
                      Location(destination.droppableId, landed), source)
            == Some(Move(board, board[source.droppableId][source.index]))
  {
    var src, dst := source.droppableId, destination.droppableId;
    var col := board[src];
    var card := col[source.index];
    var moved := if src != dst then card.(status := dst) else card;
    var afterRemoval := board[src := RemoveAt(col, source.index)];
    var before := afterRemoval[dst];
    assert before == ColumnBeforeInsert(board, source, destination);
    var m := Move(afterRemoval[dst := InsertAt(before, destination.index, moved)], moved);
    assert ApplyMove(board, source, destination) == Some(m);
    var at := LandingIndex(before, destination.index);
    RemoveInserted(before, destination.index, moved);
    InsertRemoved(col, source.index);
    MoveBackAcross(board, m, source, destination, at);
  }

  lemma MoveBackWithin<S>(board: Board<S>, m: Move<S>, source: Location<S>, destination: Location<S>,
                          before: seq<Card<S>>, at: nat)
    requires source.droppableId in board && source.droppableId == destination.droppableId
    requires source.index < |board[source.droppableId]|
    requires m.moved == board[source.droppableId][source.index]
    requires m.board == board[source.droppableId := InsertAt(before, destination.index, m.moved)]
    requires at == LandingIndex(before, destination.index)
    requires RemoveAt(m.board[source.droppableId], at) == before
    requires InsertAt(before, source.index, m.moved) == board[source.droppableId]
    ensures ApplyMove(m.board, Location(source.droppableId, at), source) == Some(Move(board, m.moved))
  {
    var src := source.droppableId;
    assert m.board[src][at] == m.moved;
    var afterRemoval := m.board[src := before];
    assert ApplyMove(m.board, Location(src, at), source)
           == Some(Move(afterRemoval[src := InsertAt(before, source.index, m.moved)], m.moved));
    assert afterRemoval[src := board[src]] == board;
  }

  lemma MoveBackAcross<S>(board: Board<S>, m: Move<S>, source: Location<S>, destination: Location<S>, at: nat)
    requires source.droppableId in board && destination.droppableId in board
    requires source.droppableId != destination.droppableId
    requires source.index < |board[source.droppableId]|
    requires board[source.droppableId][source.index].status == source.droppableId
    requires ApplyMove(board, source, destination) == Some(m)
    requires at == LandingIndex(board[destination.droppableId], destination.index)
    requires m.board[destination.droppableId] == InsertAt(board[destination.droppableId], destination.index, m.moved)
    requires RemoveAt(m.board[destination.droppableId], at) == board[destination.droppableId]
    requires InsertAt(RemoveAt(board[source.droppableId], source.index), source.index,
                      board[source.droppableId][source.index]) == board[source.droppableId]
    ensures ApplyMove(m.board, Location(destination.droppableId, at), source)
            == Some(Move(board, board[source.droppableId][source.index]))
  {
    var src, dst := source.droppableId, destination.droppableId;
    var card := board[src][source.index];
    assert m.board[dst][at] == m.moved == card.(status := dst);
    assert m.moved.(status := src) == card;
    var afterRemoval := m.board[dst := board[dst]];
    assert afterRemoval[src] == RemoveAt(board[src], source.index);
    var back := Move(afterRemoval[src := InsertAt(afterRemoval[src], source.index, card)], card);
    assert ApplyMove(m.board, Location(dst, at), source) == Some(back);
    assert back.board == afterRemoval[src := board[src]];
    assert afterRemoval[src := board[src]] == board;
  }

  // ---------------------------------------------------------------- invariants a move keeps

  /** No card of the board carries `id`. */
  ghost predicate IdAbsent<S>(board: Board<S>, id: string) {
    forall b, i :: b in board && 0 <= i < |board[b]| ==> board[b][i].id != id
  }

  lemma ColumnIdsDistinct<S>(board: Board<S>, b: S)
    requires BoardIdsDistinct(board) && b in board
    ensures DistinctIds(board[b])
  {
  }

  lemma RemoveKeepsIdsDistinct<S>(board: Board<S>, src: S, si: nat)
    requires src in board && si < |board[src]|
    requires BoardIdsDistinct(board)
    ensures BoardIdsDistinct(board[src := RemoveAt(board[src], si)])
    ensures IdAbsent(board[src := RemoveAt(board[src], si)], board[src][si].id)
  {
    var after: Board<S> := board[src := RemoveAt(board[src], si)];
    forall b1: S, b2: S, i: int, j: int | b1 in after && b2 in after && 0 <= i < |after[b1]| && 0 <= j < |after[b2]|
                          && after[b1][i].id == after[b2][j].id
      ensures b1 == b2 && i == j
    {
      var i' := if b1 == src && i >= si then i + 1 else i;
      var j' := if b2 == src && j >= si then j + 1 else j;
      assert after[b1][i] == board[b1][i'];
      assert after[b2][j] == board[b2][j'];
    }
    forall b: S, i: int | b in after && 0 <= i < |after[b]| ensures after[b][i].id != board[src][si].id {
      var i' := if b == src && i >= si then i + 1 else i;
      assert after[b][i] == board[b][i'];
    }
  }

  lemma InsertKeepsIdsDistinct<S>(board: Board<S>, dst: S, di: nat, x: Card<S>)
    requires dst in board
    requires BoardIdsDistinct(board) && IdAbsent(board, x.id)
    ensures BoardIdsDistinct(board[dst := InsertAt(board[dst], di, x)])
  {
    var after: Board<S> := board[dst := InsertAt(board[dst], di, x)];
    var at := LandingIndex(board[dst], di);
    forall b1: S, b2: S, i: int, j: int | b1 in after && b2 in after && 0 <= i < |after[b1]| && 0 <= j < |after[b2]|
                          && after[b1][i].id == after[b2][j].id
      ensures b1 == b2 && i == j
    {
      var i' := if b1 == dst && i > at then i - 1 else i;
      var j' := if b2 == dst && j > at then j - 1 else j;
      if (b1 == dst && i == at) || (b2 == dst && j == at) {
      } else {
        assert after[b1][i] == board[b1][i'];
        assert after[b2][j] == board[b2][j'];
      }
    }
  }

  /** A move keeps every card id unique on the board. */
  lemma MoveKeepsIdsDistinct<S>(board: Board<S>, source: Location<S>, destination: Location<S>)
    requires source.droppableId in board && destination.droppableId in board
    requires source.index < |board[source.droppableId]|
    requires BoardIdsDistinct(board)
    ensures BoardIdsDistinct(ApplyMove(board, source, destination).value.board)
  {
    var src, dst := source.droppableId, destination.droppableId;
    var card := board[src][source.index];
    var moved := if src != dst then card.(status := dst) else card;
    var afterRemoval := board[src := RemoveAt(board[src], source.index)];
    RemoveKeepsIdsDistinct(board, src, source.index);
    InsertKeepsIdsDistinct(afterRemoval, dst, destination.index, moved);
  }

  /** A move keeps every card in the column its status names. */
  lemma MoveKeepsStatusMatch<S>(board: Board<S>, source: Location<S>, destination: Location<S>)
    requires source.droppableId in board && destination.droppableId in board
    requires source.index < |board[source.droppableId]|
    requires StatusMatchesBucket(board)
    ensures StatusMatchesBucket(ApplyMove(board, source, destination).value.board)
  {
    var src, dst := source.droppableId, destination.droppableId;
    var card := board[src][source.index];
    var moved := if src != dst then card.(status := dst) else card;
    var afterRemoval: Board<S> := board[src := RemoveAt(board[src], source.index)];
    assert StatusMatchesBucket(afterRemoval) by {
      forall b: S, i: int | b in afterRemoval && 0 <= i < |afterRemoval[b]| ensures afterRemoval[b][i].status == b {
        var i' := if b == src && i >= source.index then i + 1 else i;
        assert afterRemoval[b][i] == board[b][i'];
      }
    }
    var after: Board<S> := afterRemoval[dst := InsertAt(afterRemoval[dst], destination.index, moved)];
    var at := LandingIndex(afterRemoval[dst], destination.index);
    forall b: S, i: int | b in after && 0 <= i < |after[b]| ensures after[b][i].status == b {
      if b == dst && i != at {
        var i' := if i > at then i - 1 else i;
        assert after[b][i] == afterRemoval[b][i'];
      }
    }
    assert ApplyMove(board, source, destination).value.board == after;
  }

  // ---------------------------------------------------------------- the payload

  /** The card at `k` is not stored at the slot position of its index. */
  ghost predicate Stale<S>(column: seq<Card<S>>, k: int)
    requires 0 <= k < |column|
  {
    column[k].position != SlotPosition(k)
  }

  /**
   * The payload names the moved card first, at the slot of the requested index, and then
   * exactly the stale cards: every other card of the destination column, and on a move
   * between columns every card of the source column, whose stored position is not its
   * slot position, each entry carrying the card's column and slot position.
   */
  lemma PayloadExactly<S>(m: Move<S>, src: S, destination: Location<S>)
    requires src in m.board && destination.droppableId in m.board
    ensures var dst := destination.droppableId;
            var p := Payload(m, src, destination);
            && p[0] == Update(m.moved.id, dst, SlotPosition(destination.index))
            && (forall u :: u in p[1..] ==>
                  (exists k :: 0 <= k < |m.board[dst]| && Stale(m.board[dst], k) && m.board[dst][k].id != m.moved.id
                               && u == Update(m.board[dst][k].id, dst, SlotPosition(k)))
                  || (src != dst
                      && exists k :: 0 <= k < |m.board[src]| && Stale(m.board[src], k)
                                     && u == Update(m.board[src][k].id, src, SlotPosition(k))))
            && (forall k :: 0 <= k < |m.board[dst]| && Stale(m.board[dst], k) && m.board[dst][k].id != m.moved.id ==>
                  Update(m.board[dst][k].id, dst, SlotPosition(k)) in p)
            && (src != dst ==>
                  forall k :: 0 <= k < |m.board[src]| && Stale(m.board[src], k) ==>
                    Update(m.board[src][k].id, src, SlotPosition(k)) in p)
  {
    var dst := destination.droppableId;
    var p := Payload(m, src, destination);
    var d := Renumbered(m.board[dst], |m.board[dst]|, dst, Some(m.moved.id));
    var x := if src != dst then Renumbered(m.board[src], |m.board[src]|, src, None) else [];
    assert p == [p[0]] + d + x;
    assert p[1..] == d + x;
    RenumberedExactly(m.board[dst], |m.board[dst]|, dst, Some(m.moved.id));
    if src != dst {
      RenumberedExactly(m.board[src], |m.board[src]|, src, None);
    }
  }

  /**
   * Every payload position is a multiple of 1000 between 1000 and 1,000,000, and every
   * entry names one of the two columns of the move.
   */
  lemma PayloadPositionsBounded<S>(m: Move<S>, src: S, destination: Location<S>)
    requires src in m.board && destination.droppableId in m.board
    ensures forall u :: u in Payload(m, src, destination) ==>
              u.position % PositionStep == 0 && PositionStep <= u.position <= MaxPosition
              && (u.status == destination.droppableId || u.status == src)
  {
    var p := Payload(m, src, destination);
    PayloadExactly(m, src, destination);
    forall u | u in p
      ensures u.position % PositionStep == 0 && PositionStep <= u.position <= MaxPosition
      ensures u.status == destination.droppableId || u.status == src
    {
      assert p == [p[0]] + p[1..];
      if u != p[0] {
        assert u in p[1..];
      }
    }
  }

  /**
   * The moved card is where the move put it: at the landing index of the column it was
   * inserted into.
   */
  lemma MovedCardLanding<S>(board: Board<S>, source: Location<S>, destination: Location<S>, m: Move<S>)
    requires source.droppableId in board && destination.droppableId in board
    requires source.index < |board[source.droppableId]|
    requires ApplyMove(board, source, destination) == Some(m)
    ensures var at := LandingIndex(ColumnBeforeInsert(board, source, destination), destination.index);
            at < |m.board[destination.droppableId]| && m.board[destination.droppableId][at] == m.moved
  {
  }

  /** Where the ids of a move result are unique, no id occurs twice in its payload. */
  lemma PayloadIdsDistinctOn<S>(m: Move<S>, src: S, destination: Location<S>, at: nat)
    requires src in m.board && destination.droppableId in m.board
    requires BoardIdsDistinct(m.board)
    requires at < |m.board[destination.droppableId]| && m.board[destination.droppableId][at] == m.moved
    ensures DistinctUpdateIds(Payload(m, src, destination))
  {
    var dst := destination.droppableId;
    var nb: Board<S> := m.board;
    var first := [Update(m.moved.id, dst, SlotPosition(destination.index))];
    var d := Renumbered(nb[dst], |nb[dst]|, dst, Some(m.moved.id));
    ColumnIdsDistinct(nb, dst);
    RenumberedDistinct(nb[dst], |nb[dst]|, dst, Some(m.moved.id));
    RenumberedExactly(nb[dst], |nb[dst]|, dst, Some(m.moved.id));
    DistinctUpdateIdsAppend(first, d);
    if src != dst {
      var x := Renumbered(nb[src], |nb[src]|, src, None);
      ColumnIdsDistinct(nb, src);
      RenumberedDistinct(nb[src], |nb[src]|, src, None);
      RenumberedExactly(nb[src], |nb[src]|, src, None);
      forall u: Update<S>, v: Update<S> | u in first + d && v in x ensures u.id != v.id {
        var k' :| 0 <= k' < |nb[src]| && v == Update(nb[src][k'].id, src, SlotPosition(k'));
        if u in first {
          assert u.id == nb[dst][at].id;
        } else {
          var k :| 0 <= k < |nb[dst]| && u == Update(nb[dst][k].id, dst, SlotPosition(k));
        }
      }
      DistinctUpdateIdsAppend(first + d, x);
      assert Payload(m, src, destination) == first + d + x;
    } else {
      assert Payload(m, src, destination) == first + d;
    }
  }

  /** When the board's ids are unique, no id occurs twice in the payload of a move. */
  lemma PayloadIdsDistinct<S>(board: Board<S>, source: Location<S>, destination: Location<S>)
    requires source.droppableId in board && destination.droppableId in board
    requires source.index < |board[source.droppableId]|
    requires BoardIdsDistinct(board)
    ensures DistinctUpdateIds(Payload(ApplyMove(board, source, destination).value, source.droppableId, destination))
  {
    var m := ApplyMove(board, source, destination).value;
    MoveKeepsIdsDistinct(board, source, destination);
    MovedCardLanding(board, source, destination, m);
    var at := LandingIndex(ColumnBeforeInsert(board, source, destination), destination.index);
    PayloadIdsDistinctOn(m, source.droppableId, destination, at);
  }

  // ---------------------------------------------------------------- persisting the payload

  /** Entries for other ids leave a card as stored. */
  lemma {:induction false} PersistUntouched<S>(c: Card<S>, p: seq<Update<S>>)
    requires forall u :: u in p ==> u.id != c.id
    ensures Persist(c, p) == c
    decreases |p|
  {
    if p != [] {
      assert p[0] in p;
      PersistUntouched(c, p[1..]);
    }
  }

  /**
   * When every entry for the card's id carries position `pos`, and there is such an entry
   * unless the card already stores `pos`, the persisted card stores `pos`.
   */
  lemma {:induction false} PersistPosition<S>(c: Card<S>, p: seq<Update<S>>, pos: int)
    requires forall u :: u in p && u.id == c.id ==> u.position == pos
    requires c.position == pos || exists u :: u in p && u.id == c.id
    ensures Persist(c, p).position == pos
    decreases |p|
  {
    if p != [] {
      var c' := if p[0].id == c.id then c.(status := p[0].status, position := p[0].position) else c;
      assert p == [p[0]] + p[1..];
      if c'.position != pos {
        var u :| u in p && u.id == c.id;
        assert u in p[1..];
      }
      PersistPosition(c', p[1..], pos);
    }
  }

  /** The same for the status. */
  lemma {:induction false} PersistStatus<S>(c: Card<S>, p: seq<Update<S>>, status: S)
    requires forall u :: u in p && u.id == c.id ==> u.status == status
    requires c.status == status || exists u :: u in p && u.id == c.id
    ensures Persist(c, p).status == status
    decreases |p|
  {
    if p != [] {
      var c' := if p[0].id == c.id then c.(status := p[0].status, position := p[0].position) else c;
      assert p == [p[0]] + p[1..];
      if c'.status != status {
        var u :| u in p && u.id == c.id;
        assert u in p[1..];
      }
      PersistStatus(c', p[1..], status);
    }
  }

  /**
   * Persisting the payload gives a card with the moved card's id the destination bucket and
   * the slot of the requested index, whatever it stored before.
   */
  lemma PersistedMovedCardOn<S>(m: Move<S>, src: S, destination: Location<S>, at: nat, card: Card<S>)
    requires src in m.board && destination.droppableId in m.board
    requires BoardIdsDistinct(m.board)
    requires at < |m.board[destination.droppableId]| && m.board[destination.droppableId][at] == m.moved
    requires card.id == m.moved.id
    ensures Persist(card, Payload(m, src, destination))
            == card.(status := destination.droppableId, position := SlotPosition(destination.index))
  {
    var dst := destination.droppableId;
    var p := Payload(m, src, destination);
    PayloadExactly(m, src, destination);
    assert p == [p[0]] + p[1..];
    forall u | u in p && u.id == card.id
      ensures u.position == SlotPosition(destination.index) && u.status == dst
    {
    }
    assert p[0] in p;
    PersistPosition(card, p, SlotPosition(destination.index));
    PersistStatus(card, p, dst);
  }

  /**
   * Where the moved card sits at the requested index, persisting the payload leaves every
   * card of the destination column at the slot position of its index; when every card of
   * the column names it as its status, so does every persisted card.
   */
  lemma PersistedDestinationOn<S>(m: Move<S>, src: S, destination: Location<S>)
    requires src in m.board && destination.droppableId in m.board
    requires BoardIdsDistinct(m.board)
    requires destination.index < |m.board[destination.droppableId]|
    requires m.board[destination.droppableId][destination.index] == m.moved
    ensures var p := Payload(m, src, destination);
            var column := m.board[destination.droppableId];
            && (forall k :: 0 <= k < |column| ==> Persist(column[k], p).position == SlotPosition(k))
            && ((forall k :: 0 <= k < |column| ==> column[k].status == destination.droppableId) ==>
                  forall k :: 0 <= k < |column| ==> Persist(column[k], p).status == destination.droppableId)
  {
    var dst, at := destination.droppableId, destination.index;
    var nb: Board<S> := m.board;
    var p := Payload(m, src, destination);
    PayloadExactly(m, src, destination);
    assert p == [p[0]] + p[1..];
    forall k | 0 <= k < |nb[dst]|
      ensures Persist(nb[dst][k], p).position == SlotPosition(k)
      ensures nb[dst][k].status == dst ==> Persist(nb[dst][k], p).status == dst
    {
      var c := nb[dst][k];
      forall u | u in p && u.id == c.id ensures u.position == SlotPosition(k) && u.status == dst {
        if u == p[0] {
          assert nb[dst][at].id == c.id;
        } else {
          assert u in p[1..];
        }
      }
      if c.position != SlotPosition(k) {
        if c.id == m.moved.id {
          assert p[0] in p;
        } else {
          assert Stale(nb[dst], k);
          assert Update(c.id, dst, SlotPosition(k)) in p;
        }
      }
      PersistPosition(c, p, SlotPosition(k));
      if c.status == dst {
        PersistStatus(c, p, dst);
      }
    }
  }

  /**
   * On a move between columns, persisting the payload leaves every card of the source
   * column at the slot position of its index; when every one of them names the source
   * column as its status, so does every persisted card.
   */
  lemma PersistedSourceOn<S>(m: Move<S>, src: S, destination: Location<S>, at: nat)
    requires src in m.board && destination.droppableId in m.board && src != destination.droppableId
    requires BoardIdsDistinct(m.board)
    requires at < |m.board[destination.droppableId]| && m.board[destination.droppableId][at] == m.moved
    ensures var p := Payload(m, src, destination);
            var column := m.board[src];
            && (forall k :: 0 <= k < |column| ==> Persist(column[k], p).position == SlotPosition(k))
            && ((forall k :: 0 <= k < |column| ==> column[k].status == src) ==>
                  forall k :: 0 <= k < |column| ==> Persist(column[k], p).status == src)
  {
    var dst := destination.droppableId;
    var nb: Board<S> := m.board;
    var p := Payload(m, src, destination);
    PayloadExactly(m, src, destination);
    assert p == [p[0]] + p[1..];
    forall k | 0 <= k < |nb[src]|
      ensures Persist(nb[src][k], p).position == SlotPosition(k)
      ensures nb[src][k].status == src ==> Persist(nb[src][k], p).status == src
    {
      var c := nb[src][k];
      forall u | u in p && u.id == c.id ensures u.position == SlotPosition(k) && u.status == src {
        if u != p[0] {
          assert u in p[1..];
        }
      }
      if c.position != SlotPosition(k) {
        assert Stale(nb[src], k);
        assert Update(c.id, src, SlotPosition(k)) in p;
      }
      PersistPosition(c, p, SlotPosition(k));
      if c.status == src {
        PersistStatus(c, p, src);
      }
    }
  }

  /** Persisting the payload changes no card outside the two columns of the move. */
  lemma PersistedOthersOn<S>(m: Move<S>, src: S, destination: Location<S>, at: nat)
    requires src in m.board && destination.droppableId in m.board
    requires BoardIdsDistinct(m.board)
    requires at < |m.board[destination.droppableId]| && m.board[destination.droppableId][at] == m.moved
    ensures forall b, k :: b in m.board && b != src && b != destination.droppableId && 0 <= k < |m.board[b]| ==>
              Persist(m.board[b][k], Payload(m, src, destination)) == m.board[b][k]
  {
    var dst := destination.droppableId;
    var nb: Board<S> := m.board;
    var p := Payload(m, src, destination);
    PayloadExactly(m, src, destination);
    assert p == [p[0]] + p[1..];
    forall b, k | b in nb && b != src && b != dst && 0 <= k < |nb[b]|
      ensures Persist(nb[b][k], p) == nb[b][k]
    {
      var c := nb[b][k];
      forall u | u in p ensures u.id != c.id {
        if u == p[0] {
          assert nb[dst][at].id == u.id;
        } else {
          assert u in p[1..];
        }
      }
      PersistUntouched(c, p);
    }
  }

  /**
   * What the persistence layer stores after a move on a board with unique ids: the moved
   * card in the destination bucket at the slot of the requested index, every other card
   * unchanged outside the two columns, and, when the requested index is a real slot of the
   * column (as the drag-and-drop library reports it), both columns numbered slot by slot.
   */
  lemma PersistedMove<S>(board: Board<S>, source: Location<S>, destination: Location<S>)
    requires source.droppableId in board && destination.droppableId in board
    requires source.index < |board[source.droppableId]|
    requires BoardIdsDistinct(board)
    ensures var m := ApplyMove(board, source, destination).value;
            var card := board[source.droppableId][source.index];
            var p := Payload(m, source.droppableId, destination);
            && Persist(card, p) == card.(status := destination.droppableId, position := SlotPosition(destination.index))
            && (forall b, k ::
                  (b in board && b != source.droppableId && b != destination.droppableId && 0 <= k < |board[b]|)
                  ==> Persist(board[b][k], p) == board[b][k])
            && (source.droppableId != destination.droppableId ==>
                  forall k :: 0 <= k < |m.board[source.droppableId]| ==>
                    Persist(m.board[source.droppableId][k], p).position == SlotPosition(k))
            && (destination.index <= |ColumnBeforeInsert(board, source, destination)| ==>
                  forall k :: 0 <= k < |m.board[destination.droppableId]| ==>
                    Persist(m.board[destination.droppableId][k], p).position == SlotPosition(k))
  {
    var src, dst := source.droppableId, destination.droppableId;
    var m := ApplyMove(board, source, destination).value;
    var at := LandingIndex(ColumnBeforeInsert(board, source, destination), destination.index);
    MoveKeepsCards(board, source, destination);
    MoveKeepsIdsDistinct(board, source, destination);
    MovedCardLanding(board, source, destination, m);
    PersistedMovedCardOn(m, src, destination, at, board[src][source.index]);
    PersistedOthersOn(m, src, destination, at);
    if src != dst {
      PersistedSourceOn(m, src, destination, at);
    }
    if destination.index <= |ColumnBeforeInsert(board, source, destination)| {
      PersistedDestinationOn(m, src, destination);
    }
  }

  /**
   * On a board whose every card sits in the column its status names, the persisted cards
   * of both columns of the move keep naming their column.
   */
  lemma PersistedMoveStatuses<S>(board: Board<S>, source: Location<S>, destination: Location<S>)
    requires source.droppableId in board && destination.droppableId in board
    requires source.index < |board[source.droppableId]|
    requires BoardIdsDistinct(board) && StatusMatchesBucket(board)
    requires destination.index <= |ColumnBeforeInsert(board, source, destination)|
    ensures var m := ApplyMove(board, source, destination).value;
            var p := Payload(m, source.droppableId, destination);
            && (forall k :: 0 <= k < |m.board[destination.droppableId]| ==>
                  Persist(m.board[destination.droppableId][k], p).status == destination.droppableId)
            && (forall k :: 0 <= k < |m.board[source.droppableId]| ==>
                  Persist(m.board[source.droppableId][k], p).status == source.droppableId)
  {
    var src, dst := source.droppableId, destination.droppableId;
    var m := ApplyMove(board, source, destination).value;
    var at := LandingIndex(ColumnBeforeInsert(board, source, destination), destination.index);
    MoveKeepsIdsDistinct(board, source, destination);
    MoveKeepsStatusMatch(board, source, destination);
    MovedCardLanding(board, source, destination, m);
    PersistedDestinationOn(m, src, destination);
    if src != dst {
      PersistedSourceOn(m, src, destination, at);
    }
  }

  /** A column numbered slot by slot yields no renumbering entries. */
  lemma {:induction false} RenumberedNumbered<S>(column: seq<Card<S>>, n: nat, status: S, skip: Option<string>)
    requires n <= |column|
    requires Numbered(column)
    ensures Renumbered(column, n, status, skip) == []
  {
    if n > 0 {
      RenumberedNumbered(column, n - 1, status, skip);
    }
  }

  /**
   * Dropping a card back onto its own slot leaves the board as it was; when the column was
   * already numbered slot by slot, the payload is the single entry for the card itself.
   */
  lemma DropInPlace<S>(board: Board<S>, source: Location<S>)
    requires source.droppableId in board
    requires source.index < |board[source.droppableId]|
    ensures ApplyMove(board, source, source) == Some(Move(board, board[source.droppableId][source.index]))
    ensures var card := board[source.droppableId][source.index];
            Numbered(board[source.droppableId]) ==>
              Payload(Move(board, card), source.droppableId, source)
              == [Update(card.id, source.droppableId, SlotPosition(source.index))]
  {
    var src := source.droppableId;
    var col := board[src];
    InsertRemoved(col, source.index);
    assert LandingIndex(RemoveAt(col, source.index), source.index) == source.index;
    var afterRemoval := board[src := RemoveAt(col, source.index)];
    assert afterRemoval[src := InsertAt(afterRemoval[src], source.index, col[source.index])] == board;
    if Numbered(col) {
      RenumberedNumbered(col, |col|, src, Some(col[source.index].id));
    }
  }
}
