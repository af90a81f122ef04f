/**
 * The button that closes a deal as won or lost: a popover asking for confirmation (and, for
 * a lost deal, a reason) that hands the status and the reason to the `onSave` callback. The
 * callback's calls are recorded in order.
 */
module CloseDealButton {

  /** A closing status; a deal is never closed as "ongoing". */
  datatype CloseStatus = Won | Lost

  /** The text of a status as the callback receives it. */
  function StatusText(s: CloseStatus): (r: string)
    ensures r != "ongoing"
  {
    if s == Won then "won" else "lost"
  }

  datatype Variant = Default | Destructive

  /** The trigger button's title and variant. */
  datatype ButtonTitle = ButtonTitle(title: string, variant: Variant)

  /** `buttonTitles[status]`. */
  function TitleOf(s: CloseStatus): ButtonTitle {
    match s
    case Won => ButtonTitle("Mark as won", Default)
    case Lost => ButtonTitle("Mark as lost", Destructive)
  }

  /** Won reads "Mark as won" on a default button, lost "Mark as lost" on a destructive one. */
  lemma TitlesDiffer(s: CloseStatus)
    ensures TitleOf(s).variant == Destructive <==> s == Lost
    ensures TitleOf(s).title == "Mark as " + StatusText(s)
    ensures TitleOf(Won) != TitleOf(Lost)
  {
  }

  /** One call of `onSave`. */
  datatype Save = Save(status: CloseStatus, reason: string)

  class CloseButton {
    const status: CloseStatus
    var reason: string
    var open: bool
    /** The calls of `onSave` so far, oldest first. */
    var saved: seq<Save>

    /** Only a lost deal has a reason field, so a won button's reason stays empty. */
    predicate Valid()
      reads this
    {
      status == Won ==> reason == ""
    }

    constructor(status: CloseStatus)
      ensures this.status == status && reason == "" && !open && saved == []
      ensures Valid()
    {
      this.status := status;
      reason, open, saved := "", false, [];
    }

    /** The popover's `onOpenChange`: the trigger opens it, a click outside closes it. */
    method SetOpen(o: bool)
      requires Valid()
      modifies this
      ensures open == o && reason == old(reason) && saved == old(saved)
      ensures Valid()
    {
      open := o;
    }

    /** Typing in the reason field, which is shown only in an open popover of a lost deal. */
    method TypeReason(text: string)
      requires Valid() && open && status == Lost
      modifies this
      ensures reason == text && open && saved == old(saved)
      ensures Valid()
    {
      reason := text;
    }

    /**
     * `handleOnConfirm`: exactly one call of `onSave` with the status and the current reason,
     * then the popover closes and the reason is cleared. A won deal always sends "".
     */
    method Confirm()
      requires Valid() && open
      modifies this
      ensures saved == old(saved) + [Save(status, old(reason))]
      ensures status == Won ==> saved[|saved| - 1].reason == ""
      ensures !open && reason == ""
      ensures Valid()
    {
      saved := saved + [Save(status, reason)];
      open := false;
      reason := "";
    }

    /** Cancel: the popover closes and `onSave` is not called. */
    method Cancel()
      requires Valid() && open
      modifies this
      ensures !open && reason == old(reason) && saved == old(saved)
      ensures Valid()
    {
      open := false;
    }
  }

  /** Opening a lost deal's popover, typing a reason and confirming reports that reason once. */
  method ConfirmLost(reason: string) returns (saved: seq<Save>)
    ensures saved == [Save(Lost, reason)]
  {
    var b := new CloseButton(Lost);
    b.SetOpen(true);
    b.TypeReason(reason);
    b.Confirm();
    saved := b.saved;
  }

  /** Cancelling a won deal, then confirming it, reports it once with no reason. */
  method CancelThenConfirmWon() returns (saved: seq<Save>)
    ensures saved == [Save(Won, "")]
  {
    var b := new CloseButton(Won);
    b.SetOpen(true);
    b.Cancel();
    b.SetOpen(true);
    b.Confirm();
    saved := b.saved;
  }
}
