/**
 * The lead page's status workflow: the status menu, the confirmation dialog, the deal
 * form filled in when a lead is converted, the deal creation that marks it converted,
 * and the contact-note guard. Remote writes are steps that succeed or fail (`ok`); a
 * successful write is seen as the refetched lead.
 */
module LeadView {
  import opened Wrappers
  import Text

  datatype LeadStatus = New | Contacted | Qualified | Unqualified | Converted

  /** The status as stored. */
  function StatusName(s: LeadStatus): string {
    match s
    case New => "new"
    case Contacted => "contacted"
    case Qualified => "qualified"
    case Unqualified => "unqualified"
    case Converted => "converted"
  }

  /** What `handleStatusChange` is asked for: a status, or the `convert` action. */
  datatype Request = Convert | SetStatus(status: LeadStatus)

  /** The actions the confirmation dialog can carry. */
  datatype Action = ConvertAction | QualifyAction | UnqualifyAction

  datatype Lead = Lead(
    id: string,
    name: string,
    status: LeadStatus,
    lastContactedAt: Option<int>,
    estimatedValue: Option<int>,
    ownerId: Option<string>)

  /** `confirmDialog` (its description text is left out). */
  datatype ConfirmDialog = ConfirmDialog(isOpen: bool, action: Option<Action>, title: string)

  const ClosedDialog := ConfirmDialog(false, None, "")

  /** The dialog opened to confirm `a`. */
  function Asking(a: Action): ConfirmDialog {
    ConfirmDialog(true, Some(a),
      match a
      case ConvertAction => "Convert Lead to Deal"
      case QualifyAction => "Mark Lead as Qualified"
      case UnqualifyAction => "Mark Lead as Unqualified")
  }

  /** The fields of the deal form this page sets. */
  datatype DealForm = DealForm(
    leadId: string,
    title: string,
    value: int,
    currentStageId: string,
    probability: int,
    assignedTo: string)

  /** The deal form's default values. */
  const BlankDealForm := DealForm("", "", 0, "", 0, "")

  /** A pipeline stage as offered to the deal form. */
  datatype StageInfo = StageInfo(id: string, stageProbability: Option<int>)

  datatype NoteDialog = NoteDialog(isOpen: bool, note: string)

  const ClosedNoteDialog := NoteDialog(false, "")

  /**
   * The page's state: the lead as last fetched, the two dialogs, the deal form and its
   * modal, and what was sent to the server (notes added, deals created).
   */
  datatype View = View(
    lead: Option<Lead>,
    dialog: ConfirmDialog,
    dealForm: DealForm,
    dealModalOpen: bool,
    noteDialog: NoteDialog,
    sentNotes: seq<string>,
    createdDeals: seq<DealForm>)

  function Initial(lead: Option<Lead>): View {
    View(lead, ClosedDialog, BlankDealForm, false, ClosedNoteDialog, [], [])
  }

  /** The user interactions and the results of their remote calls. */
  datatype Event =
    | StatusChange(request: Request, checklistQualified: Option<bool>, ok: bool)
    | ConfirmAction(stages: seq<StageInfo>, sessionUser: Option<string>, ok: bool)
    | CancelConfirm
    | CreateDeal(data: DealForm, dealOk: bool, statusOk: bool)
    | CloseDealModal
    | EditNote(note: string)
    | CancelNote
    | SubmitNote(ok: bool)

  /** What `handleStatusChange` decides: refuse, ask for confirmation, or write directly. */
  datatype Outcome = Refuse | Ask(action: Action) | Write(status: LeadStatus)

  function Decide(lead: Option<Lead>, request: Request, checklistQualified: Option<bool>): Outcome {
    if lead.None? then Refuse
    else
      match request
      case Convert =>
        if lead.value.status != Qualified then Refuse else Ask(ConvertAction)
      case SetStatus(s) =>
        if s == Qualified then
          if lead.value.lastContactedAt.None? && lead.value.status != Contacted then Refuse
          else if checklistQualified != Some(true) then Refuse
          else Ask(QualifyAction)
        else if s == Unqualified then Ask(UnqualifyAction)
        else Write(s)
  }

  function WithStatus(lead: Option<Lead>, s: LeadStatus): Option<Lead> {
    if lead.None? then None else Some(lead.value.(status := s))
  }

  /** The person the new deal is assigned to: the lead's owner, else the signed-in user. */
  function Assignee(lead: Lead, sessionUser: Option<string>): Option<string> {
    if Truthy(lead.ownerId) then lead.ownerId else sessionUser
  }

  /** The deal form after confirming `convert` for `lead`. */
  function Prefilled(form: DealForm, lead: Lead, stages: seq<StageInfo>, sessionUser: Option<string>): (r: DealForm)
    ensures r.leadId == lead.id && r.title == lead.name
    ensures r.value == if lead.estimatedValue.Some? then lead.estimatedValue.value else form.value
    ensures |stages| > 0 ==> r.currentStageId == stages[0].id && r.probability == stages[0].stageProbability.GetOr(0)
    ensures |stages| == 0 ==> r.currentStageId == form.currentStageId && r.probability == form.probability
    ensures Truthy(lead.ownerId) ==> r.assignedTo == lead.ownerId.value
    ensures !Truthy(lead.ownerId) && Truthy(sessionUser) ==> r.assignedTo == sessionUser.value
    ensures !Truthy(lead.ownerId) && !Truthy(sessionUser) ==> r.assignedTo == form.assignedTo
  {
    var named := form.(leadId := lead.id, title := lead.name);
    var valued := if lead.estimatedValue.Some? then named.(value := lead.estimatedValue.value) else named;
    var staged :=
      if |stages| > 0 then valued.(currentStageId := stages[0].id, probability := stages[0].stageProbability.GetOr(0))
      else valued;
    var assignee := Assignee(lead, sessionUser);
    if Truthy(assignee) then staged.(assignedTo := assignee.value) else staged
  }

  /** `handleStatusChange`: refuse, open a confirmation, or write the status. */
  function OnStatusChange(v: View, request: Request, checklistQualified: Option<bool>, ok: bool): View {
    match Decide(v.lead, request, checklistQualified)
    case Refuse => v
    case Ask(a) => v.(dialog := Asking(a))
    case Write(s) => if ok then v.(lead := WithStatus(v.lead, s)) else v
  }

  /** `handleConfirmAction`. */
  function OnConfirm(v: View, stages: seq<StageInfo>, sessionUser: Option<string>, ok: bool): View {
    if v.dialog.action.None? || v.lead.None? then v
    else if v.dialog.action.value == ConvertAction then
      v.(dealForm := Prefilled(v.dealForm, v.lead.value, stages, sessionUser),
         dialog := ClosedDialog, dealModalOpen := true)
    else if ok then
      v.(lead := WithStatus(v.lead, if v.dialog.action.value == QualifyAction then Qualified else Unqualified),
         dialog := ClosedDialog)
    else v
  }

  /** `handleOnCreateDeal`: the deal is created first, then the lead marked converted. */
  function OnCreateDeal(v: View, data: DealForm, dealOk: bool, statusOk: bool): View {
    if !dealOk then v
    else if v.lead.None? || !statusOk then v.(createdDeals := v.createdDeals + [data])
    else
      v.(createdDeals := v.createdDeals + [data], lead := WithStatus(v.lead, Converted),
         dealModalOpen := false, dealForm := BlankDealForm)
  }

  /** `handleContactNoteSubmit`: a blank note is refused. */
  function OnSubmitNote(v: View, ok: bool): View {
    if v.lead.None? || Text.Blank(v.noteDialog.note) then v
    else if ok then v.(sentNotes := v.sentNotes + [v.noteDialog.note], noteDialog := ClosedNoteDialog)
    else v
  }

  /**
   * The page after one event. Whatever happens, the handlers change nothing of the lead
   * but its status.
   */
  function Step(v: View, e: Event): (r: View)
    ensures r.lead.None? <==> v.lead.None?
    ensures r.lead.Some? ==> r.lead.value == v.lead.value.(status := r.lead.value.status)
  {
    match e
    case StatusChange(request, checklistQualified, ok) => OnStatusChange(v, request, checklistQualified, ok)
    case ConfirmAction(stages, sessionUser, ok) => OnConfirm(v, stages, sessionUser, ok)
    case CancelConfirm => v.(dialog := ClosedDialog)
    case CreateDeal(data, dealOk, statusOk) => OnCreateDeal(v, data, dealOk, statusOk)
    case CloseDealModal => v.(dealModalOpen := false, dealForm := BlankDealForm)
    case EditNote(note) => v.(noteDialog := v.noteDialog.(note := note))
    case CancelNote => v.(noteDialog := ClosedNoteDialog)
    case SubmitNote(ok) => OnSubmitNote(v, ok)
  }

  // ---------------------------------------------------------------- the status menu

  datatype MenuEntry = MenuEntry(request: Request, enabled: bool)

  /**
   * The status dropdown: qualify and unqualify always; convert only for a qualified lead,
   * disabled until the checklist is met; qualify once more for an unqualified lead.
   */
  function Menu(status: LeadStatus, checklistQualified: Option<bool>): seq<MenuEntry> {
    [MenuEntry(SetStatus(Qualified), true), MenuEntry(SetStatus(Unqualified), true)]
    + (if status == Qualified then [MenuEntry(Convert, checklistQualified == Some(true))] else [])
    + (if status == Unqualified then [MenuEntry(SetStatus(Qualified), true)] else [])
  }

  /**
   * The convert entry is listed exactly for a qualified lead and is enabled exactly when
   * the checklist is met; no entry of the menu writes a status without confirmation.
   */
  lemma MenuEntries(lead: Lead, checklistQualified: Option<bool>)
    ensures (exists m :: m in Menu(lead.status, checklistQualified) && m.request == Convert) <==> lead.status == Qualified
    ensures forall m :: m in Menu(lead.status, checklistQualified) && m.request == Convert ==>
              (m.enabled <==> checklistQualified == Some(true))
    ensures forall m :: m in Menu(lead.status, checklistQualified) ==> !Decide(Some(lead), m.request, checklistQualified).Write?
  {
    var menu := Menu(lead.status, checklistQualified);
    if lead.status == Qualified {
      assert menu[2] == MenuEntry(Convert, checklistQualified == Some(true));
    }
  }

  /** The events the page can deliver in state `v`: only from what is on screen and enabled. */
  predicate Enabled(v: View, e: Event) {
    match e
    case StatusChange(request, checklistQualified, _) =>
      && !v.dialog.isOpen && !v.dealModalOpen && v.lead.Some?
      && MenuEntry(request, true) in Menu(v.lead.value.status, checklistQualified)
    case ConfirmAction(_, _, _) => v.dialog.isOpen
    case CancelConfirm => v.dialog.isOpen
    case CreateDeal(_, _, _) => v.dealModalOpen
    case CloseDealModal => v.dealModalOpen
    case EditNote(_) => true
    case CancelNote => true
    case SubmitNote(_) => true
  }

  // ---------------------------------------------------------------- handler properties

  /** Without lead data every status request returns `false` and changes nothing. */
  lemma NoLeadRefuses(v: View, request: Request, checklistQualified: Option<bool>, ok: bool)
    requires v.lead.None?
    ensures Decide(v.lead, request, checklistQualified) == Refuse
    ensures Step(v, StatusChange(request, checklistQualified, ok)) == v
  {
  }

  /**
   * `convert` opens the convert confirmation exactly for a qualified lead, and never
   * changes the lead.
   */
  lemma ConvertGate(v: View, checklistQualified: Option<bool>, ok: bool)
    ensures var r := Step(v, StatusChange(Convert, checklistQualified, ok));
            && r.lead == v.lead
            && (Decide(v.lead, Convert, checklistQualified) == Ask(ConvertAction)
                <==> v.lead.Some? && v.lead.value.status == Qualified)
            && r == if v.lead.Some? && v.lead.value.status == Qualified then v.(dialog := Asking(ConvertAction)) else v
  {
  }

  /**
   * `qualified` opens its confirmation exactly for a lead that was contacted and whose
   * checklist is met, and never changes the lead.
   */
  lemma QualifyGate(v: View, checklistQualified: Option<bool>, ok: bool)
    ensures var r := Step(v, StatusChange(SetStatus(Qualified), checklistQualified, ok));
            var allowed := v.lead.Some? && (v.lead.value.lastContactedAt.Some? || v.lead.value.status == Contacted)
                           && checklistQualified == Some(true);
            && r.lead == v.lead
            && (Decide(v.lead, SetStatus(Qualified), checklistQualified) == Ask(QualifyAction) <==> allowed)
            && r == if allowed then v.(dialog := Asking(QualifyAction)) else v
  {
  }

  /**
   * `unqualified` always asks for confirmation; every other status is written at once,
   * and only when the write succeeds.
   */
  lemma OtherRequests(v: View, s: LeadStatus, checklistQualified: Option<bool>, ok: bool)
    requires v.lead.Some? && s != Qualified
    ensures var r := Step(v, StatusChange(SetStatus(s), checklistQualified, ok));
            && (s == Unqualified ==> r == v.(dialog := Asking(UnqualifyAction)))
            && (s != Unqualified ==> r == if ok then v.(lead := Some(v.lead.value.(status := s))) else v)
  {
  }

  /**
   * Confirming `qualified` or `unqualified` writes exactly that status and closes the
   * dialog when the write succeeds; confirming `convert` leaves the status, fills the deal
   * form, closes the dialog and opens the deal modal; with no action nothing happens.
   */
  lemma ConfirmEffects(v: View, stages: seq<StageInfo>, sessionUser: Option<string>, ok: bool)
    requires v.lead.Some?
    ensures var r := Step(v, ConfirmAction(stages, sessionUser, ok));
            && (v.dialog.action.None? ==> r == v)
            && (v.dialog.action == Some(QualifyAction) ==>
                  r == if ok then v.(lead := Some(v.lead.value.(status := Qualified)), dialog := ClosedDialog) else v)
            && (v.dialog.action == Some(UnqualifyAction) ==>
                  r == if ok then v.(lead := Some(v.lead.value.(status := Unqualified)), dialog := ClosedDialog) else v)
            && (v.dialog.action == Some(ConvertAction) ==>
                  && r.lead == v.lead && r.dialog == ClosedDialog && r.dealModalOpen
                  && r.dealForm == Prefilled(v.dealForm, v.lead.value, stages, sessionUser))
  {
  }

  /**
   * A contact note is sent only when its text is not blank: a note of white space alone
   * changes nothing.
   */
  lemma BlankNoteRejected(v: View, ok: bool)
    requires forall k :: 0 <= k < |v.noteDialog.note| ==> Text.IsSpace(v.noteDialog.note[k])
    ensures Step(v, SubmitNote(ok)) == v
  {
    Text.TrimEmptyIff(v.noteDialog.note);
  }

  // ---------------------------------------------------------------- the workflow invariant

  /**
   * What holds on every page reachable from a fresh one: an open dialog carries an action;
   * the convert dialog and the deal modal only ever show for a qualified lead; the qualify
   * dialog only for a contacted lead; the dialog and the deal modal are never both open.
   */
  ghost predicate Inv(v: View) {
    && (v.dialog.isOpen <==> v.dialog.action.Some?)
    && (v.dialog.action == Some(ConvertAction) ==> v.lead.Some? && v.lead.value.status == Qualified)
    && (v.dialog.action == Some(QualifyAction) ==>
          v.lead.Some? && (v.lead.value.lastContactedAt.Some? || v.lead.value.status == Contacted))
    && (v.dealModalOpen ==> v.lead.Some? && v.lead.value.status == Qualified && !v.dialog.isOpen)
  }

  lemma InitialInv(lead: Option<Lead>)
    ensures Inv(Initial(lead))
  {
  }

  lemma StepKeepsInv(v: View, e: Event)
    requires Inv(v) && Enabled(v, e)
    ensures Inv(Step(v, e))
  {
    match e {
      case StatusChange(request, checklistQualified, ok) =>
        MenuEntries(v.lead.value, checklistQualified);
        assert MenuEntry(request, true) in Menu(v.lead.value.status, checklistQualified);
      case ConfirmAction(_, _, _) =>
      case CancelConfirm =>
      case CreateDeal(_, _, _) =>
      case CloseDealModal =>
      case EditNote(_) =>
      case CancelNote =>
      case SubmitNote(_) =>
    }
  }

  /**
   * A lead becomes converted only by a successful deal creation from the deal modal,
   * which is open only for a qualified lead; the created deal is recorded first.
   */
  lemma ConvertedOnlyAfterDeal(v: View, e: Event)
    requires Inv(v) && Enabled(v, e)
    requires v.lead.Some? && v.lead.value.status != Converted
    requires Step(v, e).lead.value.status == Converted
    ensures e.CreateDeal? && e.dealOk && e.statusOk
    ensures v.lead.value.status == Qualified
    ensures Step(v, e).createdDeals == v.createdDeals + [e.data]
  {
    if e.StatusChange? {
      MenuEntries(v.lead.value, e.checklistQualified);
    }
  }

  /**
   * A lead becomes qualified only by confirming the qualify dialog, which was opened for
   * a contacted lead, and only when the write succeeds.
   */
  lemma QualifiedOnlyByConfirm(v: View, e: Event)
    requires Inv(v) && Enabled(v, e)
    requires v.lead.Some? && v.lead.value.status != Qualified
    requires Step(v, e).lead.value.status == Qualified
    ensures e.ConfirmAction? && e.ok && v.dialog.action == Some(QualifyAction)
    ensures v.lead.value.lastContactedAt.Some? || v.lead.value.status == Contacted
  {
    if e.StatusChange? {
      MenuEntries(v.lead.value, e.checklistQualified);
    }
  }

  // ---------------------------------------------------------------- the status badge

  /** `getStatusColor`: a colour per known status, a neutral one for anything else. */
  function StatusColor(status: string): string {
    if status == "new" then "bg-blue-500 text-white"
    else if status == "contacted" then "bg-slate-500 text-white"
    else if status == "qualified" then "bg-green-500 text-white"
    else if status == "unqualified" then "bg-red-500 text-white"
    else if status == "converted" then "bg-emerald-600 text-white"
    else "bg-secondary text-secondary-foreground"
  }

  /** Distinct statuses get distinct colours, and none of them the neutral one. */
  lemma StatusColorsDistinct(a: LeadStatus, b: LeadStatus)
    ensures StatusColor(StatusName(a)) != "bg-secondary text-secondary-foreground"
    ensures StatusColor(StatusName(a)) == StatusColor(StatusName(b)) <==> a == b
  {
  }

  // ---------------------------------------------------------------- the page

  /** The mounted page: its state hooks, and what its remote calls have sent. */
  class LeadPage {
    var lead: Option<Lead>
    var dialog: ConfirmDialog
    var dealForm: DealForm
    var dealModalOpen: bool
    var noteDialog: NoteDialog
    var sentNotes: seq<string>
    var createdDeals: seq<DealForm>

    function State(): View
      reads this
    {
      View(lead, dialog, dealForm, dealModalOpen, noteDialog, sentNotes, createdDeals)
    }

    constructor(lead: Option<Lead>)
      ensures State() == Initial(lead)
    {
      this.lead := lead;
      dialog := ClosedDialog;
      dealForm := BlankDealForm;
      dealModalOpen := false;
      noteDialog := ClosedNoteDialog;
      sentNotes := [];
      createdDeals := [];
    }

    /** `handleStatusChange`; returns `Some(false)` where the handler returns `false`. */
    method HandleStatusChange(request: Request, checklistQualified: Option<bool>, ok: bool)
      returns (result: Option<bool>)
      modifies this
      ensures State() == Step(old(State()), StatusChange(request, checklistQualified, ok))
      ensures result == if Decide(old(lead), request, checklistQualified) == Refuse then Some(false) else None
    {
      if lead.None? {
        return Some(false);
      }
      if request == Convert {
        if lead.value.status != Qualified {
          return Some(false);
        }
        dialog := Asking(ConvertAction);
        return None;
      }
      var s := request.status;
      if s == Qualified {
        if lead.value.lastContactedAt.None? && lead.value.status != Contacted {
          return Some(false);
        }
        if checklistQualified != Some(true) {
          return Some(false);
        }
        dialog := Asking(QualifyAction);
        return None;
      }
      if s == Unqualified {
        dialog := Asking(UnqualifyAction);
        return None;
      }
      if ok {
        lead := Some(lead.value.(status := s));
      }
      result := None;
    }

    /** `handleConfirmAction`: the deal form is filled field by field, as `setValue` does. */
    method HandleConfirmAction(stages: seq<StageInfo>, sessionUser: Option<string>, ok: bool)
      modifies this
      ensures State() == Step(old(State()), ConfirmAction(stages, sessionUser, ok))
    {
      if dialog.action.None? || lead.None? {
        return;
      }
      var current := lead.value;
      if dialog.action.value == ConvertAction {
        ghost var form0 := dealForm;
        dealForm := dealForm.(leadId := current.id);
        dealForm := dealForm.(title := current.name);
        if current.estimatedValue.Some? {
          dealForm := dealForm.(value := current.estimatedValue.value);
        }
        if |stages| > 0 {
          var firstStage := stages[0];
          dealForm := dealForm.(currentStageId := firstStage.id);
          dealForm := dealForm.(probability := firstStage.stageProbability.GetOr(0));
        }
        var assignee := if Truthy(current.ownerId) then current.ownerId else sessionUser;
        if Truthy(assignee) {
          dealForm := dealForm.(assignedTo := assignee.value);
        }
        assert dealForm == Prefilled(form0, current, stages, sessionUser);
        dialog := ClosedDialog;
        dealModalOpen := true;
      } else if ok {
        lead := Some(current.(status := if dialog.action.value == QualifyAction then Qualified else Unqualified));
        dialog := ClosedDialog;
      }
    }

    /** The dialog's Cancel button. */
    method CancelConfirm()
      modifies this
      ensures State() == Step(old(State()), Event.CancelConfirm)
    {
      dialog := ClosedDialog;
    }

    /** `handleOnCreateDeal`: create the deal, then mark the lead converted. */
    method HandleOnCreateDeal(data: DealForm, dealOk: bool, statusOk: bool)
      modifies this
      ensures State() == Step(old(State()), CreateDeal(data, dealOk, statusOk))
    {
      if !dealOk {
        return;
      }
      createdDeals := createdDeals + [data];
      if lead.None? || !statusOk {
        return;
      }
      lead := Some(lead.value.(status := Converted));
      dealModalOpen := false;
      dealForm := BlankDealForm;
    }

    /** The deal modal's close handler. */
    method CloseDealModal()
      modifies this
      ensures State() == Step(old(State()), Event.CloseDealModal)
    {
      dealModalOpen := false;
      dealForm := BlankDealForm;
    }

    method EditNote(note: string)
      modifies this
      ensures State() == Step(old(State()), Event.EditNote(note))
    {
      noteDialog := noteDialog.(note := note);
    }

    method CancelNote()
      modifies this
      ensures State() == Step(old(State()), Event.CancelNote)
    {
      noteDialog := ClosedNoteDialog;
    }

    /** `handleContactNoteSubmit`. */
    method HandleContactNoteSubmit(ok: bool)
      modifies this
      ensures State() == Step(old(State()), SubmitNote(ok))
    {
      assert Step(State(), SubmitNote(ok)) == OnSubmitNote(State(), ok);
      if lead.None? {
        return;
      }
      if Text.Blank(noteDialog.note) {
        return;
      }
      if ok {
        sentNotes := sentNotes + [noteDialog.note];
        noteDialog := ClosedNoteDialog;
      }
    }
  }
}
