/**
 * The deal's activity feed: the deal's own activities merged with those of its lead
 * (shown read-only), newest first, with the status badge, the card colour and the single
 * expanded card. Timestamps are integer milliseconds.
 */
module DealActivities {
  import opened Wrappers
  import opened Sorting

  /** The activity fields the feed reads; `kind` is the activity's `type`. */
  datatype Activity = Activity(id: string, kind: string, status: string, createdAt: Option<int>)

  datatype Source = FromDeal | FromLead

  /** An activity as listed: the copy with `isReadOnly` and `source` added. */
  datatype Entry = Entry(activity: Activity, isReadOnly: bool, source: Source)

  /** The `map` that tags every activity of one list. */
  function Tagged(acts: seq<Activity>, isReadOnly: bool, source: Source): (r: seq<Entry>)
    ensures |r| == |acts|
    ensures forall i :: 0 <= i < |r| ==> r[i] == Entry(acts[i], isReadOnly, source)
  {
    if acts == [] then [] else Tagged(acts[..|acts| - 1], isReadOnly, source) + [Entry(acts[|acts| - 1], isReadOnly, source)]
  }

  /** The date compared: `createdAt || 0`. */
  function CreatedAt(e: Entry): int {
    e.activity.createdAt.GetOr(0)
  }

  /** The comparator `dateB - dateA` (newest first), as an ascending sort key. */
  function NewestFirst(e: Entry): int {
    -CreatedAt(e)
  }

  /** The deal's entries, then the lead's; a list not loaded (or not asked for) is empty. */
  function Merged(deal: Option<seq<Activity>>, lead: Option<seq<Activity>>): seq<Entry> {
    Tagged(deal.GetOr([]), false, FromDeal) + Tagged(lead.GetOr([]), true, FromLead)
  }

  /** `allActivities`. */
  function AllActivities(deal: Option<seq<Activity>>, lead: Option<seq<Activity>>): seq<Entry> {
    SortBy(Merged(deal, lead), NewestFirst)
  }

  /**
   * The feed has one entry per deal activity and per lead activity, newest first, and an
   * entry is read-only exactly when it comes from the lead.
   */
  lemma AllActivitiesShape(deal: Option<seq<Activity>>, lead: Option<seq<Activity>>)
    ensures |AllActivities(deal, lead)| == |deal.GetOr([])| + |lead.GetOr([])|
    ensures multiset(AllActivities(deal, lead)) == multiset(Merged(deal, lead))
    ensures forall i, j :: 0 <= i < j < |AllActivities(deal, lead)| ==>
              CreatedAt(AllActivities(deal, lead)[i]) >= CreatedAt(AllActivities(deal, lead)[j])
    ensures forall e :: e in AllActivities(deal, lead) ==> (e.isReadOnly <==> e.source == FromLead)
  {
    var r := AllActivities(deal, lead);
    var m := Merged(deal, lead);
    forall i, j | 0 <= i < j < |r| ensures CreatedAt(r[i]) >= CreatedAt(r[j]) {
      assert NewestFirst(r[i]) <= NewestFirst(r[j]);
    }
    forall e | e in r ensures e.isReadOnly <==> e.source == FromLead {
      assert e in multiset(r);
      assert e in m;
    }
  }

  /** An entry is in a tagged list exactly when it carries that list's tags and activity. */
  lemma TaggedMember(acts: seq<Activity>, isReadOnly: bool, source: Source, e: Entry)
    ensures e in Tagged(acts, isReadOnly, source) <==>
              e.isReadOnly == isReadOnly && e.source == source && e.activity in acts
  {
    var t := Tagged(acts, isReadOnly, source);
    if e.activity in acts && e.isReadOnly == isReadOnly && e.source == source {
      var i :| 0 <= i < |acts| && acts[i] == e.activity;
      assert t[i] == e;
    }
  }

  /**
   * An activity of the deal is listed as an editable deal entry exactly when the deal has
   * it, and one of the lead as a read-only lead entry exactly when the lead has it.
   */
  lemma EntriesListed(deal: Option<seq<Activity>>, lead: Option<seq<Activity>>, a: Activity)
    ensures Entry(a, false, FromDeal) in AllActivities(deal, lead) <==> a in deal.GetOr([])
    ensures Entry(a, true, FromLead) in AllActivities(deal, lead) <==> a in lead.GetOr([])
  {
    var r := AllActivities(deal, lead);
    var m := Merged(deal, lead);
    var ed, el := Entry(a, false, FromDeal), Entry(a, true, FromLead);
    assert ed in r <==> ed in multiset(r);
    assert el in r <==> el in multiset(r);
    assert ed in m <==> ed in multiset(m);
    assert el in m <==> el in multiset(m);
    TaggedMember(deal.GetOr([]), false, FromDeal, ed);
    TaggedMember(lead.GetOr([]), true, FromLead, ed);
    TaggedMember(deal.GetOr([]), false, FromDeal, el);
    TaggedMember(lead.GetOr([]), true, FromLead, el);
  }

  /** An activity without a date sorts after every activity dated after time 0. */
  lemma UndatedLast(deal: Option<seq<Activity>>, lead: Option<seq<Activity>>, i: nat, j: nat)
    requires i < j < |AllActivities(deal, lead)|
    requires AllActivities(deal, lead)[i].activity.createdAt.None?
    ensures AllActivities(deal, lead)[j].activity.createdAt.GetOr(0) <= 0
  {
    AllActivitiesShape(deal, lead);
  }

  /**
   * Entries of the same date (sort key `k`, minus the date) keep their merged order: deal
   * entries before lead entries, each list in its own order.
   */
  lemma SameDateKeepsOrder(deal: Option<seq<Activity>>, lead: Option<seq<Activity>>, k: int)
    ensures WithKey(AllActivities(deal, lead), NewestFirst, k) == WithKey(Merged(deal, lead), NewestFirst, k)
  {
    SortByIsStable(Merged(deal, lead), NewestFirst, k);
  }

  /** A status badge: its text and colour classes. */
  datatype Badge = Badge(text: string, color: string)

  /** `getStatusBadge`. */
  function StatusBadge(kind: string, status: string): Badge {
    if kind == "task" then
      if status == "done" then Badge("Completed", "bg-green-100 text-green-800")
      else if status == "in-progress" then Badge("In Progress", "bg-blue-100 text-blue-800")
      else Badge("Scheduled", "bg-gray-100 text-gray-800")
    else if kind == "meeting" then Badge("Scheduled", "bg-primary/20 text-primary")
    else Badge(status, "bg-gray-100 text-gray-800")
  }

  /**
   * Tasks read "Completed" when done, "In Progress" when in progress and "Scheduled"
   * otherwise; meetings always read "Scheduled"; any other type shows its raw status.
   */
  lemma StatusBadgeLabels(kind: string, status: string)
    ensures kind == "task" ==>
              (StatusBadge(kind, status).text == "Completed" <==> status == "done")
              && (StatusBadge(kind, status).text == "In Progress" <==> status == "in-progress")
              && (StatusBadge(kind, status).text == "Scheduled" <==> status != "done" && status != "in-progress")
    ensures kind == "meeting" ==> StatusBadge(kind, status).text == "Scheduled"
    ensures kind != "task" && kind != "meeting" ==> StatusBadge(kind, status).text == status
  {
  }

  /** The colour of a card by activity type. */
  function BaseColor(kind: string): string {
    if kind == "task" then "bg-muted/10 border-l-primary/50 border-l-2 "
    else if kind == "meeting" then "bg-muted/10 border-l-purple-200 border-l-2 ml-4"
    else if kind == "email" then "bg-muted/10 border-l-green-200 border-l-2"
    else if kind == "note" then "bg-muted border-none border-l border-l-amber-200 border-l-2 ml-4"
    else "bg-gray-50 border-l-gray-200 border-l-2"
  }

  const Faded := " opacity-75"

  /** `getActivityColor`. */
  function ActivityColor(kind: string, isReadOnly: bool): string {
    if isReadOnly then BaseColor(kind) + Faded else BaseColor(kind)
  }

  /** A read-only card's colour is the base colour with " opacity-75" appended; others keep it. */
  lemma ActivityColorFaded(kind: string, isReadOnly: bool)
    ensures BaseColor(kind) <= ActivityColor(kind, isReadOnly)
    ensures isReadOnly <==> |ActivityColor(kind, isReadOnly)| == |BaseColor(kind)| + |Faded|
    ensures isReadOnly ==> ActivityColor(kind, isReadOnly)[|BaseColor(kind)|..] == Faded
  {
  }

  /** The key of an entry: `${source}-${id}`. */
  function EntryKey(e: Entry): string {
    (if e.source == FromDeal then "deal" else "lead") + "-" + e.activity.id
  }

  /** Two entries share a key only if they come from the same list and share an id. */
  lemma EntryKeyInjective(e1: Entry, e2: Entry)
    requires EntryKey(e1) == EntryKey(e2)
    ensures e1.source == e2.source && e1.activity.id == e2.activity.id
  {
    assert EntryKey(e1)[0] == EntryKey(e2)[0];
    assert EntryKey(e1)[5..] == e1.activity.id;
    assert EntryKey(e2)[5..] == e2.activity.id;
  }

  /** `onToggle`: clicking the expanded entry collapses it; any other entry becomes the expanded one. */
  function ToggleExpanded(expanded: Option<string>, key: string): Option<string> {
    if expanded == Some(key) then None else Some(key)
  }

  /** After a click at most the clicked entry is expanded, and it is exactly when it was not. */
  lemma ToggleExpandedEffect(expanded: Option<string>, key: string, other: string)
    requires other != key
    ensures ToggleExpanded(expanded, key) == Some(key) <==> expanded != Some(key)
    ensures ToggleExpanded(expanded, key) != Some(other)
    ensures ToggleExpanded(ToggleExpanded(None, key), key) == None
  {
  }
}
