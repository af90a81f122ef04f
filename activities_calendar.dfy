/**
 * The activities calendar: the events derived from the scheduled activities, the icon and
 * colour of an event by activity type, and the month navigation. Timestamps are integer
 * milliseconds; the month shown is a month count.
 */
module ActivitiesCalendar {
  import opened Wrappers
  import opened Sequences

  /** The activity fields the calendar reads; `kind` is the activity's `type`. */
  datatype Activity = Activity(
    id: string,
    subject: string,
    kind: string,
    description: Option<string>,
    status: string,
    assigneeName: Option<string>,
    scheduledAt: Option<int>,
    duration: Option<int>)

  /** What an event carries besides its times. */
  datatype Resource = Resource(kind: string, description: Option<string>, status: string, assignedTo: Option<string>)

  datatype Event = Event(id: string, title: string, start: int, end: int, resource: Resource)

  const MillisPerMinute := 60_000
  const OneHour := 60 * 60_000

  /** The end time: the duration in minutes after the start, or one hour when it is 0 or missing. */
  function EndTime(start: int, duration: Option<int>): int {
    if duration.Some? && duration.value != 0 then start + duration.value * MillisPerMinute
    else start + OneHour
  }

  /** The event of a scheduled activity. */
  function ToEvent(a: Activity): Event
    requires a.scheduledAt.Some?
  {
    var start := a.scheduledAt.value;
    Event(a.id, a.subject, start, EndTime(start, a.duration),
          Resource(a.kind, a.description, a.status, a.assigneeName))
  }

  /** `data.filter(activity => activity.scheduledAt)`. */
  function Scheduled(data: seq<Activity>): (r: seq<Activity>)
    ensures forall a :: a in r ==> a.scheduledAt.Some?
  {
    if data == [] then []
    else
      var last := data[|data| - 1];
      Scheduled(data[..|data| - 1]) + (if last.scheduledAt.Some? then [last] else [])
  }

  /** The `map` to events. */
  function ToEvents(acts: seq<Activity>): (r: seq<Event>)
    requires forall a :: a in acts ==> a.scheduledAt.Some?
    ensures |r| == |acts|
    ensures forall i :: 0 <= i < |acts| ==> r[i] == ToEvent(acts[i])
  {
    if acts == [] then [] else [ToEvent(acts[0])] + ToEvents(acts[1..])
  }

  /** `events`: none without data, else one per scheduled activity, in order. */
  function Events(data: Option<seq<Activity>>): seq<Event> {
    if data.None? then [] else ToEvents(Scheduled(data.value))
  }

  /** An activity is kept exactly as often as it occurs when it is scheduled, and never otherwise. */
  lemma {:induction false} ScheduledCount(data: seq<Activity>, a: Activity)
    ensures multiset(Scheduled(data))[a] == if a.scheduledAt.Some? then multiset(data)[a] else 0
  {
    if data != [] {
      var init, last := data[..|data| - 1], data[|data| - 1];
      ScheduledCount(init, a);
      assert data == init + [last];
    }
  }

  /** The scheduled activities are kept in their original order. */
  lemma {:induction false} ScheduledInOrder(data: seq<Activity>)
    ensures Subsequence(Scheduled(data), data)
  {
    if data != [] {
      var init, last := data[..|data| - 1], data[|data| - 1];
      ScheduledInOrder(init);
      var r0 := Scheduled(init);
      var r := Scheduled(data);
      if last.scheduledAt.Some? {
        assert r == r0 + [last];
        assert r[..|r| - 1] == r0;
      } else {
        assert r == r0;
      }
    }
  }

  /**
   * The events are exactly those of the scheduled activities, in their order: no data
   * gives no events, and each event takes id, title, start and resource from its activity.
   */
  lemma EventsSpec(data: Option<seq<Activity>>, a: Activity)
    ensures data.None? ==> Events(data) == []
    ensures data.Some? ==>
              && Subsequence(Scheduled(data.value), data.value)
              && multiset(Scheduled(data.value))[a] == (if a.scheduledAt.Some? then multiset(data.value)[a] else 0)
              && |Events(data)| == |Scheduled(data.value)|
              && forall i :: 0 <= i < |Events(data)| ==>
                   var e, s := Events(data)[i], Scheduled(data.value)[i];
                   && e.id == s.id && e.title == s.subject && e.start == s.scheduledAt.value
                   && e.resource == Resource(s.kind, s.description, s.status, s.assigneeName)
  {
    if data.Some? {
      ScheduledInOrder(data.value);
      ScheduledCount(data.value, a);
    }
  }

  /**
   * A non-zero duration lasts that many minutes and a zero or missing one lasts an hour, so
   * every event with a non-negative duration ends after it starts.
   */
  lemma EndTimeSpec(start: int, duration: Option<int>)
    ensures duration.Some? && duration.value != 0 ==> EndTime(start, duration) - start == duration.value * 60_000
    ensures duration.None? || duration.value == 0 ==> EndTime(start, duration) - start == 3_600_000
    ensures duration.None? || duration.value >= 0 ==> EndTime(start, duration) > start
  {
    if duration.Some? && duration.value > 0 {
      var m := duration.value * MillisPerMinute;
      assert m >= MillisPerMinute;
    }
  }

  datatype Icon = Video | Phone | Mail | CheckCircle | MessageSquare | FileText

  /** `getActivityIcon`, applied to the event type or "". */
  function IconOf(kind: string): Icon {
    if kind == "meeting" then Video
    else if kind == "call" then Phone
    else if kind == "email" then Mail
    else if kind == "task" then CheckCircle
    else if kind == "sms" then MessageSquare
    else FileText
  }

  /** `getActivityColor`. */
  function ColorOf(kind: string): string {
    if kind == "meeting" then "bg-purple-100 text-purple-700 border-l-purple-500"
    else if kind == "call" then "bg-green-100 text-green-700 border-l-green-500"
    else if kind == "email" then "bg-orange-100 text-orange-700 border-l-orange-500"
    else if kind == "task" then "bg-blue-100 text-blue-700 border-l-blue-500"
    else if kind == "sms" then "bg-yellow-100 text-yellow-700 border-l-yellow-500"
    else "bg-gray-100 text-gray-700 border-l-gray-500"
  }

  const KnownKinds: set<string> := {"meeting", "call", "email", "task", "sms", "note"}

  /**
   * An unknown type shows like a note: the document icon in gray; the five other known
   * types each have their own icon and colour.
   */
  lemma UnknownKindFallback(kind: string)
    ensures kind !in KnownKinds ==> IconOf(kind) == FileText && ColorOf(kind) == ColorOf("note")
    ensures IconOf(kind) == FileText <==> kind !in KnownKinds - {"note"}
    ensures ColorOf(kind) == ColorOf("note") <==> kind !in KnownKinds - {"note"}
  {
  }

  datatype Navigation = Prev | Next | Today

  /** `handleNavigate`: one month back or on, or the current month. */
  function Navigate(month: int, action: Navigation, currentMonth: int): int {
    match action
    case Prev => month - 1
    case Next => month + 1
    case Today => currentMonth
  }

  /** Going back a month and on again returns to the month shown. */
  lemma NavigateRoundTrip(month: int, currentMonth: int)
    ensures Navigate(Navigate(month, Prev, currentMonth), Next, currentMonth) == month
    ensures Navigate(Navigate(month, Next, currentMonth), Prev, currentMonth) == month
    ensures Navigate(month, Today, currentMonth) == currentMonth
  {
  }
}
