/**
 * The leads list page: its filter and paging state, the list query built from it, the
 * qualification score colour, the "last contact" date label and the empty-list message.
 * Timestamps are integer milliseconds.
 */
module LeadsOverview {
  import opened Wrappers

  /** The filters a query and the empty-list message are built from. */
  datatype Filters = Filters(status: string, source: string, search: string, unassignedOnly: bool)

  /** The input of the leads list query. */
  datatype LeadsQuery = LeadsQuery(
    status: seq<string>,
    includeArchived: bool,
    source: Option<string>,
    searchTerm: Option<string>,
    unassignedOnly: bool,
    page: int,
    pageSize: int)

  /** The query for the given filters and page. */
  function QueryFor(f: Filters, page: int, pageSize: int): LeadsQuery {
    LeadsQuery(
      if f.status != "all" then [f.status] else [],
      false,
      if f.source != "all" then Some(f.source) else None,
      if f.search == "" then None else Some(f.search),
      f.unassignedOnly,
      page,
      pageSize)
  }

  /**
   * "all" statuses send an empty status list and any other status a list of just that one;
   * "all" sources send no source; an empty search sends no search term; archived leads are
   * never asked for; the rest is passed through.
   */
  lemma QueryMapping(f: Filters, page: int, pageSize: int)
    ensures var q := QueryFor(f, page, pageSize);
            && (q.status == [] <==> f.status == "all")
            && (q.status != [] ==> q.status == [f.status])
            && (q.source.None? <==> f.source == "all")
            && (q.source.Some? ==> q.source.value == f.source)
            && (q.searchTerm.None? <==> f.search == "")
            && (q.searchTerm.Some? ==> q.searchTerm.value == f.search)
            && !q.includeArchived
            && q.unassignedOnly == f.unassignedOnly && q.page == page && q.pageSize == pageSize
  {
  }

  /** The page's filter and paging state. */
  class LeadsPage {
    var selectedStatus: string
    var selectedSource: string
    var searchQuery: string
    var showUnassignedOnly: bool
    var currentPage: int
    var pageSize: int

    function CurrentFilters(): Filters
      reads this
    {
      Filters(selectedStatus, selectedSource, searchQuery, showUnassignedOnly)
    }

    /** The query the page issues in its current state. */
    function Query(): LeadsQuery
      reads this
    {
      QueryFor(CurrentFilters(), currentPage, pageSize)
    }

    constructor()
      ensures CurrentFilters() == Filters("all", "all", "", false)
      ensures currentPage == 1 && pageSize == 10
    {
      selectedStatus, selectedSource, searchQuery := "all", "all", "";
      showUnassignedOnly := false;
      currentPage, pageSize := 1, 10;
    }

    /** `handleStatusChange`. */
    method StatusChange(status: string)
      modifies this
      ensures CurrentFilters() == old(CurrentFilters()).(status := status)
      ensures currentPage == 1 && pageSize == old(pageSize)
    {
      selectedStatus := status;
      currentPage := 1;
    }

    /** `handleSourceChange`. */
    method SourceChange(source: string)
      modifies this
      ensures CurrentFilters() == old(CurrentFilters()).(source := source)
      ensures currentPage == 1 && pageSize == old(pageSize)
    {
      selectedSource := source;
      currentPage := 1;
    }

    /** `handleSearchChange`. */
    method SearchChange(query: string)
      modifies this
      ensures CurrentFilters() == old(CurrentFilters()).(search := query)
      ensures currentPage == 1 && pageSize == old(pageSize)
    {
      searchQuery := query;
      currentPage := 1;
    }

    /** `handleUnassignedToggle`. */
    method UnassignedToggle(checked: bool)
      modifies this
      ensures CurrentFilters() == old(CurrentFilters()).(unassignedOnly := checked)
      ensures currentPage == 1 && pageSize == old(pageSize)
    {
      showUnassignedOnly := checked;
      currentPage := 1;
    }

    /** The pager's page change: the filters stay. */
    method PageChange(page: int)
      modifies this
      ensures CurrentFilters() == old(CurrentFilters())
      ensures currentPage == page && pageSize == old(pageSize)
    {
      currentPage := page;
    }

    /** The pager's page size change: unlike a filter change it keeps the current page. */
    method PageSizeChange(size: int)
      modifies this
      ensures CurrentFilters() == old(CurrentFilters())
      ensures currentPage == old(currentPage) && pageSize == size
    {
      pageSize := size;
    }
  }

  /** `getQualificationColor` applied to `qualificationScore || 0`. */
  function QualificationColor(score: Option<int>): string {
    var s := score.GetOr(0);
    if s >= 75 then "text-green-600" else if s >= 50 then "text-yellow-600" else "text-red-600"
  }

  /** Green from 75, yellow from 50, red below; a missing score is red like a score of 0. */
  lemma QualificationColorBands(score: Option<int>)
    ensures QualificationColor(score) == "text-green-600" <==> score.Some? && score.value >= 75
    ensures QualificationColor(score) == "text-yellow-600" <==> score.Some? && 50 <= score.value < 75
    ensures QualificationColor(score) == "text-red-600" <==> score.None? || score.value < 50
    ensures score.None? ==> QualificationColor(score) == QualificationColor(Some(0))
  {
  }

  const MillisPerDay := 86_400_000

  /** `Math.floor((now - date) / 86400000)`: whole days elapsed, rounded down. */
  function DiffDays(now: int, date: int): (d: int)
    ensures MillisPerDay * d <= now - date < MillisPerDay * d + MillisPerDay
  {
    var diff := now - date;
    var q := diff / MillisPerDay;
    assert diff == MillisPerDay * q + diff % MillisPerDay;
    q
  }

  /** The labels of the "Last Contact" column. */
  datatype DateLabel = Never | Today | Yesterday | DaysAgo(days: int) | CalendarDate(date: int)

  /** `formatDate`. */
  function FormatDate(date: Option<int>, now: int): DateLabel {
    if date.None? then Never
    else
      var diffDays := DiffDays(now, date.value);
      if diffDays == 0 then Today
      else if diffDays == 1 then Yesterday
      else if diffDays < 7 then DaysAgo(diffDays)
      else CalendarDate(date.value)
  }

  /**
   * The buckets: no date is "Never", the same day "Today", one day "Yesterday", any other
   * count below 7 (a date in the future included) "N days ago", and 7 or more the date.
   */
  lemma FormatDateBuckets(date: Option<int>, now: int)
    ensures FormatDate(date, now) == Never <==> date.None?
    ensures date.Some? ==>
              var d := DiffDays(now, date.value);
              && (FormatDate(date, now) == Today <==> d == 0)
              && (FormatDate(date, now) == Yesterday <==> d == 1)
              && (FormatDate(date, now).DaysAgo? <==> d < 7 && d != 0 && d != 1)
              && (FormatDate(date, now).DaysAgo? ==> FormatDate(date, now).days == d)
              && (FormatDate(date, now).CalendarDate? <==> d >= 7)
  {
  }

  /** A contact less than a day before `now` shows "Today". */
  lemma SameDayIsToday(date: int, now: int)
    requires date <= now < date + MillisPerDay
    ensures FormatDate(Some(date), now) == Today
  {
    var d := DiffDays(now, date);
    if d < 0 {
      MulMonotone(MillisPerDay, d, -1);
    } else if d > 0 {
      MulMonotone(MillisPerDay, 1, d);
    }
  }

  const AdjustFilters := "Try adjusting your filters"
  const CreateFirstLead := "Create your first lead to get started"

  /** The message under "No leads found". */
  function NoLeadsMessage(f: Filters): string {
    if f.search != "" || f.status != "all" || f.source != "all" then AdjustFilters else CreateFirstLead
  }

  /**
   * The message suggests adjusting the filters exactly when a search, status or source
   * filter is set; the unassigned-only switch plays no part.
   */
  lemma NoLeadsMessageCases(f: Filters, unassigned: bool)
    ensures NoLeadsMessage(f) == AdjustFilters <==> f.search != "" || f.status != "all" || f.source != "all"
    ensures NoLeadsMessage(f.(unassignedOnly := unassigned)) == NoLeadsMessage(f)
  {
  }
}
