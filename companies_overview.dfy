/**
 * The companies list page: the search, industry and paging state, the list query it
 * issues, the page count, the "Showing x to y" range and the clamped page navigation.
 */
module CompaniesOverview {
  import opened Wrappers

  /** The page sizes the size selector offers. */
  const PageSizes: set<int> := {10, 20, 50, 100}

  /** The list query's input; an empty filter is sent as `undefined`. */
  datatype CompanyQuery = CompanyQuery(search: Option<string>, industry: Option<string>, limit: int, offset: int)

  /** `value || undefined` for a string. */
  function Defined(value: string): (r: Option<string>)
    ensures r.None? <==> value == ""
    ensures r.Some? ==> r.value == value
  {
    if value == "" then None else Some(value)
  }

  /** The list query for the current state: one page of `pageSize` rows starting at its offset. */
  function ListQuery(search: string, industry: string, page: int, pageSize: int): (q: CompanyQuery)
    ensures q.limit == pageSize
    ensures q.search.None? <==> search == ""
    ensures q.industry.None? <==> industry == ""
  {
    CompanyQuery(Defined(search), Defined(industry), pageSize, (page - 1) * pageSize)
  }

  /**
   * Page 1 starts at row 0, no page starts before it, and consecutive pages ask for
   * consecutive, non-overlapping runs of rows.
   */
  lemma ListQueryOffsets(search: string, industry: string, page: int, pageSize: int)
    requires page >= 1 && pageSize > 0
    ensures ListQuery(search, industry, 1, pageSize).offset == 0
    ensures ListQuery(search, industry, page, pageSize).offset >= 0
    ensures ListQuery(search, industry, page + 1, pageSize).offset
            == ListQuery(search, industry, page, pageSize).offset + pageSize
  {
    MulMonotone(pageSize, 0, page - 1);
    assert page * pageSize == (page - 1) * pageSize + pageSize;
  }

  /** `Math.ceil(total / pageSize)`. */
  function TotalPages(total: nat, pageSize: int): (n: nat)
    requires pageSize > 0
    ensures total == 0 <==> n == 0
    ensures total > 0 ==> pageSize * (n - 1) < total <= pageSize * n
  {
    var q := total / pageSize;
    var r := total % pageSize;
    CeilSteps(total, pageSize, q, r);
    if r == 0 then q else q + 1
  }

  lemma CeilSteps(total: nat, d: int, q: int, r: int)
    requires d > 0 && total == d * q + r && 0 <= r < d
    ensures q >= 0
    ensures r == 0 && total > 0 ==> q >= 1 && d * (q - 1) < total <= d * q
    ensures r > 0 ==> d * q < total <= d * (q + 1)
  {
    var dq := d * q;
    assert d * (q - 1) == dq - d;
    assert d * (q + 1) == dq + d;
    if q < 0 {
      MulMonotone(d, q, -1);
    }
  }

  /** The first row number shown. */
  function RangeStart(page: int, pageSize: int): int {
    (page - 1) * pageSize + 1
  }

  /** The last row number shown. */
  function RangeEnd(page: int, pageSize: int, total: nat): int {
    Min(page * pageSize, total)
  }

  /**
   * On any page from 1 to the page count the range shown is a non-empty run of at most
   * `pageSize` rows within 1..total, and it starts right after the query's offset.
   */
  lemma RangeWithinTotal(page: int, pageSize: int, total: nat)
    requires pageSize > 0 && total > 0
    requires 1 <= page <= TotalPages(total, pageSize)
    ensures 1 <= RangeStart(page, pageSize) <= RangeEnd(page, pageSize, total) <= total
    ensures RangeEnd(page, pageSize, total) - RangeStart(page, pageSize) < pageSize
    ensures RangeStart(page, pageSize) == ListQuery("", "", page, pageSize).offset + 1
  {
    var n := TotalPages(total, pageSize);
    MulMonotone(pageSize, page - 1, n - 1);
    MulMonotone(pageSize, 0, page - 1);
    assert page * pageSize == (page - 1) * pageSize + pageSize;
  }

  /** The page's filter and paging state. */
  class CompaniesPage {
    var searchQuery: string
    var industryFilter: string
    var currentPage: int
    var pageSize: int

    ghost predicate Valid()
      reads this
    {
      currentPage >= 1 && pageSize in PageSizes
    }

    /** The query the page issues in its current state. */
    function Query(): CompanyQuery
      reads this
    {
      ListQuery(searchQuery, industryFilter, currentPage, pageSize)
    }

    constructor()
      ensures Valid()
      ensures searchQuery == "" && industryFilter == "" && currentPage == 1 && pageSize == 10
    {
      searchQuery, industryFilter := "", "";
      currentPage, pageSize := 1, 10;
    }

    /** `handleSearchChange`: a new search starts again from page 1. */
    method SearchChange(value: string)
      requires Valid()
      modifies this
      ensures Valid()
      ensures searchQuery == value && currentPage == 1
      ensures industryFilter == old(industryFilter) && pageSize == old(pageSize)
    {
      searchQuery := value;
      currentPage := 1;
    }

    /**
     * `handleIndustryChange`: a new industry starts again from page 1. The "All Industries"
     * entry's value "all" is stored and sent as it is.
     */
    method IndustryChange(value: string)
      requires Valid()
      modifies this
      ensures Valid()
      ensures industryFilter == value && currentPage == 1
      ensures searchQuery == old(searchQuery) && pageSize == old(pageSize)
    {
      industryFilter := value;
      currentPage := 1;
    }

    /** The size selector: a new page size starts again from page 1. */
    method PageSizeChange(size: int)
      requires Valid() && size in PageSizes
      modifies this
      ensures Valid()
      ensures pageSize == size && currentPage == 1
      ensures searchQuery == old(searchQuery) && industryFilter == old(industryFilter)
    {
      pageSize := size;
      currentPage := 1;
    }

    /** "First". */
    method First()
      requires Valid()
      modifies this
      ensures Valid()
      ensures currentPage == 1
      ensures searchQuery == old(searchQuery) && industryFilter == old(industryFilter) && pageSize == old(pageSize)
    {
      currentPage := 1;
    }

    /** "Previous": one page back, never below page 1. */
    method Prev()
      requires Valid()
      modifies this
      ensures Valid()
      ensures currentPage == Max(1, old(currentPage) - 1)
      ensures searchQuery == old(searchQuery) && industryFilter == old(industryFilter) && pageSize == old(pageSize)
    {
      currentPage := Max(1, currentPage - 1);
    }

    /**
     * "Next": one page on, never past the page count. The controls are shown only when
     * there is at least one company.
     */
    method Next(total: nat)
      requires Valid() && total > 0
      modifies this
      ensures Valid()
      ensures currentPage == Min(TotalPages(total, pageSize), old(currentPage) + 1)
      ensures currentPage <= TotalPages(total, pageSize)
      ensures searchQuery == old(searchQuery) && industryFilter == old(industryFilter) && pageSize == old(pageSize)
    {
      currentPage := Min(TotalPages(total, pageSize), currentPage + 1);
    }

    /** "Last": the last page. */
    method Last(total: nat)
      requires Valid() && total > 0
      modifies this
      ensures Valid()
      ensures currentPage == TotalPages(total, pageSize)
      ensures searchQuery == old(searchQuery) && industryFilter == old(industryFilter) && pageSize == old(pageSize)
    {
      currentPage := TotalPages(total, pageSize);
    }
  }

  /** First and Previous are disabled on page 1. */
  predicate BackDisabled(page: int) {
    page == 1
  }

  /** Next and Last are disabled on the last page. */
  predicate ForwardDisabled(page: int, totalPages: int) {
    page == totalPages
  }

  /**
   * On a page from 1 to the page count, a navigation button is disabled exactly when
   * pressing it would leave the page where it is.
   */
  lemma DisabledIffNoMove(page: int, pageSize: int, total: nat)
    requires pageSize > 0 && total > 0
    requires 1 <= page <= TotalPages(total, pageSize)
    ensures BackDisabled(page) <==> Max(1, page - 1) == page
    ensures BackDisabled(page) <==> page == 1
    ensures ForwardDisabled(page, TotalPages(total, pageSize)) <==> Min(TotalPages(total, pageSize), page + 1) == page
    ensures ForwardDisabled(page, TotalPages(total, pageSize)) <==> TotalPages(total, pageSize) == page
  {
  }
}
