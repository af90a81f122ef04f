/**
 * The tasks page's filter state: the selected statuses and types, the search text, the
 * toggle and clear handlers and the active filter count on the "Filters" button.
 */
module TasksOverview {
  import opened FilterToggle

  datatype FilterKind = StatusKind | TypeKind

  datatype TaskFilters = TaskFilters(status: seq<string>, types: seq<string>, search: string)

  /** `toggleFilter`: toggles `value` in the list `kind` names. */
  function ToggleFilter(f: TaskFilters, kind: FilterKind, value: string): (r: TaskFilters)
    ensures kind == StatusKind ==> r.types == f.types
    ensures kind == TypeKind ==> r.status == f.status
    ensures r.search == f.search
  {
    match kind
    case StatusKind => f.(status := Toggle(f.status, value))
    case TypeKind => f.(types := Toggle(f.types, value))
  }

  /** The list `kind` names. */
  function Selected(f: TaskFilters, kind: FilterKind): seq<string> {
    match kind
    case StatusKind => f.status
    case TypeKind => f.types
  }

  /**
   * A toggle removes every copy of a selected value or appends an unselected one, and
   * toggling an unselected value twice restores the filters.
   */
  lemma ToggleFilterEffect(f: TaskFilters, kind: FilterKind, value: string)
    ensures var r := ToggleFilter(f, kind, value);
            && (value in Selected(r, kind) <==> value !in Selected(f, kind))
            && (value !in Selected(f, kind) ==> Selected(r, kind) == Selected(f, kind) + [value])
            && (forall u :: u != value ==> multiset(Selected(r, kind))[u] == multiset(Selected(f, kind))[u])
    ensures value !in Selected(f, kind) ==> ToggleFilter(ToggleFilter(f, kind, value), kind, value) == f
  {
    ToggleMembership(Selected(f, kind), value);
    if value !in Selected(f, kind) {
      ToggleTwice(Selected(f, kind), value);
    }
  }

  /** `clearFilters`. */
  function ClearFilters(f: TaskFilters): (r: TaskFilters)
    ensures r.status == [] && r.types == [] && r.search == ""
  {
    TaskFilters([], [], "")
  }

  /** `activeFilterCount`: selected statuses and types, plus one for a search. */
  function ActiveFilterCount(f: TaskFilters): (n: nat)
    ensures n >= |f.status| + |f.types|
  {
    |f.status| + |f.types| + (if f.search != "" then 1 else 0)
  }

  /** "Clear all" is shown exactly when some filter is set, and clearing leaves none. */
  lemma ClearAllShown(f: TaskFilters)
    ensures ActiveFilterCount(f) > 0 <==> f.status != [] || f.types != [] || f.search != ""
    ensures ActiveFilterCount(ClearFilters(f)) == 0
  {
  }
}
