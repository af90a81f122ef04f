/**
 * The activities page's type filter: the toggle on a type button, the clear button and
 * the list shown.
 */
module ActivitiesOverview {
  import opened FilterToggle
  import opened Sequences

  /** The activity fields the filter reads; `kind` is the activity's `type`. */
  datatype Activity = Activity(id: string, kind: string)

  /** `handleSelectFilter`. */
  function SelectFilter(filters: seq<string>, filter: string): seq<string> {
    Toggle(filters, filter)
  }

  /** Selecting a type removes it when selected and appends it otherwise. */
  lemma SelectFilterEffect(filters: seq<string>, filter: string)
    ensures filter in SelectFilter(filters, filter) <==> filter !in filters
    ensures filter !in filters ==> SelectFilter(filters, filter) == filters + [filter]
    ensures forall u :: u != filter ==> multiset(SelectFilter(filters, filter))[u] == multiset(filters)[u]
  {
    ToggleMembership(filters, filter);
  }

  /** `activities.filter(a => filters.includes(a.type))`. */
  function OfTypes(activities: seq<Activity>, filters: seq<string>): seq<Activity> {
    if activities == [] then []
    else
      var last := activities[|activities| - 1];
      OfTypes(activities[..|activities| - 1], filters) + (if last.kind in filters then [last] else [])
  }

  /** `filteredActivities`: all activities when no type is selected. */
  function Filtered(activities: seq<Activity>, filters: seq<string>): seq<Activity> {
    if |filters| > 0 then OfTypes(activities, filters) else activities
  }

  /**
   * Each activity of a selected type is kept as often as it occurs, any other is dropped,
   * and the kept ones are in their original order: an activity is kept before another one
   * only if it came first.
   */
  lemma {:induction false} OfTypesCount(activities: seq<Activity>, filters: seq<string>, a: Activity)
    ensures multiset(OfTypes(activities, filters))[a] == if a.kind in filters then multiset(activities)[a] else 0
  {
    if activities != [] {
      var init, last := activities[..|activities| - 1], activities[|activities| - 1];
      OfTypesCount(init, filters, a);
      assert activities == init + [last];
    }
  }

  /** The kept activities are in their original order. */
  lemma {:induction false} OfTypesInOrder(activities: seq<Activity>, filters: seq<string>)
    ensures Subsequence(OfTypes(activities, filters), activities)
  {
    if activities != [] {
      var init, last := activities[..|activities| - 1], activities[|activities| - 1];
      OfTypesInOrder(init, filters);
      var r0 := OfTypes(init, filters);
      var r := OfTypes(activities, filters);
      if last.kind in filters {
        assert r == r0 + [last];
        assert r[..|r| - 1] == r0;
      } else {
        assert r == r0;
        if r0 != [] {
          var x := r0[|r0| - 1];
          OfTypesCount(init, filters, x);
          assert x in multiset(r0);
          assert x.kind in filters;
        }
      }
    }
  }

  /**
   * With no type selected the list is shown unchanged; otherwise exactly the activities of
   * a selected type, in their original order.
   */
  lemma FilteredSpec(activities: seq<Activity>, filters: seq<string>, a: Activity)
    ensures filters == [] ==> Filtered(activities, filters) == activities
    ensures filters != [] ==>
              && Subsequence(Filtered(activities, filters), activities)
              && multiset(Filtered(activities, filters))[a]
                 == if a.kind in filters then multiset(activities)[a] else 0
  {
    if filters != [] {
      OfTypesInOrder(activities, filters);
      OfTypesCount(activities, filters, a);
    }
  }

  /** The clear button empties the selection, and is shown only while something is selected. */
  function ClearFilters(filters: seq<string>): (r: seq<string>)
    ensures r == []
  {
    []
  }

  predicate ClearShown(filters: seq<string>) {
    |filters| > 0
  }

  /** After clearing, the button is gone and every activity is shown. */
  lemma ClearShowsAll(filters: seq<string>, activities: seq<Activity>)
    ensures !ClearShown(ClearFilters(filters))
    ensures Filtered(activities, ClearFilters(filters)) == activities
  {
  }
}
