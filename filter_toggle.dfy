/**
 * Toggling a value in a filter list, as the task and activity pages do: a present value is
 * filtered out (every copy of it), an absent one is appended.
 */
module FilterToggle {

  /** `prev.filter(v => v !== value)`: the list without any copy of `value`, order kept. */
  function Remove(xs: seq<string>, value: string): (r: seq<string>)
    ensures value !in r
    ensures forall u :: u != value ==> multiset(r)[u] == multiset(xs)[u]
  {
    if xs == [] then []
    else
      var rest := Remove(xs[..|xs| - 1], value);
      var last := xs[|xs| - 1];
      assert xs == xs[..|xs| - 1] + [last];
      if last == value then rest else rest + [last]
  }

  /** The toggle: remove a present value, append an absent one. */
  function Toggle(xs: seq<string>, value: string): seq<string> {
    if value in xs then Remove(xs, value) else xs + [value]
  }

  /** Removing a value that is not there changes nothing. */
  lemma {:induction false} RemoveAbsent(xs: seq<string>, value: string)
    requires value !in xs
    ensures Remove(xs, value) == xs
  {
    if xs != [] {
      var init := xs[..|xs| - 1];
      assert forall u :: u in init ==> u in xs;
      RemoveAbsent(init, value);
      assert xs == init + [xs[|xs| - 1]];
    }
  }

  /**
   * After a toggle the value is present exactly when it was absent before, and every other
   * value occurs exactly as often as before.
   */
  lemma ToggleMembership(xs: seq<string>, value: string)
    ensures value in Toggle(xs, value) <==> value !in xs
    ensures forall u :: u != value ==> multiset(Toggle(xs, value))[u] == multiset(xs)[u]
    ensures value !in xs ==> Toggle(xs, value) == xs + [value]
  {
  }

  /** Toggling an absent value twice gives back the original list. */
  lemma ToggleTwice(xs: seq<string>, value: string)
    requires value !in xs
    ensures Toggle(Toggle(xs, value), value) == xs
  {
    var once := xs + [value];
    assert value in once;
    assert once[..|once| - 1] == xs;
    RemoveAbsent(xs, value);
  }
}
