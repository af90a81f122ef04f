/**
 * The company settings page: the form's default values, the copy of the loaded settings into
 * the form, and the country picker's search (kept lower-cased) with the countries it lists.
 */
module SettingsPage {
  import opened Wrappers
  import opened Sequences
  import Text

  datatype Country = Country(code: string, name: string)

  /** A country matches when its lower-cased name contains the lower-cased search term. */
  predicate Matches(c: Country, term: string) {
    Text.Contains(Text.ToLower(c.name), Text.ToLower(term))
  }

  /** `filteredCountries`. */
  function FilteredCountries(countries: seq<Country>, term: string): (r: seq<Country>)
    ensures forall c :: c in r ==> Matches(c, term)
  {
    if countries == [] then []
    else
      var last := countries[|countries| - 1];
      FilteredCountries(countries[..|countries| - 1], term) + (if Matches(last, term) then [last] else [])
  }

  /** Every string contains the empty string. */
  lemma ContainsEmpty(s: string)
    ensures Text.Contains(s, "")
  {
    assert Text.MatchesAt(s, "", 0);
  }

  /** An empty search lists every country. */
  lemma {:induction false} EmptyTermListsAll(countries: seq<Country>)
    ensures FilteredCountries(countries, "") == countries
  {
    if countries != [] {
      var init, last := countries[..|countries| - 1], countries[|countries| - 1];
      EmptyTermListsAll(init);
      ContainsEmpty(Text.ToLower(last.name));
      assert countries == init + [last];
    }
  }

  /** Each matching country is listed as often as it occurs, and no other. */
  lemma {:induction false} FilteredCount(countries: seq<Country>, term: string, c: Country)
    ensures multiset(FilteredCountries(countries, term))[c] == if Matches(c, term) then multiset(countries)[c] else 0
  {
    if countries != [] {
      var init, last := countries[..|countries| - 1], countries[|countries| - 1];
      FilteredCount(init, term, c);
      assert countries == init + [last];
    }
  }

  /** The listed countries are in their original order. */
  lemma {:induction false} FilteredInOrder(countries: seq<Country>, term: string)
    ensures Subsequence(FilteredCountries(countries, term), countries)
  {
    if countries != [] {
      var init, last := countries[..|countries| - 1], countries[|countries| - 1];
      FilteredInOrder(init, term);
      var r0 := FilteredCountries(init, term);
      var r := FilteredCountries(countries, term);
      if Matches(last, term) {
        assert r == r0 + [last];
        assert r[..|r| - 1] == r0;
      } else {
        assert r == r0;
      }
    }
  }

  /** The search is case-insensitive: the term's letter case never changes the list. */
  lemma {:induction false} FilterIgnoresCase(countries: seq<Country>, term: string)
    ensures FilteredCountries(countries, Text.ToLower(term)) == FilteredCountries(countries, term)
  {
    Text.ToLowerIdempotent(term);
    if countries != [] {
      FilterIgnoresCase(countries[..|countries| - 1], term);
    }
  }

  /**
   * The `forEach` over the stored keys that sets one form field per key: every stored key
   * takes its stored value and every other field keeps its value.
   */
  method CopyKeys(form: map<string, string>, stored: map<string, string>) returns (r: map<string, string>)
    ensures forall k :: k in r <==> k in form || k in stored
    ensures forall k :: k in stored ==> r[k] == stored[k]
    ensures forall k :: k in form && k !in stored ==> r[k] == form[k]
  {
    r := form;
    var todo: set<string>, done: set<string> := stored.Keys, {};
    while todo != {}
      invariant forall k :: k in stored <==> k in todo || k in done
      invariant forall k :: k in todo ==> k !in done
      invariant forall k :: k in r <==> k in form || k in done
      invariant forall k :: k in done ==> r[k] == stored[k]
      invariant forall k :: k in r && k !in done ==> r[k] == form[k]
      decreases |todo|
    {
      var key :| key in todo;
      r := r[key := stored[key]];
      todo, done := todo - {key}, done + {key};
    }
  }

  /** The page's form values by field name, and the country search term. */
  class Settings {
    var values: map<string, string>
    var countrySearchTerm: string

    /** The default values before the stored settings arrive. */
    constructor()
      ensures values == map["company_name" := "My Company", "address" := "123 Main Street",
                             "city" := "Harare", "state" := "", "logo" := "", "country" := "United States"]
      ensures countrySearchTerm == ""
    {
      values := map["company_name" := "My Company", "address" := "123 Main Street",
                    "city" := "Harare", "state" := "", "logo" := "", "country" := "United States"];
      countrySearchTerm := "";
    }

    /**
     * The effect that copies the loaded settings into the form, one key at a time: every
     * stored key takes its stored value, and every other field keeps its value.
     */
    method LoadSettings(settings: Option<map<string, string>>)
      modifies this
      ensures settings.None? ==> values == old(values)
      ensures settings.Some? ==> forall k :: k in values <==> k in old(values) || k in settings.value
      ensures settings.Some? ==> forall k :: k in settings.value ==> values[k] == settings.value[k]
      ensures settings.Some? ==> forall k :: k in old(values) && k !in settings.value ==> values[k] == old(values)[k]
      ensures countrySearchTerm == old(countrySearchTerm)
    {
      if settings.Some? {
        values := CopyKeys(values, settings.value);
      }
    }

    /** The search input's change handler stores the lower-cased text. */
    method SearchCountry(text: string)
      modifies this
      ensures countrySearchTerm == Text.ToLower(text)
      ensures values == old(values)
    {
      countrySearchTerm := Text.ToLower(text);
    }

    /** The countries the picker lists for the current search term. */
    function Listed(countries: seq<Country>): seq<Country>
      reads this
    {
      FilteredCountries(countries, countrySearchTerm)
    }
  }
}
