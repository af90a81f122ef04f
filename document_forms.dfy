/**
 * What the quote and the invoice forms share: the line items of the form, the organization
 * picker's options, the contact persons of the selected organization and the selection of
 * one of them.
 */
module DocumentForms {
  import opened Wrappers

  /** A line item as the form holds it: every number is kept as text. */
  datatype LineItem = LineItem(
    productId: string,
    description: string,
    quantity: string,
    unitPrice: string,
    discount: string,
    tax: string)

  /** The single item a new form starts with. */
  const BlankItem := LineItem("", "", "1", "0", "0", "0")

  datatype Person = Person(id: string, firstName: string, lastName: string, email: string)

  datatype Company = Company(
    id: string,
    name: string,
    city: Option<string>,
    province: Option<string>,
    addressLine1: Option<string>,
    persons: Option<seq<Person>>)

  /** `${firstName} ${lastName}`. */
  function FullName(p: Person): (r: string)
    ensures |r| == |p.firstName| + 1 + |p.lastName|
    ensures r[..|p.firstName|] == p.firstName && r[|p.firstName|] == ' '
    ensures r[|p.firstName| + 1..] == p.lastName
  {
    p.firstName + " " + p.lastName
  }

  /** An option of the organization picker. */
  datatype CompanyOption = CompanyOption(value: string, text: string, subtitle: Option<string>)

  /** The subtitle: "city, province", just the city, or none without a city. */
  function Subtitle(c: Company): (r: Option<string>)
    ensures r.None? <==> !Truthy(c.city)
    ensures r.Some? && Truthy(c.province) ==> r.value == c.city.value + ", " + c.province.value
    ensures r.Some? && !Truthy(c.province) ==> r.value == c.city.value
  {
    if Truthy(c.city) then Some(c.city.value + (if Truthy(c.province) then ", " + c.province.value else ""))
    else None
  }

  /** `companyOptions`: one option per loaded company, in order. */
  function CompanyOptions(companies: Option<seq<Company>>): (r: seq<CompanyOption>)
    ensures companies.None? ==> r == []
    ensures companies.Some? ==> |r| == |companies.value|
    ensures companies.Some? ==> forall i :: 0 <= i < |r| ==>
              r[i] == CompanyOption(companies.value[i].id, companies.value[i].name, Subtitle(companies.value[i]))
  {
    if companies.None? then [] else OptionsOf(companies.value)
  }

  function OptionsOf(cs: seq<Company>): (r: seq<CompanyOption>)
    ensures |r| == |cs|
    ensures forall i :: 0 <= i < |r| ==> r[i] == CompanyOption(cs[i].id, cs[i].name, Subtitle(cs[i]))
  {
    if cs == [] then [] else [CompanyOption(cs[0].id, cs[0].name, Subtitle(cs[0]))] + OptionsOf(cs[1..])
  }

  /** `find` by id: the first element whose id is `key`, if any. */
  function FindById<T>(xs: seq<T>, id: T -> string, key: string): (r: Option<T>)
    ensures r.None? <==> forall i :: 0 <= i < |xs| ==> id(xs[i]) != key
    ensures r.Some? ==> exists i :: 0 <= i < |xs| && xs[i] == r.value && id(xs[i]) == key
                                   && forall k :: 0 <= k < i ==> id(xs[k]) != key
  {
    if xs == [] then None
    else if id(xs[0]) == key then Some(xs[0])
    else
      var r := FindById(xs[1..], id, key);
      assert forall i :: 1 <= i < |xs| ==> xs[i] == xs[1..][i - 1];
      r
  }

  function CompanyId(c: Company): string {
    c.id
  }

  function PersonId(p: Person): string {
    p.id
  }

  /** `companies.find((c) => c.id === id)`. */
  function FindCompany(cs: seq<Company>, id: string): Option<Company> {
    FindById(cs, CompanyId, id)
  }

  /** `persons.find((p) => p.id === id)`. */
  function FindPerson(ps: seq<Person>, id: string): Option<Person> {
    FindById(ps, PersonId, id)
  }

  /**
   * `persons`: no persons before the companies are loaded or while no organization is
   * selected; otherwise those of the selected organization, or none when it is not listed.
   */
  function Persons(companies: Option<seq<Company>>, clientId: string): seq<Person> {
    if companies.None? || clientId == "" then []
    else
      match FindCompany(companies.value, clientId)
      case None => []
      case Some(c) => c.persons.GetOr([])
  }

  /**
   * The persons offered are those of the first listed company with the selected id, and
   * there are none without loaded companies, without a selection or without such a company.
   */
  lemma PersonsSpec(companies: Option<seq<Company>>, clientId: string, i: nat)
    ensures companies.None? || clientId == "" ==> Persons(companies, clientId) == []
    ensures (companies.Some? && forall k :: 0 <= k < |companies.value| ==> companies.value[k].id != clientId) ==>
              Persons(companies, clientId) == []
    ensures (&& companies.Some? && clientId != "" && i < |companies.value| && companies.value[i].id == clientId
             && forall k :: 0 <= k < i ==> companies.value[k].id != clientId) ==>
              Persons(companies, clientId) == companies.value[i].persons.GetOr([])
  {
    if companies.Some? && clientId != "" && i < |companies.value| && companies.value[i].id == clientId
       && (forall k :: 0 <= k < i ==> companies.value[k].id != clientId) {
      var r := FindCompany(companies.value, clientId);
      var j :| 0 <= j < |companies.value| && companies.value[j] == r.value && companies.value[j].id == clientId
               && forall k :: 0 <= k < j ==> companies.value[k].id != clientId;
      assert j == i;
    }
  }

  /** The contact fields a person selection may fill. */
  datatype Contact = Contact(personId: Option<string>, clientName: Option<string>, clientEmail: Option<string>)

  /**
   * The person select's change handler: the person id is always taken; the name and e-mail
   * are filled in only when the id belongs to one of the persons offered.
   */
  function SelectPerson(c: Contact, persons: seq<Person>, id: string): Contact {
    match FindPerson(persons, id)
    case None => c.(personId := Some(id))
    case Some(p) => Contact(Some(id), Some(FullName(p)), Some(p.email))
  }

  /**
   * Choosing an offered person fills in "first last" and their e-mail; choosing an id that is
   * not offered changes only the person id.
   */
  lemma SelectPersonSpec(c: Contact, persons: seq<Person>, id: string, i: nat)
    requires i < |persons| && persons[i].id == id
    requires forall k :: 0 <= k < i ==> persons[k].id != id
    ensures SelectPerson(c, persons, id) ==
              Contact(Some(id), Some(persons[i].firstName + " " + persons[i].lastName), Some(persons[i].email))
    ensures forall other :: (forall k :: 0 <= k < |persons| ==> persons[k].id != other) ==>
              SelectPerson(c, persons, other) == c.(personId := Some(other))
  {
    var r := FindPerson(persons, id);
    var j :| 0 <= j < |persons| && persons[j] == r.value && persons[j].id == id
             && forall k :: 0 <= k < j ==> persons[k].id != id;
    assert j == i;
  }
}
