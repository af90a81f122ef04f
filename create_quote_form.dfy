/**
 * The quote form: its default values, the pre-fill from the deal the quote is created for
 * (organization, address, contact person and deal), the contact person selection and the
 * submit flag.
 */
module CreateQuoteForm {
  import opened Wrappers
  import opened DocumentForms

  /** The deal fields the pre-fill reads; `primaryContact` is that of the deal's lead. */
  datatype Deal = Deal(id: string, companyId: Option<string>, primaryContact: Option<Person>)

  /** `company?.addressLine1 ?? ""` for the listed company with the given id. */
  function AddressOf(companies: Option<seq<Company>>, companyId: string): (r: string)
    ensures companies.None? ==> r == ""
  {
    if companies.None? then ""
    else
      match FindCompany(companies.value, companyId)
      case None => ""
      case Some(c) => c.addressLine1.GetOr("")
  }

  /**
   * The address is the first line of the first listed company with the id, "" when that
   * company has none, and "" when no listed company has the id.
   */
  lemma AddressOfSpec(companies: seq<Company>, companyId: string, i: nat)
    ensures (forall k :: 0 <= k < |companies| ==> companies[k].id != companyId) ==>
              AddressOf(Some(companies), companyId) == ""
    ensures (&& i < |companies| && companies[i].id == companyId
             && forall k :: 0 <= k < i ==> companies[k].id != companyId) ==>
              AddressOf(Some(companies), companyId) == companies[i].addressLine1.GetOr("")
  {
    if i < |companies| && companies[i].id == companyId && forall k :: 0 <= k < i ==> companies[k].id != companyId {
      var r := FindCompany(companies, companyId);
      var j :| 0 <= j < |companies| && companies[j] == r.value && companies[j].id == companyId
               && forall k :: 0 <= k < j ==> companies[k].id != companyId;
      assert j == i;
    }
  }

  /** The form's values. */
  class QuoteForm {
    var clientId: string
    var dealId: string
    var clientAddress: Option<string>
    var personId: Option<string>
    var clientName: Option<string>
    var clientEmail: Option<string>
    var items: seq<LineItem>
    var isSubmitting: bool

    function Contact(): DocumentForms.Contact
      reads this
    {
      DocumentForms.Contact(personId, clientName, clientEmail)
    }

    /** The default values: the given organization and deal, or "", and one blank item. */
    constructor(defaultCompanyId: Option<string>, defaultDealId: Option<string>)
      ensures clientId == defaultCompanyId.GetOr("") && dealId == defaultDealId.GetOr("")
      ensures items == [BlankItem]
      ensures clientAddress == None && Contact() == DocumentForms.Contact(None, None, None)
      ensures !isSubmitting
    {
      clientId := defaultCompanyId.GetOr("");
      dealId := defaultDealId.GetOr("");
      items := [BlankItem];
      clientAddress, personId, clientName, clientEmail := None, None, None, None;
      isSubmitting := false;
    }

    /**
     * The pre-fill once the deal is loaded: its organization and that organization's address
     * when the deal has one, its lead's primary contact when there is one, and always its id.
     */
    method ApplyDeal(deal: Deal, companies: Option<seq<Company>>)
      modifies this
      ensures Truthy(deal.companyId) ==>
                clientId == deal.companyId.value && clientAddress == Some(AddressOf(companies, deal.companyId.value))
      ensures !Truthy(deal.companyId) ==> clientId == old(clientId) && clientAddress == old(clientAddress)
      ensures deal.primaryContact.Some? ==>
                var p := deal.primaryContact.value;
                Contact() == DocumentForms.Contact(Some(p.id), Some(FullName(p)), Some(p.email))
      ensures deal.primaryContact.None? ==> Contact() == old(Contact())
      ensures dealId == deal.id
      ensures items == old(items) && isSubmitting == old(isSubmitting)
    {
      if Truthy(deal.companyId) {
        var address := AddressOf(companies, deal.companyId.value);
        clientId := deal.companyId.value;
        clientAddress := Some(address);
      }
      if deal.primaryContact.Some? {
        var person := deal.primaryContact.value;
        personId := Some(person.id);
        clientEmail := Some(person.email);
        clientName := Some(FullName(person));
      }
      dealId := deal.id;
    }

    /** Picking a contact person among those of the selected organization. */
    method SelectContact(companies: Option<seq<Company>>, id: string)
      modifies this
      ensures Contact() == SelectPerson(old(Contact()), Persons(companies, clientId), id)
      ensures clientId == old(clientId) && dealId == old(dealId) && clientAddress == old(clientAddress)
      ensures items == old(items) && isSubmitting == old(isSubmitting)
    {
      personId := Some(id);
      var person := FindPerson(Persons(companies, clientId), id);
      if person.Some? {
        clientName := Some(FullName(person.value));
        clientEmail := Some(person.value.email);
      }
    }

    /** `onSubmit`: the flag is set while the request runs and cleared however it ends. */
    method Submit(succeeds: bool) returns (created: bool)
      modifies this
      ensures created == succeeds && !isSubmitting
      ensures clientId == old(clientId) && dealId == old(dealId) && clientAddress == old(clientAddress)
      ensures Contact() == old(Contact()) && items == old(items)
    {
      isSubmitting := true;
      created := succeeds;
      isSubmitting := false;
    }
  }
}
