/**
 * The invoice form: the quote it is created from, its default values, the pre-fill from that
 * quote (its line items and customer), the contact person selection and the submit flag.
 * Dates are day numbers.
 */
module CreateInvoiceForm {
  import opened Wrappers
  import Text
  import opened DocumentForms

  /** `defaultQuoteId ?? searchParams.get("quoteId") ?? undefined`. */
  function QuoteIdOf(defaultQuoteId: Option<string>, queryParam: Option<string>): (r: Option<string>)
    ensures defaultQuoteId.Some? ==> r == defaultQuoteId
    ensures defaultQuoteId.None? ==> r == queryParam
  {
    if defaultQuoteId.Some? then defaultQuoteId else queryParam
  }

  /** A line of a quote: the numbers are numbers here. */
  datatype QuoteItem = QuoteItem(
    productId: Option<string>,
    description: string,
    quantity: int,
    unitPrice: int,
    discount: Option<int>,
    tax: Option<int>)

  datatype Quote = Quote(
    id: string,
    clientId: string,
    dealId: Option<string>,
    clientName: string,
    clientEmail: Option<string>,
    personId: Option<string>,
    items: Option<seq<QuoteItem>>)

  /** `x?.toString() ?? "0"`. */
  function TextOr0(x: Option<int>): string {
    if x.Some? then Text.IntText(x.value) else "0"
  }

  /** The form item appended for a quote line. */
  function FromQuoteItem(q: QuoteItem): LineItem {
    LineItem(q.productId.GetOr(""), q.description, Text.IntText(q.quantity), Text.IntText(q.unitPrice),
             TextOr0(q.discount), TextOr0(q.tax))
  }

  /**
   * A form item keeps the line's product (or "" without one) and description, and its numbers
   * read back as the line's numbers; a missing discount or tax becomes "0".
   */
  lemma FromQuoteItemSpec(q: QuoteItem)
    ensures FromQuoteItem(q).productId == (if q.productId.Some? then q.productId.value else "")
    ensures FromQuoteItem(q).description == q.description
    ensures q.quantity >= 0 ==> Text.ParseDigits(FromQuoteItem(q).quantity) == q.quantity
    ensures q.unitPrice >= 0 ==> Text.ParseDigits(FromQuoteItem(q).unitPrice) == q.unitPrice
    ensures q.discount.None? ==> FromQuoteItem(q).discount == "0"
    ensures q.tax.None? ==> FromQuoteItem(q).tax == "0"
    ensures q.discount.Some? && q.discount.value >= 0 ==> Text.ParseDigits(FromQuoteItem(q).discount) == q.discount.value
    ensures q.tax.Some? && q.tax.value >= 0 ==> Text.ParseDigits(FromQuoteItem(q).tax) == q.tax.value
  {
    if q.quantity >= 0 {
      Text.NatTextRoundTrip(q.quantity);
    }
    if q.unitPrice >= 0 {
      Text.NatTextRoundTrip(q.unitPrice);
    }
    if q.discount.Some? && q.discount.value >= 0 {
      Text.NatTextRoundTrip(q.discount.value);
    }
    if q.tax.Some? && q.tax.value >= 0 {
      Text.NatTextRoundTrip(q.tax.value);
    }
  }

  /** The `forEach` that appends one form item per quote line to the cleared item list. */
  method AppendLines(lines: seq<QuoteItem>) returns (items: seq<LineItem>)
    ensures |items| == |lines|
    ensures forall k :: 0 <= k < |lines| ==> items[k] == FromQuoteItem(lines[k])
  {
    items := [];
    var i := 0;
    while i < |lines|
      invariant 0 <= i <= |lines|
      invariant |items| == i
      invariant forall k :: 0 <= k < i ==> items[k] == FromQuoteItem(lines[k])
    {
      items := items + [FromQuoteItem(lines[i])];
      i := i + 1;
    }
  }

  const DaysUntilDue := 30

  /** The form's values. */
  class InvoiceForm {
    var clientId: string
    var dealId: string
    var quoteId: string
    var personId: Option<string>
    var clientName: Option<string>
    var clientEmail: Option<string>
    var dueDate: int
    var items: seq<LineItem>
    var isSubmitting: bool

    function Contact(): DocumentForms.Contact
      reads this
    {
      DocumentForms.Contact(personId, clientName, clientEmail)
    }

    /** The default values, with `quoteId` as resolved by `QuoteIdOf`. */
    constructor(defaultCompanyId: Option<string>, defaultDealId: Option<string>, quoteId: Option<string>, today: int)
      ensures clientId == defaultCompanyId.GetOr("") && dealId == defaultDealId.GetOr("")
      ensures this.quoteId == quoteId.GetOr("")
      ensures dueDate == today + DaysUntilDue
      ensures items == [BlankItem]
      ensures Contact() == DocumentForms.Contact(None, None, None)
      ensures !isSubmitting
    {
      clientId := defaultCompanyId.GetOr("");
      dealId := defaultDealId.GetOr("");
      this.quoteId := quoteId.GetOr("");
      dueDate := today + DaysUntilDue;
      items := [BlankItem];
      personId, clientName, clientEmail := None, None, None;
      isSubmitting := false;
    }

    /**
     * The pre-fill once the quote is loaded. A quote with lines replaces the items by one item
     * per line, in order; one without lines leaves them. The customer is taken from the quote,
     * and the person only when the quote names one.
     */
    method ApplyQuote(quote: Quote)
      modifies this
      ensures quoteId == quote.id
      ensures quote.items.Some? && |quote.items.value| > 0 ==>
                && |items| == |quote.items.value|
                && forall k :: 0 <= k < |items| ==> items[k] == FromQuoteItem(quote.items.value[k])
      ensures quote.items.None? || quote.items.value == [] ==> items == old(items)
      ensures clientId == quote.clientId && dealId == quote.dealId.GetOr("")
      ensures clientName == Some(quote.clientName) && clientEmail == Some(quote.clientEmail.GetOr(""))
      ensures personId == if Truthy(quote.personId) then quote.personId else old(personId)
      ensures dueDate == old(dueDate) && isSubmitting == old(isSubmitting)
    {
      quoteId := quote.id;
      if quote.items.Some? && |quote.items.value| > 0 {
        items := AppendLines(quote.items.value);
      }
      clientId := quote.clientId;
      dealId := quote.dealId.GetOr("");
      clientName := Some(quote.clientName);
      clientEmail := Some(quote.clientEmail.GetOr(""));
      if Truthy(quote.personId) {
        personId := quote.personId;
      }
    }

    /** Picking a contact person among those of the selected organization. */
    method SelectContact(companies: Option<seq<Company>>, id: string)
      modifies this
      ensures Contact() == SelectPerson(old(Contact()), Persons(companies, clientId), id)
      ensures clientId == old(clientId) && dealId == old(dealId) && quoteId == old(quoteId)
      ensures items == old(items) && dueDate == old(dueDate) && isSubmitting == old(isSubmitting)
    {
      personId := Some(id);
      var person := FindPerson(Persons(companies, clientId), id);
      if person.Some? {
        clientName := Some(FullName(person.value));
        clientEmail := Some(person.value.email);
      }
    }

    /** `onSubmit`: the flag is set while the request runs and cleared however it ends. */
    method Submit(succeeds: bool) returns (created: bool)
      modifies this
      ensures created == succeeds && !isSubmitting
      ensures clientId == old(clientId) && dealId == old(dealId) && quoteId == old(quoteId)
      ensures Contact() == old(Contact()) && items == old(items) && dueDate == old(dueDate)
    {
      isSubmitting := true;
      created := succeeds;
      isSubmitting := false;
    }
  }
}
