/**
 * The deal's documents panel: the invoice when there is one, otherwise the quote (flagged
 * when expired, with a link to invoice it), otherwise a link to add products to a new quote.
 * Timestamps are integer milliseconds.
 */
module DealDocuments {
  import opened Wrappers

  datatype Quote = Quote(id: string, quoteNumber: string, status: string, validUntil: Option<int>, total: Option<string>)

  datatype Invoice = Invoice(id: string, invoiceNumber: string, status: string, dueDate: Option<int>, total: Option<string>)

  datatype Deal = Deal(id: string, quote: Option<Quote>, invoice: Option<Invoice>)

  datatype Variant = Default | Secondary | Destructive

  /** What the panel shows. */
  datatype Panel =
    | InvoicePanel(status: string, badge: Variant, total: string)
    | QuotePanel(status: string, expired: bool, badge: Variant, total: string, invoiceLink: string)
    | AddProducts(link: string)

  /** `isPast(validUntil)` for a quote with a validity date. */
  predicate IsExpired(q: Quote, now: int) {
    q.validUntil.Some? && q.validUntil.value < now
  }

  /** The amount shown: the total, or "0.00" when it is missing or empty. */
  function TotalText(total: Option<string>): (r: string)
    ensures r != ""
  {
    OrElse(total, "0.00")
  }

  /** `DealDocuments`: the first of invoice, quote and nothing that the deal has. */
  function PanelOf(deal: Deal, now: int): Panel {
    if deal.invoice.Some? then
      var inv := deal.invoice.value;
      InvoicePanel(inv.status, if inv.status == "paid" then Default else Secondary, TotalText(inv.total))
    else if deal.quote.Some? then
      var q := deal.quote.value;
      var expired := IsExpired(q, now);
      QuotePanel(q.status, expired, if expired then Destructive else Secondary, TotalText(q.total),
                 "/invoices/new?quoteId=" + q.id)
    else AddProducts("/quotes/new?dealId=" + deal.id)
  }

  /**
   * An invoice wins over a quote; a quote shows only without an invoice; with neither, the
   * link to a new quote carries the deal's id.
   */
  lemma PanelChoice(deal: Deal, now: int)
    ensures PanelOf(deal, now).InvoicePanel? <==> deal.invoice.Some?
    ensures PanelOf(deal, now).QuotePanel? <==> deal.invoice.None? && deal.quote.Some?
    ensures PanelOf(deal, now).AddProducts? <==> deal.invoice.None? && deal.quote.None?
    ensures PanelOf(deal, now).AddProducts? ==>
              var link := PanelOf(deal, now).link;
              link[..|"/quotes/new?dealId="|] == "/quotes/new?dealId=" && link[|"/quotes/new?dealId="|..] == deal.id
    ensures PanelOf(deal, now).QuotePanel? ==>
              var link := PanelOf(deal, now).invoiceLink;
              link[|"/invoices/new?quoteId="|..] == deal.quote.value.id
  {
  }

  /**
   * A quote is flagged expired exactly when it has a validity date before now, and then its
   * badge is destructive; an invoice's badge is default exactly when it is paid; a missing
   * total reads "0.00".
   */
  lemma PanelBadges(deal: Deal, now: int)
    ensures PanelOf(deal, now).QuotePanel? ==>
              && (PanelOf(deal, now).expired <==>
                    deal.quote.value.validUntil.Some? && deal.quote.value.validUntil.value < now)
              && (PanelOf(deal, now).badge == Destructive <==> PanelOf(deal, now).expired)
              && (deal.quote.value.total.None? ==> PanelOf(deal, now).total == "0.00")
    ensures PanelOf(deal, now).InvoicePanel? ==>
              && (PanelOf(deal, now).badge == Default <==> deal.invoice.value.status == "paid")
              && (deal.invoice.value.total.None? ==> PanelOf(deal, now).total == "0.00")
  {
  }
}
