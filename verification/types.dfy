/** The request and response records exchanged with the quote service,
    shaped like the repository's `types.ts`. Numbers are modelled as `int`. */
module Types {
  import opened Wrappers

  /** A cart line: unit cost as a currency-formatted string, optional quantity. */
  datatype Item = Item(unitCost: string, quantity: Option<int>)

  /** The body of the configure call. */
  datatype ConfigureRequest = ConfigureRequest(currency: string, items: seq<Item>, locale: string)

  /** The arguments of one call of the quote service: the key sent in the
      request header and the JSON body. */
  datatype ApiCall = ApiCall(apiKey: string, payload: ConfigureRequest)

  datatype Quote = Quote(coverageAmount: string, premium: string, referenceId: string, quantity: int)

  /** A covered peril. The interface declares `icon`, `id` and `name` only;
      the renderer nevertheless reads `description`, so the model carries it
      as an optional extra property of the received JSON object. */
  datatype Peril = Peril(icon: string, id: string, name: string, description: Option<string>)

  datatype Link = Link(url: string, kind: string)

  datatype Underwriter = Underwriter(name: string, legalName: string, id: string)

  /** The quote response, passed through from the service unchanged. */
  datatype ICWResponse = ICWResponse(
    token: string,
    tokenOptOut: string,
    currency: string,
    symbol: string,
    quote: seq<Quote>,
    quoteTotal: string,
    quoteLiteral: string,
    orderTotal: string,
    orderLiteral: string,
    legalContent: string,
    legalContentExpander: string,
    perils: seq<Peril>,
    links: seq<Link>,
    underwriter: Underwriter
  )
}
