/** The records and closed enumerations of the offer configurator (types.ts). */
module Types {

  datatype Option<+T> = None | Some(value: T)

  /** `OfferType`: Mass = 'Mass', Personalized = 'Personalized'. */
  datatype OfferType = Mass | Personalized

  /** `OfferTemplate`; its string values are embedded in an offer's name and description. */
  datatype OfferTemplate =
    | Bogo
    | SingleItemDiscount
    | MultiItemDiscount
    | PercentageOffTotal
    | FixedAmountOffTotal
    | Custom

  /** The enum's string value, which names and descriptions embed; never empty. */
  function TemplateText(t: OfferTemplate): (s: string)
    ensures |s| > 0
  {
    match t
    case Bogo => "Buy One Get One Free"
    case SingleItemDiscount => "Single Item Discount"
    case MultiItemDiscount => "Multi-Item Discount"
    case PercentageOffTotal => "% Off Total Order"
    case FixedAmountOffTotal => "$ Off Total Order"
    case Custom => "Custom Template"
  }

  /** Distinct templates have distinct string values, so a name tells its template. */
  lemma TemplateTextInjective(t1: OfferTemplate, t2: OfferTemplate)
    ensures TemplateText(t1) == TemplateText(t2) ==> t1 == t2
  {
  }

  /** `OfferTimingKey`; each variant's string value is its own name, Anytime = 'Anytime'. */
  datatype OfferTimingKey =
    | Weekday | Weekend
    | Monday | Tuesday | Wednesday | Thursday | Friday | Saturday | Sunday
    | Anytime

  /** `OfferDuration`: both halves are `YYYY-MM-DD` strings, '' while unset. */
  datatype OfferDuration = OfferDuration(fromDate: string, toDate: string)

  /** `OfferConfig`, the draft being edited; `cycles` is optional. */
  datatype OfferConfig = OfferConfig(
    offerType: OfferType,
    duration: OfferDuration,
    cycles: Option<string>,
    segments: seq<string>,
    products: seq<string>,
    template: OfferTemplate,
    discountDepth: string,
    timing: seq<OfferTimingKey>)

  /** `Offer`, a banked record; `cycles` and `segments` are optional. */
  datatype Offer = Offer(
    id: string,
    name: string,
    description: string,
    offerType: OfferType,
    duration: OfferDuration,
    cycles: Option<string>,
    segments: Option<seq<string>>,
    products: seq<string>,
    template: OfferTemplate,
    discountDepth: string,
    timing: seq<OfferTimingKey>,
    isActive: bool)

  /** The two tabs of the view: 'bank' (pending offers) and 'active'. */
  datatype Tab = BankTab | ActiveTab
}
