/**
  Committing the draft to the bank (App.tsx, `handleAddToBankManually`): four
  checks in a fixed order, then an inactive offer built from the draft, with a
  name and a description derived from it.
 */
module Commit {
  import opened Types
  import Dates
  import JsString

  /**
    `initialOfferConfig`: the draft at start-up and after every successful commit,
    a mass offer with the single-item template, timed 'Anytime', with both dates,
    the cycles, the lists other than timing and the discount depth empty.
   */
  function InitialConfig(): (c: OfferConfig)
    ensures c.offerType == Mass && c.template == SingleItemDiscount && c.timing == [Anytime]
    ensures c.duration == OfferDuration("", "") && c.cycles == Some("") && c.discountDepth == ""
    ensures c.segments == [] && c.products == []
  {
    OfferConfig(
      Mass, OfferDuration("", ""), Some(""), [], [], SingleItemDiscount, "", [Anytime])
  }

  /** The four ways a commit is refused, in the order they are checked. */
  datatype CommitError = MissingDates | ToBeforeFrom | NoProducts | NoDiscountDepth

  /** The text each refusal puts into `error`: a sentence ending in a full stop. */
  function Message(e: CommitError): (m: string)
    ensures |m| > 0 && m[|m| - 1] == '.'
  {
    match e
    case MissingDates => "Please set both 'From Date' and 'To Date' for the offer."
    case ToBeforeFrom => "'To Date' cannot be earlier than 'From Date'."
    case NoProducts => "Please select at least one product for the offer."
    case NoDiscountDepth => "Please specify the discount depth or offer details."
  }

  /** Distinct refusals show distinct texts. */
  lemma MessagesDistinct(e1: CommitError, e2: CommitError)
    ensures Message(e1) == Message(e2) ==> e1 == e2
  {
  }

  /**
    Check 1: neither half of the duration is the empty string.  When it fails,
    check 2 cannot fail as well: an empty half is the invalid date.
   */
  predicate DatesSet(d: OfferDuration): (b: bool)
    ensures !b ==> !ToEarlierThanFrom(d)
  {
    Dates.EmptyIsInvalid();
    d.fromDate != "" && d.toDate != ""
  }

  /**
    Check 2 fails when `new Date(toDate) < new Date(fromDate)`: both halves parse
    and the end date is strictly earlier.  A half that does not parse is the
    invalid date, against which `<` is false, so it never fails this check.
   */
  predicate ToEarlierThanFrom(d: OfferDuration): (b: bool)
    ensures b ==> Dates.Parse(d.toDate).Some? && Dates.Parse(d.fromDate).Some?
    ensures b ==> d.toDate != d.fromDate
  {
    match (Dates.Parse(d.toDate), Dates.Parse(d.fromDate))
    case (Some(t), Some(f)) => Dates.Before(t, f)
    case _ => false
  }

  /** Check 4: `discountDepth.trim()` is not the empty string. */
  predicate HasDiscountDepth(c: OfferConfig): (b: bool)
    ensures b <==> !JsString.AllWhitespace(c.discountDepth)
  {
    JsString.Trim(c.discountDepth) != ""
  }

  /**
    Every check the draft fails, in checking order: the list of failures the
    four checks give when each is run on its own.
   */
  function Failures(c: OfferConfig): seq<CommitError>
  {
    (if !DatesSet(c.duration) then [MissingDates] else []) +
    (if ToEarlierThanFrom(c.duration) then [ToBeforeFrom] else []) +
    (if |c.products| == 0 then [NoProducts] else []) +
    (if !HasDiscountDepth(c) then [NoDiscountDepth] else [])
  }

  /**
    The checks of `handleAddToBankManually`, stopping at the first that fails.
    A commit goes through exactly when all four conditions hold; otherwise the
    error is the first failure among the checks run independently.
   */
  function Validate(c: OfferConfig): (r: Option<CommitError>)
    ensures r == None <==>
      c.duration.fromDate != "" && c.duration.toDate != "" &&
      !ToEarlierThanFrom(c.duration) &&
      |c.products| > 0 &&
      !JsString.AllWhitespace(c.discountDepth)
    ensures r == None <==> Failures(c) == []
    ensures r.Some? ==> Failures(c) != [] && r.value == Failures(c)[0]
  {
    if !DatesSet(c.duration) then Some(MissingDates)
    else if ToEarlierThanFrom(c.duration) then Some(ToBeforeFrom)
    else if |c.products| == 0 then Some(NoProducts)
    else if !HasDiscountDepth(c) then Some(NoDiscountDepth)
    else None
  }

  /** A discount depth made of whitespace only is refused once the earlier checks pass. */
  lemma BlankDiscountDepthRefused(c: OfferConfig)
    requires DatesSet(c.duration) && !ToEarlierThanFrom(c.duration) && |c.products| > 0
    requires JsString.AllWhitespace(c.discountDepth)
    ensures Validate(c) == Some(NoDiscountDepth)
  {
  }

  /** Equal dates pass check 2: only a strictly earlier end date is refused. */
  lemma SameDayAccepted(c: OfferConfig)
    requires DatesSet(c.duration) && c.duration.fromDate == c.duration.toDate
    ensures Validate(c) != Some(ToBeforeFrom) && Validate(c) != Some(MissingDates)
  {
  }

  /**
    An end date that does not parse passes check 2 whatever the start date: an
    invalid date compares false.
   */
  lemma UnparseableDatePassesOrder(c: OfferConfig)
    requires DatesSet(c.duration) && Dates.Parse(c.duration.toDate) == None
    ensures Validate(c) != Some(ToBeforeFrom) && Validate(c) != Some(MissingDates)
  {
  }

  /** The freshly reset draft cannot be committed: its dates are unset. */
  lemma InitialConfigRefused()
    ensures Validate(InitialConfig()) == Some(MissingDates)
  {
  }

  /**
    `newOfferName`: the template, " for ", the first product (or "selected
    items" when there is none), and " & more" when there are several.
   */
  function MakeName(c: OfferConfig): (n: string)
    ensures var p := TemplateText(c.template) + " for ";
      |n| >= |p| && n[..|p|] == p
    ensures |c.products| == 0 ==> n == TemplateText(c.template) + " for selected items"
    ensures |c.products| > 1 ==> |n| >= 7 && n[|n| - 7..] == " & more"
  {
    TemplateText(c.template) + " for " +
    (if |c.products| > 0 then c.products[0] else "selected items") +
    (if |c.products| > 1 then " & more" else "")
  }

  /**
    `newOfferDescription`: opens with the template, ends with the validity
    period, and lists the products in between.
   */
  function MakeDescription(c: OfferConfig): (d: string)
    ensures var p := "Manually configured " + TemplateText(c.template) + " for ";
      var q := ". Valid from " + c.duration.fromDate + " to " + c.duration.toDate + ".";
      |d| == |p| + |JsString.Join(c.products, ", ")| + |q| &&
      d[..|p|] == p && d[|p|..|d| - |q|] == JsString.Join(c.products, ", ") && d[|d| - |q|..] == q
  {
    var p := "Manually configured " + TemplateText(c.template) + " for ";
    var q := ". Valid from " + c.duration.fromDate + " to " + c.duration.toDate + ".";
    var d := p + JsString.Join(c.products, ", ") + q;
    assert d[..|p|] == p && d[|d| - |q|..] == q;
    d
  }

  /** The new offer: the draft's fields, the derived name and description, the injected id, inactive. */
  function BuildOffer(c: OfferConfig, id: string): (o: Offer)
    ensures o.id == id && !o.isActive
    ensures o.name == MakeName(c) && o.description == MakeDescription(c)
    ensures o.segments == Some(c.segments)
    ensures ConfigOf(o) == c
  {
    Offer(id, MakeName(c), MakeDescription(c), c.offerType, c.duration, c.cycles,
          Some(c.segments), c.products, c.template, c.discountDepth, c.timing, false)
  }

  /** The configuration fields of an offer, as a draft (an absent `segments` reads as empty). */
  function ConfigOf(o: Offer): OfferConfig
  {
    OfferConfig(o.offerType, o.duration, o.cycles,
                if o.segments.Some? then o.segments.value else [],
                o.products, o.template, o.discountDepth, o.timing)
  }

  /**
    The name names the template and the first product, and ends in " & more"
    when more than one product is selected; with a single product it ends with
    that product's name.
   */
  lemma NameShape(c: OfferConfig)
    requires |c.products| > 0
    ensures var prefix := TemplateText(c.template) + " for " + c.products[0];
      |MakeName(c)| >= |prefix| &&
      MakeName(c)[..|prefix|] == prefix &&
      MakeName(c)[|prefix|..] == (if |c.products| > 1 then " & more" else "")
  {
  }

  /**
    The description lists the products joined by ", " in selection order: adding a
    product appends ", " and its name to the list, between the unchanged opening
    and validity period.
   */
  lemma {:induction false} DescriptionListsProducts(c: OfferConfig, p: string)
    requires |c.products| > 0
    ensures var m := MakeDescription(c.(products := c.products + [p]));
      var head := "Manually configured " + TemplateText(c.template) + " for ";
      var tail := ". Valid from " + c.duration.fromDate + " to " + c.duration.toDate + ".";
      |m| >= |head| + |tail| &&
      m[..|head|] == head && m[|m| - |tail|..] == tail &&
      m[|head|..|m| - |tail|] == JsString.Join(c.products, ", ") + ", " + p
  {
    JsString.JoinSnoc(c.products, p, ", ");
  }
}
