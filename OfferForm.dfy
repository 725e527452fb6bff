/**
  The draft-editing handlers of the offer form (components/OfferForm.tsx).  Each
  builds a new `OfferConfig` from the current one by a record spread, a `filter`
  or an array concatenation; the form hands the result to the application's
  `setConfig`.
 */
module OfferForm {
  import opened Types

  /** A change event from one of the scalar inputs, tagged by the input's `name`. */
  datatype ScalarInput =
    | TypeInput(offerType: OfferType)
    | CyclesInput(cycles: string)
    | TemplateInput(template: OfferTemplate)
    | DiscountDepthInput(discountDepth: string)

  /** `handleInputChange`: `{ ...config, [name]: value }` for the named scalar field. */
  function InputChange(c: OfferConfig, input: ScalarInput): (r: OfferConfig)
    ensures r.duration == c.duration && r.segments == c.segments
    ensures r.products == c.products && r.timing == c.timing
    ensures r.offerType == (if input.TypeInput? then input.offerType else c.offerType)
    ensures r.cycles == (if input.CyclesInput? then Some(input.cycles) else c.cycles)
    ensures r.template == (if input.TemplateInput? then input.template else c.template)
    ensures r.discountDepth == (if input.DiscountDepthInput? then input.discountDepth else c.discountDepth)
  {
    match input
    case TypeInput(t) => c.(offerType := t)
    case CyclesInput(s) => c.(cycles := Some(s))
    case TemplateInput(t) => c.(template := t)
    case DiscountDepthInput(s) => c.(discountDepth := s)
  }

  /** The `name` of a date input: which half of the duration it edits. */
  datatype DatePart = FromDate | ToDate

  /** `handleDateChange`: replaces one half of the duration; there is no check against the other half. */
  function DateChange(c: OfferConfig, part: DatePart, value: string): (r: OfferConfig)
    ensures r.duration.fromDate == (if part == FromDate then value else c.duration.fromDate)
    ensures r.duration.toDate == (if part == ToDate then value else c.duration.toDate)
    ensures r.(duration := c.duration) == c
  {
    match part
    case FromDate => c.(duration := c.duration.(fromDate := value))
    case ToDate => c.(duration := c.duration.(toDate := value))
  }

  /** `xs.filter(item => item !== v)`: every occurrence of `v` removed, the rest kept in order. */
  function Remove<T(==)>(xs: seq<T>, v: T): (r: seq<T>)
    ensures multiset(r) == multiset(xs)[v := 0]
    ensures v !in r
  {
    if xs == [] then []
    else
      assert xs == [xs[0]] + xs[1..];
      (if xs[0] == v then [] else [xs[0]]) + Remove(xs[1..], v)
  }

  /** Removal distributes over concatenation, so the remaining elements keep their relative order. */
  lemma {:induction false} RemoveAppend<T>(a: seq<T>, b: seq<T>, v: T)
    ensures Remove(a + b, v) == Remove(a, v) + Remove(b, v)
  {
    if a == [] {
      assert a + b == b;
    } else {
      assert (a + b)[0] == a[0] && (a + b)[1..] == a[1..] + b;
      RemoveAppend(a[1..], b, v);
    }
  }

  /** Removing a value that does not occur changes nothing. */
  lemma {:induction false} RemoveAbsent<T>(xs: seq<T>, v: T)
    requires v !in xs
    ensures Remove(xs, v) == xs
  {
    if xs != [] {
      RemoveAbsent(xs[1..], v);
    }
  }

  /**
    The symmetric-difference update of one list (lines 30-32): a value that is
    present is removed everywhere, an absent one is appended at the end.
   */
  function Toggle<T(==)>(xs: seq<T>, v: T): (r: seq<T>)
    ensures v in r <==> v !in xs
    ensures v in xs ==> r == Remove(xs, v)
    ensures v in xs ==> multiset(r) == multiset(xs)[v := 0]
    ensures v !in xs ==> multiset(r) == multiset(xs) + multiset{v}
    ensures v !in xs ==> |r| == |xs| + 1 && r[..|xs|] == xs && r[|xs|] == v
  {
    if v in xs then Remove(xs, v) else xs + [v]
  }

  /** Line 29: a list field that is undefined is read as the empty list before toggling. */
  function ToggleOrEmpty<T(==)>(current: Option<seq<T>>, v: T): (r: seq<T>)
    ensures current == None ==> r == [v]
    ensures current.Some? ==> r == Toggle(current.value, v)
  {
    var values := if current.Some? then current.value else [];
    Toggle(values, v)
  }

  /** Toggling an absent value twice gives the original list back. */
  lemma ToggleAbsentTwice<T>(xs: seq<T>, v: T)
    requires v !in xs
    ensures Toggle(Toggle(xs, v), v) == xs
  {
    RemoveAppend(xs, [v], v);
    RemoveAbsent(xs, v);
    assert Remove([v], v) == [];
  }

  /** Toggling a present value twice drops all its occurrences and puts it once at the end. */
  lemma TogglePresentTwice<T>(xs: seq<T>, v: T)
    requires v in xs
    ensures Toggle(Toggle(xs, v), v) == Remove(xs, v) + [v]
  {
  }

  predicate Distinct<T(==)>(xs: seq<T>)
  {
    forall i, j :: 0 <= i < j < |xs| ==> xs[i] != xs[j]
  }

  lemma {:induction false} DistinctMultiplicity<T>(xs: seq<T>)
    requires forall x :: multiset(xs)[x] <= 1
    ensures Distinct(xs)
  {
    forall i, j | 0 <= i < j < |xs| ensures xs[i] != xs[j] {
      if xs[i] == xs[j] {
        RepeatedTwice(xs, i, j);
        assert false;
      }
    }
  }

  lemma RepeatedTwice<T>(xs: seq<T>, i: int, j: int)
    requires 0 <= i < j < |xs| && xs[i] == xs[j]
    ensures multiset(xs)[xs[i]] >= 2
  {
    assert xs == xs[..i] + [xs[i]] + xs[i + 1..j] + [xs[j]] + xs[j + 1..];
  }

  lemma {:induction false} MultiplicityDistinct<T>(xs: seq<T>, x: T)
    requires Distinct(xs)
    ensures multiset(xs)[x] <= 1
  {
    if xs != [] {
      assert xs == [xs[0]] + xs[1..];
      MultiplicityDistinct(xs[1..], x);
      if x == xs[0] {
        assert x !in xs[1..];
      }
    }
  }

  /** A list without repeats (what the checkboxes build) stays without repeats. */
  lemma ToggleKeepsDistinct<T>(xs: seq<T>, v: T)
    requires Distinct(xs)
    ensures Distinct(Toggle(xs, v))
  {
    var r := Toggle(xs, v);
    forall x ensures multiset(r)[x] <= 1 {
      MultiplicityDistinct(xs, x);
    }
    DistinctMultiplicity(r);
  }

  /** A checkbox change event: which list it edits, and the value. */
  datatype ListChoice =
    | SegmentChoice(segment: string)
    | ProductChoice(product: string)
    | TimingChoice(timing: OfferTimingKey)

  /** `handleMultiSelectChange`: toggles the value in its list and leaves every other field alone. */
  function MultiSelectChange(c: OfferConfig, choice: ListChoice): (r: OfferConfig)
    ensures r.segments == (if choice.SegmentChoice? then Toggle(c.segments, choice.segment) else c.segments)
    ensures r.products == (if choice.ProductChoice? then Toggle(c.products, choice.product) else c.products)
    ensures r.timing == (if choice.TimingChoice? then Toggle(c.timing, choice.timing) else c.timing)
    ensures r.(segments := c.segments, products := c.products, timing := c.timing) == c
  {
    match choice
    case SegmentChoice(s) => c.(segments := ToggleOrEmpty(Some(c.segments), s))
    case ProductChoice(p) => c.(products := ToggleOrEmpty(Some(c.products), p))
    case TimingChoice(t) => c.(timing := ToggleOrEmpty(Some(c.timing), t))
  }
}
