/** Model of the trip-configuration form of components/ServicesSection.tsx:
    its pricing rule, its validity test, and the state changes made by each
    event handler, as pure transitions over one record of the component's
    state. Rendering is not modelled. */
module ServicesSection {
  import opened Basics
  import opened Text
  import opened GeminiService

  // ---------------------------------------------------------------------------
  // Enumerations

  datatype Interest =
    | FarnientePlage | SurfSportsNautiques | GastronomieVieNocturne | GolfResorts
    | TrekkingMontagne | AventureAdrenaline | CultureBerbere | NuitsBivouac

  function InterestName(i: Interest): string {
    match i
    case FarnientePlage => "Farniente & Plage"
    case SurfSportsNautiques => "Surf & Sports Nautiques"
    case GastronomieVieNocturne => "Gastronomie & Vie Nocturne"
    case GolfResorts => "Golf & Resorts"
    case TrekkingMontagne => "Trekking en Montagne"
    case AventureAdrenaline => "Aventure & Adrénaline"
    case CultureBerbere => "Culture Berbère"
    case NuitsBivouac => "Nuits en Bivouac"
  }

  const AgadirInterests: seq<Interest> :=
    [FarnientePlage, SurfSportsNautiques, GastronomieVieNocturne, GolfResorts]
  const RegionInterests: seq<Interest> :=
    [TrekkingMontagne, AventureAdrenaline, CultureBerbere, NuitsBivouac]

  /** The interest buttons shown for the chosen region. */
  function InterestOptions(region: Option<Region>): seq<Interest> {
    if region == Some(Agadir) then AgadirInterests else RegionInterests
  }

  datatype Budget = Economique | Confort | Luxe

  function BudgetName(b: Budget): string {
    match b
    case Economique => "Économique"
    case Confort => "Confort"
    case Luxe => "Luxe"
  }

  // ---------------------------------------------------------------------------
  // calculatePrice

  /** The tier costs are given for a trip of this many days. */
  const BaseDuration := 5

  function BaselineCost(b: Budget): nat {
    match b
    case Economique => 30000
    case Luxe => 55000
    case Confort => 40000
  }

  function Margin(b: Budget): real {
    match b
    case Economique => 0.10
    case Luxe => 0.15
    case Confort => 0.12
  }

  /** `Math.round`: the nearest integer, halves rounded up. */
  function RoundHalfUp(x: real): int {
    (x + 0.5).Floor
  }

  /** Price per day of each tier, margin included: the reference table the
      pricing rule is checked against. */
  function DailyRate(b: Budget): nat {
    match b
    case Economique => 6600
    case Confort => 8960
    case Luxe => 12650
  }

  /** `calculatePrice(budget, duration)`: cost per day times duration, plus
      the tier's margin, rounded. The product is always a whole number, so the
      price is exactly the daily rate times the duration. */
  function CalculatePrice(b: Budget, duration: int): (price: int)
    ensures price == DailyRate(b) * duration
  {
    var perDay := BaselineCost(b) as real / BaseDuration as real;
    var total := perDay * duration as real * (1.0 + Margin(b));
    assert total == (DailyRate(b) * duration) as real;
    RoundHalfUp(total)
  }

  // ---------------------------------------------------------------------------
  // The component's state

  datatype FormState = FormState(
    name: string, email: string, phone: string,
    region: Option<Region>,
    interests: seq<Interest>,   // the Set<Interest>, in insertion order
    duration: int,
    budget: Budget,
    itinerary: Option<string>,
    isLoading: bool,
    error: Option<string>,
    finalPrice: Option<int>,
    isFinalizeModalOpen: bool,
    isConfirmed: bool)

  /** What the visitor has entered: contact details and trip preferences. */
  datatype Inputs = Inputs(name: string, email: string, phone: string, region: Option<Region>,
                           interests: seq<Interest>, duration: int, budget: Budget)

  function InputsOf(s: FormState): Inputs {
    Inputs(s.name, s.email, s.phone, s.region, s.interests, s.duration, s.budget)
  }

  /** The finalize dialog and the confirmation banner: (open, shown). */
  function DialogsOf(s: FormState): (bool, bool) {
    (s.isFinalizeModalOpen, s.isConfirmed)
  }

  /** No itinerary, no price and no error message is on display. */
  predicate ResultCleared(s: FormState) {
    s.itinerary == None && s.finalPrice == None && s.error == None
  }

  /** The `useState` initial values. */
  const Initial := FormState("", "", "", None, [], 3, Confort, None, false, None, None, false, false)

  const ValidationMessage := "Veuillez choisir une destination et remplir vos coordonnées."
  const GenerationMessage := "Une erreur est survenue lors de la génération de l'itinéraire. Veuillez réessayer."

  /** `isFormValid`: name, email and phone are not blank after trimming, and
      a region is chosen. */
  function IsFormValid(s: FormState): (valid: bool)
    ensures valid <==> HasVisibleChar(s.name) && HasVisibleChar(s.email)
                       && HasVisibleChar(s.phone) && s.region.Some?
  {
    Trim(s.name) != "" && Trim(s.email) != "" && Trim(s.phone) != "" && s.region != None
  }

  // ---------------------------------------------------------------------------
  // Region and interests

  /** `setRegion(r)` followed by the effect that empties the interests when
      the region changes. Setting the region it already has changes nothing
      (React skips the update and the effect does not run). */
  function SelectRegion(s: FormState, r: Option<Region>): (t: FormState)
    ensures t.region == r
    ensures t.region != s.region ==> t.interests == []
    ensures t.region == s.region ==> t.interests == s.interests
    ensures t == s.(region := r, interests := t.interests)
  {
    if r == s.region then s else s.(region := r, interests := [])
  }

  predicate Distinct<T(==)>(xs: seq<T>) {
    forall i, j :: 0 <= i < j < |xs| ==> xs[i] != xs[j]
  }

  /** `Set.delete`: `xs` without `x`, the others in their order. */
  function Remove(xs: seq<Interest>, x: Interest): (r: seq<Interest>)
    ensures forall y :: y in r <==> y in xs && y != x
    ensures Distinct(xs) ==> Distinct(r)
    ensures x !in xs ==> r == xs
    ensures Distinct(xs) && x in xs ==> exists k :: 0 <= k < |xs| && xs[k] == x && r == xs[..k] + xs[k + 1..]
  {
    if |xs| == 0 then []
    else if xs[0] == x then
      var rest := Remove(xs[1..], x);
      DropHead(xs, x, rest);
      rest
    else
      var rest := Remove(xs[1..], x);
      KeepHeadDistinct(xs, rest);
      KeepHeadOrder(xs, x, rest);
      [xs[0]] + rest
  }

  /** Keeping the head of a duplicate-free list in front of a sub-collection
      of its tail leaves no duplicates. */
  lemma KeepHeadDistinct(xs: seq<Interest>, rest: seq<Interest>)
    requires |xs| > 0
    requires forall y :: y in rest ==> y in xs[1..]
    requires Distinct(xs[1..]) ==> Distinct(rest)
    ensures Distinct(xs) ==> Distinct([xs[0]] + rest)
  {
    if Distinct(xs) {
      assert Distinct(xs[1..]);
      assert xs[0] !in xs[1..];
    }
  }

  /** In a duplicate-free list whose head is `x`, the tail without `x` is the
      list with position 0 dropped. */
  lemma DropHead(xs: seq<Interest>, x: Interest, rest: seq<Interest>)
    requires |xs| > 0 && xs[0] == x
    requires x !in xs[1..] ==> rest == xs[1..]
    ensures Distinct(xs) ==> exists k :: 0 <= k < |xs| && xs[k] == x && rest == xs[..k] + xs[k + 1..]
  {
    if Distinct(xs) {
      assert x !in xs[1..];
      assert rest == xs[..0] + xs[0 + 1..];
    }
  }

  /** Dropping `x` at position k of the tail is dropping it at k + 1 of the
      whole list, when the head is kept. */
  lemma KeepHeadOrder(xs: seq<Interest>, x: Interest, rest: seq<Interest>)
    requires |xs| > 0 && xs[0] != x
    requires Distinct(xs[1..]) && x in xs[1..] ==>
               exists k :: 0 <= k < |xs[1..]| && xs[1..][k] == x && rest == xs[1..][..k] + xs[1..][k + 1..]
    ensures Distinct(xs) && x in xs ==>
              exists k :: 0 <= k < |xs| && xs[k] == x && [xs[0]] + rest == xs[..k] + xs[k + 1..]
  {
    if Distinct(xs) && x in xs {
      assert Distinct(xs[1..]);
      assert x in xs[1..];
      var k :| 0 <= k < |xs[1..]| && xs[1..][k] == x && rest == xs[1..][..k] + xs[1..][k + 1..];
      assert [xs[0]] + rest == xs[..k + 1] + xs[k + 2..];
      assert xs[k + 1] == x;
    }
  }

  /** `handleInterestChange`'s set update: delete the interest if present,
      otherwise add it at the end (a JavaScript Set keeps insertion order). */
  function ToggleInterest(xs: seq<Interest>, x: Interest): (r: seq<Interest>)
    ensures x in r <==> x !in xs
    ensures forall y :: y != x ==> (y in r <==> y in xs)
    ensures Distinct(xs) ==> Distinct(r)
    // an added interest goes last; a removed one leaves the others in order
    ensures x !in xs ==> |r| == |xs| + 1 && r[..|xs|] == xs
    ensures Distinct(xs) && x in xs ==> exists k :: 0 <= k < |xs| && xs[k] == x && r == xs[..k] + xs[k + 1..]
  {
    if x in xs then Remove(xs, x) else xs + [x]
  }

  function HandleInterestChange(s: FormState, i: Interest): (t: FormState)
    ensures t == s.(interests := t.interests)
    ensures i in t.interests <==> i !in s.interests
    ensures forall y :: y != i ==> (y in t.interests <==> y in s.interests)
    ensures Distinct(s.interests) ==> Distinct(t.interests)
  {
    s.(interests := ToggleInterest(s.interests, i))
  }

  // ---------------------------------------------------------------------------
  // Duration and budget inputs

  /** `Math.max(1, parseInt(value, 10) || 1)`, with `parsed` the result of
      `parseInt` (`None` for NaN). NaN and 0 are falsy and become 1. */
  function ClampDuration(parsed: Option<int>): (d: int)
    ensures d >= 1
    ensures parsed.Some? && parsed.value >= 1 ==> d == parsed.value
    ensures parsed.None? || parsed.value < 1 ==> d == 1
  {
    var v := if parsed.Some? && parsed.value != 0 then parsed.value else 1;
    if v < 1 then 1 else v
  }

  // ---------------------------------------------------------------------------
  // Submit

  function InterestNames(xs: seq<Interest>): (names: seq<string>)
    ensures |names| == |xs|
    ensures forall k :: 0 <= k < |xs| ==> names[k] == InterestName(xs[k])
  {
    if |xs| == 0 then [] else [InterestName(xs[0])] + InterestNames(xs[1..])
  }

  /** The argument of `generateItinerary`: region, interests in set order,
      duration and budget label. */
  function ParamsOf(s: FormState): ItineraryParams
    requires s.region.Some?
  {
    ItineraryParams(s.region.value, InterestNames(s.interests), s.duration, BudgetName(s.budget))
  }

  /** The synchronous part of a valid submit, before the call is awaited. */
  function StartGeneration(s: FormState): (t: FormState)
    ensures t.isLoading && ResultCleared(t)
    ensures InputsOf(t) == InputsOf(s) && DialogsOf(t) == DialogsOf(s)
  {
    s.(isLoading := true, error := None, itinerary := None, finalPrice := None)
  }

  /** What the awaited call settles to: the itinerary text and the computed
      price, or the generic error message. Loading ends either way. */
  function FinishGeneration(s: FormState, outcome: Result<string>): (t: FormState)
    ensures !t.isLoading && InputsOf(t) == InputsOf(s) && DialogsOf(t) == DialogsOf(s)
    ensures outcome.Ok? ==> t.itinerary == Some(outcome.value) && t.error == s.error
                            && t.finalPrice == Some(DailyRate(s.budget) * s.duration)
    ensures outcome.Err? ==> t.error == Some(GenerationMessage)
                             && t.itinerary == s.itinerary && t.finalPrice == s.finalPrice
  {
    match outcome
    case Ok(text) =>
      s.(itinerary := Some(text), finalPrice := Some(CalculatePrice(s.budget, s.duration)), isLoading := false)
    case Err(_) =>
      s.(error := Some(GenerationMessage), isLoading := false)
  }

  /** The state after `handleSubmit` and the number of generation calls made. */
  datatype Submission = Submission(state: FormState, calls: nat)

  /** `handleSubmit`. An invalid form only sets the validation message and
      makes no call. A valid one clears the previous result, asks
      `generateItinerary`, and stores either the text and its price or the
      generic error. */
  function Submit(s: FormState, svc: Service): (r: Submission)
    ensures !IsFormValid(s) ==> r == Submission(s.(error := Some(ValidationMessage)), 0)
    ensures IsFormValid(s) ==>
      var gen := GenerateItinerary(svc, ParamsOf(s));
      && r.calls == gen.calls
      && r.state == s.(itinerary := r.state.itinerary, finalPrice := r.state.finalPrice,
                       error := r.state.error, isLoading := false)
      && (gen.value.Ok? ==>
            r.state.itinerary == Some(gen.value.value)
            && r.state.finalPrice == Some(DailyRate(s.budget) * s.duration)
            && r.state.error == None)
      && (gen.value.Err? ==>
            r.state.itinerary == None && r.state.finalPrice == None
            && r.state.error == Some(GenerationMessage))
    ensures r.state.finalPrice.Some? ==> r.state.itinerary.Some? || s.finalPrice.Some?
  {
    if !IsFormValid(s) then
      Submission(s.(error := Some(ValidationMessage)), 0)
    else
      var gen := GenerateItinerary(svc, ParamsOf(s));
      Submission(FinishGeneration(StartGeneration(s), gen.value), gen.calls)
  }

  // ---------------------------------------------------------------------------
  // Resets and booking

  /** `handleReset` ("Modifier mes préférences"): the generated result goes,
      contact details and preferences stay. */
  function ModifyPreferences(s: FormState): (t: FormState)
    ensures ResultCleared(t) && !t.isLoading
    ensures InputsOf(t) == InputsOf(s) && DialogsOf(t) == DialogsOf(s)
  {
    s.(itinerary := None, error := None, isLoading := false, finalPrice := None)
  }

  /** `handleFullReset`: `handleReset`, then region, contact fields and
      interests back to their initial values. Duration, budget and the two
      dialog flags are not reset. */
  function FullReset(s: FormState): (t: FormState)
    ensures t == Initial.(duration := s.duration, budget := s.budget,
                          isFinalizeModalOpen := s.isFinalizeModalOpen, isConfirmed := s.isConfirmed)
  {
    var cleared := ModifyPreferences(s);
    SelectRegion(cleared, None).(name := "", email := "", phone := "", interests := [])
  }

  /** `handleConfirmBooking`: the dialog closes and the banner shows. */
  function ConfirmBooking(s: FormState): (t: FormState)
    ensures DialogsOf(t) == (false, true)
    ensures InputsOf(t) == InputsOf(s)
    ensures t.itinerary == s.itinerary && t.finalPrice == s.finalPrice
    ensures t.error == s.error && t.isLoading == s.isLoading
  {
    s.(isFinalizeModalOpen := false, isConfirmed := true)
  }

  /** The timer set by `handleConfirmBooking`: after it fires the banner is
      hidden and the form fully reset. */
  function ConfirmationElapsed(s: FormState): (t: FormState)
    ensures t == Initial.(duration := s.duration, budget := s.budget,
                          isFinalizeModalOpen := s.isFinalizeModalOpen)
  {
    FullReset(s.(isConfirmed := false))
  }

  // ---------------------------------------------------------------------------
  // Events

  /** Every state change the component can make. */
  datatype Event =
    | EditName(name: string)
    | EditEmail(email: string)
    | EditPhone(phone: string)
    | ChooseRegion(region: Option<Region>)
    | Toggle(interest: Interest)
    | EditDuration(parsed: Option<int>)
    | ChooseBudget(budget: Budget)
    | SubmitForm(service: Service)
    | Modify
    | OpenFinalize
    | CloseFinalize
    | Confirm
    | BannerTimeout
    | CloseBanner

  function Step(s: FormState, e: Event): (t: FormState)
    // which events can touch which part of the state
    ensures t.interests != s.interests ==> e.ChooseRegion? || e.Toggle? || e.BannerTimeout?
    ensures t.region != s.region ==> e.ChooseRegion? || e.BannerTimeout?
    ensures t.duration != s.duration ==> e.EditDuration?
    ensures t.budget != s.budget ==> e.ChooseBudget?
    ensures t.itinerary != s.itinerary ==> e.SubmitForm? || e.Modify? || e.BannerTimeout?
    ensures t.finalPrice.Some? && t.finalPrice != s.finalPrice ==> e.SubmitForm?
    ensures DialogsOf(t) != DialogsOf(s) ==>
              e.OpenFinalize? || e.CloseFinalize? || e.Confirm? || e.BannerTimeout? || e.CloseBanner?
    ensures t.duration >= 1 || t.duration == s.duration
    ensures (t.name, t.email, t.phone) != (s.name, s.email, s.phone) ==>
              e.EditName? || e.EditEmail? || e.EditPhone? || e.BannerTimeout?
    ensures t.error != s.error || t.isLoading != s.isLoading ==> e.SubmitForm? || e.Modify? || e.BannerTimeout?
  {
    match e
    case EditName(v) => s.(name := v)
    case EditEmail(v) => s.(email := v)
    case EditPhone(v) => s.(phone := v)
    case ChooseRegion(r) => SelectRegion(s, r)
    case Toggle(i) => HandleInterestChange(s, i)
    case EditDuration(p) => s.(duration := ClampDuration(p))
    case ChooseBudget(b) => s.(budget := b)
    case SubmitForm(svc) => Submit(s, svc).state
    case Modify => ModifyPreferences(s)
    case OpenFinalize => s.(isFinalizeModalOpen := true)
    case CloseFinalize => s.(isFinalizeModalOpen := false)
    case Confirm => ConfirmBooking(s)
    case BannerTimeout => ConfirmationElapsed(s)
    case CloseBanner => s.(isConfirmed := false)
  }

  /** The interface only offers the interest buttons of the chosen region. */
  predicate Offered(s: FormState, e: Event) {
    e.Toggle? ==> e.interest in InterestOptions(s.region)
  }
}
