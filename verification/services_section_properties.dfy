/** Properties of the trip-configuration form of
    components/ServicesSection.tsx, stated over the model in ServicesSection. */
module ServicesSectionProperties {
  import opened Basics
  import opened Text
  import opened GeminiService
  import opened GeminiProperties
  import opened ServicesSection

  // ---------------------------------------------------------------------------
  // Pricing

  /** `Math.round` leaves whole numbers alone, so rounding never changes a price. */
  lemma RoundingKeepsWholeNumbers(k: int)
    ensures RoundHalfUp(k as real) == k
  {
  }

  /** The worked prices: Confort for 5 days, Économique for 5 days, Luxe for 10 days. */
  lemma PriceExamples()
    ensures CalculatePrice(Confort, 5) == 44800
    ensures CalculatePrice(Economique, 5) == 33000
    ensures CalculatePrice(Luxe, 10) == 126500
  {
  }

  /** For a fixed tier the price is positive from one day on and never
      decreases as the trip gets longer. */
  lemma PriceMonotoneInDuration(b: Budget, d1: int, d2: int)
    requires 1 <= d1 <= d2
    ensures 0 < CalculatePrice(b, d1) <= CalculatePrice(b, d2)
  {
    var rate := DailyRate(b);
    assert rate * d1 <= rate * d2 by {
      assert rate * d2 == rate * d1 + rate * (d2 - d1);
    }
  }

  /** For a fixed duration of at least one day, Économique < Confort < Luxe. */
  lemma PriceOrderedByTier(d: int)
    requires d >= 1
    ensures CalculatePrice(Economique, d) < CalculatePrice(Confort, d) < CalculatePrice(Luxe, d)
  {
  }

  // ---------------------------------------------------------------------------
  // Validation and submit

  /** An invalid submit sets the validation message and nothing else, makes
      no generation call, and does not depend on the service at all. */
  lemma InvalidSubmitOnlySetsMessage(s: FormState, svc1: Service, svc2: Service)
    requires !IsFormValid(s)
    ensures Submit(s, svc1) == Submit(s, svc2)
    ensures Submit(s, svc1).calls == 0
    ensures var t := Submit(s, svc1).state;
            t.error == Some(ValidationMessage) && t.itinerary == s.itinerary
            && t.finalPrice == s.finalPrice && t == s.(error := t.error)
  {
  }

  /** A blank contact field (only whitespace) makes the form invalid. */
  lemma BlankFieldInvalidates(s: FormState)
    requires forall i :: 0 <= i < |s.phone| ==> IsWhitespace(s.phone[i])
    ensures !IsFormValid(s)
  {
  }

  /** A filled-in form for a five-day Confort stay in Agadir, no interests. */
  const AgadirStay := Initial.(name := "Amina", email := "amina@mail.ma", phone := "0612",
                               region := Some(Agadir), duration := 5)

  /** With no key configured, submitting that form shows the sample itinerary
      priced 44800 without any call and without an error. */
  lemma AgadirConfortScenario(svc: Service)
    requires !svc.hasKey
    ensures IsFormValid(AgadirStay)
    ensures var r := Submit(AgadirStay, svc);
            r.calls == 0 && r.state.itinerary == Some(SampleItinerary)
            && r.state.finalPrice == Some(44800) && r.state.error == None
  {
    assert !IsWhitespace(AgadirStay.name[0]) && !IsWhitespace(AgadirStay.email[0])
           && !IsWhitespace(AgadirStay.phone[0]);
  }

  /** With a key, a valid submit sends one request whose prompt names the
      chosen region's focus and every selected interest. */
  lemma SubmittedPromptReflectsForm(s: FormState)
    requires s.region.Some?
    ensures var prompt := BuildPrompt(ParamsOf(s));
            IsInfix(LocationFocus(s.region.value), prompt)
            && (forall k :: 0 <= k < |s.interests| ==> IsInfix(InterestName(s.interests[k]), prompt))
            && (s.interests == [] ==> IsInfix(BalancedInterests, prompt))
            && IsInfix(IntToString(s.duration), prompt)
            && IsInfix(BudgetName(s.budget), prompt)
  {
    var p := ParamsOf(s);
    PromptMentions(p);
    assert p.interests[..] == InterestNames(s.interests);
  }

  // ---------------------------------------------------------------------------
  // Interests

  /** Choosing a different region always leaves no interest selected. */
  lemma RegionChangeClearsInterests(s: FormState, r: Option<Region>)
    requires r != s.region
    ensures SelectRegion(s, r).interests == []
    ensures forall i :: i !in SelectRegion(s, r).interests
  {
  }

  /** Removing an interest that was appended to a list without it gives the list back. */
  lemma {:induction false} RemoveAppended(xs: seq<Interest>, x: Interest)
    requires x !in xs
    ensures Remove(xs + [x], x) == xs
  {
    if |xs| > 0 {
      assert (xs + [x])[1..] == xs[1..] + [x];
      RemoveAppended(xs[1..], x);
    }
  }

  /** Toggling the same interest twice restores the selected set; it restores
      the very list when the interest was not selected, and otherwise moves it
      to the end of the insertion order. */
  lemma ToggleTwice(xs: seq<Interest>, x: Interest)
    ensures forall y :: y in ToggleInterest(ToggleInterest(xs, x), x) <==> y in xs
    ensures x !in xs ==> ToggleInterest(ToggleInterest(xs, x), x) == xs
    ensures x in xs ==> ToggleInterest(ToggleInterest(xs, x), x) == Remove(xs, x) + [x]
  {
    if x !in xs {
      assert x in xs + [x];
      RemoveAppended(xs, x);
    }
  }

  // ---------------------------------------------------------------------------
  // Resets and confirmation

  /** Going back to the preferences and regenerating is the same as
      regenerating straight away: a valid submit clears whatever
      `handleReset` would have cleared. */
  lemma ModifyThenSubmit(s: FormState, svc: Service)
    ensures IsFormValid(s) ==> Submit(ModifyPreferences(s), svc) == Submit(s, svc)
  {
  }

  /** Once the confirmation banner times out, the form is back to its initial
      state except for the duration and budget last chosen. */
  lemma ConfirmationEndsInInitialState(s: FormState)
    ensures ConfirmationElapsed(ConfirmBooking(s))
            == Initial.(duration := s.duration, budget := s.budget)
  {
  }

  // ---------------------------------------------------------------------------
  // The state invariant

  /** What every reachable state satisfies: no interest twice, only interests
      offered for the region, a price only with an itinerary, and a duration
      of at least one day. */
  ghost predicate Consistent(s: FormState) {
    && Distinct(s.interests)
    && (forall i :: i in s.interests ==> i in InterestOptions(s.region))
    && (s.finalPrice.Some? ==> s.itinerary.Some?)
    && s.duration >= 1
  }

  lemma InitialConsistent()
    ensures Consistent(Initial)
  {
  }

  /** Every event the interface can raise keeps the state consistent. */
  lemma StepPreservesConsistent(s: FormState, e: Event)
    requires Consistent(s) && Offered(s, e)
    ensures Consistent(Step(s, e))
  {
    match e
    case Toggle(x) =>
      var t := Step(s, e);
      forall i | i in t.interests
        ensures i in InterestOptions(t.region)
      {
        if i != x {
          assert i in s.interests;
        }
      }
    case SubmitForm(svc) =>
      if IsFormValid(s) {
        var gen := GenerateItinerary(svc, ParamsOf(s));
        assert gen.value.Ok? || gen.value.Err?;
      }
    case _ =>
  }
}
