/** Properties of the retry policy, the fallback wrapper and the itinerary
    prompt of services/geminiService.ts, stated over the model in GeminiService. */
module GeminiProperties {
  import opened Basics
  import opened Text
  import opened GeminiService

  // ---------------------------------------------------------------------------
  // The rate-limit classifier

  /** An error counts as rate limiting exactly when its string form contains
      "429" or "RESOURCE_EXHAUSTED". */
  lemma RateLimitClassification(message: string)
    ensures IsRateLimitError(message)
            <==> IsInfix("429", message) || IsInfix("RESOURCE_EXHAUSTED", message)
  {
    ContainsIsInfix("429", message);
    ContainsIsInfix("RESOURCE_EXHAUSTED", message);
  }

  // ---------------------------------------------------------------------------
  // When the retry loop stops and what it returns

  /** The retry wrapper stops at the first outcome that is not a retryable
      rate-limit failure, provided the retry budget reaches it, and hands that
      outcome to the caller: a success is returned, any other error rethrown. */
  lemma {:induction false} RetryStopsAtFirstSettled(reply: nat -> Outcome, jitter: nat -> real,
                                                    retries: nat, delay: nat, i: nat)
    requires i <= retries
    requires forall j :: 0 <= j < i ==> RateLimited(reply(j))
    requires !RateLimited(reply(i))
    ensures GenerateContentWithRetry(true, reply, jitter, retries, delay).calls == i + 1
    ensures GenerateContentWithRetry(true, reply, jitter, retries, delay).value == Settle(reply(i))
  {
  }

  /** When every attempt the budget allows is rate limited, the wrapper makes
      exactly `retries + 1` calls and rethrows the last error. */
  lemma {:induction false} RetryGivesUpAfterBudget(reply: nat -> Outcome, jitter: nat -> real,
                                                   retries: nat, delay: nat)
    requires forall j :: 0 <= j <= retries ==> RateLimited(reply(j))
    ensures GenerateContentWithRetry(true, reply, jitter, retries, delay).calls == retries + 1
    ensures reply(retries).Failure?
    ensures GenerateContentWithRetry(true, reply, jitter, retries, delay).value == Err(reply(retries).error)
  {
  }

  /** With the default arguments: rate limited twice, then a success. Three
      calls, the success returned, waits of 1000 ms and 2000 ms plus jitter. */
  lemma TwoRateLimitsThenSuccess(reply: nat -> Outcome, jitter: nat -> real, text: string)
    requires RateLimited(reply(0)) && RateLimited(reply(1))
    requires reply(2) == Reply(text)
    ensures var r := GenerateContentWithRetry(true, reply, jitter);
            r.calls == 3 && r.value == Ok(text)
            && r.waits == [1000.0 + jitter(0), 2000.0 + jitter(1)]
  {
    RetryStopsAtFirstSettled(reply, jitter, DefaultRetries, DefaultDelay, 2);
    var r := GenerateContentWithRetry(true, reply, jitter);
    DefaultFirstWaits(r.waits[0], r.waits[1], jitter(0), jitter(1));
  }

  /** The first two waits of the default schedule. */
  lemma DefaultFirstWaits(w0: real, w1: real, j0: real, j1: real)
    requires w0 == Backoff(DefaultDelay, 0) as real + j0
    requires w1 == Backoff(DefaultDelay, 1) as real + j1
    ensures w0 == 1000.0 + j0 && w1 == 2000.0 + j1
  {
  }

  /** With the default arguments: a non-rate-limit error on the first try is
      rethrown after exactly one call and no wait. */
  lemma NonRateLimitErrorIsRethrownAtOnce(reply: nat -> Outcome, jitter: nat -> real, e: string)
    requires reply(0) == Failure(e) && !IsRateLimitError(e)
    ensures GenerateContentWithRetry(true, reply, jitter) == Run(Err(e), 1, [])
  {
    RetryStopsAtFirstSettled(reply, jitter, DefaultRetries, DefaultDelay, 0);
  }

  /** With the default arguments: rate limited on every attempt means four
      calls, three waits, and the fourth error rethrown. */
  lemma AlwaysRateLimitedMeansFourCalls(reply: nat -> Outcome, jitter: nat -> real)
    requires RateLimited(reply(0)) && RateLimited(reply(1))
    requires RateLimited(reply(2)) && RateLimited(reply(3))
    ensures var r := GenerateContentWithRetry(true, reply, jitter);
            r.calls == 4 && |r.waits| == 3 && r.value == Err(reply(3).error)
  {
    assert forall j :: 0 <= j <= DefaultRetries ==> RateLimited(reply(j));
    RetryGivesUpAfterBudget(reply, jitter, DefaultRetries, DefaultDelay);
  }

  // ---------------------------------------------------------------------------
  // The wait schedule

  lemma {:induction false} Pow2Grows(i: nat, j: nat)
    requires i < j
    ensures Pow2(j) >= 2 * Pow2(i)
    decreases j
  {
    if j > i + 1 {
      Pow2Grows(i, j - 1);
    }
  }

  /** Doubling a factor of at least one adds at least `delay` to the product. */
  lemma WaitGap(delay: nat, a: nat, b: nat)
    requires 1 <= a && 2 * a <= b
    ensures delay * b >= delay * a + delay
  {
    assert delay * b >= delay * (2 * a);
    assert delay * (2 * a) == delay * a + delay * a;
    assert delay * a >= delay;
  }

  /** The k-th wait is `delay * 2^k` plus the k-th jitter draw. */
  lemma RetryWaitSchedule(client: bool, reply: nat -> Outcome, jitter: nat -> real, retries: nat, delay: nat)
    ensures var r := GenerateContentWithRetry(client, reply, jitter, retries, delay);
            forall k :: 0 <= k < |r.waits| ==> r.waits[k] == (delay * Pow2(k)) as real + jitter(k)
  {
    var r := GenerateContentWithRetry(client, reply, jitter, retries, delay);
    forall k | 0 <= k < |r.waits|
      ensures r.waits[k] == (delay * Pow2(k)) as real + jitter(k)
    {
      BackoffIsPowerOfTwo(delay, k);
    }
  }

  /** Successive waits strictly increase: the doubling outgrows any jitter
      difference once the initial delay is at least the jitter bound. */
  lemma RetryWaitsIncrease(client: bool, reply: nat -> Outcome, jitter: nat -> real, retries: nat, delay: nat)
    requires JitterInRange(jitter)
    requires delay as real >= JitterBound
    ensures var r := GenerateContentWithRetry(client, reply, jitter, retries, delay);
            forall i, j :: 0 <= i < j < |r.waits| ==> r.waits[i] < r.waits[j]
  {
    var r := GenerateContentWithRetry(client, reply, jitter, retries, delay);
    RetryWaitSchedule(client, reply, jitter, retries, delay);
    forall i, j | 0 <= i < j < |r.waits|
      ensures r.waits[i] < r.waits[j]
    {
      Pow2Grows(i, j);
      WaitGap(delay, Pow2(i), Pow2(j));
      assert 0.0 <= jitter(i) < JitterBound && 0.0 <= jitter(j);
    }
  }

  /** Total of a sequence of waits. */
  function Sum(ws: seq<real>): real {
    if |ws| == 0 then 0.0 else Sum(ws[..|ws| - 1]) + ws[|ws| - 1]
  }

  /** Total of the first n backoff delays, without jitter. */
  function BackoffTotal(delay: nat, n: nat): nat {
    if n == 0 then 0 else BackoffTotal(delay, n - 1) + Backoff(delay, n - 1)
  }

  /** The first n backoff delays add up to `delay * (2^n - 1)`. */
  lemma {:induction false} BackoffTotalClosedForm(delay: nat, n: nat)
    ensures BackoffTotal(delay, n) == delay * (Pow2(n) - 1)
  {
    if n > 0 {
      BackoffTotalClosedForm(delay, n - 1);
      BackoffIsPowerOfTwo(delay, n - 1);
      DoublingStep(delay, Pow2(n - 1));
    }
  }

  lemma DoublingStep(delay: nat, p: nat)
    requires p >= 1
    ensures delay * (p - 1) + delay * p == delay * (2 * p - 1)
  {
  }

  /** n waits following the schedule add up to at least the backoff total and
      to less than that plus `500 * n`. */
  lemma {:induction false} ScheduleSum(delay: nat, jitter: nat -> real, ws: seq<real>)
    requires JitterInRange(jitter)
    requires forall k :: 0 <= k < |ws| ==> ws[k] == Backoff(delay, k) as real + jitter(k)
    ensures BackoffTotal(delay, |ws|) as real <= Sum(ws)
    ensures |ws| == 0 || Sum(ws) < BackoffTotal(delay, |ws|) as real + JitterBound * |ws| as real
  {
    if |ws| > 0 {
      var n := |ws|;
      ScheduleSum(delay, jitter, ws[..n - 1]);
      assert 0.0 <= jitter(n - 1) < JitterBound;
    }
  }

  /** With the default arguments the waits before giving up total less than
      the 7000 ms of backoff plus 1500 ms of jitter. */
  lemma DefaultTotalWaitBound(client: bool, reply: nat -> Outcome, jitter: nat -> real)
    requires JitterInRange(jitter)
    ensures var r := GenerateContentWithRetry(client, reply, jitter);
            0.0 <= Sum(r.waits) < 7000.0 + 1500.0
  {
    var r := GenerateContentWithRetry(client, reply, jitter);
    ScheduleSum(DefaultDelay, jitter, r.waits);
    DefaultBackoffTotal(|r.waits|);
  }

  lemma DefaultBackoffTotal(n: nat)
    requires n <= DefaultRetries
    ensures BackoffTotal(DefaultDelay, n) <= 7000
  {
    BackoffTotalClosedForm(DefaultDelay, n);
    assert Pow2(n) <= 8 by {
      if n == 3 { assert Pow2(3) == 8; }
      else if n == 2 { assert Pow2(2) == 4; }
      else if n == 1 { assert Pow2(1) == 2; }
    }
  }

  // ---------------------------------------------------------------------------
  // The two wrappers around the retry loop

  /** `generateWithFallback` with a key passes a success through and turns
      every failure of the retry wrapper into the fallback, after the same calls. */
  lemma FallbackAbsorbsFailure(svc: Service, prompt: string, fallback: string)
    requires svc.hasKey
    ensures var run := GenerateContentWithRetry(true, svc.reply(FallbackRequest(prompt)), svc.jitter);
            var r := GenerateWithFallback(svc, prompt, fallback);
            r.calls == run.calls && r.waits == run.waits
            && (run.value.Err? ==> r.value == fallback)
            && (run.value.Ok? ==> r.value == run.value.value)
  {
  }

  /** `generateItinerary` with a key has no fallback: a failure of the retry
      wrapper becomes the fixed itinerary error, whatever error was thrown. */
  lemma ItineraryFailureIsRethrown(svc: Service, p: ItineraryParams)
    requires svc.hasKey
    ensures var run := GenerateContentWithRetry(true, svc.reply(ItineraryRequest(p)), svc.jitter);
            var r := GenerateItinerary(svc, p);
            r.calls == run.calls && r.waits == run.waits
            && (run.value.Err? ==> r.value == Err(ItineraryFailure))
            && (run.value.Ok? ==> r.value == Ok(run.value.value))
  {
  }

  /** The tagline is `generateWithFallback` on the tagline prompt: with a key
      it makes the retry wrapper's calls and waits, and falls back on any failure. */
  lemma TaglineUsesRetryWrapper(svc: Service)
    requires svc.hasKey
    ensures var run := GenerateContentWithRetry(true, svc.reply(FallbackRequest(TaglinePrompt)), svc.jitter);
            var r := GenerateAgencyContent(svc);
            r.calls == run.calls && r.waits == run.waits
            && (run.value.Err? ==> r.value == FallbackTagline)
            && (run.value.Ok? ==> r.value == run.value.value)
  {
  }

  // ---------------------------------------------------------------------------
  // The itinerary prompt

  /** A part of a nine-piece concatenation is an infix of it. */
  lemma PiecesInfix(a: string, b: string, c: string, d: string, e: string,
                    f: string, g: string, h: string, i: string)
    ensures var all := a + b + c + d + e + f + g + h + i;
            IsInfix(b, all) && IsInfix(d, all) && IsInfix(f, all) && IsInfix(h, all)
  {
    var all := a + b + c + d + e + f + g + h + i;
    assert all == a + b + (c + d + e + f + g + h + i);
    InfixOfConcat(a, b, c + d + e + f + g + h + i);
    assert all == (a + b + c) + d + (e + f + g + h + i);
    InfixOfConcat(a + b + c, d, e + f + g + h + i);
    assert all == (a + b + c + d + e) + f + (g + h + i);
    InfixOfConcat(a + b + c + d + e, f, g + h + i);
    assert all == (a + b + c + d + e + f + g) + h + i;
    InfixOfConcat(a + b + c + d + e + f + g, h, i);
  }

  /** The region selects one of the two location-focus texts, the interests
      appear joined by ", " (each one verbatim) or the balanced-itinerary
      sentence stands in for them, and the duration and budget are embedded. */
  lemma PromptMentions(p: ItineraryParams)
    ensures p.region == Agadir ==> IsInfix(AgadirFocus, BuildPrompt(p))
    ensures p.region == Hinterland ==> IsInfix(HinterlandFocus, BuildPrompt(p))
    ensures |p.interests| == 0 ==> IsInfix(BalancedInterests, BuildPrompt(p))
    ensures |p.interests| > 0 ==> IsInfix(Join(p.interests, ", "), BuildPrompt(p))
    ensures forall i :: 0 <= i < |p.interests| ==> IsInfix(p.interests[i], BuildPrompt(p))
    ensures IsInfix(IntToString(p.duration), BuildPrompt(p))
    ensures IsInfix(p.budget, BuildPrompt(p))
  {
    var prompt := BuildPrompt(p);
    var ip := InterestPrompt(p.interests);
    PiecesInfix(PromptHead, IntToString(p.duration), PromptAfterDuration, p.budget, PromptAfterBudget,
                LocationFocus(p.region), PromptAfterFocus, ip, PromptTail);
    if |p.interests| > 0 {
      var joined := Join(p.interests, ", ");
      InfixOfConcat(InterestsLead, joined, InterestsClose);
      InfixTransitive(joined, ip, prompt);
      JoinMentionsEveryPart(p.interests, ", ");
      forall i | 0 <= i < |p.interests|
        ensures IsInfix(p.interests[i], prompt)
      {
        InfixTransitive(p.interests[i], joined, prompt);
      }
    }
  }

  /** The two location-focus texts differ, so the prompt records the region. */
  lemma LocationFocusDistinguishesRegions(a: Region, b: Region)
    ensures LocationFocus(a) == LocationFocus(b) <==> a == b
  {
    assert |AgadirFocus| != |HinterlandFocus|;
  }
}
