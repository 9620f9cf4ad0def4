/** Model of services/geminiService.ts: the retrying wrapper around the
    text-generation call, the fallback wrapper, and the two call sites that
    produce the header tagline and a trip itinerary.

    The SDK call, `process.env.API_KEY` and `Math.random` are not modelled as
    effects: a `Service` value says whether the key is configured, what the
    service answers to the k-th attempt of a request, and what the k-th random
    jitter draw is. Waiting is recorded, not performed. */
module GeminiService {
  import opened Basics
  import opened Text

  /** The answer to one `generateContent` attempt: the response text, or the
      string form (`error.toString()`) of what it threw. */
  datatype Outcome = Reply(text: string) | Failure(error: string)

  /** The arguments passed to `generateContent`: model, contents and temperature. */
  datatype Request = Request(model: string, contents: string, temperature: real)

  /** The environment of the service module. `hasKey` is whether `API_KEY` is set;
      the client `ai` exists exactly when it is. `reply(rq)(k)` is the outcome of
      the k-th attempt (from 0) at request `rq`; `jitter(k)` is the k-th value of
      `Math.random() * 500`. */
  datatype Service = Service(hasKey: bool, reply: Request -> nat -> Outcome, jitter: nat -> real)

  /** A value together with what producing it cost: the number of
      `generateContent` calls and the waits (ms) slept between them, in order. */
  datatype Run<T> = Run(value: T, calls: nat, waits: seq<real>)

  const ModelName := "gemini-2.5-flash"
  const FallbackTemperature := 0.7
  const ItineraryTemperature := 0.8

  /** Default arguments of `generateContentWithRetry`. */
  const DefaultRetries: nat := 3
  const DefaultDelay: nat := 1000

  /** Bound on the random part of a wait: jitter is drawn from [0, 500). */
  const JitterBound := 500.0

  const ClientMissing := "Gemini AI client is not initialized. API_KEY is likely missing."
  const ItineraryFailure := "Failed to generate itinerary from AI after multiple attempts."

  ghost predicate JitterInRange(jitter: nat -> real) {
    forall k: nat :: 0.0 <= jitter(k) < JitterBound
  }

  function Pow2(k: nat): (r: nat)
    ensures r >= 1
  {
    if k == 0 then 1 else 2 * Pow2(k - 1)
  }

  /** The delay before the k-th retry: the initial delay doubled k times. */
  function Backoff(delay: nat, k: nat): nat
    decreases k
  {
    if k == 0 then delay else Backoff(delay * 2, k - 1)
  }

  lemma {:induction false} BackoffIsPowerOfTwo(delay: nat, k: nat)
    ensures Backoff(delay, k) == delay * Pow2(k)
    decreases k
  {
    if k > 0 {
      BackoffIsPowerOfTwo(delay * 2, k - 1);
    }
  }

  // ---------------------------------------------------------------------------
  // generateContentWithRetry

  /** An error is treated as rate limiting when its string form mentions
      HTTP status 429 or the RESOURCE_EXHAUSTED status. */
  function IsRateLimitError(message: string): bool {
    Contains("429", message) || Contains("RESOURCE_EXHAUSTED", message)
  }

  predicate RateLimited(o: Outcome) {
    o.Failure? && IsRateLimitError(o.error)
  }

  /** The promise an attempt settles to: resolved with the text or rejected with the error. */
  function Settle(o: Outcome): Result<string> {
    match o
    case Reply(text) => Ok(text)
    case Failure(e) => Err(e)
  }

  /** `generateContentWithRetry(params, retries, delay)`. `reply(k)` is the
      outcome of the k-th call made by this invocation and `jitter(k)` the
      jitter drawn before the k-th retry. A rate-limited failure with retries
      left waits `delay + jitter` and recurses with one retry fewer and the
      delay doubled; any other failure is rethrown unchanged. */
  function GenerateContentWithRetry(client: bool, reply: nat -> Outcome, jitter: nat -> real,
                                    retries: nat := DefaultRetries,
                                    delay: nat := DefaultDelay): (r: Run<Result<string>>)
    ensures !client ==> r == Run(Err(ClientMissing), 0, [])
    ensures client ==> 1 <= r.calls <= retries + 1 && |r.waits| == r.calls - 1
    // every call but the last was rate limited, so nothing succeeded before the last
    ensures client ==> forall i :: 0 <= i < r.calls - 1 ==> RateLimited(reply(i))
    // stopping early means the last outcome was not retryable
    ensures client && r.calls <= retries ==> !RateLimited(reply(r.calls - 1))
    // the last outcome is what the caller sees, success text or rethrown error
    ensures client ==> r.value == Settle(reply(r.calls - 1))
    // exponential backoff with jitter
    ensures forall j :: 0 <= j < |r.waits| ==> r.waits[j] == Backoff(delay, j) as real + jitter(j)
    decreases retries
  {
    if !client then Run(Err(ClientMissing), 0, [])
    else
      match reply(0)
      case Reply(text) => Run(Ok(text), 1, [])
      case Failure(e) =>
        if retries > 0 && IsRateLimitError(e) then
          var wait := delay as real + jitter(0);
          var next := (k: nat) => reply(k + 1);
          var nextJitter := (k: nat) => jitter(k + 1);
          var rest := GenerateContentWithRetry(client, next, nextJitter, retries - 1, delay * 2);
          ShiftedWaits(delay, jitter, nextJitter, wait, rest.waits);
          ShiftedPrefix(reply, next, rest.calls - 1);
          Run(rest.value, rest.calls + 1, [wait] + rest.waits)
        else
          Run(Err(e), 1, [])
  }

  /** Facts about the calls of a recursive invocation, seen from the caller. */
  lemma ShiftedPrefix(reply: nat -> Outcome, next: nat -> Outcome, n: nat)
    requires forall k: nat :: next(k) == reply(k + 1)
    requires forall i :: 0 <= i < n ==> RateLimited(next(i))
    ensures forall i :: 1 <= i <= n ==> RateLimited(reply(i))
  {
    forall i | 1 <= i <= n
      ensures RateLimited(reply(i))
    {
      assert next(i - 1) == reply(i);
    }
  }

  lemma ShiftedWaits(delay: nat, jitter: nat -> real, nextJitter: nat -> real, wait: real, waits: seq<real>)
    requires forall k: nat :: nextJitter(k) == jitter(k + 1)
    requires wait == delay as real + jitter(0)
    requires forall j :: 0 <= j < |waits| ==> waits[j] == Backoff(delay * 2, j) as real + nextJitter(j)
    ensures forall j :: 0 <= j < |waits| + 1 ==> ([wait] + waits)[j] == Backoff(delay, j) as real + jitter(j)
  {
    forall j | 1 <= j < |waits| + 1
      ensures ([wait] + waits)[j] == Backoff(delay, j) as real + jitter(j)
    {
      assert ([wait] + waits)[j] == waits[j - 1];
      assert nextJitter(j - 1) == jitter(j);
    }
  }

  // ---------------------------------------------------------------------------
  // generateWithFallback and generateAgencyContent

  function FallbackRequest(prompt: string): Request {
    Request(ModelName, prompt, FallbackTemperature)
  }

  /** `generateWithFallback(prompt, fallback)`: the fallback without any call
      when no key is configured, otherwise the retried call, with every
      failure replaced by the fallback. Its result is a plain string: it never
      rejects. */
  function GenerateWithFallback(svc: Service, prompt: string, fallback: string): (r: Run<string>)
    ensures !svc.hasKey ==> r == Run(fallback, 0, [])
    ensures svc.hasKey ==> 1 <= r.calls <= DefaultRetries + 1 && |r.waits| == r.calls - 1
    ensures svc.hasKey ==>
      var last := svc.reply(FallbackRequest(prompt))(r.calls - 1);
      r.value == (if last.Reply? then last.text else fallback)
    ensures forall j :: 0 <= j < |r.waits| ==> r.waits[j] == Backoff(DefaultDelay, j) as real + svc.jitter(j)
  {
    if !svc.hasKey then Run(fallback, 0, [])
    else
      var run := GenerateContentWithRetry(true, svc.reply(FallbackRequest(prompt)), svc.jitter);
      Run(if run.value.Ok? then run.value.value else fallback, run.calls, run.waits)
  }

  const TaglinePrompt := "Génère une phrase d'accroche courte, immersive et percutante (moins de 15 mots) pour \"Nerza Agency\", une agence de voyage lifestyle et premium au Maroc pour jeunes adultes. Le ton doit être inspirant et donner envie de découvrir le Maroc autrement. Pense à des mots comme \"expérience\", \"vibration\", \"authentique\". Ne retourne que la phrase d'accroche, sans guillemets ni préfixe."

  const FallbackTagline := "Vibrez au rythme d'un Maroc secret et exaltant."

  /** `generateAgencyContent()`: the header tagline, generated or fallen back. */
  function GenerateAgencyContent(svc: Service): (r: Run<string>)
    ensures !svc.hasKey ==> r.value == FallbackTagline && r.calls == 0
    ensures svc.hasKey ==> 1 <= r.calls <= DefaultRetries + 1 && |r.waits| == r.calls - 1
    ensures svc.hasKey ==>
      var last := svc.reply(FallbackRequest(TaglinePrompt))(r.calls - 1);
      r.value == (if last.Reply? then last.text else FallbackTagline)
    // the tagline goes through the retry wrapper: same stopping rule, same waits
    ensures !svc.hasKey ==> r.waits == []
    ensures svc.hasKey ==> forall i :: 0 <= i < r.calls - 1 ==> RateLimited(svc.reply(FallbackRequest(TaglinePrompt))(i))
    ensures svc.hasKey && r.calls <= DefaultRetries ==> !RateLimited(svc.reply(FallbackRequest(TaglinePrompt))(r.calls - 1))
    ensures forall j :: 0 <= j < |r.waits| ==> r.waits[j] == Backoff(DefaultDelay, j) as real + svc.jitter(j)
  {
    GenerateWithFallback(svc, TaglinePrompt, FallbackTagline)
  }

  // ---------------------------------------------------------------------------
  // generateItinerary

  /** The two destinations; `Hinterland` is the source's value 'Region'
      ("Explorer la région"). */
  datatype Region = Agadir | Hinterland

  datatype ItineraryParams = ItineraryParams(region: Region, interests: seq<string>, duration: int, budget: string)

  const AgadirFocus := "Concentre-toi exclusivement sur Agadir et ses environs immédiats (y compris Taghazout pour le surf et les sports nautiques). Le voyageur souhaite rester dans la zone côtière principale."

  const HinterlandFocus := "Concentre-toi sur la création d'un itinéraire d'aventure et de découverte dans l'arrière-pays, en explorant des destinations comme Tafraout, Tiznit et les montagnes de l'Anti-Atlas. Si le voyageur exprime un intérêt pour 'Nuits en Bivouac' ou 'Culture Berbère' ou si cela semble pertinent pour un séjour 'Aventure', suggère spécifiquement 'Camping Tazka' à Tafraout comme une excellente option. Le voyageur veut explicitement sortir d'Agadir."

  function LocationFocus(region: Region): string {
    if region == Agadir then AgadirFocus else HinterlandFocus
  }

  const InterestsLead := "Les centres d'intérêt optionnels du voyageur sont : "
  const InterestsClose := ". Utilise-les comme inspiration principale pour tes suggestions."
  const BalancedInterests := "Le voyageur n'a pas spécifié de centres d'intérêt. Propose un itinéraire équilibré et emblématique basé sur la région choisie (par exemple, luxe balnéaire, sports nautiques et gastronomie pour Agadir ; ou trekking, aventure et immersion culturelle berbère pour la région)."

  function InterestPrompt(interests: seq<string>): string {
    if |interests| > 0 then InterestsLead + Join(interests, ", ") + InterestsClose
    else BalancedInterests
  }

  const PromptHead := "Tu es \"Nerza\", un expert en voyages d'exception pour l'agence Nerza Agency, spécialisé dans la région d'Agadir, au Maroc. Ta mission est de créer un itinéraire personnalisé et détaillé, jour par jour, pour un séjour de "
  const PromptAfterDuration := " jours.\n"
    + "\n"
    + "Les préférences du voyageur sont :\n"
    + "- Budget : \""
  const PromptAfterBudget := "\"\n"
    + "\n"
    + "**Instructions importantes :**\n"
    + "1.  **Instruction de Région Clé :** "
  const PromptAfterFocus := "\n"
    + "2.  **Centres d'Intérêt :** "
  const PromptTail := "\n"
    + "3.  **Détail du programme :** Pour chaque jour, propose un programme pour le matin, l'après-midi, et la soirée. Donne des conseils qui sortent des sentiers battus.\n"
    + "4.  **Authenticité Vérifiée :** Inclus des noms de lieux spécifiques et VÉRIFIABLES (restaurants, sites, hôtels, riads). Par exemple, si tu suggères un riad à Tiznit, utilise des noms connus comme \"Riad Le Lieu\" ou \"Riad Janoub\", et non des noms inventés. La crédibilité est essentielle.\n"
    + "5.  **Ton :** Le ton doit être engageant, inspirant et premium, en accord avec l'image de Nerza Agency.\n"
    + "6.  **Format :** Structure la réponse avec des titres clairs en Markdown (ex: `### Jour 1: Immersion Atlantique`, `**Matin :**`, etc.). Utilise les doubles astérisques (**) pour mettre en valeur les noms de lieux importants.\n"
    + "7.  **Prix :** Ne mentionne AUCUN prix ou budget dans ta réponse. Le prix final sera calculé et affiché par notre système. Concentre-toi uniquement sur la création d'un itinéraire inspirant.\n"
    + "8.  **Transport Aéroport :** Mentionne explicitement au début de l'itinéraire (Jour 1) que le transport privé depuis l'aéroport d'Agadir Al Massira (AGA) jusqu'à leur lieu de séjour est inclus et organisé par Nerza Agency.\n"
    + "9.  **Clarification des Inclusions :** Précise que les repas (déjeuner, dîner) et les boissons dans les lieux suggérés sont à la charge du client. Le forfait Nerza inclut l'hébergement, le transport et les activités planifiées.\n"
    + "\n"
    + "Commence directement par l'itinéraire du Jour 1. N'ajoute aucune introduction ni conclusion."

  /** The prompt template of `generateItinerary`, filled in. */
  function BuildPrompt(p: ItineraryParams): string {
    PromptHead + IntToString(p.duration) + PromptAfterDuration + p.budget + PromptAfterBudget
    + LocationFocus(p.region) + PromptAfterFocus + InterestPrompt(p.interests) + PromptTail
  }

  function ItineraryRequest(p: ItineraryParams): Request {
    Request(ModelName, BuildPrompt(p), ItineraryTemperature)
  }

  /** The fixed 3-day itinerary returned when no key is configured. */
  const SampleItinerary := "### Jour 1: Arrivée et Ambiance Océane à Agadir\n"
    + "\n"
    + "**Matin:** Accueil personnalisé à l'aéroport d'Agadir Al Massira (AGA) par votre chauffeur Nerza Agency et transfert privé jusqu'à votre hôtel. Après votre installation, profitez d'une promenade sur la corniche d'Agadir pour respirer l'air marin et vous imprégner de l'atmosphère détendue de la ville.\n"
    + "**Après-midi:** Visite de la Kasbah d'Agadir Oufella. Profitez d'une vue panoramique imprenable sur la baie d'Agadir. C'est le spot parfait pour des photos mémorables.\n"
    + "**Soir:** Dîner (à votre charge) au restaurant **Le Flore** sur le port de plaisance, réputé pour ses fruits de mer frais, dans une ambiance chic et décontractée.\n"
    + "\n"
    + "### Jour 2: Aventure vers Tafraout\n"
    + "\n"
    + "**Matin:** Départ pour Tafraout à travers les paysages spectaculaires de l'Anti-Atlas. Arrêt pour admirer les formations rocheuses uniques, notamment le \"Chapeau de Napoléon\".\n"
    + "**Après-midi:** Randonnée dans la vallée des Ammeln et découverte des célèbres rochers peints par l'artiste belge Jean Vérame. Une expérience artistique en pleine nature.\n"
    + "**Soir:** Dîner (à votre charge) et nuit dans une auberge de charme à Tafraout, pour goûter à l'hospitalité berbère authentique sous un ciel étoilé exceptionnel.\n"
    + "\n"
    + "### Jour 3: Culture à Tiznit et retour\n"
    + "\n"
    + "**Matin:** Route vers Tiznit, la \"cité d'argent\". Visite des remparts historiques et exploration du souk des bijoutiers, réputé pour ses créations en argent filigrané.\n"
    + "**Après-midi:** Déjeuner (à votre charge) à Tiznit au **Riad Le Lieu** avant de prendre la route côtière pour retourner à Agadir. Arrêt possible sur la plage sauvage de Mirleft pour une dernière bouffée d'air marin.\n"
    + "**Soir:** Coucher de soleil et dernier verre au **So Lounge Agadir**, un bar rooftop avec une vue spectaculaire sur l'océan pour clôturer votre séjour.\n"

  /** `generateItinerary(params)`: the sample without any call when no key is
      configured; otherwise the retried call, with every failure turned into
      the fixed itinerary error (no fallback text on this path). */
  function GenerateItinerary(svc: Service, p: ItineraryParams): (r: Run<Result<string>>)
    ensures !svc.hasKey ==> r == Run(Ok(SampleItinerary), 0, [])
    ensures svc.hasKey ==> 1 <= r.calls <= DefaultRetries + 1 && |r.waits| == r.calls - 1
    ensures svc.hasKey ==>
      var last := svc.reply(ItineraryRequest(p))(r.calls - 1);
      r.value == (if last.Reply? then Ok(last.text) else Err(ItineraryFailure))
    ensures forall j :: 0 <= j < |r.waits| ==> r.waits[j] == Backoff(DefaultDelay, j) as real + svc.jitter(j)
  {
    if !svc.hasKey then Run(Ok(SampleItinerary), 0, [])
    else
      var run := GenerateContentWithRetry(true, svc.reply(ItineraryRequest(p)), svc.jitter);
      Run(if run.value.Ok? then Ok(run.value.value) else Err(ItineraryFailure), run.calls, run.waits)
  }
}
