/** Destination-aware signature planning, what a response teaches, and which deliveries may be signed the modern way. */
module SignatureNegotiation {
  import opened Text
  import opened SignatureStore

  const HOUR: int := 3_600_000_000_000
  const MINUTE: int := 60_000_000_000
  const DEFAULT_POSITIVE_TTL: int := 1_209_600_000_000_000
  const DEFAULT_NEGATIVE_TTL: int := 86_400_000_000_000

  // ---- profile names ----

  /** strings.ToLower where it can matter to a profile name. */
  function Lower(s: string): string {
    if s == "" then ""
    else [if 'A' <= s[0] <= 'Z' then (s[0] as int + 32) as char else s[0]] + Lower(s[1..])
  }

  function ProfileName(profile: Profile): string {
    match profile
    case Legacy => "legacy"
    case Dual => "dual"
    case RFC9421 => "rfc9421"
    case UnknownProfile(name) => name
  }

  function NamedProfile(name: string): Option<Profile> {
    if name == "" || name == "legacy" then Some(Legacy)
    else if name == "dual" then Some(Dual)
    else if name == "rfc9421" then Some(RFC9421)
    else None
  }

  /** None is an error. */
  function ParseProfile(value: string): Option<Profile> {
    NamedProfile(Lower(Trim(value)))
  }

  function ParseWireProfile(value: string): Option<Profile> {
    var profile := ParseProfile(value);
    if profile == Some(Dual) then None else profile
  }

  lemma {:induction false} PlainText(s: string)
    requires forall i | 0 <= i < |s| :: !IsSpace(s[i]) && !('A' <= s[i] <= 'Z')
    ensures Trim(s) == s && Lower(s) == s
    decreases |s|
  {
    if s != "" {
      PlainText(s[1..]);
    }
  }

  lemma NamesAreDistinct(profile: Profile)
    requires !profile.UnknownProfile?
    ensures NamedProfile(ProfileName(profile)) == Some(profile)
  {
    assert "legacy"[0] == 'l' && "dual"[0] == 'd' && "rfc9421"[0] == 'r';
  }

  lemma ParsePlain(s: string)
    requires forall i | 0 <= i < |s| :: !IsSpace(s[i]) && !('A' <= s[i] <= 'Z')
    ensures ParseProfile(s) == NamedProfile(s)
  {
    PlainText(s);
  }

  /** What a queued task carries is what its worker signs with, for exactly the two wire profiles. */
  lemma WireProfileRoundTrip(profile: Profile)
    requires !profile.UnknownProfile?
    ensures ParseWireProfile(ProfileName(profile)) == if WireProfile(profile) then Some(profile) else None
  {
    NamesAreDistinct(profile);
    var name := ProfileName(profile);
    ParsePlain(name);
  }

  /** The worker's profile for a task, given its arguments and the configured policy (None: no configuration). */
  function DeliveryProfileFromArgs(args: seq<string>, configured: Option<Profile>): Option<Profile> {
    if |args| >= 3 then ParseWireProfile(args[2])
    else if configured.Some? && configured.value != Dual && ProfileName(configured.value) != ""
    then ParseWireProfile(ProfileName(configured.value))
    else Some(Legacy)
  }

  lemma WorkerProfileIsWire(args: seq<string>, configured: Option<Profile>)
    ensures DeliveryProfileFromArgs(args, configured).Some? ==>
              WireProfile(DeliveryProfileFromArgs(args, configured).value)
  {
  }

  /** A worker follows its task; without a profile there, a fixed configuration; and signs the old way otherwise. */
  lemma WorkerFollowsTask(args: seq<string>, configured: Option<Profile>, profile: Profile)
    requires WireProfile(profile)
    ensures |args| >= 3 && args[2] == ProfileName(profile) ==> DeliveryProfileFromArgs(args, configured) == Some(profile)
    ensures |args| < 3 ==> DeliveryProfileFromArgs(args, Some(profile)) == Some(profile)
    ensures |args| < 3 ==> DeliveryProfileFromArgs(args, Some(Dual)) == Some(Legacy)
    ensures |args| < 3 ==> DeliveryProfileFromArgs(args, None) == Some(Legacy)
  {
    WireProfileRoundTrip(profile);
  }

  /** Letters lose their case and everything else stays. */
  lemma {:induction false} LowerFolds(s: string, i: nat)
    requires i < |s|
    ensures |Lower(s)| == |s|
    ensures 'A' <= s[i] <= 'Z' ==> Lower(s)[i] as int - 'a' as int == s[i] as int - 'A' as int
    ensures !('A' <= s[i] <= 'Z') ==> Lower(s)[i] == s[i]
    decreases |s|
  {
    if |s| > 1 {
      LowerFolds(s[1..], if i == 0 then 0 else i - 1);
    }
  }

  // ---- planning ----

  datatype Reason = ConfiguredLegacy | ConfiguredRFC9421 | CachedCapability | UnknownFetchProbe | UnknownDeliveryLegacy

  datatype Plan = Plan(origin: string, scope: Scope, primary: Profile, fallback: Option<Profile>, reason: Reason)

  datatype Negotiator = Negotiator(normalize: Normalizer, positiveTTL: int, negativeTTL: int)

  predicate ValidNegotiator(n: Negotiator) {
    HOUR <= n.positiveTTL && MINUTE <= n.negativeTTL <= n.positiveTTL
  }

  function OrDefault(value: int, default: int): int {
    if value == 0 then default else value
  }

  method NewDestinationNegotiator(normalize: Normalizer, positive: int, negative: int)
    returns (negotiator: Option<Negotiator>)
    ensures negotiator.Some? <==>
              HOUR <= OrDefault(positive, DEFAULT_POSITIVE_TTL)
              && MINUTE <= OrDefault(negative, DEFAULT_NEGATIVE_TTL) <= OrDefault(positive, DEFAULT_POSITIVE_TTL)
    ensures negotiator.Some? ==>
              && ValidNegotiator(negotiator.value) && negotiator.value.normalize == normalize
              && negotiator.value.positiveTTL == OrDefault(positive, DEFAULT_POSITIVE_TTL)
              && negotiator.value.negativeTTL == OrDefault(negative, DEFAULT_NEGATIVE_TTL)
  {
    var positiveTTL := positive;
    if positiveTTL == 0 {
      positiveTTL := DEFAULT_POSITIVE_TTL;
    }
    if positiveTTL < HOUR {
      return None;
    }
    var negativeTTL := negative;
    if negativeTTL == 0 {
      negativeTTL := DEFAULT_NEGATIVE_TTL;
    }
    if negativeTTL < MINUTE || negativeTTL > positiveTTL {
      return None;
    }
    return Some(Negotiator(normalize, positiveTTL, negativeTTL));
  }

  /** The Redis clock and the process clock are read separately. None is an error. */
  function PlanFor(n: Negotiator, records: Records, redisNow: int, now: int,
                   configured: Profile, scope: Scope, destination: string): Option<Plan>
  {
    if scope.UnknownScope? || n.normalize(destination) == None then None
    else
      var origin := n.normalize(destination).value;
      match configured
      case Legacy => Some(Plan(origin, scope, Legacy, None, ConfiguredLegacy))
      case RFC9421 => Some(Plan(origin, scope, RFC9421, None, ConfiguredRFC9421))
      case UnknownProfile(_) => None
      case Dual =>
        var loaded := LoadSlot(n.normalize, SlotOf(records, scope, origin), redisNow, scope, origin);
        if loaded.Failed? then None
        else if loaded.Found? && now < loaded.capability.expiresAt
        then Some(Plan(origin, scope, loaded.capability.profile, None, CachedCapability))
        else if scope == Fetch then Some(Plan(origin, scope, RFC9421, Some(Legacy), UnknownFetchProbe))
        else Some(Plan(origin, scope, Legacy, None, UnknownDeliveryLegacy))
  }

  /** Every plan names a wire profile for its own destination. A fallback exists exactly for an unknown fetch, and a
      modern delivery under the dual policy only on live, fresh positive evidence of the delivery scope. */
  lemma PlanProperties(n: Negotiator, records: Records, redisNow: int, now: int,
                       configured: Profile, scope: Scope, destination: string)
    requires PlanFor(n, records, redisNow, now, configured, scope, destination).Some?
    ensures var plan := PlanFor(n, records, redisNow, now, configured, scope, destination).value;
            && WireProfile(plan.primary)
            && plan.scope == scope && n.normalize(destination) == Some(plan.origin)
            && (plan.fallback.Some? ==> plan.fallback == Some(Legacy) && plan.primary == RFC9421)
            && (plan.fallback.Some? <==> plan.reason == UnknownFetchProbe)
            && (configured == Dual && scope == Delivery && plan.primary == RFC9421 ==>
                  && (Delivery, plan.origin) in records
                  && Live(Some(records[(Delivery, plan.origin)]), redisNow)
                  && records[(Delivery, plan.origin)].profile == RFC9421
                  && (records[(Delivery, plan.origin)].evidence == SuccessfulRFC9421
                      || records[(Delivery, plan.origin)].evidence == AcceptSignature))
  {
  }

  predicate Plannable(n: Negotiator, scope: Scope, destination: string) {
    !scope.UnknownScope? && n.normalize(destination).Some?
  }

  /** A fixed mode signs every request to every destination as configured, without fallback, whatever the store holds
      and whatever the clocks say. */
  lemma FixedModesAreFixed(n: Negotiator, configured: Profile, scope: Scope, destination: string,
                           records: Records, redisNow: int, now: int, others: Records, otherRedis: int, otherNow: int)
    requires configured == Legacy || configured == RFC9421
    ensures var plan := PlanFor(n, records, redisNow, now, configured, scope, destination);
            && (plan.Some? <==> Plannable(n, scope, destination))
            && (plan.Some? ==> plan.value.primary == configured && plan.value.fallback == None)
            && plan == PlanFor(n, others, otherRedis, otherNow, configured, scope, destination)
  {
  }

  /** Without live evidence for the very scope and origin, or once it has expired on the process's own clock, the dual
      mode probes a fetch the modern way with one legacy fallback, and signs a delivery the old way. */
  lemma UnknownDestination(n: Negotiator, records: Records, redisNow: int, now: int, scope: Scope, destination: string)
    requires Plannable(n, scope, destination)
    requires var origin := n.normalize(destination).value;
             var loaded := LoadSlot(n.normalize, SlotOf(records, scope, origin), redisNow, scope, origin);
             loaded.Missing? || (loaded.Found? && loaded.capability.expiresAt <= now)
    ensures var plan := PlanFor(n, records, redisNow, now, Dual, scope, destination);
            && plan.Some?
            && (scope == Fetch ==> plan.value.primary == RFC9421 && plan.value.fallback == Some(Legacy))
            && (scope == Delivery ==> plan.value.primary == Legacy && plan.value.fallback == None)
  {
  }

  /** A capability decides: once it is saved over nothing or older evidence, every dual plan for its scope and origin
      signs with its profile, without fallback, until it expires on either clock. */
  lemma SavedCapabilityDecides(n: Negotiator, records: Records, saved: int, c: Capability,
                               redisNow: int, now: int, destination: string)
    requires Admissible(n.normalize, c, saved) && SurvivesMillis(c)
    requires var slot := SlotOf(records, c.scope, c.origin);
             Live(slot, saved) ==> slot.value.observedMs < Millis(c.observedAt)
    requires Millis(redisNow) < Millis(c.expiresAt) && now < Millis(c.expiresAt) * 1_000_000
    requires n.normalize(destination) == Some(c.origin)
    ensures var plan := PlanFor(n, SaveRecord(n.normalize, records, saved, c), redisNow, now, Dual, c.scope, destination);
            plan.Some? && plan.value.primary == c.profile && plan.value.fallback == None
  {
    SavedCapabilityLoads(n.normalize, records, saved, c, redisNow);
  }

  // ---- observations ----

  /** A response as far as negotiation looks at it; a transport failure has status 0. */
  datatype Response = Response(status: int, compatible: bool, challenged: bool)

  predicate Success(response: Response) {
    200 <= response.status < 300
  }

  predicate ExplicitRejection(response: Response) {
    (response.status == 401 || response.status == 403) && response.challenged
  }

  function Observation(n: Negotiator, now: int, scope: Scope, destination: string,
                       profile: Profile, evidence: Evidence, ttl: int): Option<Capability>
  {
    if scope.UnknownScope? || !EvidenceFits(evidence, profile) || n.normalize(destination) == None then None
    else
      var c := Capability(n.normalize(destination).value, scope, profile, evidence, now, now + ttl);
      if ValidCapability(n.normalize, c) then Some(c) else None
  }

  /** The capability one response leads to, if any. */
  function Learned(n: Negotiator, now: int, scope: Scope, destination: string,
                   profile: Profile, response: Response): Option<Capability>
  {
    if Success(response) then
      if profile == RFC9421 then Observation(n, now, scope, destination, RFC9421, SuccessfulRFC9421, n.positiveTTL)
      else if response.compatible
      then Observation(n, now, scope, destination, RFC9421, AcceptSignature, n.positiveTTL)
      else None
    else if profile == RFC9421 && ExplicitRejection(response)
    then Observation(n, now, scope, destination, Legacy, ExplicitRFC9421Rejection, n.negativeTTL)
    else None
  }

  function Remember(n: Negotiator, records: Records, redisNow: int, c: Option<Capability>): Records {
    if c.Some? then SaveRecord(n.normalize, records, redisNow, c.value) else records
  }

  /** A 2xx answer to a modern request, or one that asks for a signature this relay can make. */
  predicate Positive(profile: Profile, response: Response) {
    Success(response) && (profile == RFC9421 || response.compatible)
  }

  predicate Negative(profile: Profile, response: Response) {
    profile == RFC9421 && ExplicitRejection(response)
  }

  /** The evidence of a valid negotiator, exactly: positive answers teach the modern profile for the long lifetime,
      explicit rejections of it teach the old one for the short lifetime, and nothing else teaches anything. */
  lemma LearnedExactly(n: Negotiator, now: int, scope: Scope, destination: string, profile: Profile, response: Response)
    requires ValidNegotiator(n) && Plannable(n, scope, destination) && now != ZERO_TIME
    requires n.normalize(n.normalize(destination).value) == n.normalize(destination)
    ensures var c := Learned(n, now, scope, destination, profile, response);
            && (c.Some? <==> Positive(profile, response) || Negative(profile, response))
            && (c.Some? ==>
                  && c.value.origin == n.normalize(destination).value && c.value.scope == scope
                  && c.value.observedAt == now && ValidCapability(n.normalize, c.value))
            && (Positive(profile, response) ==> c.value.profile == RFC9421 && c.value.expiresAt == now + n.positiveTTL)
            && (Negative(profile, response) ==> c.value.profile == Legacy && c.value.expiresAt == now + n.negativeTTL)
  {
  }

  /** Status by status: 200 to 299 succeeds, and only a challenged 401 or 403 rejects the signature. */
  lemma StatusesExactly(response: Response)
    ensures Success(response) <==> response.status / 100 == 2
    ensures ExplicitRejection(response) <==> response.status in {401, 403} && response.challenged
    ensures !(Success(response) && ExplicitRejection(response))
  {
  }

  /** Whatever a valid negotiator stores can be loaded again. */
  lemma ObservationsSurvive(n: Negotiator, now: int, scope: Scope, destination: string, profile: Profile, response: Response)
    requires ValidNegotiator(n) && ZERO_TIME + 1_000_000 <= now
    ensures Learned(n, now, scope, destination, profile, response).Some? ==>
              SurvivesMillis(Learned(n, now, scope, destination, profile, response).value)
  {
    var c := Learned(n, now, scope, destination, profile, response);
    if c.Some? {
      MinuteSurvivesMillis(c.value);
    }
  }

  /** The API's and the workers' signers share one store. */
  class ConfiguredSigner {
    const negotiator: Negotiator
    const profile: Profile
    const store: RedisDestinationCapabilityStore

    constructor (negotiator: Negotiator, profile: Profile, store: RedisDestinationCapabilityStore)
      requires store.normalize == negotiator.normalize
      ensures this.negotiator == negotiator && this.profile == profile && this.store == store
    {
      this.negotiator := negotiator;
      this.profile := profile;
      this.store := store;
    }

    /** None is an error. */
    method PlanRequest(scope: Scope, destination: string, now: int) returns (plan: Option<Plan>)
      requires store.normalize == negotiator.normalize
      ensures plan == PlanFor(negotiator, store.records, store.now, now, profile, scope, destination)
      ensures plan.Some? ==> WireProfile(plan.value.primary)
      ensures profile == Legacy || profile == RFC9421 ==>
                (plan.Some? <==> Plannable(negotiator, scope, destination))
                && (plan.Some? ==> plan.value.primary == profile && plan.value.fallback == None)
    {
      var origin := negotiator.normalize(destination);
      if scope.UnknownScope? || origin.None? {
        return None;
      }
      match profile
      case Legacy => return Some(Plan(origin.value, scope, Legacy, None, ConfiguredLegacy));
      case RFC9421 => return Some(Plan(origin.value, scope, RFC9421, None, ConfiguredRFC9421));
      case UnknownProfile(_) => return None;
      case Dual =>
        var loaded := store.LoadDestinationCapability(scope, origin.value);
        if loaded.Failed? {
          return None;
        }
        if loaded.Found? && now < loaded.capability.expiresAt {
          return Some(Plan(origin.value, scope, loaded.capability.profile, None, CachedCapability));
        }
        if scope == Fetch {
          return Some(Plan(origin.value, scope, RFC9421, Some(Legacy), UnknownFetchProbe));
        }
        return Some(Plan(origin.value, scope, Legacy, None, UnknownDeliveryLegacy));
    }

    method ObserveRFC9421Success(scope: Scope, destination: string, evidence: Evidence, now: int)
      requires store.normalize == negotiator.normalize
      requires evidence == SuccessfulRFC9421 || evidence == AcceptSignature
      modifies store`records
      ensures store.records == Remember(negotiator, old(store.records), store.now,
                Observation(negotiator, now, scope, destination, RFC9421, evidence, negotiator.positiveTTL))
    {
      var c := Observation(negotiator, now, scope, destination, RFC9421, evidence, negotiator.positiveTTL);
      if c.Some? {
        var _ := store.SaveDestinationCapability(c.value);
      }
    }

    method ObserveResponse(scope: Scope, destination: string, profile: Profile, response: Response, now: int)
      requires store.normalize == negotiator.normalize
      modifies store`records
      ensures store.records == Remember(negotiator, old(store.records), store.now,
                Learned(negotiator, now, scope, destination, profile, response))
      ensures !Positive(profile, response) && !Negative(profile, response) ==> store.records == old(store.records)
    {
      if 200 <= response.status < 300 {
        var evidence := AcceptSignature;
        if profile == RFC9421 {
          evidence := SuccessfulRFC9421;
        } else if !response.compatible {
          return;
        }
        ObserveRFC9421Success(scope, destination, evidence, now);
        return;
      }
      if profile == RFC9421 && ExplicitRejection(response) {
        var c := Observation(negotiator, now, scope, destination, Legacy, ExplicitRFC9421Rejection, negotiator.negativeTTL);
        if c.Some? {
          var _ := store.SaveDestinationCapability(c.value);
        }
      }
    }
  }

  // ---- runs of the API, the workers and remote fetches over one store, under the dual policy ----

  /** One delivery as it went over the wire. */
  datatype Exchange = Exchange(destination: string, profile: Profile, response: Response)

  datatype Job = Job(destination: string, planned: Profile)

  /** Queued jobs may run any number of times, so they are never removed. */
  datatype World = World(records: Records, queue: seq<Job>, log: seq<Exchange>)

  /** Each event reads whatever its process and Redis say the time is; observations may be late, repeated or lost. */
  datatype Event =
    | Enqueue(destination: string, redisNow: int, now: int)
    | Deliver(job: nat, response: Response)
    | ObserveDelivery(exchange: nat, redisNow: int, now: int)
    | ObserveFetch(destination: string, profile: Profile, response: Response, redisNow: int, now: int)
    | ObserveFallback(destination: string, redisNow: int, now: int)

  function Step(n: Negotiator, w: World, e: Event): World {
    match e
    case Enqueue(destination, redisNow, now) =>
      var plan := PlanFor(n, w.records, redisNow, now, Dual, Delivery, destination);
      if plan.Some? then w.(queue := w.queue + [Job(destination, plan.value.primary)]) else w
    case Deliver(job, response) =>
      if job >= |w.queue| then w
      else
        var profile := ParseWireProfile(ProfileName(w.queue[job].planned));
        if profile.Some? then w.(log := w.log + [Exchange(w.queue[job].destination, profile.value, response)]) else w
    case ObserveDelivery(i, redisNow, now) =>
      if i >= |w.log| then w
      else
        var c := Learned(n, now, Delivery, w.log[i].destination, w.log[i].profile, w.log[i].response);
        w.(records := Remember(n, w.records, redisNow, c))
    case ObserveFetch(destination, profile, response, redisNow, now) =>
      w.(records := Remember(n, w.records, redisNow, Learned(n, now, Fetch, destination, profile, response)))
    case ObserveFallback(destination, redisNow, now) =>
      var c := Observation(n, now, Fetch, destination, Legacy, SuccessfulLegacyFallback, n.negativeTTL);
      w.(records := Remember(n, w.records, redisNow, c))
  }

  function Execute(n: Negotiator, w: World, es: seq<Event>): World {
    if es == [] then w else Step(n, Execute(n, w, es[..|es| - 1]), es[|es| - 1])
  }

  const EMPTY: World := World(map[], [], [])

  /** A 2xx answer to a legacy delivery that asks for a signature this relay can make. */
  predicate Teaches(n: Negotiator, x: Exchange, origin: string) {
    x.profile == Legacy && Success(x.response) && x.response.compatible && n.normalize(x.destination) == Some(origin)
  }

  ghost predicate Taught(n: Negotiator, log: seq<Exchange>, bound: int, origin: string) {
    exists m :: 0 <= m < bound && m < |log| && Teaches(n, log[m], origin)
  }

  ghost predicate ModernIsTaught(n: Negotiator, log: seq<Exchange>, bound: int, destination: string) {
    n.normalize(destination).Some? && Taught(n, log, bound, n.normalize(destination).value)
  }

  ghost predicate JobsTaught(n: Negotiator, w: World) {
    forall i | 0 <= i < |w.queue| ::
      WireProfile(w.queue[i].planned)
      && (w.queue[i].planned == RFC9421 ==> ModernIsTaught(n, w.log, |w.log|, w.queue[i].destination))
  }

  ghost predicate RecordsTaught(n: Negotiator, w: World) {
    forall origin | (Delivery, origin) in w.records && w.records[(Delivery, origin)].profile == RFC9421 ::
      Taught(n, w.log, |w.log|, origin)
  }

  ghost predicate LogTaught(n: Negotiator, w: World) {
    forall k | 0 <= k < |w.log| && w.log[k].profile == RFC9421 :: ModernIsTaught(n, w.log, k, w.log[k].destination)
  }

  lemma TaughtGrows(n: Negotiator, log: seq<Exchange>, x: Exchange, bound: int, longer: int, origin: string)
    requires Taught(n, log, bound, origin) && bound <= longer
    ensures Taught(n, log + [x], longer, origin)
  {
    var m :| 0 <= m < bound && m < |log| && Teaches(n, log[m], origin);
    assert (log + [x])[m] == log[m];
  }

  lemma EnqueueStep(n: Negotiator, w: World, e: Event)
    requires e.Enqueue? && JobsTaught(n, w) && RecordsTaught(n, w)
    ensures JobsTaught(n, Step(n, w, e))
  {
    var plan := PlanFor(n, w.records, e.redisNow, e.now, Dual, Delivery, e.destination);
    if plan.Some? {
      PlanProperties(n, w.records, e.redisNow, e.now, Dual, Delivery, e.destination);
      assert plan.value.primary == RFC9421 ==> ModernIsTaught(n, w.log, |w.log|, e.destination);
    }
  }

  lemma DeliverStep(n: Negotiator, w: World, e: Event)
    requires e.Deliver? && JobsTaught(n, w) && RecordsTaught(n, w) && LogTaught(n, w)
    ensures JobsTaught(n, Step(n, w, e)) && RecordsTaught(n, Step(n, w, e)) && LogTaught(n, Step(n, w, e))
  {
    if e.job < |w.queue| {
      var job := w.queue[e.job];
      WireProfileRoundTrip(job.planned);
      var x := Exchange(job.destination, job.planned, e.response);
      var log := w.log + [x];
      forall origin, bound, longer | Taught(n, w.log, bound, origin) && bound <= longer
        ensures Taught(n, log, longer, origin)
      {
        TaughtGrows(n, w.log, x, bound, longer, origin);
      }
      forall k | 0 <= k < |log| && log[k].profile == RFC9421
        ensures ModernIsTaught(n, log, k, log[k].destination)
      {
        if k < |w.log| {
          assert ModernIsTaught(n, w.log, k, w.log[k].destination);
        } else {
          assert ModernIsTaught(n, w.log, |w.log|, job.destination);
        }
      }
      assert Step(n, w, e) == w.(log := log);
    }
  }

  /** A delivery response yields modern evidence only for a taught origin. */
  lemma LearnedIsTaught(n: Negotiator, w: World, i: nat, now: int)
    requires i < |w.log| && LogTaught(n, w) && WireProfile(w.log[i].profile)
    ensures var c := Learned(n, now, Delivery, w.log[i].destination, w.log[i].profile, w.log[i].response);
            c.Some? && c.value.profile == RFC9421 ==> Taught(n, w.log, |w.log|, c.value.origin)
  {
    var x := w.log[i];
    if x.profile == RFC9421 {
      assert ModernIsTaught(n, w.log, i, x.destination);
    }
  }

  lemma ObserveStep(n: Negotiator, w: World, c: Capability, redisNow: int)
    requires RecordsTaught(n, w)
    requires c.scope == Delivery && c.profile == RFC9421 ==> Taught(n, w.log, |w.log|, c.origin)
    ensures RecordsTaught(n, w.(records := SaveRecord(n.normalize, w.records, redisNow, c)))
  {
  }

  ghost predicate Sound(n: Negotiator, w: World) {
    && JobsTaught(n, w) && RecordsTaught(n, w) && LogTaught(n, w)
    && forall i | 0 <= i < |w.log| :: WireProfile(w.log[i].profile)
  }

  lemma SoundStep(n: Negotiator, w: World, e: Event)
    requires Sound(n, w)
    ensures Sound(n, Step(n, w, e))
  {
    match e
    case Enqueue(_, _, _) => EnqueueStep(n, w, e);
    case Deliver(job, _) =>
      DeliverStep(n, w, e);
      if job < |w.queue| {
        WireProfileRoundTrip(w.queue[job].planned);
      }
    case ObserveDelivery(i, redisNow, now) =>
      if i < |w.log| {
        LearnedIsTaught(n, w, i, now);
        var c := Learned(n, now, Delivery, w.log[i].destination, w.log[i].profile, w.log[i].response);
        if c.Some? {
          ObserveStep(n, w, c.value, redisNow);
        }
      }
    case ObserveFetch(destination, profile, response, redisNow, now) =>
      var c := Learned(n, now, Fetch, destination, profile, response);
      if c.Some? {
        ObserveStep(n, w, c.value, redisNow);
      }
    case ObserveFallback(destination, redisNow, now) =>
      var c := Observation(n, now, Fetch, destination, Legacy, SuccessfulLegacyFallback, n.negativeTTL);
      if c.Some? {
        ObserveStep(n, w, c.value, redisNow);
      }
  }

  lemma {:induction false} SoundThroughout(n: Negotiator, es: seq<Event>)
    ensures Sound(n, Execute(n, EMPTY, es))
    decreases |es|
  {
    if es != [] {
      SoundThroughout(n, es[..|es| - 1]);
      SoundStep(n, Execute(n, EMPTY, es[..|es| - 1]), es[|es| - 1]);
    }
  }

  /** Learned modern delivery: every RFC 9421 delivery of every run is preceded by a 2xx legacy delivery to the same
      origin whose answer carried a compatible Accept-Signature. */
  lemma LearnedModernDelivery(n: Negotiator, es: seq<Event>, k: nat) returns (m: nat)
    requires k < |Execute(n, EMPTY, es).log| && Execute(n, EMPTY, es).log[k].profile == RFC9421
    ensures var log := Execute(n, EMPTY, es).log;
            && m < k
            && log[m].profile == Legacy && Success(log[m].response) && log[m].response.compatible
            && n.normalize(log[m].destination).Some?
            && n.normalize(log[m].destination) == n.normalize(log[k].destination)
  {
    SoundThroughout(n, es);
    var log := Execute(n, EMPTY, es).log;
    assert ModernIsTaught(n, log, k, log[k].destination);
    var j :| 0 <= j < k && j < |log| && Teaches(n, log[j], n.normalize(log[k].destination).value);
    m := j;
  }

  /** Every queued profile is one its worker accepts and signs with. */
  lemma QueuedProfilesAccepted(n: Negotiator, es: seq<Event>, i: nat, body: string)
    requires i < |Execute(n, EMPTY, es).queue|
    ensures var job := Execute(n, EMPTY, es).queue[i];
            DeliveryProfileFromArgs([job.destination, body, ProfileName(job.planned)], Some(Dual)) == Some(job.planned)
  {
    SoundThroughout(n, es);
    WireProfileRoundTrip(Execute(n, EMPTY, es).queue[i].planned);
  }

  // ---- fetches do not touch deliveries ----

  predicate IsFetch(e: Event) {
    e.ObserveFetch? || e.ObserveFallback?
  }

  function WithoutFetches(es: seq<Event>): seq<Event> {
    if es == [] then []
    else WithoutFetches(es[..|es| - 1]) + (if IsFetch(es[|es| - 1]) then [] else [es[|es| - 1]])
  }

  ghost predicate SameDelivery(a: World, b: World) {
    && a.queue == b.queue && a.log == b.log
    && forall origin :: SlotOf(a.records, Delivery, origin) == SlotOf(b.records, Delivery, origin)
  }

  lemma FetchStep(n: Negotiator, w: World, e: Event)
    requires IsFetch(e)
    ensures SameDelivery(Step(n, w, e), w)
  {
  }

  lemma RememberSame(n: Negotiator, a: Records, b: Records, redisNow: int, c: Option<Capability>)
    requires forall origin :: SlotOf(a, Delivery, origin) == SlotOf(b, Delivery, origin)
    requires c.Some? ==> c.value.scope == Delivery
    ensures forall origin ::
              SlotOf(Remember(n, a, redisNow, c), Delivery, origin) == SlotOf(Remember(n, b, redisNow, c), Delivery, origin)
  {
    if c.Some? {
      forall origin
        ensures SlotOf(Remember(n, a, redisNow, c), Delivery, origin) == SlotOf(Remember(n, b, redisNow, c), Delivery, origin)
      {
        SaveTouchesOneKey(n.normalize, a, redisNow, c.value, Delivery, origin);
        SaveTouchesOneKey(n.normalize, b, redisNow, c.value, Delivery, origin);
      }
    }
  }

  lemma DeliveryStepSame(n: Negotiator, a: World, b: World, e: Event)
    requires !IsFetch(e) && SameDelivery(a, b)
    ensures SameDelivery(Step(n, a, e), Step(n, b, e))
  {
    if e.ObserveDelivery? && e.exchange < |a.log| {
      var x := a.log[e.exchange];
      RememberSame(n, a.records, b.records, e.redisNow, Learned(n, e.now, Delivery, x.destination, x.profile, x.response));
    }
  }

  /** Fetch evidence never changes a delivery: leaving every fetch out of a run gives the same queue, the same
      deliveries and the same delivery evidence. */
  lemma {:induction false} FetchesDoNotInterfere(n: Negotiator, es: seq<Event>)
    ensures SameDelivery(Execute(n, EMPTY, es), Execute(n, EMPTY, WithoutFetches(es)))
    decreases |es|
  {
    if es != [] {
      var front, last := es[..|es| - 1], es[|es| - 1];
      FetchesDoNotInterfere(n, front);
      var a, b := Execute(n, EMPTY, front), Execute(n, EMPTY, WithoutFetches(front));
      if IsFetch(last) {
        FetchStep(n, a, last);
        assert WithoutFetches(es) == WithoutFetches(front);
      } else {
        DeliveryStepSame(n, a, b, last);
        var shorter := WithoutFetches(es);
        assert shorter[..|shorter| - 1] == WithoutFetches(front);
      }
    }
  }
}
