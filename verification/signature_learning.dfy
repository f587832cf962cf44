/** Evidence decides: what one observation makes of every later plan in a dual-mode run, until it expires or newer
    evidence arrives. */
module SignatureLearning {
  import opened Text
  import opened SignatureStore
  import opened SignatureNegotiation

  /** What one event tells the store, if anything. */
  function ObservedBy(n: Negotiator, w: World, e: Event): Option<Capability> {
    match e
    case Enqueue(_, _, _) => None
    case Deliver(_, _) => None
    case ObserveDelivery(i, _, now) =>
      if i < |w.log| then Learned(n, now, Delivery, w.log[i].destination, w.log[i].profile, w.log[i].response) else None
    case ObserveFetch(destination, profile, response, _, now) => Learned(n, now, Fetch, destination, profile, response)
    case ObserveFallback(destination, _, now) =>
      Observation(n, now, Fetch, destination, Legacy, SuccessfulLegacyFallback, n.negativeTTL)
  }

  predicate IsObservation(e: Event) {
    e.ObserveDelivery? || e.ObserveFetch? || e.ObserveFallback?
  }

  /** The event saves evidence c over an empty slot or older evidence. */
  predicate Teaching(n: Negotiator, w: World, e: Event, c: Capability) {
    && IsObservation(e) && ObservedBy(n, w, e) == Some(c) && e.redisNow < c.expiresAt
    && var slot := SlotOf(w.records, c.scope, c.origin);
       Live(slot, e.redisNow) ==> slot.value.observedMs < Millis(c.observedAt)
  }

  /** The event brings nothing for c's scope and origin, or older evidence while c is live. */
  predicate Outdated(n: Negotiator, w: World, e: Event, c: Capability) {
    var seen := ObservedBy(n, w, e);
    seen.Some? && seen.value.scope == c.scope && seen.value.origin == c.origin ==>
      IsObservation(e) && Millis(e.redisNow) < Millis(c.expiresAt) && Millis(seen.value.observedAt) <= Millis(c.observedAt)
  }

  ghost predicate NothingNewer(n: Negotiator, w: World, es: seq<Event>, c: Capability) {
    forall k | 0 <= k < |es| :: Outdated(n, Execute(n, w, es[..k]), es[k], c)
  }

  lemma TaughtSlot(n: Negotiator, w: World, e: Event, c: Capability)
    requires Teaching(n, w, e, c)
    ensures SlotOf(Step(n, w, e).records, c.scope, c.origin) == Some(RecordOf(c))
  {
    SaveTouchesOneKey(n.normalize, w.records, e.redisNow, c, c.scope, c.origin);
  }

  lemma OutdatedStep(n: Negotiator, w: World, e: Event, c: Capability)
    requires SlotOf(w.records, c.scope, c.origin) == Some(RecordOf(c)) && Outdated(n, w, e, c)
    ensures SlotOf(Step(n, w, e).records, c.scope, c.origin) == Some(RecordOf(c))
  {
    var seen := ObservedBy(n, w, e);
    if seen.Some? {
      SaveTouchesOneKey(n.normalize, w.records, e.redisNow, seen.value, c.scope, c.origin);
    }
  }

  lemma {:induction false} EvidenceStays(n: Negotiator, w: World, es: seq<Event>, c: Capability)
    requires SlotOf(w.records, c.scope, c.origin) == Some(RecordOf(c)) && NothingNewer(n, w, es, c)
    ensures SlotOf(Execute(n, w, es).records, c.scope, c.origin) == Some(RecordOf(c))
    decreases |es|
  {
    if es != [] {
      var front := es[..|es| - 1];
      forall k | 0 <= k < |front| ensures Outdated(n, Execute(n, w, front[..k]), front[k], c) {
        assert front[..k] == es[..k];
      }
      EvidenceStays(n, w, front, c);
      assert Outdated(n, Execute(n, w, front), es[|es| - 1], c);
      OutdatedStep(n, Execute(n, w, front), es[|es| - 1], c);
    }
  }

  /** An observation of any kind decides every later plan for its scope and origin, through any events, until it expires
      or newer evidence arrives. */
  lemma EvidenceDecides(n: Negotiator, w: World, e: Event, es: seq<Event>, c: Capability,
                        redisNow: int, now: int, destination: string)
    requires Teaching(n, w, e, c) && SurvivesMillis(c) && NothingNewer(n, Step(n, w, e), es, c)
    requires Millis(redisNow) < Millis(c.expiresAt) && now < Millis(c.expiresAt) * 1_000_000
    requires n.normalize(destination) == Some(c.origin)
    ensures PlanFor(n, Execute(n, Step(n, w, e), es).records, redisNow, now, Dual, c.scope, destination) ==
            Some(Plan(c.origin, c.scope, c.profile, None, CachedCapability))
  {
    TaughtSlot(n, w, e, c);
    EvidenceStays(n, Step(n, w, e), es, c);
    assert CapabilityOf(RecordOf(c)).observedAt == ZERO_TIME <==> Millis(c.observedAt) == Millis(ZERO_TIME);
  }

  // ---- deliveries ----

  /** A delivery planned now is queued with the profile and goes over the wire with it, whenever it is delivered. */
  ghost predicate SignsDelivery(n: Negotiator, w: World, destination: string, redisNow: int, now: int, profile: Profile) {
    var queued := Step(n, w, Enqueue(destination, redisNow, now));
    && queued.queue == w.queue + [Job(destination, profile)]
    && forall response ::
         Step(n, queued, Deliver(|w.queue|, response)).log == w.log + [Exchange(destination, profile, response)]
  }

  /** Both clocks are before the end of evidence c as Redis keeps it. */
  predicate Before(c: Capability, redisNow: int, now: int) {
    Millis(redisNow) < Millis(c.expiresAt) && now < Millis(c.expiresAt) * 1_000_000
  }

  lemma DeliveriesFollow(n: Negotiator, w: World, e: Event, es: seq<Event>, c: Capability,
                         destination: string, redisNow: int, now: int)
    requires Teaching(n, w, e, c) && SurvivesMillis(c) && NothingNewer(n, Step(n, w, e), es, c)
    requires c.scope == Delivery && WireProfile(c.profile) && n.normalize(destination) == Some(c.origin)
    requires Before(c, redisNow, now)
    ensures SignsDelivery(n, Execute(n, Step(n, w, e), es), destination, redisNow, now, c.profile)
  {
    EvidenceDecides(n, w, e, es, c, redisNow, now, destination);
    WireProfileRoundTrip(c.profile);
  }

  /** An answer seen at a time a valid negotiator can record, from an origin that is its own normal form. */
  predicate Observable(n: Negotiator, x: Exchange, origin: string, now: int) {
    && ValidNegotiator(n) && ZERO_TIME + 1_000_000 <= now
    && n.normalize(x.destination) == Some(origin) && n.normalize(origin) == Some(origin)
  }

  /** Learning works: once a 2xx legacy delivery with a compatible Accept-Signature has been observed over an empty or
      older slot, every delivery planned for that origin within the positive lifetime is signed the modern way, through
      any other events without newer evidence. */
  lemma ModernOnceTaught(n: Negotiator, w: World, i: nat, seenRedis: int, seen: int, es: seq<Event>, origin: string,
                         destination: string, redisNow: int, now: int)
    requires i < |w.log| && Observable(n, w.log[i], origin, seen) && Teaches(n, w.log[i], origin)
    requires var c := Capability(origin, Delivery, RFC9421, AcceptSignature, seen, seen + n.positiveTTL);
             var slot := SlotOf(w.records, Delivery, origin);
             && seenRedis < c.expiresAt && (Live(slot, seenRedis) ==> slot.value.observedMs < Millis(seen))
             && NothingNewer(n, Step(n, w, ObserveDelivery(i, seenRedis, seen)), es, c)
             && n.normalize(destination) == Some(origin) && Before(c, redisNow, now)
    ensures SignsDelivery(n, Execute(n, Step(n, w, ObserveDelivery(i, seenRedis, seen)), es),
                          destination, redisNow, now, RFC9421)
  {
    var c := Capability(origin, Delivery, RFC9421, AcceptSignature, seen, seen + n.positiveTTL);
    MinuteSurvivesMillis(c);
    DeliveriesFollow(n, w, ObserveDelivery(i, seenRedis, seen), es, c, destination, redisNow, now);
  }

  /** Unlearning works: once an explicit rejection of a modern delivery has been observed, every delivery planned for that
      origin within the negative lifetime is signed the old way. */
  lemma LegacyOnceRejected(n: Negotiator, w: World, i: nat, seenRedis: int, seen: int, es: seq<Event>, origin: string,
                           destination: string, redisNow: int, now: int)
    requires i < |w.log| && Observable(n, w.log[i], origin, seen) && Negative(w.log[i].profile, w.log[i].response)
    requires var c := Capability(origin, Delivery, Legacy, ExplicitRFC9421Rejection, seen, seen + n.negativeTTL);
             var slot := SlotOf(w.records, Delivery, origin);
             && seenRedis < c.expiresAt && (Live(slot, seenRedis) ==> slot.value.observedMs < Millis(seen))
             && NothingNewer(n, Step(n, w, ObserveDelivery(i, seenRedis, seen)), es, c)
             && n.normalize(destination) == Some(origin) && Before(c, redisNow, now)
    ensures SignsDelivery(n, Execute(n, Step(n, w, ObserveDelivery(i, seenRedis, seen)), es),
                          destination, redisNow, now, Legacy)
  {
    var c := Capability(origin, Delivery, Legacy, ExplicitRFC9421Rejection, seen, seen + n.negativeTTL);
    MinuteSurvivesMillis(c);
    DeliveriesFollow(n, w, ObserveDelivery(i, seenRedis, seen), es, c, destination, redisNow, now);
  }

  /** A fallback is remembered: after a working one, fetches from that origin are signed the old way at once, without a
      second request, within the negative lifetime. */
  lemma FallbackRemembered(n: Negotiator, w: World, source: string, seenRedis: int, seen: int, es: seq<Event>,
                           origin: string, destination: string, redisNow: int, now: int)
    requires ValidNegotiator(n) && ZERO_TIME + 1_000_000 <= seen
    requires n.normalize(source) == Some(origin) == n.normalize(origin) == n.normalize(destination)
    requires var c := Capability(origin, Fetch, Legacy, SuccessfulLegacyFallback, seen, seen + n.negativeTTL);
             var slot := SlotOf(w.records, Fetch, origin);
             && seenRedis < c.expiresAt && (Live(slot, seenRedis) ==> slot.value.observedMs < Millis(seen))
             && NothingNewer(n, Step(n, w, ObserveFallback(source, seenRedis, seen)), es, c)
             && Before(c, redisNow, now)
    ensures PlanFor(n, Execute(n, Step(n, w, ObserveFallback(source, seenRedis, seen)), es).records, redisNow, now,
                    Dual, Fetch, destination) == Some(Plan(origin, Fetch, Legacy, None, CachedCapability))
  {
    var c := Capability(origin, Fetch, Legacy, SuccessfulLegacyFallback, seen, seen + n.negativeTTL);
    MinuteSurvivesMillis(c);
    EvidenceDecides(n, w, ObserveFallback(source, seenRedis, seen), es, c, redisNow, now, destination);
  }

  lemma ExecuteOneMore(n: Negotiator, w: World, es: seq<Event>, e: Event)
    ensures Execute(n, w, es + [e]) == Step(n, Execute(n, w, es), e)
  {
    assert (es + [e])[..|es|] == es;
  }

  /** A first delivery, from nothing, is signed the old way. */
  lemma FirstDelivery(n: Negotiator, destination: string, now: int, response: Response) returns (es: seq<Event>)
    requires n.normalize(destination).Some? && n.normalize(n.normalize(destination).value) == n.normalize(destination)
    ensures Execute(n, EMPTY, es) == World(map[], [Job(destination, Legacy)], [Exchange(destination, Legacy, response)])
  {
    WireProfileRoundTrip(Legacy);
    es := [Enqueue(destination, now, now)];
    ExecuteOneMore(n, EMPTY, [], es[0]);
    assert [] + [es[0]] == es;
    assert Execute(n, EMPTY, es) == World(map[], [Job(destination, Legacy)], []);
    ExecuteOneMore(n, EMPTY, es, Deliver(0, response));
    es := es + [Deliver(0, response)];
  }

  /** From nothing, two deliveries are enough: the answer to the first teaches the second. */
  lemma ModernDeliveryExists(n: Negotiator, destination: string, now: int, response: Response) returns (es: seq<Event>)
    requires ValidNegotiator(n) && ZERO_TIME + 1_000_000 <= now && Success(response) && response.compatible
    requires n.normalize(destination).Some? && n.normalize(n.normalize(destination).value) == n.normalize(destination)
    ensures Execute(n, EMPTY, es).log ==
            [Exchange(destination, Legacy, response), Exchange(destination, RFC9421, response)]
  {
    var origin := n.normalize(destination).value;
    var c := Capability(origin, Delivery, RFC9421, AcceptSignature, now, now + n.positiveTTL);
    MillisOrder(now, c.expiresAt - 1_000_000);
    var first := FirstDelivery(n, destination, now, response);
    var sent := Execute(n, EMPTY, first);
    ModernOnceTaught(n, sent, 0, now, now, [], origin, destination, now, now);
    var taught := Step(n, sent, ObserveDelivery(0, now, now));
    assert Execute(n, taught, []) == taught && taught.log == sent.log && taught.queue == sent.queue;
    var queued := Step(n, taught, Enqueue(destination, now, now));
    ExecuteOneMore(n, EMPTY, first, ObserveDelivery(0, now, now));
    es := first + [ObserveDelivery(0, now, now)];
    ExecuteOneMore(n, EMPTY, es, Enqueue(destination, now, now));
    es := es + [Enqueue(destination, now, now)];
    assert Execute(n, EMPTY, es) == queued;
    ExecuteOneMore(n, EMPTY, es, Deliver(1, response));
    es := es + [Deliver(1, response)];
  }
}
