/** Expiring, origin-scoped HTTP signature capabilities and the Redis script that keeps the newest one.
    Go times are nanoseconds since the Unix epoch; Redis keeps whole milliseconds. */
module SignatureStore {
  import opened Text

  datatype Profile = Legacy | Dual | RFC9421 | UnknownProfile(name: string)
  datatype Scope = Fetch | Delivery | UnknownScope(name: string)
  datatype Evidence =
    | SuccessfulRFC9421
    | AcceptSignature
    | ExplicitRFC9421Rejection
    | SuccessfulLegacyFallback
    | UnknownEvidence(name: string)

  // time.Time{}: midnight, January 1 of year 1
  const ZERO_TIME: int := -62_135_596_800_000_000_000

  predicate WireProfile(profile: Profile) {
    profile == Legacy || profile == RFC9421
  }

  predicate EvidenceFits(evidence: Evidence, profile: Profile) {
    match evidence
    case SuccessfulRFC9421 => profile == RFC9421
    case AcceptSignature => profile == RFC9421
    case ExplicitRFC9421Rejection => profile == Legacy
    case SuccessfulLegacyFallback => profile == Legacy
    case UnknownEvidence(_) => false
  }

  datatype Capability = Capability(
    origin: string,
    scope: Scope,
    profile: Profile,
    evidence: Evidence,
    observedAt: int,
    expiresAt: int)

  /** NormalizeDestinationOrigin with URL parsing left open: None is an error. */
  type Normalizer = string -> Option<string>

  predicate ValidCapability(normalize: Normalizer, c: Capability) {
    && normalize(c.origin) == Some(c.origin)
    && !c.scope.UnknownScope?
    && WireProfile(c.profile)
    && EvidenceFits(c.evidence, c.profile)
    && c.observedAt != ZERO_TIME
    && c.observedAt < c.expiresAt
  }

  /** UnixMilli. */
  function Millis(nanos: int): int {
    nanos / 1_000_000
  }

  /** The stored hash; Redis drops it when its clock reaches expiresMs. */
  datatype Record = Record(
    origin: string,
    scope: Scope,
    profile: Profile,
    evidence: Evidence,
    observedMs: int,
    expiresMs: int)

  function RecordOf(c: Capability): Record {
    Record(c.origin, c.scope, c.profile, c.evidence, Millis(c.observedAt), Millis(c.expiresAt))
  }

  function CapabilityOf(r: Record): Capability {
    Capability(r.origin, r.scope, r.profile, r.evidence, r.observedMs * 1_000_000, r.expiresMs * 1_000_000)
  }

  predicate Live(slot: Option<Record>, now: int) {
    slot.Some? && Millis(now) < slot.value.expiresMs
  }

  /** What SaveDestinationCapability checks before it evaluates the script. */
  predicate Admissible(normalize: Normalizer, c: Capability, now: int) {
    ValidCapability(normalize, c) && now < c.expiresAt
  }

  /** The compare-then-write script on one key. */
  function SaveSlot(slot: Option<Record>, now: int, c: Capability): Option<Record> {
    if Live(slot, now) && Millis(c.observedAt) <= slot.value.observedMs then slot else Some(RecordOf(c))
  }

  datatype Loaded = Failed | Missing | Found(capability: Capability)

  function LoadSlot(normalize: Normalizer, slot: Option<Record>, now: int, scope: Scope, origin: string): Loaded {
    if scope.UnknownScope? || normalize(origin) != Some(origin) then Failed
    else if !Live(slot, now) then Missing
    else
      var c := CapabilityOf(slot.value);
      if c.origin != origin || c.scope != scope || !ValidCapability(normalize, c) then Failed else Found(c)
  }

  type Records = map<(Scope, string), Record>

  function SlotOf(records: Records, scope: Scope, origin: string): Option<Record> {
    if (scope, origin) in records then Some(records[(scope, origin)]) else None
  }

  function SaveRecord(normalize: Normalizer, records: Records, now: int, c: Capability): Records {
    if !Admissible(normalize, c, now) then records
    else
      var slot := SaveSlot(SlotOf(records, c.scope, c.origin), now, c);
      if slot.Some? then records[(c.scope, c.origin) := slot.value] else records
  }

  /** One Redis database of capabilities. Key digests are taken as distinct for distinct scope and origin. */
  class RedisDestinationCapabilityStore {
    const normalize: Normalizer
    var now: int
    var records: Records

    constructor (normalize: Normalizer)
      ensures this.normalize == normalize && records == map[]
    {
      this.normalize := normalize;
      now := 0;
      records := map[];
    }

    /** None is an error. */
    method SaveDestinationCapability(c: Capability) returns (saved: Option<bool>)
      modifies this`records
      ensures records == SaveRecord(normalize, old(records), now, c)
      ensures saved.Some? <==> Admissible(normalize, c, now)
      ensures saved == Some(true) ==> SlotOf(records, c.scope, c.origin) == Some(RecordOf(c))
      ensures saved == Some(false) ==> Live(SlotOf(records, c.scope, c.origin), now) && records == old(records)
    {
      if !ValidCapability(normalize, c) || c.expiresAt <= now {
        return None;
      }
      var key := (c.scope, c.origin);
      if key in records && Millis(now) < records[key].expiresMs {
        if records[key].observedMs >= Millis(c.observedAt) {
          return Some(false);
        }
      }
      records := records[key := RecordOf(c)];
      return Some(true);
    }

    method LoadDestinationCapability(scope: Scope, origin: string) returns (loaded: Loaded)
      ensures loaded == LoadSlot(normalize, SlotOf(records, scope, origin), now, scope, origin)
      ensures loaded.Found? ==>
                && ValidCapability(normalize, loaded.capability)
                && loaded.capability.scope == scope && loaded.capability.origin == origin
                && Millis(now) < Millis(loaded.capability.expiresAt)
    {
      if scope.UnknownScope? || normalize(origin) != Some(origin) {
        return Failed;
      }
      if (scope, origin) !in records || records[(scope, origin)].expiresMs <= Millis(now) {
        return Missing;
      }
      var c := CapabilityOf(records[(scope, origin)]);
      if c.origin != origin || c.scope != scope || !ValidCapability(normalize, c) {
        return Failed;
      }
      return Found(c);
    }
  }

  /** A save touches only its own scope and origin, and there acts as the script does. */
  lemma SaveTouchesOneKey(normalize: Normalizer, records: Records, now: int, c: Capability, scope: Scope, origin: string)
    ensures SlotOf(SaveRecord(normalize, records, now, c), scope, origin) ==
            if (scope, origin) == (c.scope, c.origin) && Admissible(normalize, c, now)
            then SaveSlot(SlotOf(records, scope, origin), now, c)
            else SlotOf(records, scope, origin)
  {
  }

  /** A capability still valid at the millisecond grain Redis keeps. */
  predicate SurvivesMillis(c: Capability) {
    Millis(c.observedAt) < Millis(c.expiresAt) && Millis(c.observedAt) != Millis(ZERO_TIME)
  }

  lemma MillisOrder(a: int, b: int)
    ensures a <= b ==> Millis(a) <= Millis(b)
    ensures Millis(a * 1_000_000) == a
    ensures a + 1_000_000 <= b ==> Millis(a) < Millis(b)
  {
  }

  /** A save that is newer than what is stored is found again by its own key until it expires, at millisecond grain, if
      and only if it is still valid at that grain. */
  lemma SavedCapabilityLoads(normalize: Normalizer, records: Records, now: int, c: Capability, later: int)
    requires Admissible(normalize, c, now) && Millis(later) < Millis(c.expiresAt)
    requires var slot := SlotOf(records, c.scope, c.origin);
             Live(slot, now) ==> slot.value.observedMs < Millis(c.observedAt)
    ensures LoadSlot(normalize, SlotOf(SaveRecord(normalize, records, now, c), c.scope, c.origin), later, c.scope, c.origin) ==
            if SurvivesMillis(c) then Found(CapabilityOf(RecordOf(c))) else Failed
  {
    SaveTouchesOneKey(normalize, records, now, c, c.scope, c.origin);
    assert CapabilityOf(RecordOf(c)).observedAt == ZERO_TIME <==> Millis(c.observedAt) == Millis(ZERO_TIME);
  }

  /** An expired capability is neither taken nor given back. */
  lemma ExpiredIsGone(normalize: Normalizer, records: Records, now: int, c: Capability, later: int)
    requires ValidCapability(normalize, c)
    ensures c.expiresAt <= now ==> SaveRecord(normalize, records, now, c) == records
    ensures SlotOf(records, c.scope, c.origin) == Some(RecordOf(c)) && c.expiresAt <= later ==>
              LoadSlot(normalize, SlotOf(records, c.scope, c.origin), later, c.scope, c.origin) == Missing
    ensures now == c.expiresAt - 1 && SlotOf(records, c.scope, c.origin) == None ==>
              SlotOf(SaveRecord(normalize, records, now, c), c.scope, c.origin) == Some(RecordOf(c))
  {
    MillisOrder(c.expiresAt, later);
  }

  /** The gap is real: a capability can pass Validate, be stored, and fail Validate when loaded. */
  lemma SubMillisecondExpiryFailsToLoad(normalize: Normalizer, origin: string)
    requires normalize(origin) == Some(origin)
    ensures exists c: Capability, now ::
              && Admissible(normalize, c, now)
              && Live(SaveSlot(None, now, c), now)
              && LoadSlot(normalize, SaveSlot(None, now, c), now, c.scope, c.origin) == Failed
  {
    var c := Capability(origin, Fetch, Legacy, ExplicitRFC9421Rejection, 1_000_000, 1_000_001);
    assert Admissible(normalize, c, 0);
    assert SaveSlot(None, 0, c) == Some(RecordOf(c));
    assert Live(SaveSlot(None, 0, c), 0);
    assert LoadSlot(normalize, SaveSlot(None, 0, c), 0, c.scope, c.origin) == Failed;
  }

  /** Observations that live at least a minute are never in the gap. */
  lemma MinuteSurvivesMillis(c: Capability)
    requires c.observedAt + 60_000_000_000 <= c.expiresAt && ZERO_TIME + 1_000_000 <= c.observedAt
    ensures SurvivesMillis(c)
  {
    MillisOrder(c.observedAt, c.expiresAt);
    MillisOrder(ZERO_TIME, c.observedAt);
  }
}
