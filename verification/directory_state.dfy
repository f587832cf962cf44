/** The persisted scheduler state of one Directory: what is written, what is read back,
    and how a completed request schedules the next attempt. */
module DirectoryState {
  import opened Text
  import Decimal

  // Go time.Time as milliseconds since the Unix epoch; the zero time is year 1.
  type Time = int
  type Duration = int

  const SECOND: Duration := 1000
  const MINUTE: Duration := 60_000
  const HOUR: Duration := 3_600_000
  const ZERO_TIME: Time := -62_135_596_800_000

  const NOMINAL_HEARTBEAT: Duration := 86_400_000
  const INITIAL_RETRY: Duration := 30_000
  const MAXIMUM_LOCAL_RETRY: Duration := 900_000
  const MAXIMUM_RETRY_AFTER: Duration := 86_400_000
  const MAXIMUM_ATTEMPT: int := 16

  function Unix(t: Time): int {
    t / 1000
  }

  function Truncate(t: Time): Time {
    Unix(t) * 1000
  }

  function Later(a: Time, b: Time): Time {
    if a < b then b else a
  }

  datatype Outcome =
    | NoOutcome | Registered | Heartbeat | Retrying | Authentication | Policy | Suspended | Malformed | Disabled
    | UnknownOutcome(text: string)

  datatype Diagnostic =
    | NoDiagnostic | Clear | Transport | InternalError | RateLimit | AuthenticationRefused | Enrollment
    | SuspendedRelay | Lifecycle | MalformedReply | LeaseLost | DisabledEntry
    | UnknownDiagnostic(text: string)

  datatype State = State(
    registered: bool,
    lastSuccess: Time,
    nextAttempt: Time,
    lastOutcome: Outcome,
    diagnostic: Diagnostic,
    attempt: int,
    lastObserved: Time,
    profileDigest: string,
    profileProtocolVersion: int)

  const EMPTY_STATE :=
    State(false, ZERO_TIME, ZERO_TIME, NoOutcome, NoDiagnostic, 0, ZERO_TIME, "", 0)

  /** The nine hash fields; a field missing from the hash reads as "". */
  datatype Fields = Fields(
    registered: string,
    lastSuccess: string,
    nextAttempt: string,
    lastOutcome: Outcome,
    diagnostic: Diagnostic,
    attempt: string,
    lastObserved: string,
    profileDigest: string,
    profileProtocolVersion: string)

  predicate ValidDigest(s: string) {
    |s| == 64 && forall i | 0 <= i < |s| :: '0' <= s[i] <= '9' || 'a' <= s[i] <= 'f'
  }

  predicate ValidProfileState(digest: string, version: int) {
    if digest == "" then version == 0 else 1 <= version <= 3 && ValidDigest(digest)
  }

  predicate ValidState(st: State) {
    && 0 <= st.attempt <= MAXIMUM_ATTEMPT
    && !st.lastOutcome.UnknownOutcome?
    && !st.diagnostic.UnknownDiagnostic?
    && ValidProfileState(st.profileDigest, st.profileProtocolVersion)
  }

  function UnixString(t: Time): string {
    if t == ZERO_TIME then "0" else Decimal.Itoa(Unix(t))
  }

  function ParseTime(s: string): Option<Time> {
    if s == "" || s == "0" then Some(ZERO_TIME)
    else
      var seconds := Decimal.ParseInt(s);
      if seconds.None? || seconds.value < 0 then None else Some(seconds.value * 1000)
  }

  /** The arguments SaveOwned hands to its script. */
  function StateArguments(st: State): Fields {
    Fields(
      if st.registered then "1" else "0",
      UnixString(st.lastSuccess),
      UnixString(st.nextAttempt),
      st.lastOutcome,
      st.diagnostic,
      Decimal.Itoa(st.attempt),
      UnixString(st.lastObserved),
      st.profileDigest,
      Decimal.Itoa(st.profileProtocolVersion))
  }

  function ParseSmall(s: string, limit: nat): Option<nat>
    requires limit <= 255
  {
    if s == "" then Some(0)
    else
      var v := Decimal.ParseUint(s, 255);
      if v.None? || v.value > limit then None else v
  }

  /** Load on an existing hash; None is ErrStore. */
  function ParseFields(f: Fields): Option<State> {
    if f.registered != "0" && f.registered != "1" then None
    else
      var lastSuccess := ParseTime(f.lastSuccess);
      var nextAttempt := ParseTime(f.nextAttempt);
      var lastObserved := ParseTime(f.lastObserved);
      var attempt := ParseSmall(f.attempt, MAXIMUM_ATTEMPT);
      var version := ParseSmall(f.profileProtocolVersion, 3);
      if lastSuccess.None? || nextAttempt.None? || lastObserved.None? || attempt.None? || version.None? then None
      else
        var st := State(f.registered == "1", lastSuccess.value, nextAttempt.value, f.lastOutcome, f.diagnostic,
                        attempt.value, lastObserved.value, f.profileDigest, version.value);
        if f.lastOutcome.UnknownOutcome? || f.diagnostic.UnknownDiagnostic?
           || !ValidProfileState(f.profileDigest, version.value)
        then None else Some(st)
  }

  const HEX_DIGITS := "0123456789abcdef"

  /** A digest is 64 lower-case hexadecimal digits. */
  lemma DigestAlphabet(s: string)
    ensures ValidDigest(s) <==> |s| == 64 && forall i | 0 <= i < |s| :: s[i] in HEX_DIGITS
  {
    forall c: char ensures c in HEX_DIGITS <==> '0' <= c <= '9' || 'a' <= c <= 'f' {
      HexDigit(c);
    }
  }

  lemma HexDigit(c: char)
    ensures c in HEX_DIGITS <==> '0' <= c <= '9' || 'a' <= c <= 'f'
  {
    if '0' <= c <= '9' {
      assert HEX_DIGITS[c as int - '0' as int] == c;
    } else if 'a' <= c <= 'f' {
      assert HEX_DIGITS[c as int - 'a' as int + 10] == c;
    }
  }

  /** A hash with the registered flag and nothing else loads with everything else unset. */
  lemma MissingFieldsAreUnset(registered: bool)
    ensures ParseFields(Fields(if registered then "1" else "0", "", "", NoOutcome, NoDiagnostic, "", "", "", "")) ==
            Some(EMPTY_STATE.(registered := registered))
  {
  }

  /** Everything Load accepts would also pass validateState. */
  lemma LoadedStateIsValid(f: Fields)
    ensures ParseFields(f).Some? ==> ValidState(ParseFields(f).value)
  {
  }

  function WholeSeconds(st: State): State {
    st.(lastSuccess := Truncate(st.lastSuccess),
        nextAttempt := Truncate(st.nextAttempt),
        lastObserved := Truncate(st.lastObserved))
  }

  /** A time the store can give back: the zero time, or at least one second after the epoch. */
  predicate StorableTime(t: Time) {
    t == ZERO_TIME || 1 <= Unix(t) <= Decimal.MAX_INT64
  }

  lemma TimeRoundTrip(t: Time)
    ensures ParseTime(UnixString(t)) == Some(Truncate(t)) <==> StorableTime(t)
    ensures StorableTime(t) ==> Truncate(t) == ZERO_TIME || Truncate(t) >= SECOND
  {
    if t != ZERO_TIME {
      var seconds := Unix(t);
      Decimal.ParseIntOfItoa(seconds);
      Decimal.ItoaZero(seconds);
      if seconds == 0 {
        assert ParseTime(UnixString(t)) == Some(ZERO_TIME);
      } else {
        assert ParseTime(UnixString(t)) ==
               if 1 <= seconds <= Decimal.MAX_INT64 then Some(seconds * 1000) else None;
      }
    }
  }

  predicate Storable(st: State) {
    StorableTime(st.lastSuccess) && StorableTime(st.nextAttempt) && StorableTime(st.lastObserved)
  }

  /** Save-then-load gives the state back to the second exactly when its times are storable:
      an instant in the first second of 1970 reads back as "never", an earlier one makes Load fail. */
  lemma SaveLoadRoundTrip(st: State)
    requires ValidState(st)
    ensures ParseFields(StateArguments(st)) == Some(WholeSeconds(st)) <==> Storable(st)
  {
    TimeRoundTrip(st.lastSuccess);
    TimeRoundTrip(st.nextAttempt);
    TimeRoundTrip(st.lastObserved);
    SmallRoundTrip(st.attempt, MAXIMUM_ATTEMPT);
    VersionInRange(st);
    SmallRoundTrip(st.profileProtocolVersion, 3);
  }

  lemma VersionInRange(st: State)
    requires ValidState(st)
    ensures 0 <= st.profileProtocolVersion <= 3
  {
  }

  lemma SmallRoundTrip(n: nat, limit: nat)
    requires n <= limit <= 255
    ensures ParseSmall(Decimal.Itoa(n), limit) == Some(n)
  {
    Decimal.ParseUintOfItoa(n, 255);
    Decimal.ItoaZero(n);
  }

  /** The first second of 1970 is a concrete state the store does not give back. */
  lemma EpochIsNotStorable()
    ensures var st := EMPTY_STATE.(lastObserved := SECOND / 2);
            ValidState(st) && ParseFields(StateArguments(st)) == Some(EMPTY_STATE)
            && WholeSeconds(st) != EMPTY_STATE
  {
    var st := EMPTY_STATE.(lastObserved := SECOND / 2);
    SmallRoundTrip(0, MAXIMUM_ATTEMPT);
    SmallRoundTrip(0, 3);
    Decimal.ItoaZero(0);
    assert Unix(SECOND / 2) == 0;
  }

  // ---- scheduling arithmetic; `daily` and `retry` are the digest words of the jitters ----

  function StableJitter(daily: nat): (d: Duration)
    ensures 0 <= d <= 2 * HOUR
  {
    (daily % 7201) * 1000
  }

  function NextHeartbeatAttempt(completedAt: Time, daily: nat): Time {
    if completedAt == ZERO_TIME then ZERO_TIME
    else Truncate(completedAt) + NOMINAL_HEARTBEAT + StableJitter(daily)
  }

  function Pow2(n: nat): (p: nat)
    ensures p >= 1
  {
    if n == 0 then 1 else 2 * Pow2(n - 1)
  }

  function RetryBase(attempt: int): Duration
    requires attempt <= MAXIMUM_ATTEMPT
  {
    var shifted := 30_000 * Pow2((if attempt < 1 then 1 else attempt) - 1);
    if shifted > MAXIMUM_LOCAL_RETRY then MAXIMUM_LOCAL_RETRY else shifted
  }

  function RetryDelay(attempt: int, retry: nat): Duration
    requires attempt <= MAXIMUM_ATTEMPT
  {
    var base := RetryBase(attempt);
    var jitterSeconds := (base / 5) / 1000;
    if base / 5 <= 0 || jitterSeconds < 0 then base
    else
      var delay := base + (retry % (jitterSeconds + 1)) * 1000;
      if delay > MAXIMUM_LOCAL_RETRY then MAXIMUM_LOCAL_RETRY else delay
  }

  /** Back-off stays between 30 seconds and 15 minutes and within a fifth above its base. */
  lemma RetryDelayBounds(attempt: int, retry: nat)
    requires attempt <= MAXIMUM_ATTEMPT
    ensures INITIAL_RETRY <= RetryBase(attempt) <= RetryDelay(attempt, retry) <= MAXIMUM_LOCAL_RETRY
    ensures 5 * RetryDelay(attempt, retry) <= 6 * RetryBase(attempt)
  {
    var base := RetryBase(attempt);
    var q := (base / 5) / 1000;
    var r := retry % (q + 1);
    assert 0 <= r <= q;
    assert q * 1000 <= base / 5;
  }

  lemma {:induction false} Pow2Monotone(a: nat, b: nat)
    requires a <= b
    ensures Pow2(a) <= Pow2(b)
    decreases b - a
  {
    if a < b {
      Pow2Monotone(a, b - 1);
    }
  }

  /** Another failed attempt never shortens the base delay. */
  lemma RetryBaseMonotone(a: int, b: int)
    requires a <= b <= MAXIMUM_ATTEMPT
    ensures RetryBase(a) <= RetryBase(b)
  {
    var x := if a < 1 then 0 else a - 1;
    var y := if b < 1 then 0 else b - 1;
    Pow2Monotone(x, y);
  }

  /** The base delay starts at 30 seconds and doubles with every failed attempt until it reaches 15 minutes. */
  lemma RetryBaseDoubles(attempt: int)
    requires attempt < MAXIMUM_ATTEMPT
    ensures attempt <= 1 ==> RetryBase(attempt) == 30_000
    ensures 1 <= attempt ==>
              RetryBase(attempt + 1) == if 2 * RetryBase(attempt) < 900_000 then 2 * RetryBase(attempt) else 900_000
  {
  }

  /** Hence the sixth attempt and all later ones wait 15 minutes, and no earlier one does. */
  lemma RetryCeiling(attempt: int)
    requires attempt <= MAXIMUM_ATTEMPT
    ensures RetryBase(attempt) == 900_000 <==> 6 <= attempt
  {
    if 1 <= attempt {
      assert Pow2(4) == 16 && Pow2(5) == 32;
      if attempt < 6 {
        Pow2Monotone(attempt - 1, 4);
      } else {
        Pow2Monotone(5, attempt - 1);
      }
    }
  }

  /** The digests spread the delays: every whole second of the allowed range is some digest's delay. */
  lemma DelaysSpread(attempt: int, seconds: nat, late: nat)
    requires attempt <= MAXIMUM_ATTEMPT && seconds * 5000 <= RetryBase(attempt)
    ensures RetryDelay(attempt, seconds) ==
            if RetryBase(attempt) + seconds * 1000 > MAXIMUM_LOCAL_RETRY then MAXIMUM_LOCAL_RETRY
            else RetryBase(attempt) + seconds * 1000
    ensures late <= 7200 ==> StableJitter(late) == late * 1000
  {
    RetryDelayBounds(attempt, seconds);
    SmallRemainder(seconds, RetryBase(attempt));
  }

  lemma SmallRemainder(seconds: nat, base: nat)
    requires seconds * 5000 <= base
    ensures seconds % ((base / 5) / 1000 + 1) == seconds
  {
    assert seconds <= (base / 5) / 1000;
  }

  // ---- a completed request ----

  datatype Failure =
    | TransportFailure
    | RateLimitedFailure(retryAfter: Duration)
    | InternalFailure(retryAfter: Duration)
    | AuthenticationFailure
    | SuspendedFailure
    | EnrollmentFailure
    | LifecycleFailure
    | OtherFailure

  datatype Reply = Reply(isRegister: bool, version: int)

  function Classify(f: Failure): (Outcome, Diagnostic) {
    match f
    case TransportFailure => (Retrying, Transport)
    case RateLimitedFailure(_) => (Retrying, RateLimit)
    case InternalFailure(_) => (Retrying, InternalError)
    case AuthenticationFailure => (Authentication, AuthenticationRefused)
    case SuspendedFailure => (Suspended, SuspendedRelay)
    case EnrollmentFailure => (Policy, Enrollment)
    case LifecycleFailure => (Policy, Lifecycle)
    case OtherFailure => (Malformed, MalformedReply)
  }

  function RetryAfter(f: Failure): Duration {
    if f.RateLimitedFailure? || f.InternalFailure? then f.retryAfter else 0
  }

  /** The longer of the local delay and the Directory's own Retry-After, at most a day. */
  function BoundedDelay(local: Duration, after: Duration): Duration {
    if Later(local, after) > MAXIMUM_RETRY_AFTER then MAXIMUM_RETRY_AFTER else Later(local, after)
  }

  function NextAttemptNumber(attempt: int): int {
    if attempt + 1 > MAXIMUM_ATTEMPT then MAXIMUM_ATTEMPT else attempt + 1
  }

  /** The state after a failed request, as one value. */
  function FailureState(st: State, now: Time, f: Failure, daily: nat, retry: nat): State {
    var (outcome, diagnostic) := Classify(f);
    var seen := st.(lastObserved := now, lastOutcome := outcome, diagnostic := diagnostic);
    if outcome != Retrying then
      seen.(attempt := 0, nextAttempt := NextHeartbeatAttempt(now, daily))
    else
      var attempt := NextAttemptNumber(st.attempt);
      seen.(attempt := attempt, nextAttempt := now + BoundedDelay(RetryDelay(attempt, retry), RetryAfter(f)))
  }

  /** The state after a successful register or heartbeat, shared by scheduler and lifecycle commands. */
  function SuccessState(st: State, completedAt: Time, reply: Reply, digest: string, daily: nat): State {
    var base := st.(registered := true,
                    lastSuccess := completedAt,
                    nextAttempt := NextHeartbeatAttempt(completedAt, daily),
                    attempt := 0,
                    diagnostic := Clear,
                    lastOutcome := if reply.isRegister then Registered else Heartbeat,
                    lastObserved := completedAt);
    if reply.isRegister && |digest| == 64
    then base.(profileDigest := digest, profileProtocolVersion := reply.version)
    else base
  }

  /** Both suppression writes of unregister; the second also clears `registered`. */
  function DisabledState(st: State, now: Time, registered: bool): State {
    st.(registered := registered,
        lastOutcome := Disabled,
        diagnostic := DisabledEntry,
        nextAttempt := ZERO_TIME,
        lastObserved := now)
  }

  /** What every persisted state satisfies. */
  predicate Persistable(st: State) {
    && ValidState(st)
    && (st.nextAttempt == ZERO_TIME ==> st.lastOutcome == Disabled || st.lastObserved == ZERO_TIME)
    && (st.nextAttempt != ZERO_TIME ==>
          st.lastObserved + INITIAL_RETRY <= st.nextAttempt <= st.lastObserved + NOMINAL_HEARTBEAT + 2 * HOUR)
  }

  lemma HeartbeatDeadline(t: Time, daily: nat)
    requires t != ZERO_TIME
    ensures t + INITIAL_RETRY <= NextHeartbeatAttempt(t, daily) <= t + NOMINAL_HEARTBEAT + 2 * HOUR
    ensures NextHeartbeatAttempt(t, daily) == Truncate(t) + NOMINAL_HEARTBEAT + StableJitter(daily)
  {
    assert t - SECOND < Truncate(t) <= t;
  }

  lemma FailureStatePersistable(st: State, now: Time, f: Failure, daily: nat, retry: nat)
    requires ValidState(st) && now >= ZERO_TIME
    ensures Persistable(FailureState(st, now, f, daily, retry))
    ensures FailureState(st, now, f, daily, retry).registered == st.registered
  {
    var next := FailureState(st, now, f, daily, retry);
    if next.lastOutcome == Retrying {
      RetryDelayBounds(next.attempt, retry);
    } else if now != ZERO_TIME {
      HeartbeatDeadline(now, daily);
    }
  }

  predicate Transient(f: Failure) {
    f.TransportFailure? || f.RateLimitedFailure? || f.InternalFailure?
  }

  /** Transient failures count up and wait at least their back-off and any Retry-After of up to a day; all others start
      over at the next daily heartbeat. */
  lemma FailureSchedule(st: State, now: Time, f: Failure, daily: nat, retry: nat)
    requires ValidState(st)
    ensures var next := FailureState(st, now, f, daily, retry);
            && next.lastObserved == now && next.lastSuccess == st.lastSuccess
            && next.profileDigest == st.profileDigest && next.profileProtocolVersion == st.profileProtocolVersion
            && (Transient(f) ==>
                  && next.lastOutcome == Retrying
                  && next.attempt == (if st.attempt < MAXIMUM_ATTEMPT then st.attempt + 1 else MAXIMUM_ATTEMPT)
                  && RetryBase(next.attempt) <= next.nextAttempt - now <= MAXIMUM_RETRY_AFTER
                  && (RetryAfter(f) <= MAXIMUM_RETRY_AFTER ==> RetryAfter(f) <= next.nextAttempt - now)
                  && (RetryAfter(f) <= MAXIMUM_LOCAL_RETRY ==> next.nextAttempt - now <= MAXIMUM_LOCAL_RETRY))
            && (!Transient(f) ==>
                  next.lastOutcome != Retrying && next.attempt == 0
                  && next.nextAttempt == NextHeartbeatAttempt(now, daily))
  {
    RetryDelayBounds(NextAttemptNumber(st.attempt), retry);
  }

  /** Every kind of failure has its own diagnostic, and the outcome groups them by what can be done about them. */
  lemma FailureDiagnosed(st: State, now: Time, f: Failure, daily: nat, retry: nat)
    requires ValidState(st)
    ensures var next := FailureState(st, now, f, daily, retry);
            && (next.lastOutcome == Retrying <==> Transient(f))
            && (next.lastOutcome == Authentication <==> f.AuthenticationFailure?)
            && (next.lastOutcome == Suspended <==> f.SuspendedFailure?)
            && (next.lastOutcome == Policy <==> f.EnrollmentFailure? || f.LifecycleFailure?)
            && (next.lastOutcome == Malformed <==> f.OtherFailure?)
            && (next.diagnostic == Transport <==> f.TransportFailure?)
            && (next.diagnostic == RateLimit <==> f.RateLimitedFailure?)
            && (next.diagnostic == InternalError <==> f.InternalFailure?)
            && (next.diagnostic == AuthenticationRefused <==> f.AuthenticationFailure?)
            && (next.diagnostic == SuspendedRelay <==> f.SuspendedFailure?)
            && (next.diagnostic == Enrollment <==> f.EnrollmentFailure?)
            && (next.diagnostic == Lifecycle <==> f.LifecycleFailure?)
            && (next.diagnostic == MalformedReply <==> f.OtherFailure?)
  {
  }

  /** A success is dated by its completion, clears all failures and keeps the daily rhythm; only a register that knows
      its digest says which profile the Directory has now. */
  lemma SuccessRecorded(st: State, completedAt: Time, reply: Reply, digest: string, daily: nat)
    requires completedAt != ZERO_TIME
    ensures var next := SuccessState(st, completedAt, reply, digest, daily);
            && next.registered && next.lastSuccess == next.lastObserved == completedAt
            && next.attempt == 0 && next.diagnostic == Clear
            && (next.lastOutcome == Registered <==> reply.isRegister)
            && (next.lastOutcome == Heartbeat <==> !reply.isRegister)
            && NOMINAL_HEARTBEAT <= next.nextAttempt - Truncate(completedAt) <= NOMINAL_HEARTBEAT + 2 * HOUR
            && (if reply.isRegister && |digest| == 64
                then next.profileDigest == digest && next.profileProtocolVersion == reply.version
                else next.profileDigest == st.profileDigest && next.profileProtocolVersion == st.profileProtocolVersion)
  {
    HeartbeatDeadline(completedAt, daily);
  }

  /** Suppression is visible to every scheduler and forgets nothing else. */
  lemma SuppressionRecorded(st: State, now: Time, registered: bool)
    ensures var next := DisabledState(st, now, registered);
            && next.lastOutcome == Disabled && next.diagnostic == DisabledEntry
            && next.nextAttempt == ZERO_TIME && next.lastObserved == now && next.registered == registered
            && next.lastSuccess == st.lastSuccess && next.attempt == st.attempt
            && next.profileDigest == st.profileDigest && next.profileProtocolVersion == st.profileProtocolVersion
  {
  }

  lemma SuccessStatePersistable(st: State, completedAt: Time, reply: Reply, digest: string, daily: nat)
    requires ValidState(st) && completedAt >= ZERO_TIME
    requires 1 <= reply.version <= 3 && (|digest| == 64 ==> ValidDigest(digest))
    ensures Persistable(SuccessState(st, completedAt, reply, digest, daily))
  {
    if completedAt != ZERO_TIME {
      HeartbeatDeadline(completedAt, daily);
    }
  }

  /** Reading a persisted state back keeps the invariant. */
  lemma WholeSecondsPersistable(st: State)
    requires Persistable(st) && Storable(st)
    requires st.nextAttempt != ZERO_TIME ==> Truncate(st.lastObserved) == st.lastObserved
    ensures Persistable(WholeSeconds(st))
  {
    assert Truncate(ZERO_TIME) == ZERO_TIME;
    TimeRoundTrip(st.nextAttempt);
    TimeRoundTrip(st.lastObserved);
    if st.nextAttempt != ZERO_TIME {
      assert Truncate(st.nextAttempt) <= st.nextAttempt;
      assert Unix(st.lastObserved) + 30 <= Unix(st.nextAttempt);
    }
  }

  /** The scheduler's own clock floor and its field-by-field update of a state. */
  class Scheduler {
    var lastNow: Time

    constructor ()
      ensures lastNow == ZERO_TIME
    {
      lastNow := ZERO_TIME;
    }

    /** Never earlier than any earlier answer or the persisted observation, whatever the clock does. */
    method MonotonicNow(clock: Time, persisted: Time) returns (now: Time)
      modifies this
      ensures now == Later(Later(Truncate(clock), old(lastNow)), persisted)
      ensures lastNow == now >= old(lastNow)
    {
      now := Truncate(clock);
      if now < lastNow {
        now := lastNow;
      }
      if now < persisted {
        now := persisted;
      }
      lastNow := now;
    }

    method BoundDelay(local: Duration, after: Duration) returns (delay: Duration)
      ensures delay == BoundedDelay(local, after)
      ensures delay <= MAXIMUM_RETRY_AFTER
      ensures local <= MAXIMUM_RETRY_AFTER && after <= MAXIMUM_RETRY_AFTER ==> local <= delay && after <= delay
    {
      delay := local;
      if after > delay {
        delay := after;
      }
      if delay > MAXIMUM_RETRY_AFTER {
        delay := MAXIMUM_RETRY_AFTER;
      }
    }

    method ApplyFailure(st: State, now: Time, f: Failure, daily: nat, retry: nat) returns (next: State)
      requires ValidState(st)
      ensures next == FailureState(st, now, f, daily, retry)
    {
      next := st.(lastObserved := now);
      var (outcome, diagnostic) := Classify(f);
      next := next.(lastOutcome := outcome, diagnostic := diagnostic);
      if outcome != Retrying {
        next := next.(attempt := 0, nextAttempt := NextHeartbeatAttempt(now, daily));
        return;
      }
      var attempt := next.attempt + 1;
      if attempt > MAXIMUM_ATTEMPT {
        attempt := MAXIMUM_ATTEMPT;
      }
      assert attempt == NextAttemptNumber(st.attempt);
      var delay := BoundDelay(RetryDelay(attempt, retry), RetryAfter(f));
      next := next.(attempt := attempt);
      next := next.(nextAttempt := now + delay);
    }
  }
}
