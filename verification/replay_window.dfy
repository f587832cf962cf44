/** Inbound RFC 9421 verification: the time window, the nonce reserved after it, and when the two together admit no
    replay. Times are nanoseconds on one clock. */
module ReplayWindow {
  import opened Text

  const SECOND: int := 1_000_000_000
  const DEFAULT_MAXIMUM_AGE: int := 300_000_000_000
  const DEFAULT_FUTURE_SKEW: int := 30_000_000_000
  const DEFAULT_REPLAY_TTL: int := 600_000_000_000
  const MAX_NONCE_BYTES: int := 256
  const ZERO_TIME: int := -62_135_596_800_000_000_000

  datatype Policy = Policy(maximumAge: int, futureSkew: int, replayTTL: int)

  /** Go's int64 addition. */
  function WrappingAdd(a: int, b: int): int {
    (a + b + 0x8000_0000_0000_0000) % 0x1_0000_0000_0000_0000 - 0x8000_0000_0000_0000
  }

  predicate Int64(x: int) {
    -0x8000_0000_0000_0000 <= x < 0x8000_0000_0000_0000
  }

  /** The signed 64-bit range ends at 2^63. */
  const LIMIT: int := 0x8000_0000_0000_0000

  function OrDefault(value: int, default: int): int {
    if value == 0 then default else value
  }

  function Filled(age: int, skew: int, ttl: int): Policy {
    Policy(OrDefault(age, DEFAULT_MAXIMUM_AGE), OrDefault(skew, DEFAULT_FUTURE_SKEW), OrDefault(ttl, DEFAULT_REPLAY_TTL))
  }

  /** The nonce outlives the time window of its signature. */
  predicate CoversWindow(policy: Policy) {
    policy.maximumAge + policy.futureSkew <= policy.replayTTL
  }

  /** Age and skew add up without wrapping. */
  predicate SumFits(policy: Policy) {
    policy.maximumAge + policy.futureSkew < LIMIT
  }

  /** The duration checks of NewRFC9421Verifier; None is an error. Zero means the default. A policy is accepted exactly
      when its age is at least a second, its skew is not negative, and its replay lifetime covers them or their
      64-bit sum wraps. */
  method NewPolicy(age: int, skew: int, ttl: int) returns (policy: Option<Policy>)
    requires Int64(age) && Int64(skew) && Int64(ttl)
    ensures policy.Some? ==> policy.value == Filled(age, skew, ttl)
    ensures policy.Some? <==>
              var p := Filled(age, skew, ttl);
              SECOND <= p.maximumAge && 0 <= p.futureSkew && (SumFits(p) ==> CoversWindow(p))
              && (!SumFits(p) ==> p.maximumAge + p.futureSkew - 2 * LIMIT <= p.replayTTL)
    ensures policy.Some? ==> (CoversWindow(policy.value) <==> SumFits(policy.value))
  {
    var maximumAge := age;
    if maximumAge == 0 {
      maximumAge := DEFAULT_MAXIMUM_AGE;
    }
    if maximumAge < SECOND {
      return None;
    }
    var futureSkew := skew;
    if futureSkew == 0 {
      futureSkew := DEFAULT_FUTURE_SKEW;
    }
    if futureSkew < 0 {
      return None;
    }
    var replayTTL := ttl;
    if replayTTL == 0 {
      replayTTL := DEFAULT_REPLAY_TTL;
    }
    WrappedSum(maximumAge, futureSkew);
    if replayTTL < WrappingAdd(maximumAge, futureSkew) {
      return None;
    }
    return Some(Policy(maximumAge, futureSkew, replayTTL));
  }

  lemma WrappedSum(a: int, b: int)
    requires 0 <= a < LIMIT && 0 <= b < LIMIT
    ensures WrappingAdd(a, b) == if a + b < LIMIT then a + b else a + b - 2 * LIMIT
  {
  }

  /** The wrap is reachable: a maximum age of 292 years with the default skew and lifetime is accepted, and its window
      is not covered. */
  method WrappedPolicyAccepted() returns (policy: Option<Policy>)
    ensures policy == Some(Policy(LIMIT - 1, DEFAULT_FUTURE_SKEW, DEFAULT_REPLAY_TTL)) && !CoversWindow(policy.value)
  {
    policy := NewPolicy(LIMIT - 1, 0, 0);
  }

  // ---- signature parameters ----

  const REQUIRED: seq<string> := ["@method", "@authority", "@target-uri", "content-digest", "content-type", "date"]
  const ALGORITHM: string := "rsa-v1_5-sha256"

  /** Signature-Input parameters; strings are bytes. */
  datatype Input = Input(covered: seq<string>, keyID: string, algorithm: string, nonce: string, created: int, expires: int)

  predicate InWindow(policy: Policy, created: int, now: int) {
    now - policy.maximumAge <= created <= now + policy.futureSkew
  }

  ghost predicate CoversAll(covered: seq<string>) {
    && (forall i | 0 <= i < |covered| :: covered[i] != "")
    && (forall i, j | 0 <= i < j < |covered| :: covered[i] != covered[j])
    && (forall i | 0 <= i < |REQUIRED| :: REQUIRED[i] in covered)
  }

  /** A component list is accepted exactly when it names no empty or repeated component and every required one. */
  method CheckCovered(covered: seq<string>) returns (ok: bool)
    ensures ok <==> CoversAll(covered)
  {
    var required := set i | 0 <= i < |REQUIRED| :: REQUIRED[i];
    var seen: set<string> := {};
    for i := 0 to |covered|
      invariant forall c :: c in seen <==> c in covered[..i]
      invariant forall c :: c in required <==> c in REQUIRED && c !in covered[..i]
      invariant forall j | 0 <= j < i :: covered[j] != ""
      invariant forall j, k | 0 <= j < k < i :: covered[j] != covered[k]
    {
      var component := covered[i];
      if component == "" {
        return false;
      }
      if component in seen {
        return false;
      }
      seen := seen + {component};
      required := required - {component};
      assert covered[..i + 1] == covered[..i] + [component];
    }
    assert covered[..|covered|] == covered;
    ok := required == {};
    if ok {
      forall i | 0 <= i < |REQUIRED| ensures REQUIRED[i] in covered {
        assert REQUIRED[i] !in required;
      }
    } else {
      var c :| c in required;
      assert c in REQUIRED && c !in covered;
    }
  }

  method ValidateParameters(policy: Policy, input: Input, now: int) returns (ok: bool)
    ensures ok <==>
              && Trim(input.keyID) != "" && input.algorithm == ALGORITHM
              && 0 < |input.nonce| <= MAX_NONCE_BYTES
              && input.created != ZERO_TIME && InWindow(policy, input.created, now)
              && (input.expires != ZERO_TIME ==> input.created <= input.expires && now <= input.expires)
              && CoversAll(input.covered)
  {
    if Trim(input.keyID) == "" || input.algorithm != ALGORITHM {
      return false;
    }
    if input.nonce == "" || |input.nonce| > MAX_NONCE_BYTES {
      return false;
    }
    if input.created == ZERO_TIME || input.created < now - policy.maximumAge || input.created > now + policy.futureSkew {
      return false;
    }
    if input.expires != ZERO_TIME {
      if input.expires < input.created || input.expires < now {
        return false;
      }
    }
    ok := CheckCovered(input.covered);
  }

  // ---- the nonce store ----

  predicate Reserved(deadline: Option<int>, now: int) {
    deadline.Some? && now < deadline.value
  }

  /** SET NX with a time to live; key digests are taken as distinct for distinct key ID and nonce. */
  class RedisNonceStore {
    var now: int
    var deadlines: map<(string, string), int>

    constructor ()
      ensures deadlines == map[]
    {
      now := 0;
      deadlines := map[];
    }

    ghost function DeadlineOf(keyID: string, nonce: string): Option<int>
      reads this
    {
      if (keyID, nonce) in deadlines then Some(deadlines[(keyID, nonce)]) else None
    }

    /** None is an error. */
    method ReserveNonce(keyID: string, nonce: string, ttl: int) returns (reserved: Option<bool>)
      modifies this`deadlines
      ensures reserved.None? <==> Trim(keyID) == "" || nonce == "" || ttl <= 0
      ensures reserved.Some? ==> (reserved.value <==> !Reserved(old(DeadlineOf(keyID, nonce)), now))
      ensures DeadlineOf(keyID, nonce) ==
              if reserved == Some(true) then Some(now + ttl) else old(DeadlineOf(keyID, nonce))
      ensures forall k, n | (k, n) != (keyID, nonce) :: DeadlineOf(k, n) == old(DeadlineOf(k, n))
    {
      if Trim(keyID) == "" || nonce == "" || ttl <= 0 {
        return None;
      }
      if (keyID, nonce) in deadlines && now < deadlines[(keyID, nonce)] {
        return Some(false);
      }
      deadlines := deadlines[(keyID, nonce) := now + ttl];
      return Some(true);
    }
  }

  // ---- runs: any number of concurrent verifications of one key ID and nonce ----

  /** A reservation with a time to live that is not positive is an error. */
  datatype Verdict = Checked | Accepted(at: int) | Replayed | Errored

  /** A verification past its time check, and what became of it. */
  datatype Call = Call(created: int, checkedAt: int, verdict: Verdict)

  datatype World = World(now: int, deadline: Option<int>, calls: seq<Call>)

  datatype Event = Tick(elapsed: nat) | Check(created: int) | Reserve(i: nat)

  /** `delay` bounds the time between a call's clock reading and its reservation. */
  predicate CanStep(policy: Policy, delay: int, w: World, e: Event) {
    match e
    case Tick(_) => true
    case Check(created) => InWindow(policy, created, w.now)
    case Reserve(i) => i < |w.calls| && w.calls[i].verdict == Checked && w.now - w.calls[i].checkedAt <= delay
  }

  function Step(policy: Policy, delay: int, w: World, e: Event): World
    requires CanStep(policy, delay, w, e)
  {
    match e
    case Tick(d) => w.(now := w.now + d)
    case Check(created) => w.(calls := w.calls + [Call(created, w.now, Checked)])
    case Reserve(i) =>
      if policy.replayTTL <= 0 then w.(calls := w.calls[i := w.calls[i].(verdict := Errored)])
      else if Reserved(w.deadline, w.now) then w.(calls := w.calls[i := w.calls[i].(verdict := Replayed)])
      else w.(calls := w.calls[i := w.calls[i].(verdict := Accepted(w.now))], deadline := Some(w.now + policy.replayTTL))
  }

  ghost predicate StepAt(policy: Policy, delay: int, ws: seq<World>, es: seq<Event>, k: int) {
    0 <= k < |es| && k + 1 < |ws| && CanStep(policy, delay, ws[k], es[k]) && ws[k + 1] == Step(policy, delay, ws[k], es[k])
  }

  ghost predicate Run(policy: Policy, delay: int, ws: seq<World>, es: seq<Event>) {
    && |ws| == |es| + 1 && ws[0].deadline == None && ws[0].calls == []
    && forall k | 0 <= k < |es| :: StepAt(policy, delay, ws, es, k)
  }

  predicate AcceptedCall(w: World, i: int) {
    0 <= i < |w.calls| && w.calls[i].verdict.Accepted?
  }

  /** Some created time was accepted twice. */
  ghost predicate DoubleAccept(w: World) {
    exists i, j :: i != j && AcceptedCall(w, i) && AcceptedCall(w, j) && w.calls[i].created == w.calls[j].created
  }

  ghost predicate AcceptedInTime(policy: Policy, delay: int, w: World, i: int)
    requires AcceptedCall(w, i)
  {
    var c := w.calls[i];
    && InWindow(policy, c.created, c.checkedAt)
    && c.checkedAt <= c.verdict.at <= w.now && c.verdict.at - c.checkedAt <= delay
    && w.deadline.Some? && c.verdict.at + policy.replayTTL <= w.deadline.value
  }

  ghost predicate Spaced(policy: Policy, w: World, i: int, j: int)
    requires AcceptedCall(w, i) && AcceptedCall(w, j)
  {
    var a, b := w.calls[i].verdict.at, w.calls[j].verdict.at;
    a + policy.replayTTL <= b || b + policy.replayTTL <= a
  }

  /** Acceptances of one nonce lie a time to live apart, each within the delay of its own time check. */
  ghost predicate Ordered(policy: Policy, delay: int, w: World) {
    && (forall i | 0 <= i < |w.calls| :: InWindow(policy, w.calls[i].created, w.calls[i].checkedAt) && w.calls[i].checkedAt <= w.now)
    && (forall i | AcceptedCall(w, i) :: policy.replayTTL > 0 && AcceptedInTime(policy, delay, w, i))
    && (forall i, j | i != j && AcceptedCall(w, i) && AcceptedCall(w, j) :: Spaced(policy, w, i, j))
  }

  lemma OrderedStep(policy: Policy, delay: int, w: World, e: Event)
    requires CanStep(policy, delay, w, e) && Ordered(policy, delay, w)
    ensures Ordered(policy, delay, Step(policy, delay, w, e))
  {
    var next := Step(policy, delay, w, e);
    forall i | AcceptedCall(next, i) ensures policy.replayTTL > 0 && AcceptedInTime(policy, delay, next, i) {
      assert AcceptedCall(w, i) ==> AcceptedInTime(policy, delay, w, i);
    }
    forall i, j | i != j && AcceptedCall(next, i) && AcceptedCall(next, j) ensures Spaced(policy, next, i, j) {
      if AcceptedCall(w, i) && AcceptedCall(w, j) {
        assert Spaced(policy, w, i, j);
      } else {
        assert AcceptedCall(w, i) ==> AcceptedInTime(policy, delay, w, i);
        assert AcceptedCall(w, j) ==> AcceptedInTime(policy, delay, w, j);
      }
    }
  }

  lemma {:induction false} OrderedThroughout(policy: Policy, delay: int, ws: seq<World>, es: seq<Event>, k: nat)
    requires Run(policy, delay, ws, es) && k < |ws|
    ensures Ordered(policy, delay, ws[k])
  {
    if k > 0 {
      OrderedThroughout(policy, delay, ws, es, k - 1);
      assert StepAt(policy, delay, ws, es, k - 1);
      OrderedStep(policy, delay, ws[k - 1], es[k - 1]);
    }
  }

  /** The slack the policy leaves between its time window and its nonce lifetime. */
  function Slack(policy: Policy): int {
    policy.replayTTL - (policy.maximumAge + policy.futureSkew)
  }

  lemma NoDoubleAccept(policy: Policy, delay: int, ws: seq<World>, es: seq<Event>)
    requires Run(policy, delay, ws, es) && (policy.replayTTL <= 0 || delay < Slack(policy))
    ensures !DoubleAccept(ws[|es|])
  {
    var w := ws[|es|];
    OrderedThroughout(policy, delay, ws, es, |es|);
    forall i, j | i != j && AcceptedCall(w, i) && AcceptedCall(w, j)
      ensures w.calls[i].created != w.calls[j].created
    {
      assert AcceptedInTime(policy, delay, w, i) && AcceptedInTime(policy, delay, w, j) && Spaced(policy, w, i, j);
    }
  }

  lemma Extend(policy: Policy, delay: int, ws: seq<World>, es: seq<Event>, e: Event) returns (xs: seq<World>, fs: seq<Event>)
    requires Run(policy, delay, ws, es) && CanStep(policy, delay, ws[|es|], e)
    ensures Run(policy, delay, xs, fs) && xs[|fs|] == Step(policy, delay, ws[|es|], e)
  {
    xs, fs := ws + [Step(policy, delay, ws[|es|], e)], es + [e];
    forall k | 0 <= k < |fs| ensures StepAt(policy, delay, xs, fs, k) {
      assert k < |es| ==> StepAt(policy, delay, ws, es, k);
    }
  }

  /** A signature stamped as far ahead as allowed is accepted at once. */
  lemma FirstAccept(policy: Policy, delay: int, created: int) returns (ws: seq<World>, es: seq<Event>)
    requires policy.maximumAge > 0 && policy.futureSkew >= 0 && policy.replayTTL > 0 && delay >= 0
    ensures Run(policy, delay, ws, es)
    ensures var t := created - policy.futureSkew;
            ws[|es|] == World(t, Some(t + policy.replayTTL), [Call(created, t, Accepted(t))])
  {
    var t := created - policy.futureSkew;
    ws, es := Extend(policy, delay, [World(t, None, [])], [], Check(created));
    ws, es := Extend(policy, delay, ws, es, Reserve(0));
  }

  /** Without slack, its replay is checked in the last moment it may be and reserved once the nonce is forgotten. */
  lemma SecondAccept(policy: Policy, delay: int, created: int) returns (ws: seq<World>, es: seq<Event>)
    requires policy.maximumAge > 0 && policy.futureSkew >= 0 && policy.replayTTL > 0
    requires delay >= 0 && Slack(policy) <= delay
    ensures Run(policy, delay, ws, es) && DoubleAccept(ws[|es|])
  {
    var t := created - policy.futureSkew;
    var wait := if policy.maximumAge + policy.futureSkew <= policy.replayTTL
                then policy.maximumAge + policy.futureSkew else policy.replayTTL;
    var first := Call(created, t, Accepted(t));
    ws, es := FirstAccept(policy, delay, created);
    ws, es := Extend(policy, delay, ws, es, Tick(wait));
    ws, es := Extend(policy, delay, ws, es, Check(created));
    assert ws[|es|] == World(t + wait, Some(t + policy.replayTTL), [first, Call(created, t + wait, Checked)]);
    ws, es := Extend(policy, delay, ws, es, Tick(policy.replayTTL - wait));
    ws, es := Extend(policy, delay, ws, es, Reserve(1));
    assert AcceptedCall(ws[|es|], 0) && AcceptedCall(ws[|es|], 1);
  }

  ghost predicate ReplayFree(policy: Policy, delay: int) {
    forall ws, es | Run(policy, delay, ws, es) :: !DoubleAccept(ws[|es|])
  }

  /** The replay window, exactly, for every policy the constructor accepts: no key ID, nonce and created time is ever
      accepted twice if and only if the delay from the time check to the reservation stays strictly below the slack,
      or the lifetime is not positive and nothing is ever accepted. */
  lemma ReplayFreeIff(policy: Policy, delay: int)
    requires policy.maximumAge > 0 && policy.futureSkew >= 0 && delay >= 0
    ensures ReplayFree(policy, delay) <==> policy.replayTTL <= 0 || delay < Slack(policy)
  {
    if policy.replayTTL <= 0 || delay < Slack(policy) {
      forall ws, es | Run(policy, delay, ws, es) ensures !DoubleAccept(ws[|es|]) {
        NoDoubleAccept(policy, delay, ws, es);
      }
    } else {
      var ws, es := SecondAccept(policy, delay, 0);
    }
  }
}
