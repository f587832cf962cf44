/** Which requests a scheduler cycle sends, and that a stable Directory is soon asked for heartbeats only. */
module DirectoryConvergence {
  import opened DirectoryState
  import opened DirectoryProfile

  // ---- protocol version negotiation ----

  const MAXIMUM_LIFECYCLE_VERSIONS: nat := 8

  ghost predicate StrictlyIncreasing(s: seq<int>) {
    forall i, j | 0 <= i < j < |s| :: s[i] < s[j]
  }

  ghost predicate ValidVersions(schema: int, versions: seq<int>) {
    if schema == 2 || schema == 3 then versions == []
    else
      && schema == 4
      && 0 < |versions| <= MAXIMUM_LIFECYCLE_VERSIONS
      && StrictlyIncreasing(versions)
      && versions[0] == 1
  }

  /** A valid list starts with version 1 and strictly increases. */
  method ValidStatusLifecycleVersions(schema: int, versions: seq<int>) returns (valid: bool)
    ensures valid <==> ValidVersions(schema, versions)
  {
    if schema == 2 || schema == 3 {
      return |versions| == 0;
    }
    if schema != 4 || |versions| == 0 || |versions| > MAXIMUM_LIFECYCLE_VERSIONS {
      return false;
    }
    var previous := 0;
    var hasV1 := false;
    for i := 0 to |versions|
      invariant StrictlyIncreasing(versions[..i])
      invariant forall j | 0 <= j < i :: 0 < versions[j] <= previous
      invariant previous == if i == 0 then 0 else versions[i - 1]
      invariant hasV1 <==> i > 0 && versions[0] == 1
    {
      if versions[i] <= previous {
        assert i == 0 || versions[i] <= versions[i - 1];
        return false;
      }
      previous := versions[i];
      if versions[i] == 1 {
        hasV1 := true;
      }
    }
    assert versions[..|versions|] == versions;
    return hasV1;
  }

  /** The greatest version both sides speak. */
  method NegotiatedProtocolVersion(schema: int, versions: seq<int>) returns (version: int)
    requires ValidVersions(schema, versions)
    ensures 1 <= version <= 3
    ensures versions != [] ==> version in versions
    ensures forall v | v in versions && 1 <= v <= 3 :: v <= version
    ensures versions == [] ==> version == 1
  {
    if schema >= 4 {
      var index := |versions| - 1;
      while index >= 0
        invariant -1 <= index < |versions|
        invariant forall j | index < j < |versions| :: versions[j] > 3
      {
        if 1 <= versions[index] <= 3 {
          return versions[index];
        }
        assert versions[0] == 1 && (index > 0 ==> versions[0] < versions[index]);
        index := index - 1;
      }
    }
    return 1;
  }

  // ---- one heartbeat with register reconciliation ----

  datatype Operation = RegisterCall | HeartbeatCall

  datatype CallResult = Succeeded | NotRegistered | Refused

  /** `remote` is the Directory's answer to the k-th call. */
  method HeartbeatWithRegisterReconciliation(remote: (nat, Operation) -> CallResult)
    returns (sent: seq<Operation>, ok: bool)
    ensures sent == [HeartbeatCall] || sent == [HeartbeatCall, RegisterCall]
            || sent == [HeartbeatCall, RegisterCall, HeartbeatCall]
    ensures |sent| > 1 <==> remote(0, HeartbeatCall) == NotRegistered
    ensures |sent| > 2 <==> |sent| > 1 && remote(1, RegisterCall) == Succeeded
    ensures ok <==> |sent| != 2 && remote(|sent| - 1, HeartbeatCall) == Succeeded
  {
    sent := [HeartbeatCall];
    if remote(0, HeartbeatCall) == Succeeded {
      return sent, true;
    }
    if remote(0, HeartbeatCall) != NotRegistered {
      return sent, false;
    }
    sent := sent + [RegisterCall];
    if remote(1, RegisterCall) != Succeeded {
      return sent, false;
    }
    sent := sent + [HeartbeatCall];
    ok := remote(2, HeartbeatCall) == Succeeded;
  }

  // ---- scheduler cycles against a Directory that always succeeds ----

  predicate StartupDue(st: State, boundary: Time) {
    && boundary != ZERO_TIME
    && (st.lastObserved == ZERO_TIME || st.lastObserved < boundary)
    && st.lastOutcome in {NoOutcome, Registered, Heartbeat}
  }

  predicate ProfileChanged(st: State, digest: string) {
    st.registered && st.profileDigest != digest
  }

  predicate Due(st: State, digest: string, boundary: Time, now: Time) {
    StartupDue(st, boundary) || ProfileChanged(st, digest) || st.nextAttempt == ZERO_TIME || st.nextAttempt <= now
  }

  /** The lifecycle operations one due cycle sends when each of them succeeds. */
  function CycleRequests(st: State, digest: string, version: int): seq<Operation> {
    if st.registered && !ProfileChanged(st, digest) then
      if version >= 2 && st.profileProtocolVersion != version then [HeartbeatCall, RegisterCall]
      else [HeartbeatCall]
    else [RegisterCall]
  }

  /** One cycle as it is observed, with the digest of the client's profile;
      skipped or abandoned cycles leave the state alone. */
  datatype Cycle = Cycle(digest: string, boundary: Time, clock: Time, daily: nat, completes: bool)

  function SentBy(version: int, st: State, c: Cycle): seq<Operation> {
    if c.completes && Due(st, c.digest, c.boundary, Later(Truncate(c.clock), st.lastObserved))
    then CycleRequests(st, c.digest, version) else []
  }

  /** The state the next cycle loads. */
  function AfterCycle(version: int, st: State, c: Cycle): State {
    var sent := SentBy(version, st, c);
    if sent == [] then st
    else
      var reply := Reply(sent[|sent| - 1] == RegisterCall, version);
      WholeSeconds(SuccessState(st, Later(Truncate(c.clock), st.lastObserved), reply, c.digest, c.daily))
  }

  ghost predicate CycleAt(version: int, states: seq<State>, cs: seq<Cycle>, k: int) {
    0 <= k < |cs| && k + 1 < |states| && states[k + 1] == AfterCycle(version, states[k], cs[k])
  }

  ghost predicate CycleRun(version: int, states: seq<State>, cs: seq<Cycle>) {
    |states| == |cs| + 1 && forall k | 0 <= k < |cs| :: CycleAt(version, states, cs, k)
  }

  predicate Settled(st: State, digest: string, version: int) {
    st.registered && st.profileDigest == digest && (version >= 2 ==> st.profileProtocolVersion == version)
  }

  /** A completed cycle settles the state; a settled state sends a heartbeat or nothing and stays settled. */
  lemma CycleSettles(version: int, st: State, c: Cycle)
    requires |c.digest| == 64
    ensures SentBy(version, st, c) != [] ==> Settled(AfterCycle(version, st, c), c.digest, version)
    ensures Settled(st, c.digest, version) ==>
              Settled(AfterCycle(version, st, c), c.digest, version)
              && SentBy(version, st, c) in {[], [HeartbeatCall]}
  {
  }

  ghost predicate OneDigest(cs: seq<Cycle>, digest: string) {
    |digest| == 64 && forall i | 0 <= i < |cs| :: cs[i].digest == digest
  }

  lemma {:induction false} SettledAfter(version: int, states: seq<State>, cs: seq<Cycle>, d: string, i: nat, k: nat)
    requires CycleRun(version, states, cs) && OneDigest(cs, d) && i < k <= |cs|
    requires SentBy(version, states[i], cs[i]) != []
    ensures Settled(states[k], d, version)
    decreases k
  {
    assert CycleAt(version, states, cs, k - 1);
    CycleSettles(version, states[k - 1], cs[k - 1]);
    if k > i + 1 {
      SettledAfter(version, states, cs, d, i, k - 1);
    }
  }

  /** The time a cycle goes by. */
  function CycleTime(st: State, c: Cycle): Time {
    Later(Truncate(c.clock), st.lastObserved)
  }

  /** A completing cycle sends if and only if it is the first since startup, the profile differs from the registered one,
      nothing was ever scheduled, or the next attempt has come. */
  lemma SendsIff(version: int, st: State, c: Cycle)
    requires ZERO_TIME <= st.lastObserved && ZERO_TIME <= c.boundary
    ensures SentBy(version, st, c) != [] <==>
              && c.completes
              && (|| (c.boundary > ZERO_TIME && st.lastObserved < c.boundary
                      && st.lastOutcome in {NoOutcome, Registered, Heartbeat})
                  || (st.registered && st.profileDigest != c.digest)
                  || st.nextAttempt == ZERO_TIME
                  || st.nextAttempt <= CycleTime(st, c))
  {
  }

  lemma {:induction false} UnsentUnchanged(version: int, states: seq<State>, cs: seq<Cycle>, i: nat, j: nat)
    requires CycleRun(version, states, cs) && i <= j <= |cs|
    requires forall m | i <= m < j :: SentBy(version, states[m], cs[m]) == []
    ensures states[j] == states[i]
    decreases j
  {
    if i < j {
      UnsentUnchanged(version, states, cs, i, j - 1);
      assert CycleAt(version, states, cs, j - 1);
    }
  }

  /** The rhythm: with one profile and no restart, the next completing cycle after a success sends nothing for a day, and
      a heartbeat from 26 hours on. */
  lemma NextHeartbeatComes(version: int, states: seq<State>, cs: seq<Cycle>, d: string, i: nat, j: nat)
    requires CycleRun(version, states, cs) && OneDigest(cs, d) && i < j < |cs|
    requires SentBy(version, states[i], cs[i]) != [] && (forall m | i < m < j :: SentBy(version, states[m], cs[m]) == [])
    requires cs[j].completes && CycleTime(states[i], cs[i]) > 0
    requires cs[j].boundary == ZERO_TIME || cs[j].boundary <= states[j].lastObserved
    ensures var since := CycleTime(states[j], cs[j]) - states[j].lastObserved;
            && (since < NOMINAL_HEARTBEAT ==> SentBy(version, states[j], cs[j]) == [])
            && (NOMINAL_HEARTBEAT + 2 * HOUR <= since ==> SentBy(version, states[j], cs[j]) == [HeartbeatCall])
  {
    UnsentUnchanged(version, states, cs, i + 1, j);
    assert CycleAt(version, states, cs, i);
    SettledAfter(version, states, cs, d, i, j);
    HeartbeatDeadline(CycleTime(states[i], cs[i]), cs[i].daily);
    assert states[j].lastObserved == Truncate(CycleTime(states[i], cs[i]));
  }

  // ---- from profiles to digests ----

  /** The parsers and the digest function of one build. */
  datatype Setting = Setting(parsers: Parsers, digestOf: RelayProfile -> string)

  /** The client of each cycle is built from an accepted spelling of one profile. */
  ghost predicate OneProfile(s: Setting, profiles: seq<RelayProfile>, cs: seq<Cycle>) {
    && |profiles| == |cs|
    && (forall i | 0 <= i < |cs| ::
          && NormalizeProfile(s.parsers, profiles[i]).Some?
          && cs[i].digest == s.digestOf(NormalizeProfile(s.parsers, profiles[i]).value)
          && |cs[i].digest| == 64)
    && (forall i | 0 <= i < |cs| :: SameProfile(profiles[0], profiles[i]))
  }

  lemma OneProfileOneDigest(s: Setting, profiles: seq<RelayProfile>, cs: seq<Cycle>)
    requires OneProfile(s, profiles, cs) && cs != []
    ensures OneDigest(cs, cs[0].digest)
  {
    forall i | 0 <= i < |cs| ensures cs[i].digest == cs[0].digest {
      SameProfileSameForm(s.parsers, profiles[0], profiles[i]);
    }
  }

  /** Convergence. From any stored state, with one profile up to list order, duplicates and padding,
      every completed cycle after the first completed one sends exactly a heartbeat. */
  lemma OnlyHeartbeatsAfterFirst(s: Setting, profiles: seq<RelayProfile>, version: int,
                                 states: seq<State>, cs: seq<Cycle>, i: nat, j: nat)
    requires CycleRun(version, states, cs) && OneProfile(s, profiles, cs) && i < j < |cs|
    requires SentBy(version, states[i], cs[i]) != [] && SentBy(version, states[j], cs[j]) != []
    ensures SentBy(version, states[j], cs[j]) == [HeartbeatCall]
  {
    OneProfileOneDigest(s, profiles, cs);
    SettledAfter(version, states, cs, cs[0].digest, i, j);
    CycleSettles(version, states[j], cs[j]);
  }

  /** Hence at most one completed cycle of a run sends a register. */
  lemma AtMostOneRegisteringCycle(s: Setting, profiles: seq<RelayProfile>, version: int,
                                  states: seq<State>, cs: seq<Cycle>, i: nat, j: nat)
    requires CycleRun(version, states, cs) && OneProfile(s, profiles, cs) && i < |cs| && j < |cs|
    requires RegisterCall in SentBy(version, states[i], cs[i])
    requires RegisterCall in SentBy(version, states[j], cs[j])
    ensures i == j
  {
    if i < j {
      OnlyHeartbeatsAfterFirst(s, profiles, version, states, cs, i, j);
    } else if j < i {
      OnlyHeartbeatsAfterFirst(s, profiles, version, states, cs, j, i);
    }
  }
}
