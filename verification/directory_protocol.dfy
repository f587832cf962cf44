/** Every interleaving of scheduler cycles, unregister commands and manual lifecycle commands
    for one Directory origin, over the lease, the state hash and the durable configuration entry. */
module DirectoryProtocol {
  import opened Text
  import opened DirectoryState
  import opened DirectoryStore

  const CALL_TIMEOUT: int := 30_000

  datatype Kind = SchedulerCycle | UnregisterCommand | LifecycleCommand

  datatype Phase =
    | Configured     // lifecycle command has read the entry as enabled, no lease yet
    | Acquired
    | Reloaded
    | Cleared        // scheduler has rechecked the durable entry under the lease
    | Calling        // register or heartbeat may be in flight until `until`
    | Returned
    | EntryDisabled  // unregister has durably disabled the entry
    | Suppressed     // ... and persisted the suppression under the lease
    | Unregistering  // ... and sent the remote unregister
    | Unregistered
    | Finished       // only release is left
    | Orphaned       // crashed while calling; its request may be in flight until `until`

  datatype Proc = Proc(
    kind: Kind,
    phase: Phase,
    token: nat,
    acquiredAt: int,
    state: State,
    base: Option<Stored>, // the record this process last read or wrote
    until: int,
    lost: bool)

  datatype World = World(
    now: int,
    slot: Slot,
    enabled: bool,
    procs: map<nat, Proc>,
    nextToken: nat)

  datatype Event =
    | Tick(elapsed: nat)
    | EnableEntry
    | Configure(p: nat)
    | Acquire(p: nat, kind: Kind)
    | Reload(p: nat)
    | Recheck(p: nat)
    | StartCall(p: nat)
    | EndCall(p: nat)
    | Renew(p: nat)
    | SaveSuccess(p: nat, clock: Time, reply: Reply, digest: string, daily: nat)
    | SaveFailure(p: nat, clock: Time, failure: Failure, daily: nat, retry: nat)
    | DisableEntry(p: nat)
    | Suppress(p: nat, clock: Time)
    | SendUnregister(p: nat)
    | Answer(p: nat, ok: bool)
    | Finalize(p: nat, clock: Time)
    | Release(p: nat)
    | Abandon(p: nat) // crash, or a release that did not reach Redis

  predicate At(w: World, p: nat, phase: Phase) {
    p in w.procs && w.procs[p].phase == phase
  }

  predicate IsUnregisterAt(w: World, p: nat, phase: Phase) {
    At(w, p, phase) && w.procs[p].kind == UnregisterCommand
  }

  predicate CanStep(w: World, e: Event) {
    match e
    case Tick(_) => true
    case EnableEntry => true
    case Configure(p) => p !in w.procs && w.enabled
    case Acquire(p, kind) =>
      && Free(w.slot, w.now)
      && (if kind == LifecycleCommand then At(w, p, Configured) && w.procs[p].kind == LifecycleCommand
          else p !in w.procs)
    case Reload(p) => At(w, p, Acquired)
    case Recheck(p) => At(w, p, Reloaded) && w.procs[p].kind == SchedulerCycle
    case StartCall(p) =>
      || (At(w, p, Cleared) && w.procs[p].kind == SchedulerCycle)
      || (At(w, p, Reloaded) && w.procs[p].kind == LifecycleCommand && !w.procs[p].lost)
    case EndCall(p) => At(w, p, Calling)
    case Renew(p) =>
      && p in w.procs && w.procs[p].phase !in {Configured, Acquired, Finished, Orphaned}
      && (w.procs[p].kind == SchedulerCycle ==> w.procs[p].phase == Calling)
    case SaveSuccess(p, clock, reply, digest, _) =>
      && At(w, p, Returned) && w.procs[p].kind != UnregisterCommand && !w.procs[p].lost
      && 1 <= reply.version <= 3 && ValidDigest(digest) && clock >= ZERO_TIME
    case SaveFailure(p, clock, _, _, _) =>
      && (At(w, p, Returned) || At(w, p, Cleared)) && w.procs[p].kind == SchedulerCycle
      && clock >= ZERO_TIME
    case DisableEntry(p) => IsUnregisterAt(w, p, Reloaded)
    case Suppress(p, _) => IsUnregisterAt(w, p, EntryDisabled) && !w.procs[p].lost
    case SendUnregister(p) => IsUnregisterAt(w, p, Suppressed) && !w.procs[p].lost
    case Answer(p, _) => IsUnregisterAt(w, p, Unregistering)
    case Finalize(p, _) => IsUnregisterAt(w, p, Unregistered) && !w.procs[p].lost
    case Release(p) => p in w.procs && w.procs[p].phase !in {Configured, Calling, Unregistering, Orphaned}
    case Abandon(p) => p in w.procs && (w.procs[p].phase == Orphaned ==> w.procs[p].until <= w.now)
  }

  function CompletedAt(proc: Proc, clock: Time): Time {
    var observed := Later(Truncate(clock), proc.state.lastObserved);
    if proc.kind == LifecycleCommand then Later(observed, proc.state.lastSuccess) else observed
  }

  /** The state a saving event writes. */
  function NextState(proc: Proc, e: Event): State {
    match e
    case SaveSuccess(_, clock, reply, digest, daily) =>
      SuccessState(proc.state, CompletedAt(proc, clock), reply, digest, daily)
    case SaveFailure(_, clock, failure, daily, retry) =>
      FailureState(proc.state, CompletedAt(proc, clock), failure, daily, retry)
    case Suppress(_, clock) => DisabledState(proc.state, clock, proc.state.registered)
    case Finalize(_, clock) => DisabledState(proc.state, clock, false)
    case _ => proc.state
  }

  predicate IsSave(e: Event) {
    e.SaveSuccess? || e.SaveFailure? || e.Suppress? || e.Finalize?
  }

  /** A save event that returns owned = true. */
  predicate Writes(w: World, e: Event)
    requires CanStep(w, e)
  {
    && IsSave(e)
    && Holds(w.slot, w.now, w.procs[e.p].token)
    && ValidState(NextState(w.procs[e.p], e))
  }

  function Save(w: World, e: Event): World
    requires CanStep(w, e) && IsSave(e)
  {
    var proc := w.procs[e.p];
    var st := NextState(proc, e);
    var slot := SaveOwnedSlot(w.slot, w.now, proc.token, st);
    var after := if Writes(w, e) && e.Suppress? then Suppressed else Finished;
    w.(slot := slot, procs := w.procs[e.p := proc.(phase := after, state := st, base := slot.stored)])
  }

  function Step(w: World, e: Event): World
    requires CanStep(w, e)
  {
    match e
    case Tick(d) => w.(now := w.now + d)
    case EnableEntry => w.(enabled := true)
    case Configure(p) =>
      w.(procs := w.procs[p := Proc(LifecycleCommand, Configured, 0, w.now, EMPTY_STATE, None, w.now, false)])
    case Acquire(p, kind) =>
      w.(slot := AcquireSlot(w.slot, w.now, w.nextToken, LEASE_TTL),
         nextToken := w.nextToken + 1,
         procs := w.procs[p := Proc(kind, Acquired, w.nextToken, w.now, EMPTY_STATE, None, w.now, false)])
    case Reload(p) =>
      var loaded := LoadSlot(w.slot, w.now);
      w.(procs := w.procs[p := if loaded.None? then w.procs[p].(phase := Finished, base := w.slot.stored)
                               else w.procs[p].(phase := Reloaded, state := loaded.value, base := w.slot.stored)])
    case Recheck(p) =>
      w.(procs := w.procs[p := w.procs[p].(phase := if w.enabled then Cleared else Finished)])
    case StartCall(p) =>
      w.(procs := w.procs[p := w.procs[p].(phase := Calling, until := w.now + CALL_TIMEOUT)])
    case EndCall(p) => w.(procs := w.procs[p := w.procs[p].(phase := Returned)])
    case Renew(p) =>
      if Holds(w.slot, w.now, w.procs[p].token) then
        w.(slot := RenewSlot(w.slot, w.now, w.procs[p].token, LEASE_TTL))
      else if w.procs[p].phase in {Calling, Unregistering} then
        w.(procs := w.procs[p := w.procs[p].(phase := Finished, lost := true)])
      else
        w.(procs := w.procs[p := w.procs[p].(lost := true)])
    case SaveSuccess(_, _, _, _, _) => Save(w, e)
    case SaveFailure(_, _, _, _, _) => Save(w, e)
    case DisableEntry(p) =>
      w.(enabled := false, procs := w.procs[p := w.procs[p].(phase := EntryDisabled)])
    case Suppress(_, _) => Save(w, e)
    case SendUnregister(p) =>
      w.(procs := w.procs[p := w.procs[p].(phase := Unregistering, until := w.now + CALL_TIMEOUT)])
    case Answer(p, ok) =>
      w.(procs := w.procs[p := w.procs[p].(phase := if ok then Unregistered else Finished)])
    case Finalize(_, _) => Save(w, e)
    case Release(p) =>
      w.(slot := ReleaseSlot(w.slot, w.now, w.procs[p].token), procs := w.procs - {p})
    case Abandon(p) =>
      if w.procs[p].phase == Calling then w.(procs := w.procs[p := w.procs[p].(phase := Orphaned)])
      else w.(procs := w.procs - {p})
  }

  /** An operator's success is never dated before the last one, and a scheduler's exactly by clock and observation. */
  lemma SuccessNeverGoesBack(proc: Proc, e: Event)
    requires e.SaveSuccess?
    ensures proc.kind == LifecycleCommand ==> proc.state.lastSuccess <= NextState(proc, e).lastSuccess
    ensures proc.state.lastObserved <= NextState(proc, e).lastObserved && Truncate(e.clock) <= NextState(proc, e).lastSuccess
    ensures proc.kind == SchedulerCycle ==> NextState(proc, e).lastSuccess in {Truncate(e.clock), proc.state.lastObserved}
  {
  }

  /** Enabling the entry lets a scheduler through its recheck again; disabling it stops the scheduler there. */
  lemma RecheckFollowsEntry(w: World, p: nat)
    requires At(w, p, Reloaded) && w.procs[p].kind == SchedulerCycle
    ensures At(Step(Step(w, EnableEntry), Recheck(p)), p, Cleared)
    ensures !w.enabled ==> At(Step(w, Recheck(p)), p, Finished)
  {
  }

  /** A renewal that finds the lease gone ends a call under way, and the process offers no save and sends no unregister
      after it. */
  lemma LostRenewalStops(w: World, p: nat, e: Event)
    requires CanStep(w, Renew(p)) && !Holds(w.slot, w.now, w.procs[p].token)
    requires (IsSave(e) || e.SendUnregister?) && e.p == p
    ensures Step(w, Renew(p)).slot == w.slot && !CanStep(Step(w, Renew(p)), e)
    ensures w.procs[p].phase in {Calling, Unregistering} ==> At(Step(w, Renew(p)), p, Finished)
    ensures w.procs[p].kind == LifecycleCommand ==> !CanStep(Step(w, Renew(p)), StartCall(p))
  {
  }

  /** A process that has lost its lease knows it for the rest of its time. */
  lemma LostForGood(w: World, e: Event, p: nat)
    requires CanStep(w, e) && p in w.procs && w.procs[p].phase != Configured && w.procs[p].lost && p in Step(w, e).procs
    ensures Step(w, e).procs[p].lost
  {
    if e.Tick? || e.EnableEntry? || e.p != p {
      OthersUntouched(w, e, p);
    }
  }

  /** A record that does not load ends the process that read it. */
  lemma BadRecordEnds(w: World, p: nat)
    requires CanStep(w, Reload(p)) && LoadSlot(w.slot, w.now).None?
    ensures At(Step(w, Reload(p)), p, Finished) && Step(w, Reload(p)).slot == w.slot
  {
  }

  // ---- runs ----

  predicate Init(w: World) {
    w.slot == Slot(None, None) && w.procs == map[]
  }

  ghost predicate StepAt(ws: seq<World>, es: seq<Event>, k: int) {
    0 <= k < |es| && k + 1 < |ws| && CanStep(ws[k], es[k]) && ws[k + 1] == Step(ws[k], es[k])
  }

  ghost predicate Run(ws: seq<World>, es: seq<Event>) {
    |ws| == |es| + 1 && Init(ws[0]) && forall k | 0 <= k < |es| :: StepAt(ws, es, k)
  }

  // ---- what every reachable world satisfies ----

  /** Tokens are fresh: no two processes share one, and none is ahead of the counter. */
  ghost predicate TokensFresh(w: World) {
    && (w.slot.lease.Some? ==> w.slot.lease.value.token < w.nextToken)
    && (forall p | p in w.procs && w.procs[p].phase != Configured :: w.procs[p].token < w.nextToken)
    && (forall p, q | p in w.procs && q in w.procs && p != q
                      && w.procs[p].phase != Configured && w.procs[q].phase != Configured
          :: w.procs[p].token != w.procs[q].token)
  }

  predicate HasRead(proc: Proc) {
    proc.phase != Configured && proc.phase != Acquired
  }

  /** Whoever holds the lease and has read sees the record it read or wrote last. */
  ghost predicate HolderSeesBase(w: World) {
    forall p | p in w.procs && HasRead(w.procs[p]) && Holds(w.slot, w.now, w.procs[p].token)
      :: w.slot.stored == w.procs[p].base
  }

  /** Before its first time to live is over, an unreleased lease is still in place. */
  ghost predicate LeaseInPlace(w: World) {
    forall p | p in w.procs && w.procs[p].phase != Configured
      :: w.procs[p].acquiredAt <= w.now
         && (w.now < w.procs[p].acquiredAt + LEASE_TTL ==>
               Holds(w.slot, w.now, w.procs[p].token)
               && w.procs[p].acquiredAt + LEASE_TTL <= w.slot.lease.value.deadline)
  }

  ghost predicate Sane(w: World) {
    TokensFresh(w) && HolderSeesBase(w) && LeaseInPlace(w)
  }

  /** How a step may change a process's identity ... */
  ghost predicate KeepsIdentity(w: World, e: Event, w': World, p: nat)
    requires p in w'.procs
  {
    || (&& p in w.procs
        && w'.procs[p].token == w.procs[p].token
        && w'.procs[p].acquiredAt == w.procs[p].acquiredAt
        && w'.procs[p].kind == w.procs[p].kind
        && (w'.procs[p].phase == Configured <==> w.procs[p].phase == Configured))
    || (&& e.Acquire? && e.p == p
        && w'.procs[p].token == w.nextToken < w'.nextToken
        && w'.procs[p].acquiredAt == w.now
        && w'.procs[p].phase == Acquired)
    || (e.Configure? && w'.procs[p].phase == Configured)
  }

  /** ... and the lease key. */
  ghost predicate LeaseChange(w: World, e: Event, w': World) {
    || (!e.Acquire? && w'.slot.lease == w.slot.lease)
    || (e.Acquire? && Free(w.slot, w.now) && w'.slot.lease == Some(Lease(w.nextToken, w.now + LEASE_TTL))
        && w.nextToken < w'.nextToken)
    || (&& e.Renew? && w.slot.lease.Some? && w.now < w.slot.lease.value.deadline && w'.now == w.now
        && w'.slot.lease == Some(Lease(w.slot.lease.value.token, w.now + LEASE_TTL)))
    || (e.Release? && e.p in w.procs && e.p !in w'.procs && w.procs[e.p].phase != Configured
        && Holds(w.slot, w.now, w.procs[e.p].token)
        && w'.slot.lease.None?)
  }

  ghost predicate Frame(w: World, e: Event, w': World) {
    && w.now <= w'.now
    && (e.Tick? || w'.now == w.now)
    && w.nextToken <= w'.nextToken
    && LeaseChange(w, e, w')
    && (forall p | p in w'.procs :: KeepsIdentity(w, e, w', p))
  }

  /** A step changes no process but its own. */
  lemma OthersUntouched(w: World, e: Event, p: nat)
    requires CanStep(w, e) && p in w.procs
    requires e.Tick? || e.EnableEntry? || e.p != p
    ensures p in Step(w, e).procs && Step(w, e).procs[p] == w.procs[p]
  {
  }

  lemma StepKeepsIdentity(w: World, e: Event, p: nat)
    requires CanStep(w, e) && p in Step(w, e).procs
    ensures KeepsIdentity(w, e, Step(w, e), p)
  {
  }

  lemma StepChangesLease(w: World, e: Event)
    requires CanStep(w, e)
    ensures LeaseChange(w, e, Step(w, e))
  {
  }

  lemma StepFrame(w: World, e: Event)
    requires CanStep(w, e)
    ensures Frame(w, e, Step(w, e))
  {
    StepChangesLease(w, e);
    var w' := Step(w, e);
    forall p | p in w'.procs ensures KeepsIdentity(w, e, w', p) {
      StepKeepsIdentity(w, e, p);
    }
  }

  lemma TokensFreshStep(w: World, e: Event, w': World)
    requires TokensFresh(w) && Frame(w, e, w')
    ensures TokensFresh(w')
  {
  }

  lemma LeaseInPlaceStep(w: World, e: Event, w': World)
    requires TokensFresh(w) && LeaseInPlace(w) && Frame(w, e, w')
    ensures LeaseInPlace(w')
  {
    forall p | p in w'.procs && w'.procs[p].phase != Configured
      ensures w'.procs[p].acquiredAt <= w'.now
      ensures w'.now < w'.procs[p].acquiredAt + LEASE_TTL ==>
                Holds(w'.slot, w'.now, w'.procs[p].token)
                && w'.procs[p].acquiredAt + LEASE_TTL <= w'.slot.lease.value.deadline
    {
      assert KeepsIdentity(w, e, w', p);
      if p in w.procs && w.procs[p].phase != Configured {
        assert w.procs[p].acquiredAt <= w.now;
      }
    }
  }

  lemma HoldStepsBack(w: World, e: Event, w': World, t: nat)
    requires Frame(w, e, w') && t < w.nextToken
    requires Holds(w'.slot, w'.now, t)
    ensures Holds(w.slot, w.now, t)
  {
  }

  /** The record only ever changes by an accepted save. */
  lemma OnlySavesWrite(w: World, e: Event)
    requires CanStep(w, e) && !Writes(w, e)
    ensures Step(w, e).slot.stored == w.slot.stored
  {
  }

  /** After a step a process has the base it had, or the record as it now is. */
  lemma BaseStep(w: World, e: Event, p: nat)
    requires CanStep(w, e) && p in Step(w, e).procs && HasRead(Step(w, e).procs[p])
    ensures (p in w.procs && HasRead(w.procs[p]) && Step(w, e).procs[p].base == w.procs[p].base)
            || Step(w, e).procs[p].base == Step(w, e).slot.stored
  {
    if p in w.procs && (e.Tick? || e.EnableEntry? || e.p != p) {
      OthersUntouched(w, e, p);
    } else if IsSave(e) {
      OwnSaveBase(w, e);
    }
  }

  lemma OwnSaveBase(w: World, e: Event)
    requires CanStep(w, e) && IsSave(e)
    ensures e.p in Step(w, e).procs && Step(w, e).procs[e.p].base == Step(w, e).slot.stored
  {
  }

  lemma HolderSeesBaseStep(w: World, e: Event)
    requires TokensFresh(w) && HolderSeesBase(w) && CanStep(w, e)
    ensures HolderSeesBase(Step(w, e))
  {
    var w' := Step(w, e);
    StepFrame(w, e);
    forall p | p in w'.procs && HasRead(w'.procs[p]) && Holds(w'.slot, w'.now, w'.procs[p].token)
      ensures w'.slot.stored == w'.procs[p].base
    {
      BaseStep(w, e, p);
      if w'.procs[p].base != w'.slot.stored {
        OldBaseIsCurrent(w, e, p);
      }
    }
  }

  lemma OldBaseIsCurrent(w: World, e: Event, p: nat)
    requires TokensFresh(w) && HolderSeesBase(w) && CanStep(w, e) && Frame(w, e, Step(w, e))
    requires p in w.procs && p in Step(w, e).procs && HasRead(w.procs[p]) && HasRead(Step(w, e).procs[p])
    requires Holds(Step(w, e).slot, Step(w, e).now, Step(w, e).procs[p].token)
    requires Step(w, e).procs[p].base == w.procs[p].base
    ensures Step(w, e).slot.stored == w.procs[p].base
  {
    KeptIdentity(w, e, Step(w, e), p);
    HoldStepsBack(w, e, Step(w, e), w.procs[p].token);
    if !Writes(w, e) {
      OnlySavesWrite(w, e);
    } else if e.p == p {
      OwnSaveBase(w, e);
    }
  }

  /** A process that had read keeps its token; it does not acquire again. */
  lemma KeptIdentity(w: World, e: Event, w': World, p: nat)
    requires CanStep(w, e) && w' == Step(w, e) && Frame(w, e, w')
    requires p in w.procs && p in w'.procs && HasRead(w.procs[p])
    ensures w'.procs[p].token == w.procs[p].token
  {
    assert KeepsIdentity(w, e, w', p);
  }

  lemma SaneStep(w: World, e: Event)
    requires Sane(w) && CanStep(w, e)
    ensures Sane(Step(w, e))
  {
    StepFrame(w, e);
    TokensFreshStep(w, e, Step(w, e));
    LeaseInPlaceStep(w, e, Step(w, e));
    HolderSeesBaseStep(w, e);
  }

  lemma {:induction false} SaneThroughout(ws: seq<World>, es: seq<Event>, k: nat)
    requires Run(ws, es) && k < |ws|
    ensures Sane(ws[k])
  {
    if k > 0 {
      SaneThroughout(ws, es, k - 1);
      assert StepAt(ws, es, k - 1);
      SaneStep(ws[k - 1], es[k - 1]);
    }
  }
}
