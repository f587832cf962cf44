/** The disable/register race: after a coordinated unregister no scheduler request is in flight,
    none starts, and the stored state stays unregistered, until the entry is enabled again. */
module DirectoryRace {
  import opened DirectoryStore
  import opened DirectoryProtocol
  import opened DirectoryFencing

  predicate IsScheduler(w: World, p: nat) {
    p in w.procs && w.procs[p].kind == SchedulerCycle
  }

  /** A call goes on until it returns or times out, whether or not its process is still there. */
  predicate OnTheWire(proc: Proc) {
    proc.phase == Calling || proc.phase == Orphaned
  }

  predicate InFlight(w: World, p: nat) {
    IsScheduler(w, p) && OnTheWire(w.procs[p]) && w.now < w.procs[p].until
  }

  predicate CanStillStart(window: int, w: World, p: nat) {
    IsScheduler(w, p) && w.procs[p].phase == Cleared && w.now <= w.procs[p].acquiredAt + window
  }

  predicate IsSchedulerStart(w: World, e: Event) {
    e.StartCall? && IsScheduler(w, e.p)
  }

  /** The timing assumption: a scheduler starts its bounded call within `window` of taking its lease. */
  predicate Timely(window: int, w: World, e: Event) {
    IsSchedulerStart(w, e) ==> w.now <= w.procs[e.p].acquiredAt + window
  }

  ghost predicate TimelyRun(window: int, ws: seq<World>, es: seq<Event>) {
    Run(ws, es) && forall k | 0 <= k < |es| :: Timely(window, ws[k], es[k])
  }

  /** A window that leaves room for one whole call before the lease can run out. */
  predicate Fits(window: int) {
    window <= LEASE_TTL - CALL_TIMEOUT
  }

  ghost predicate CallsBounded(w: World) {
    forall p | IsScheduler(w, p) && OnTheWire(w.procs[p]) :: w.procs[p].until <= w.procs[p].acquiredAt + LEASE_TTL
  }

  ghost predicate Quiet(window: int, w: World) {
    !w.enabled && forall p | p in w.procs :: !InFlight(w, p) && !CanStillStart(window, w, p)
  }

  lemma CallsBoundedStep(window: int, w: World, e: Event)
    requires CanStep(w, e) && CallsBounded(w) && Timely(window, w, e) && Fits(window)
    ensures CallsBounded(Step(w, e))
  {
    var w' := Step(w, e);
    forall p | IsScheduler(w', p) && OnTheWire(w'.procs[p])
      ensures w'.procs[p].until <= w'.procs[p].acquiredAt + LEASE_TTL
    {
      if p in w.procs && (e.Tick? || e.EnableEntry? || e.p != p) {
        OthersUntouched(w, e, p);
      }
    }
  }

  lemma {:induction false} CallsBoundedThroughout(window: int, ws: seq<World>, es: seq<Event>, k: nat)
    requires TimelyRun(window, ws, es) && k < |ws| && Fits(window)
    ensures CallsBounded(ws[k])
  {
    if k > 0 {
      CallsBoundedThroughout(window, ws, es, k - 1);
      assert StepAt(ws, es, k - 1);
      CallsBoundedStep(window, ws[k - 1], es[k - 1]);
    }
  }

  /** While a command holds the lease, every scheduler's first time to live is over. */
  lemma HolderSilencesSchedulers(window: int, w: World, c: nat)
    requires Sane(w) && CallsBounded(w) && !w.enabled && Fits(window)
    requires c in w.procs && w.procs[c].phase != Configured && w.procs[c].kind != SchedulerCycle
    requires Holds(w.slot, w.now, w.procs[c].token)
    ensures Quiet(window, w)
  {
    forall p | p in w.procs ensures !InFlight(w, p) && !CanStillStart(window, w, p) {
      if IsScheduler(w, p) && w.procs[p].phase != Configured {
        assert w.procs[p].token != w.procs[c].token;
        assert w.procs[p].acquiredAt + LEASE_TTL <= w.now;
      }
    }
  }

  lemma QuietStep(window: int, w: World, e: Event)
    requires CanStep(w, e) && Quiet(window, w) && Timely(window, w, e) && !e.EnableEntry?
    ensures Quiet(window, Step(w, e)) && !IsSchedulerStart(w, e)
  {
    var w' := Step(w, e);
    assert e.StartCall? && IsScheduler(w, e.p) ==> CanStillStart(window, w, e.p);
    forall p | p in w'.procs ensures !InFlight(w', p) && !CanStillStart(window, w', p) {
      if p in w.procs && (e.Tick? || e.p != p) {
        OthersUntouched(w, e, p);
      }
    }
  }

  /** After its DisableEntry, an unregister tenure that got past suppression has silenced the schedulers. */
  ghost predicate Guarded(window: int, w: World, c: nat, t: nat) {
    && !w.enabled
    && (InTenure(w, c, t) ==> w.procs[c].phase == EntryDisabled || w.procs[c].phase == Finished || Quiet(window, w))
  }

  lemma GuardedStep(window: int, w: World, e: Event, c: nat, t: nat)
    requires CanStep(w, e) && Sane(w) && CallsBounded(w) && Timely(window, w, e) && !e.EnableEntry? && Fits(window)
    requires Guarded(window, w, c, t) && t < w.nextToken
    requires InTenure(w, c, t) ==> w.procs[c].kind == UnregisterCommand
    ensures Guarded(window, Step(w, e), c, t)
  {
    var w' := Step(w, e);
    if Quiet(window, w) {
      QuietStep(window, w, e);
    } else if InTenure(w', c, t) {
      StepFrame(w, e);
      TenureStepsBack(w, e, w', c, t);
      if e.Tick? || e.p != c {
        OthersUntouched(w, e, c);
      } else if e.Suppress? && Writes(w, e) {
        HolderSilencesSchedulers(window, w, c);
      }
    }
  }

  lemma GuardedRunStep(window: int, ws: seq<World>, es: seq<Event>, k: nat, c: nat, t: nat)
    requires TimelyRun(window, ws, es) && k < |es| && !es[k].EnableEntry? && Fits(window)
    requires Guarded(window, ws[k], c, t) && t < ws[k].nextToken
    requires InTenure(ws[k], c, t) ==> ws[k].procs[c].kind == UnregisterCommand
    ensures Guarded(window, ws[k + 1], c, t) && t < ws[k + 1].nextToken
    ensures InTenure(ws[k + 1], c, t) ==> ws[k + 1].procs[c].kind == UnregisterCommand
  {
    assert StepAt(ws, es, k);
    SaneThroughout(ws, es, k);
    CallsBoundedThroughout(window, ws, es, k);
    GuardedStep(window, ws[k], es[k], c, t);
    StepFrame(ws[k], es[k]);
    if InTenure(ws[k + 1], c, t) {
      TenureStepsBack(ws[k], es[k], ws[k + 1], c, t);
      assert KeepsIdentity(ws[k], es[k], ws[k + 1], c);
    }
  }

  /** Command c disables at step d and no one enables the entry before step `end`. */
  ghost predicate DisabledSince(ws: seq<World>, es: seq<Event>, d: int, end: int) {
    && 0 <= d < end <= |es| && |ws| == |es| + 1
    && StepAt(ws, es, d) && es[d].DisableEntry?
    && (forall k | d <= k < end :: !es[k].EnableEntry?)
  }

  lemma {:induction false} GuardedFromDisable(window: int, ws: seq<World>, es: seq<Event>, d: nat, k: nat, end: nat)
    requires TimelyRun(window, ws, es) && DisabledSince(ws, es, d, end) && d < k <= end && Fits(window)
    ensures var c := es[d].p; var t := ws[d].procs[c].token;
            && Guarded(window, ws[k], c, t) && t < ws[k].nextToken
            && (InTenure(ws[k], c, t) ==> ws[k].procs[c].kind == UnregisterCommand)
    decreases k
  {
    var c := es[d].p;
    var t := ws[d].procs[c].token;
    if k == d + 1 {
      SaneThroughout(ws, es, d);
    } else {
      GuardedFromDisable(window, ws, es, d, k - 1, end);
      GuardedRunStep(window, ws, es, k - 1, c, t);
    }
  }

  lemma {:induction false} QuietFrom(window: int, ws: seq<World>, es: seq<Event>, i: nat, k: nat)
    requires TimelyRun(window, ws, es) && i <= k < |ws| && Quiet(window, ws[i])
    requires forall m | i <= m < k :: !es[m].EnableEntry?
    ensures Quiet(window, ws[k])
    decreases k
  {
    if i < k {
      QuietFrom(window, ws, es, i, k - 1);
      assert StepAt(ws, es, k - 1);
      QuietStep(window, ws[k - 1], es[k - 1]);
    }
  }

  /** In a timely run an unregister command disables the entry at step d and sends its remote request at step i of the
      same tenure, and no one enables the entry before step `end`. */
  ghost predicate SentAfterDisable(window: int, ws: seq<World>, es: seq<Event>, d: int, i: int, end: int) {
    && TimelyRun(window, ws, es) && DisabledSince(ws, es, d, end) && d < i < end
    && es[i].SendUnregister? && es[i].p == es[d].p
    && InTenure(ws[i], es[i].p, ws[d].procs[es[d].p].token)
  }

  /** From step i to step `end` no scheduler request is in flight and none starts. */
  ghost predicate Silent(ws: seq<World>, es: seq<Event>, i: int, end: int)
    requires 0 <= i < end <= |es| && |ws| == |es| + 1
  {
    && (forall k, p | i <= k <= end :: !InFlight(ws[k], p))
    && (forall k | i <= k < end :: !IsSchedulerStart(ws[k], es[k]))
  }

  lemma UnregisterClosesRace(window: int, ws: seq<World>, es: seq<Event>, d: nat, i: nat, end: nat)
    requires SentAfterDisable(window, ws, es, d, i, end) && Fits(window)
    ensures Silent(ws, es, i, end)
  {
    GuardedFromDisable(window, ws, es, d, i, end);
    assert StepAt(ws, es, i);
    assert Quiet(window, ws[i]);
    forall k, p | i <= k <= end ensures !InFlight(ws[k], p) {
      QuietFrom(window, ws, es, i, k);
    }
    forall k | i <= k < end ensures !IsSchedulerStart(ws[k], es[k]) {
      QuietFrom(window, ws, es, i, k);
      assert StepAt(ws, es, k);
      QuietStep(window, ws[k], es[k]);
    }
  }

  /** Once its remote request is sent, unregister never meets a scheduler request. */
  ghost predicate RaceClosed(window: int) {
    forall ws, es, d, i, end | SentAfterDisable(window, ws, es, d, i, end) :: Silent(ws, es, i, end)
  }

  // ---- the stored state stays unregistered ----

  predicate StoredUnregistered(slot: Slot) {
    slot.stored.Some? ==> slot.stored.value.fields.registered == "0"
  }

  /** No lifecycle command has read the entry as enabled and still has to take the lease. */
  ghost predicate NoneConfigured(w: World) {
    forall p | p in w.procs :: w.procs[p].phase != Configured
  }

  /** A holder that could still write can only write `registered = false`. */
  predicate Harmless(proc: Proc) {
    match proc.kind
    case SchedulerCycle => proc.phase !in {Cleared, Calling, Returned}
    case UnregisterCommand => HasRead(proc) && proc.phase != Finished ==> !proc.state.registered
    case LifecycleCommand => false
  }

  ghost predicate Retired(w: World) {
    && !w.enabled
    && StoredUnregistered(w.slot)
    && (forall p | p in w.procs && Holds(w.slot, w.now, w.procs[p].token) :: Harmless(w.procs[p]))
  }

  lemma LoadOfUnregistered(slot: Slot, now: int)
    requires StoredUnregistered(slot) && LoadSlot(slot, now).Some?
    ensures !LoadSlot(slot, now).value.registered
  {
  }

  lemma RetiredSlotStep(w: World, e: Event)
    requires CanStep(w, e) && Retired(w) && NoneConfigured(w)
    ensures StoredUnregistered(Step(w, e).slot)
  {
    if Writes(w, e) {
      assert Harmless(w.procs[e.p]);
    } else {
      OnlySavesWrite(w, e);
    }
  }

  lemma RetiredOwnStep(w: World, e: Event)
    requires CanStep(w, e) && Retired(w) && NoneConfigured(w)
    requires !e.Tick? && !e.EnableEntry? && !e.Configure? && e.p in Step(w, e).procs
    requires Holds(Step(w, e).slot, w.now, Step(w, e).procs[e.p].token)
    requires e.Acquire? || Holds(w.slot, w.now, w.procs[e.p].token)
    ensures Harmless(Step(w, e).procs[e.p])
  {
    if e.Reload? && LoadSlot(w.slot, w.now).Some? {
      LoadOfUnregistered(w.slot, w.now);
    }
    assert e.Acquire? || Harmless(w.procs[e.p]);
  }

  lemma NoneConfiguredStep(w: World, e: Event)
    requires CanStep(w, e) && NoneConfigured(w) && !w.enabled
    ensures NoneConfigured(Step(w, e))
  {
    var w' := Step(w, e);
    forall p | p in w'.procs ensures w'.procs[p].phase != Configured {
      StepKeepsIdentity(w, e, p);
    }
  }

  lemma RetiredStep(w: World, e: Event)
    requires CanStep(w, e) && Sane(w) && Retired(w) && NoneConfigured(w)
    requires !e.EnableEntry?
    ensures Retired(Step(w, e)) && NoneConfigured(Step(w, e))
  {
    var w' := Step(w, e);
    StepFrame(w, e);
    RetiredSlotStep(w, e);
    NoneConfiguredStep(w, e);
    EnabledOnlyByEnable(w, e);
    forall p | p in w'.procs && Holds(w'.slot, w'.now, w'.procs[p].token) ensures Harmless(w'.procs[p]) {
      assert KeepsIdentity(w, e, w', p);
      if p in w.procs && !e.Acquire? {
        assert w'.procs[p].token == w.procs[p].token;
        HoldStepsBack(w, e, w', w.procs[p].token);
        assert Harmless(w.procs[p]);
      }
      if e.Tick? || e.p != p {
        OthersUntouched(w, e, p);
      } else {
        RetiredOwnStep(w, e);
      }
    }
  }

  lemma EnabledOnlyByEnable(w: World, e: Event)
    requires CanStep(w, e) && !w.enabled && !e.EnableEntry?
    ensures !Step(w, e).enabled
  {
  }

  lemma {:induction false} RetiredFrom(ws: seq<World>, es: seq<Event>, f: nat, k: nat)
    requires Run(ws, es) && f <= k < |ws| && Retired(ws[f]) && NoneConfigured(ws[f])
    requires forall m | f <= m < k :: !es[m].EnableEntry?
    ensures Retired(ws[k]) && NoneConfigured(ws[k])
    decreases k
  {
    if f < k {
      RetiredFrom(ws, es, f, k - 1);
      SaneThroughout(ws, es, k - 1);
      assert StepAt(ws, es, k - 1);
      RetiredStep(ws[k - 1], es[k - 1]);
    }
  }

  /** The final save of an unregister command is accepted at step f, with the entry disabled. */
  ghost predicate FinalizedAt(ws: seq<World>, es: seq<Event>, f: int) {
    Run(ws, es) && WritesAt(ws, es, f) && es[f].Finalize? && !ws[f].enabled
  }

  lemma FinalizeRetires(ws: seq<World>, es: seq<Event>, f: nat)
    requires FinalizedAt(ws, es, f) && NoneConfigured(ws[f])
    ensures Retired(ws[f + 1]) && NoneConfigured(ws[f + 1])
  {
    var w, w' := ws[f], ws[f + 1];
    SaneThroughout(ws, es, f);
    NoneConfiguredStep(w, es[f]);
    forall p | p in w'.procs && Holds(w'.slot, w'.now, w'.procs[p].token) ensures Harmless(w'.procs[p]) {
    }
  }

  /** After the final save of unregister every later record says unregistered, up to the next enabling, if at that
      moment no lifecycle command is still on its way to the lease. No timing assumption is needed. */
  lemma RegisteredStaysFalse(ws: seq<World>, es: seq<Event>, f: nat, k: nat)
    requires FinalizedAt(ws, es, f) && NoneConfigured(ws[f]) && f < k < |ws|
    requires forall m | f <= m < k :: !es[m].EnableEntry?
    ensures StoredUnregistered(ws[k].slot)
    ensures LoadSlot(ws[k].slot, ws[k].now).Some? ==> !LoadSlot(ws[k].slot, ws[k].now).value.registered
  {
    FinalizeRetires(ws, es, f);
    RetiredFrom(ws, es, f + 1, k);
    if LoadSlot(ws[k].slot, ws[k].now).Some? {
      LoadOfUnregistered(ws[k].slot, ws[k].now);
    }
  }
}
