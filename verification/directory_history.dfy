/** What every persisted scheduler state satisfies over a whole run, and how it moves in time. */
module DirectoryHistory {
  import opened Text
  import opened DirectoryState
  import opened DirectoryStore
  import opened DirectoryProtocol
  import opened DirectoryFencing

  const MAX_CLOCK: Time := 253_402_300_799_000 // the end of year 9999

  predicate ClockRange(t: Time) {
    SECOND <= t <= MAX_CLOCK
  }

  /** Wall clocks may step in any direction inside this range. */
  predicate SaneClock(e: Event) {
    match e
    case SaveSuccess(_, clock, _, _, _) => ClockRange(clock)
    case SaveFailure(_, clock, _, _, _) => ClockRange(clock)
    case Suppress(_, clock) => ClockRange(clock)
    case Finalize(_, clock) => ClockRange(clock)
    case _ => true
  }

  ghost predicate SaneClocks(es: seq<Event>) {
    forall k | 0 <= k < |es| :: SaneClock(es[k])
  }

  predicate TimeOk(t: Time) {
    t == ZERO_TIME || ClockRange(t)
  }

  predicate Whole(st: State) {
    WholeSeconds(st) == st
  }

  predicate Sound(st: State) {
    && Persistable(st)
    && TimeOk(st.lastObserved) && TimeOk(st.lastSuccess)
    && (st.nextAttempt != ZERO_TIME ==>
          st.lastObserved != ZERO_TIME && Truncate(st.lastObserved) == st.lastObserved)
  }

  lemma TruncateOk(t: Time)
    requires TimeOk(t)
    ensures TimeOk(Truncate(t)) && Truncate(Truncate(t)) == Truncate(t) && (Truncate(t) == ZERO_TIME <==> t == ZERO_TIME)
  {
    TimeRoundTrip(t);
  }

  lemma SoundWhole(st: State)
    requires Sound(st) && Storable(st)
    ensures Sound(WholeSeconds(st))
  {
    WholeSecondsPersistable(st);
    TruncateOk(st.lastObserved);
    TruncateOk(st.lastSuccess);
  }

  /** A sound state is read back, to the second, as a sound state. */
  lemma SoundReadsBack(st: State)
    requires Sound(st)
    ensures ParseFields(StateArguments(st)) == Some(WholeSeconds(st))
    ensures Sound(WholeSeconds(st)) && Whole(WholeSeconds(st))
  {
    assert Storable(st);
    SaveLoadRoundTrip(st);
    SoundWhole(st);
  }

  ghost predicate SoundRecord(f: Fields) {
    exists st :: Sound(st) && f == StateArguments(st)
  }

  ghost predicate SoundProc(proc: Proc) {
    HasRead(proc) && proc.phase != Finished ==>
      Sound(proc.state) && (proc.kind != UnregisterCommand ==> Whole(proc.state))
  }

  ghost predicate SoundWorld(w: World) {
    && (w.slot.stored.Some? ==> SoundRecord(w.slot.stored.value.fields))
    && (forall p | p in w.procs :: SoundProc(w.procs[p]))
  }

  lemma SoundLoad(slot: Slot, now: int)
    requires slot.stored.Some? ==> SoundRecord(slot.stored.value.fields)
    ensures LoadSlot(slot, now).Some?
    ensures Sound(LoadSlot(slot, now).value) && Whole(LoadSlot(slot, now).value)
  {
    if slot.stored.Some? && now < slot.stored.value.deadline {
      var st :| Sound(st) && slot.stored.value.fields == StateArguments(st);
      SoundReadsBack(st);
    }
  }

  lemma CompletedAtSound(proc: Proc, clock: Time)
    requires Sound(proc.state) && Whole(proc.state) && ClockRange(clock)
    ensures ClockRange(CompletedAt(proc, clock))
    ensures Truncate(CompletedAt(proc, clock)) == CompletedAt(proc, clock) >= proc.state.lastObserved
  {
  }

  /** Whatever a save event writes is sound, so validateState never rejects it. */
  lemma NextStateSound(w: World, e: Event)
    requires CanStep(w, e) && IsSave(e) && SaneClock(e)
    requires SoundProc(w.procs[e.p])
    ensures Sound(NextState(w.procs[e.p], e))
    ensures !e.Suppress? && !e.Finalize? ==>
              NextState(w.procs[e.p], e).lastObserved == CompletedAt(w.procs[e.p], e.clock)
  {
    var proc := w.procs[e.p];
    match e {
      case SaveSuccess(_, clock, reply, digest, daily) =>
        CompletedAtSound(proc, clock);
        SuccessStatePersistable(proc.state, CompletedAt(proc, clock), reply, digest, daily);
      case SaveFailure(_, clock, failure, daily, retry) =>
        CompletedAtSound(proc, clock);
        FailureStatePersistable(proc.state, CompletedAt(proc, clock), failure, daily, retry);
      case Suppress(_, _) =>
      case Finalize(_, _) =>
    }
  }

  lemma SoundRecordStep(w: World, e: Event)
    requires CanStep(w, e) && SaneClock(e) && SoundWorld(w)
    ensures Step(w, e).slot.stored.Some? ==> SoundRecord(Step(w, e).slot.stored.value.fields)
  {
    if Writes(w, e) {
      NextStateSound(w, e);
      WrittenRecord(w, e);
    } else {
      OnlySavesWrite(w, e);
    }
  }

  lemma SoundProcStep(w: World, e: Event, p: nat)
    requires CanStep(w, e) && SaneClock(e) && SoundWorld(w) && p in Step(w, e).procs
    ensures SoundProc(Step(w, e).procs[p])
  {
    var w' := Step(w, e);
    if p in w.procs && (e.Tick? || e.EnableEntry? || e.p != p) {
      OthersUntouched(w, e, p);
    } else if e.Reload? {
      SoundLoad(w.slot, w.now);
    } else if IsSave(e) {
      assert SoundProc(w.procs[p]);
      NextStateSound(w, e);
      SaveShape(w, e);
    } else {
      OwnStepKeepsState(w, e, p);
    }
  }

  lemma SaveShape(w: World, e: Event)
    requires CanStep(w, e) && IsSave(e)
    ensures e.p in Step(w, e).procs
    ensures var proc := Step(w, e).procs[e.p];
            proc.phase == Finished
            || (e.Suppress? && proc.kind == UnregisterCommand && proc.state == NextState(w.procs[e.p], e))
  {
  }

  lemma OwnStepKeepsState(w: World, e: Event, p: nat)
    requires CanStep(w, e) && SoundWorld(w) && p in Step(w, e).procs
    requires !IsSave(e) && !e.Reload?
    requires p !in w.procs || (!e.Tick? && !e.EnableEntry? && e.p == p)
    ensures SoundProc(Step(w, e).procs[p])
  {
    var w' := Step(w, e);
    StepKeepsIdentity(w, e, p);
    if p in w.procs && HasRead(w.procs[p]) {
      StepKeepsReading(w, e, p);
      OnlyReloadReads(w, e, p);
    } else {
      OnlyReloadReads(w, e, p);
    }
  }

  lemma OnlyReloadReads(w: World, e: Event, p: nat)
    requires CanStep(w, e) && p in Step(w, e).procs && !e.Reload?
    ensures p !in w.procs || !HasRead(w.procs[p]) ==> !HasRead(Step(w, e).procs[p]) || Step(w, e).procs[p].phase == Finished
    ensures p in w.procs && w.procs[p].phase == Finished ==> Step(w, e).procs[p].phase == Finished
  {
  }

  lemma {:induction false} SoundThroughout(ws: seq<World>, es: seq<Event>, k: nat)
    requires Run(ws, es) && SaneClocks(es) && k < |ws|
    ensures SoundWorld(ws[k])
  {
    if k > 0 {
      SoundThroughout(ws, es, k - 1);
      assert StepAt(ws, es, k - 1);
      SoundRecordStep(ws[k - 1], es[k - 1]);
      forall p | p in ws[k].procs ensures SoundProc(ws[k].procs[p]) {
        SoundProcStep(ws[k - 1], es[k - 1], p);
      }
    }
  }

  /** The state invariant. In every run every save event offers a state that passes validation, keeps the
      attempt count and the next-attempt window, and is read back to the second; and at every moment
      the record loads, as a state with the same invariant. */
  lemma PersistedStatesAreSound(ws: seq<World>, es: seq<Event>, k: nat)
    requires Run(ws, es) && SaneClocks(es) && k < |ws|
    ensures LoadSlot(ws[k].slot, ws[k].now).Some? && Persistable(LoadSlot(ws[k].slot, ws[k].now).value)
    ensures k < |es| && IsSave(es[k]) ==>
              && es[k].p in ws[k].procs
              && var st := NextState(ws[k].procs[es[k].p], es[k]);
                 Persistable(st) && ParseFields(StateArguments(st)) == Some(WholeSeconds(st))
  {
    SoundThroughout(ws, es, k);
    SoundLoad(ws[k].slot, ws[k].now);
    if k < |es| && IsSave(es[k]) {
      assert StepAt(ws, es, k);
      NextStateSound(ws[k], es[k]);
      SoundReadsBack(NextState(ws[k].procs[es[k].p], es[k]));
    }
  }

  // ---- LastObserved ----

  function ObservedIn(f: Fields): Time {
    if ParseFields(f).Some? then ParseFields(f).value.lastObserved else ZERO_TIME
  }

  predicate NotExpired(w: World) {
    w.slot.stored.Some? ==> w.now < w.slot.stored.value.deadline
  }

  /** A scheduler or lifecycle process carries the observation instant of the record it read. */
  ghost predicate CarriesObservation(proc: Proc) {
    HasRead(proc) && proc.phase != Finished && proc.kind != UnregisterCommand && proc.base.Some? ==>
      proc.state.lastObserved == ObservedIn(proc.base.value.fields)
  }

  lemma CarriesObservationStep(w: World, e: Event, p: nat)
    requires CanStep(w, e) && SoundWorld(w) && NotExpired(w) && p in Step(w, e).procs
    requires forall q | q in w.procs :: CarriesObservation(w.procs[q])
    ensures CarriesObservation(Step(w, e).procs[p])
  {
    var w' := Step(w, e);
    if p in w.procs && (e.Tick? || e.EnableEntry? || e.p != p) {
      OthersUntouched(w, e, p);
    } else if IsSave(e) {
      SaveShape(w, e);
    } else if e.Reload? {
      SoundLoad(w.slot, w.now);
    } else if p in w.procs && HasRead(w.procs[p]) {
      StepKeepsReading(w, e, p);
      StepFrame(w, e);
      assert KeepsIdentity(w, e, w', p);
    }
  }

  lemma {:induction false} ObservationsCarried(ws: seq<World>, es: seq<Event>, k: nat)
    requires Run(ws, es) && SaneClocks(es) && k < |ws|
    requires forall m | 0 <= m < k :: NotExpired(ws[m])
    ensures forall p | p in ws[k].procs :: CarriesObservation(ws[k].procs[p])
  {
    if k > 0 {
      ObservationsCarried(ws, es, k - 1);
      SoundThroughout(ws, es, k - 1);
      assert StepAt(ws, es, k - 1);
      forall p | p in ws[k].procs ensures CarriesObservation(ws[k].procs[p]) {
        CarriesObservationStep(ws[k - 1], es[k - 1], p);
      }
    }
  }

  lemma ObservedStep(ws: seq<World>, es: seq<Event>, k: nat)
    requires Run(ws, es) && SaneClocks(es) && k < |es|
    requires forall m | 0 <= m <= k :: NotExpired(ws[m])
    requires !es[k].Suppress? && !es[k].Finalize?
    requires ws[k].slot.stored.Some?
    ensures ws[k + 1].slot.stored.Some?
    ensures ObservedIn(ws[k].slot.stored.value.fields) <= ObservedIn(ws[k + 1].slot.stored.value.fields)
  {
    var w, e := ws[k], es[k];
    assert StepAt(ws, es, k);
    if Writes(w, e) {
      SaneThroughout(ws, es, k);
      SoundThroughout(ws, es, k);
      ObservationsCarried(ws, es, k);
      SaveHasPhase(w, e);
      assert SoundProc(w.procs[e.p]) && CarriesObservation(w.procs[e.p]);
      NextStateSound(w, e);
      CompletedAtSound(w.procs[e.p], e.clock);
      SoundReadsBack(NextState(w.procs[e.p], e));
      WrittenRecord(w, e);
    } else {
      OnlySavesWrite(w, e);
    }
  }

  /** Over scheduler and lifecycle writes, without state expiry, LastObserved never decreases,
      whatever the wall clocks of the processes do. */
  lemma {:induction false} LastObservedNeverDecreases(ws: seq<World>, es: seq<Event>, i: nat, j: nat)
    requires Run(ws, es) && SaneClocks(es) && i <= j < |ws|
    requires forall m | 0 <= m < j :: NotExpired(ws[m])
    requires forall m | i <= m < j :: !es[m].Suppress? && !es[m].Finalize?
    requires ws[i].slot.stored.Some?
    ensures ws[j].slot.stored.Some?
    ensures ObservedIn(ws[i].slot.stored.value.fields) <= ObservedIn(ws[j].slot.stored.value.fields)
    decreases j
  {
    if i < j {
      LastObservedNeverDecreases(ws, es, i, j - 1);
      ObservedStep(ws, es, j - 1);
    }
  }
}
