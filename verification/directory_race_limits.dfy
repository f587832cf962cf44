/** The two conditions of the disable/register race are exact: how late a scheduler may start its call, and whether a
    lifecycle command is on its way to the lease when unregister finishes. */
module DirectoryRaceLimits {
  import opened Text
  import opened DirectoryState
  import opened DirectoryStore
  import opened DirectoryProtocol
  import opened DirectoryFencing
  import opened DirectoryRace

  lemma Extend(ws: seq<World>, es: seq<Event>, e: Event) returns (ws': seq<World>, es': seq<Event>)
    requires Run(ws, es) && CanStep(ws[|es|], e)
    ensures es' == es + [e] && ws' == ws + [Step(ws[|es|], e)]
    ensures Run(ws', es')
  {
    es' := es + [e];
    ws' := ws + [Step(ws[|es|], e)];
    forall k | 0 <= k < |es'| ensures StepAt(ws', es', k) {
      if k < |es| {
        assert StepAt(ws, es, k);
      }
    }
  }

  // ---- a wider window lets a call outlive its lease ----

  const START := World(0, Slot(None, None), true, map[], 0)
  const CLEARED := Proc(SchedulerCycle, Cleared, 0, 0, EMPTY_STATE, None, 0, false)
  const CALLER := Proc(SchedulerCycle, Calling, 0, 0, EMPTY_STATE, None, 60_001, false)
  const COMMAND := Proc(UnregisterCommand, Reloaded, 1, 60_000, EMPTY_STATE, None, 60_000, false)

  lemma ClearedLate() returns (ws: seq<World>, es: seq<Event>)
    ensures Run(ws, es) && es == [Acquire(1, SchedulerCycle), Reload(1), Recheck(1), Tick(30_001)]
    ensures ws[4] == World(30_001, Slot(Some(Lease(0, 60_000)), None), true, map[1 := CLEARED], 1)
  {
    ws, es := [START], [];
    ws, es := Extend(ws, es, Acquire(1, SchedulerCycle));
    ws, es := Extend(ws, es, Reload(1));
    ws, es := Extend(ws, es, Recheck(1));
    ws, es := Extend(ws, es, Tick(30_001));
  }

  /** The only scheduler call so far was started 30.001 seconds after its lease was taken. */
  ghost predicate OneLateCall(ws: seq<World>, es: seq<Event>) {
    && 4 < |es| < |ws| && (forall k | 0 <= k < |es| && es[k].StartCall? :: k == 4)
    && es[4] == StartCall(1) && ws[4].now == 30_001 && 1 in ws[4].procs && ws[4].procs[1] == CLEARED
  }

  lemma CallsLate() returns (ws: seq<World>, es: seq<Event>)
    ensures Run(ws, es) && |es| == 6 && OneLateCall(ws, es)
    ensures ws[6] == World(60_000, Slot(Some(Lease(0, 60_000)), None), true, map[1 := CALLER], 1)
  {
    ws, es := ClearedLate();
    ws, es := Extend(ws, es, StartCall(1));
    ws, es := Extend(ws, es, Tick(29_999));
  }

  lemma CommandAcquires() returns (ws: seq<World>, es: seq<Event>)
    ensures Run(ws, es) && |es| == 8 && OneLateCall(ws, es)
    ensures ws[8] == World(60_000, Slot(Some(Lease(1, 120_000)), None), true, map[1 := CALLER, 2 := COMMAND], 2)
  {
    ws, es := CallsLate();
    ws, es := Extend(ws, es, Acquire(2, UnregisterCommand));
    ws, es := Extend(ws, es, Reload(2));
  }

  function SuppressedAt(now: int): Option<Stored> {
    Some(Stored(StateArguments(DisabledState(EMPTY_STATE, 1000, false)), now + STATE_RETENTION))
  }

  const SUPPRESSOR :=
    COMMAND.(phase := Suppressed, state := DisabledState(EMPTY_STATE, 1000, false), base := SuppressedAt(60_000))

  const DISABLED_WORLD :=
    World(60_000, Slot(Some(Lease(1, 120_000)), None), false,
          map[1 := CALLER, 2 := COMMAND.(phase := EntryDisabled)], 2)

  const SUPPRESSED_WORLD :=
    World(60_000, Slot(Some(Lease(1, 120_000)), SuppressedAt(60_000)), false, map[1 := CALLER, 2 := SUPPRESSOR], 2)

  lemma CommandDisables() returns (ws: seq<World>, es: seq<Event>)
    ensures Run(ws, es) && |es| == 9 && OneLateCall(ws, es)
    ensures es[8] == DisableEntry(2) && 2 in ws[8].procs && ws[8].procs[2] == COMMAND
    ensures ws[9] == DISABLED_WORLD
  {
    ws, es := CommandAcquires();
    ws, es := Extend(ws, es, DisableEntry(2));
  }

  lemma Suppressing()
    ensures CanStep(DISABLED_WORLD, Suppress(2, 1000))
    ensures Step(DISABLED_WORLD, Suppress(2, 1000)) == SUPPRESSED_WORLD
  {
    var proc := DISABLED_WORLD.procs[2];
    assert NextState(proc, Suppress(2, 1000)) == DisabledState(EMPTY_STATE, 1000, false);
  }

  lemma CommandSuppresses() returns (ws: seq<World>, es: seq<Event>)
    ensures Run(ws, es) && |es| == 10 && OneLateCall(ws, es)
    ensures es[8] == DisableEntry(2) && es[9] == Suppress(2, 1000) && 2 in ws[8].procs && ws[8].procs[2] == COMMAND
    ensures ws[10] == SUPPRESSED_WORLD
  {
    ws, es := CommandDisables();
    Suppressing();
    ws, es := Extend(ws, es, Suppress(2, 1000));
  }

  /** With any larger window there is a timely run in which the remote unregister is sent while a scheduler's call is
      in flight. */
  lemma WideWindowReopensRace(window: int) returns (ws: seq<World>, es: seq<Event>)
    requires !Fits(window)
    ensures SentAfterDisable(window, ws, es, 8, 10, 11) && InFlight(ws[10], 1)
  {
    ws, es := CommandSuppresses();
    ghost var before := es;
    ws, es := Extend(ws, es, SendUnregister(2));
    assert forall k | 0 <= k < 10 :: es[k] == before[k];
    assert StepAt(ws, es, 8);
    forall k | 0 <= k < |es| ensures Timely(window, ws[k], es[k]) {
    }
  }

  /** The race, exactly: it is closed if and only if a scheduler starts its 30-second call early enough to end within
      its 60-second lease. */
  lemma RaceClosedIff(window: int)
    ensures RaceClosed(window) <==> Fits(window)
  {
    if Fits(window) {
      forall ws, es, d, i, end | SentAfterDisable(window, ws, es, d, i, end) ensures Silent(ws, es, i, end) {
        UnregisterClosesRace(window, ws, es, d, i, end);
      }
    } else {
      var ws, es := WideWindowReopensRace(window);
      assert !Silent(ws, es, 10, 11);
    }
  }

  // ---- a lifecycle command on its way to the lease registers again ----

  predicate ConfiguredAt(w: World, p: nat) {
    p in w.procs && w.procs[p].phase == Configured
  }

  lemma {:induction false} ConfiguredIsManual(ws: seq<World>, es: seq<Event>, k: nat, p: nat)
    requires Run(ws, es) && k < |ws| && ConfiguredAt(ws[k], p)
    ensures ws[k].procs[p].kind == LifecycleCommand
  {
    if k > 0 {
      assert StepAt(ws, es, k - 1);
      StepKeepsIdentity(ws[k - 1], es[k - 1], p);
      if ConfiguredAt(ws[k - 1], p) {
        ConfiguredIsManual(ws, es, k - 1, p);
      }
    }
  }

  /** (vs, fs) goes on after step f of (ws, es), and no one enables the entry. */
  ghost predicate Continues(ws: seq<World>, es: seq<Event>, f: int, vs: seq<World>, fs: seq<Event>)
    requires 0 <= f < |es| < |ws|
  {
    && Run(vs, fs) && ws[..f + 2] <= vs && es[..f + 1] <= fs
    && forall m | f < m < |fs| :: !fs[m].EnableEntry?
  }

  lemma Cut(ws: seq<World>, es: seq<Event>, f: nat)
    requires Run(ws, es) && f < |es|
    ensures Continues(ws, es, f, ws[..f + 2], es[..f + 1])
  {
    var vs, fs := ws[..f + 2], es[..f + 1];
    forall k | 0 <= k < |fs| ensures StepAt(vs, fs, k) {
      assert StepAt(ws, es, k);
    }
  }

  lemma GoOn(ws: seq<World>, es: seq<Event>, f: nat, vs: seq<World>, fs: seq<Event>, e: Event)
    returns (vs': seq<World>, fs': seq<Event>)
    requires f < |es| < |ws| && Continues(ws, es, f, vs, fs) && CanStep(vs[|fs|], e) && !e.EnableEntry?
    ensures Continues(ws, es, f, vs', fs') && vs'[|fs'|] == Step(vs[|fs|], e)
  {
    vs', fs' := Extend(vs, fs, e);
  }

  /** The lease is free, the record can be read, and command p has yet to acquire. */
  ghost predicate Open(w: World, p: nat) {
    && ConfiguredAt(w, p) && w.procs[p].kind == LifecycleCommand
    && Free(w.slot, w.now) && LoadSlot(w.slot, w.now).Some?
  }

  lemma AfterFinalize(ws: seq<World>, es: seq<Event>, f: nat, p: nat)
    requires FinalizedAt(ws, es, f) && ConfiguredAt(ws[f], p)
    ensures var w := ws[f + 1];
            && ConfiguredAt(w, p) && w.procs[p].kind == LifecycleCommand && es[f].p != p
            && At(w, es[f].p, Finished) && Holds(w.slot, w.now, w.procs[es[f].p].token)
            && w.slot.stored.Some? && w.slot.stored.value.deadline == w.now + STATE_RETENTION
  {
    ConfiguredIsManual(ws, es, f, p);
    OthersUntouched(ws[f], es[f], p);
    WrittenRecord(ws[f], es[f]);
  }

  /** The finished command releases, and a record that cannot be read runs out. */
  lemma Clears(ws: seq<World>, es: seq<Event>, f: nat, p: nat) returns (vs: seq<World>, fs: seq<Event>)
    requires FinalizedAt(ws, es, f) && ConfiguredAt(ws[f], p)
    ensures Continues(ws, es, f, vs, fs) && Open(vs[|fs|], p)
  {
    Cut(ws, es, f);
    AfterFinalize(ws, es, f, p);
    vs, fs := GoOn(ws, es, f, ws[..f + 2], es[..f + 1], Release(es[f].p));
    if LoadSlot(vs[|fs|].slot, vs[|fs|].now).None? {
      vs, fs := GoOn(ws, es, f, vs, fs, Tick(STATE_RETENTION));
    }
  }

  ghost predicate ManualReturned(w: World, p: nat) {
    && At(w, p, Returned) && w.procs[p].kind == LifecycleCommand && !w.procs[p].lost
    && Holds(w.slot, w.now, w.procs[p].token) && ValidState(w.procs[p].state)
  }

  lemma ManualReloads(ws: seq<World>, es: seq<Event>, f: nat, vs: seq<World>, fs: seq<Event>, p: nat)
    returns (vs': seq<World>, fs': seq<Event>)
    requires f < |es| < |ws| && Continues(ws, es, f, vs, fs) && Open(vs[|fs|], p)
    ensures Continues(ws, es, f, vs', fs')
    ensures var w := vs'[|fs'|];
            && At(w, p, Reloaded) && w.procs[p].kind == LifecycleCommand && !w.procs[p].lost
            && Holds(w.slot, w.now, w.procs[p].token) && ValidState(w.procs[p].state)
  {
    if vs[|fs|].slot.stored.Some? {
      LoadedStateIsValid(vs[|fs|].slot.stored.value.fields);
    }
    vs', fs' := GoOn(ws, es, f, vs, fs, Acquire(p, LifecycleCommand));
    assert LoadSlot(vs'[|fs'|].slot, vs'[|fs'|].now) == LoadSlot(vs[|fs|].slot, vs[|fs|].now);
    vs', fs' := GoOn(ws, es, f, vs', fs', Reload(p));
  }

  lemma ManualCalls(ws: seq<World>, es: seq<Event>, f: nat, vs: seq<World>, fs: seq<Event>, p: nat)
    returns (vs': seq<World>, fs': seq<Event>)
    requires f < |es| < |ws| && Continues(ws, es, f, vs, fs) && Open(vs[|fs|], p)
    ensures Continues(ws, es, f, vs', fs') && ManualReturned(vs'[|fs'|], p)
  {
    vs', fs' := ManualReloads(ws, es, f, vs, fs, p);
    vs', fs' := GoOn(ws, es, f, vs', fs', StartCall(p));
    vs', fs' := GoOn(ws, es, f, vs', fs', EndCall(p));
  }

  lemma ManualSaves(w: World, p: nat)
    requires ManualReturned(w, p)
    ensures var e := SaveSuccess(p, 1000, Reply(true, 1), seq(64, _ => 'a'), 0);
            CanStep(w, e) && !StoredUnregistered(Step(w, e).slot)
  {
    var e := SaveSuccess(p, 1000, Reply(true, 1), seq(64, _ => 'a'), 0);
    SuccessStatePersistable(w.procs[p].state, CompletedAt(w.procs[p], 1000), e.reply, e.digest, e.daily);
    assert CanStep(w, e) && Writes(w, e);
    WrittenRecord(w, e);
  }

  /** Any lifecycle command that read the entry before it was disabled and has not taken the lease when unregister
      finishes can put `registered` back while the entry stays disabled. */
  lemma ManualRegisterUndoesUnregister(ws: seq<World>, es: seq<Event>, f: nat, p: nat)
    returns (vs: seq<World>, fs: seq<Event>)
    requires FinalizedAt(ws, es, f) && ConfiguredAt(ws[f], p)
    ensures Continues(ws, es, f, vs, fs) && !StoredUnregistered(vs[|fs|].slot)
  {
    vs, fs := Clears(ws, es, f, p);
    vs, fs := ManualCalls(ws, es, f, vs, fs, p);
    ManualSaves(vs[|fs|], p);
    vs, fs := GoOn(ws, es, f, vs, fs, SaveSuccess(p, 1000, Reply(true, 1), seq(64, _ => 'a'), 0));
  }

  /** However the run goes on without enabling the entry, the record says unregistered. */
  ghost predicate StaysUnregistered(ws: seq<World>, es: seq<Event>, f: int)
    requires 0 <= f < |es| < |ws|
  {
    forall vs: seq<World>, fs: seq<Event> | Continues(ws, es, f, vs, fs) :: StoredUnregistered(vs[|fs|].slot)
  }

  lemma ContinuationStays(ws: seq<World>, es: seq<Event>, f: nat, vs: seq<World>, fs: seq<Event>)
    requires FinalizedAt(ws, es, f) && NoneConfigured(ws[f]) && Continues(ws, es, f, vs, fs)
    ensures StoredUnregistered(vs[|fs|].slot)
  {
    assert vs[f] == ws[..f + 2][f] && vs[f + 1] == ws[..f + 2][f + 1] && fs[f] == es[..f + 1][f];
    RegisteredStaysFalse(vs, fs, f, |fs|);
  }

  /** The stored state after unregister, exactly: it stays unregistered until the entry is enabled again if and only if
      no lifecycle command is on its way to the lease at the final save. */
  lemma StaysUnregisteredIff(ws: seq<World>, es: seq<Event>, f: nat)
    requires FinalizedAt(ws, es, f)
    ensures StaysUnregistered(ws, es, f) <==> NoneConfigured(ws[f])
  {
    if NoneConfigured(ws[f]) {
      forall vs: seq<World>, fs: seq<Event> | Continues(ws, es, f, vs, fs) ensures StoredUnregistered(vs[|fs|].slot) {
        ContinuationStays(ws, es, f, vs, fs);
      }
    } else {
      var p :| p in ws[f].procs && ws[f].procs[p].phase == Configured;
      var vs, fs := ManualRegisterUndoesUnregister(ws, es, f, p);
    }
  }

  // ---- such a run ----

  const MANUAL := Proc(LifecycleCommand, Configured, 0, 0, EMPTY_STATE, None, 0, false)
  const UNREGISTER := Proc(UnregisterCommand, Reloaded, 0, 0, EMPTY_STATE, None, 0, false)
  const SUPPRESSING :=
    UNREGISTER.(phase := Suppressed, state := DisabledState(EMPTY_STATE, 1000, false), base := SuppressedAt(0))

  /** An unregister command beside a lifecycle command that has read the entry. */
  function Beside(enabled: bool, stored: Option<Stored>, proc: Proc): World {
    World(0, Slot(Some(Lease(0, 60_000)), stored), enabled, map[1 := MANUAL, 2 := proc], 1)
  }

  lemma BesideReloads() returns (ws: seq<World>, es: seq<Event>)
    ensures Run(ws, es) && |es| == 3 && ws[3] == Beside(true, None, UNREGISTER)
  {
    ws, es := [START], [];
    ws, es := Extend(ws, es, Configure(1));
    ws, es := Extend(ws, es, Acquire(2, UnregisterCommand));
    ws, es := Extend(ws, es, Reload(2));
  }

  lemma BesideDisables() returns (ws: seq<World>, es: seq<Event>)
    ensures Run(ws, es) && |es| == 4 && ws[4] == Beside(false, None, UNREGISTER.(phase := EntryDisabled))
  {
    ws, es := BesideReloads();
    ws, es := Extend(ws, es, DisableEntry(2));
  }

  lemma BesideSuppressing()
    ensures var w := Beside(false, None, UNREGISTER.(phase := EntryDisabled));
            CanStep(w, Suppress(2, 1000)) && Step(w, Suppress(2, 1000)) == Beside(false, SuppressedAt(0), SUPPRESSING)
  {
    assert NextState(UNREGISTER, Suppress(2, 1000)) == DisabledState(EMPTY_STATE, 1000, false);
  }

  lemma BesideSuppresses() returns (ws: seq<World>, es: seq<Event>)
    ensures Run(ws, es) && |es| == 5 && ws[5] == Beside(false, SuppressedAt(0), SUPPRESSING)
  {
    ws, es := BesideDisables();
    BesideSuppressing();
    ws, es := Extend(ws, es, Suppress(2, 1000));
  }

  lemma BesideAnswered() returns (ws: seq<World>, es: seq<Event>)
    ensures Run(ws, es) && |es| == 7
    ensures ws[7] == Beside(false, SuppressedAt(0), SUPPRESSING.(phase := Unregistered, until := 30_000))
  {
    ws, es := BesideSuppresses();
    ws, es := Extend(ws, es, SendUnregister(2));
    ws, es := Extend(ws, es, Answer(2, true));
  }

  lemma BesideFinalizing()
    ensures var w := Beside(false, SuppressedAt(0), SUPPRESSING.(phase := Unregistered, until := 30_000));
            CanStep(w, Finalize(2, 1000)) && Writes(w, Finalize(2, 1000))
  {
    var proc := SUPPRESSING.(phase := Unregistered, until := 30_000);
    assert NextState(proc, Finalize(2, 1000)) == DisabledState(EMPTY_STATE, 1000, false);
  }

  /** A concrete run: a register command reads the entry, an unregister command does all its work before the register
      command takes the lease, and the record does not stay unregistered. */
  lemma LateRegisterExists() returns (ws: seq<World>, es: seq<Event>)
    ensures FinalizedAt(ws, es, 7) && ConfiguredAt(ws[7], 1) && !StaysUnregistered(ws, es, 7)
  {
    ws, es := BesideAnswered();
    BesideFinalizing();
    ghost var before := ws[7];
    ws, es := Extend(ws, es, Finalize(2, 1000));
    assert ws[7] == before && StepAt(ws, es, 7);
    StaysUnregisteredIff(ws, es, 7);
  }
}
