/** A successful SaveOwned proves an unbroken tenure, so its read-modify-write loses nothing. */
module DirectoryFencing {
  import opened Text
  import opened DirectoryState
  import opened DirectoryStore
  import opened DirectoryProtocol

  ghost predicate WritesAt(ws: seq<World>, es: seq<Event>, k: int) {
    StepAt(ws, es, k) && Writes(ws[k], es[k])
  }

  /** Process p is in the tenure that token t identifies. */
  predicate InTenure(w: World, p: nat, t: nat) {
    p in w.procs && w.procs[p].phase != Configured && w.procs[p].token == t
  }

  lemma TenureStepsBack(w: World, e: Event, w': World, p: nat, t: nat)
    requires Frame(w, e, w') && t < w.nextToken && InTenure(w', p, t)
    ensures InTenure(w, p, t)
  {
    assert KeepsIdentity(w, e, w', p);
  }

  lemma {:induction false} TokensGrow(ws: seq<World>, es: seq<Event>, i: nat, k: nat)
    requires Run(ws, es) && i <= k < |ws|
    ensures ws[i].nextToken <= ws[k].nextToken
    decreases k
  {
    if i < k {
      TokensGrow(ws, es, i, k - 1);
      assert StepAt(ws, es, k - 1);
      StepFrame(ws[k - 1], es[k - 1]);
    }
  }

  /** A token held at j and already issued at i was held at every moment in between. */
  lemma {:induction false} HeldWithoutGap(ws: seq<World>, es: seq<Event>, i: nat, k: nat, j: nat, t: nat)
    requires Run(ws, es) && i <= k <= j < |ws|
    requires t < ws[i].nextToken && Holds(ws[j].slot, ws[j].now, t)
    ensures Holds(ws[k].slot, ws[k].now, t)
    decreases j - k
  {
    if k < j {
      HeldWithoutGap(ws, es, i, k + 1, j, t);
      assert StepAt(ws, es, k);
      StepFrame(ws[k], es[k]);
      TokensGrow(ws, es, i, k);
      HoldStepsBack(ws[k], es[k], ws[k + 1], t);
    }
  }

  lemma {:induction false} TenureWithoutGap(ws: seq<World>, es: seq<Event>, i: nat, k: nat, j: nat, p: nat, t: nat)
    requires Run(ws, es) && i <= k <= j < |ws|
    requires t < ws[i].nextToken && InTenure(ws[j], p, t)
    ensures InTenure(ws[k], p, t)
    decreases j - k
  {
    if k < j {
      TenureWithoutGap(ws, es, i, k + 1, j, p, t);
      assert StepAt(ws, es, k);
      StepFrame(ws[k], es[k]);
      TokensGrow(ws, es, i, k);
      TenureStepsBack(ws[k], es[k], ws[k + 1], p, t);
    }
  }

  /** Fencing. If the process that acquired at step i has a save accepted at step j of the same tenure,
      then it held the lease at every moment from i to j, and every write in between was its own. */
  lemma FencedSave(ws: seq<World>, es: seq<Event>, i: nat, j: nat)
    requires Run(ws, es) && i < j < |es|
    requires es[i].Acquire? && WritesAt(ws, es, j) && es[j].p == es[i].p
    requires ws[j].procs[es[j].p].token == ws[i].nextToken
    ensures forall k | i < k <= j :: Holds(ws[k].slot, ws[k].now, ws[i].nextToken)
    ensures forall k | i < k < j && WritesAt(ws, es, k) :: es[k].p == es[i].p
  {
    var p, t := es[i].p, ws[i].nextToken;
    assert StepAt(ws, es, i);
    assert t < ws[i + 1].nextToken;
    forall k | i < k <= j ensures Holds(ws[k].slot, ws[k].now, t) && InTenure(ws[k], p, t) {
      HeldWithoutGap(ws, es, i + 1, k, j, t);
      SaveHasPhase(ws[j], es[j]);
      TenureWithoutGap(ws, es, i + 1, k, j, p, t);
    }
    forall k | i < k < j && WritesAt(ws, es, k) ensures es[k].p == p {
      SaneThroughout(ws, es, k);
      SaveHasPhase(ws[k], es[k]);
      assert InTenure(ws[k], p, t);
    }
  }

  lemma SaveHasPhase(w: World, e: Event)
    requires CanStep(w, e) && IsSave(e)
    ensures e.p in w.procs && HasRead(w.procs[e.p])
  {
  }

  lemma StepKeepsReading(w: World, e: Event, p: nat)
    requires CanStep(w, e) && p in w.procs && HasRead(w.procs[p]) && p in Step(w, e).procs
    requires !(IsSave(e) && e.p == p)
    ensures HasRead(Step(w, e).procs[p])
    ensures Step(w, e).procs[p].state == w.procs[p].state
    ensures Step(w, e).procs[p].base == w.procs[p].base
  {
    if e.Tick? || e.EnableEntry? || e.p != p {
      OthersUntouched(w, e, p);
    }
  }

  lemma ReadingStep(ws: seq<World>, es: seq<Event>, k: nat, p: nat)
    requires Run(ws, es) && k < |es|
    requires p in ws[k].procs && HasRead(ws[k].procs[p]) && p in ws[k + 1].procs
    requires !(IsSave(es[k]) && es[k].p == p)
    ensures HasRead(ws[k + 1].procs[p])
    ensures ws[k + 1].procs[p].state == ws[k].procs[p].state
    ensures ws[k + 1].procs[p].base == ws[k].procs[p].base
  {
    assert StepAt(ws, es, k);
    StepKeepsReading(ws[k], es[k], p);
  }

  lemma AfterReload(ws: seq<World>, es: seq<Event>, l: nat)
    requires l < |es| && StepAt(ws, es, l) && es[l].Reload? && LoadSlot(ws[l].slot, ws[l].now).Some?
    ensures es[l].p in ws[l + 1].procs && HasRead(ws[l + 1].procs[es[l].p])
    ensures ws[l + 1].procs[es[l].p].base == ws[l].slot.stored
    ensures ws[l + 1].procs[es[l].p].state == LoadSlot(ws[l].slot, ws[l].now).value
  {
  }

  /** One process reloads at step l and has its next save accepted at step j of the same tenure. */
  ghost predicate ReadModifyWrite(ws: seq<World>, es: seq<Event>, l: int, j: int) {
    && 0 <= l < j < |es|
    && StepAt(ws, es, l) && es[l].Reload? && LoadSlot(ws[l].slot, ws[l].now).Some?
    && WritesAt(ws, es, j) && es[j].p == es[l].p
    && ws[j].procs[es[j].p].token == ws[l].procs[es[l].p].token
    && (forall m | l < m < j && IsSave(es[m]) :: es[m].p != es[l].p)
  }

  /** In between, the process still carries what it read. */
  lemma {:induction false} ReadingKept(ws: seq<World>, es: seq<Event>, l: nat, k: nat, j: nat)
    requires Run(ws, es) && ReadModifyWrite(ws, es, l, j) && l < k <= j
    ensures InTenure(ws[k], es[l].p, ws[j].procs[es[j].p].token)
    ensures HasRead(ws[k].procs[es[l].p])
    ensures ws[k].procs[es[l].p].base == ws[l].slot.stored
    ensures ws[k].procs[es[l].p].state == LoadSlot(ws[l].slot, ws[l].now).value
    decreases k
  {
    var p := es[l].p;
    var t := ws[j].procs[p].token;
    SaneThroughout(ws, es, l);
    SaveHasPhase(ws[j], es[j]);
    TenureWithoutGap(ws, es, l, k, j, p, t);
    if k == l + 1 {
      AfterReload(ws, es, l);
    } else {
      ReadingKept(ws, es, l, k - 1, j);
      ReadingStep(ws, es, k - 1, p);
    }
  }

  lemma WrittenRecord(w: World, e: Event)
    requires CanStep(w, e) && Writes(w, e)
    ensures Step(w, e).slot.stored ==
            Some(Stored(StateArguments(NextState(w.procs[e.p], e)), w.now + STATE_RETENTION))
    ensures e.p in Step(w, e).procs && Step(w, e).procs[e.p].state == NextState(w.procs[e.p], e)
  {
  }

  /** No lost update: such a save replaces exactly the record that was reloaded, with a state
      computed from that record. */
  lemma NoLostUpdate(ws: seq<World>, es: seq<Event>, l: nat, j: nat)
    requires Run(ws, es) && ReadModifyWrite(ws, es, l, j)
    ensures forall k | l < k <= j :: ws[k].slot.stored == ws[l].slot.stored
    ensures ws[j].procs[es[j].p].state == LoadSlot(ws[l].slot, ws[l].now).value
    ensures ws[j + 1].slot.stored ==
            Some(Stored(StateArguments(NextState(ws[j].procs[es[j].p], es[j])), ws[j].now + STATE_RETENTION))
  {
    var p := es[l].p;
    var t := ws[j].procs[p].token;
    SaneThroughout(ws, es, l);
    forall k | l < k <= j ensures ws[k].slot.stored == ws[l].slot.stored {
      ReadingKept(ws, es, l, k, j);
      HeldWithoutGap(ws, es, l, k, j, t);
      SaneThroughout(ws, es, k);
    }
    ReadingKept(ws, es, l, j, j);
    WrittenRecord(ws[j], es[j]);
  }
}
