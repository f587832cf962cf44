/** How long a lease lasts: exactly as long as its process keeps renewing it in time. */
module DirectoryLease {
  import opened Text
  import opened DirectoryStore
  import opened DirectoryProtocol
  import opened DirectoryFencing

  /** Step k is an Acquire or Renew that, if Redis grants it, sets the lease of token t anew. */
  ghost predicate Touches(ws: seq<World>, es: seq<Event>, k: int, t: nat) {
    && StepAt(ws, es, k)
    && ((es[k].Acquire? && ws[k].nextToken == t) || (es[k].Renew? && InTenure(ws[k], es[k].p, t)))
  }

  ghost predicate ReleasesAt(ws: seq<World>, es: seq<Event>, k: int, t: nat) {
    StepAt(ws, es, k) && es[k].Release? && InTenure(ws[k], es[k].p, t)
  }

  ghost predicate Unreleased(ws: seq<World>, es: seq<Event>, i: nat, k: nat, t: nat) {
    forall m | i <= m < k :: !ReleasesAt(ws, es, m, t)
  }

  /** At moment m less than a time to live has passed since the process last asked. */
  ghost predicate InTime(ws: seq<World>, es: seq<Event>, i: nat, m: nat, t: nat) {
    exists j :: i <= j < m < |ws| && Touches(ws, es, j, t) && ws[m].now < ws[j].now + LEASE_TTL
  }

  // ---- one step ----

  /** An accepted renewal starts a whole new time to live. */
  lemma RenewExtends(w: World, p: nat)
    requires CanStep(w, Renew(p)) && Holds(w.slot, w.now, w.procs[p].token)
    ensures Step(w, Renew(p)).slot.lease == Some(Lease(w.procs[p].token, w.now + LEASE_TTL))
  {
  }

  /** A release by the holder frees the lease at once, so that any process may take it. */
  lemma ReleaseFrees(w: World, p: nat, q: nat, kind: Kind)
    requires CanStep(w, Release(p)) && Holds(w.slot, w.now, w.procs[p].token)
    requires q !in w.procs && kind != LifecycleCommand
    ensures CanStep(Step(w, Release(p)), Acquire(q, kind))
  {
  }

  /** No lease reaches further than a time to live. */
  predicate Bounded(w: World) {
    w.slot.lease.Some? ==> w.slot.lease.value.deadline <= w.now + LEASE_TTL
  }

  lemma {:induction false} BoundedThroughout(ws: seq<World>, es: seq<Event>, k: nat)
    requires Run(ws, es) && k < |ws|
    ensures Bounded(ws[k])
  {
    if k > 0 {
      BoundedThroughout(ws, es, k - 1);
      assert StepAt(ws, es, k - 1);
      StepFrame(ws[k - 1], es[k - 1]);
    }
  }

  /** A token whose time has not run out and that is not given back stays in place with at least its deadline. */
  lemma KeptStep(w: World, e: Event, t: nat)
    requires CanStep(w, e) && Bounded(w) && Holds(w.slot, w.now, t)
    requires !(e.Release? && InTenure(w, e.p, t))
    ensures Step(w, e).slot.lease.Some? && Step(w, e).slot.lease.value.token == t
    ensures w.slot.lease.value.deadline <= Step(w, e).slot.lease.value.deadline
  {
    StepChangesLease(w, e);
  }

  // ---- runs ----

  lemma {:induction false} LeaseKept(ws: seq<World>, es: seq<Event>, i: nat, k: nat, t: nat)
    requires Run(ws, es) && i <= k < |ws| && Unreleased(ws, es, i, k, t)
    requires Holds(ws[i].slot, ws[i].now, t) && ws[k].now < ws[i].slot.lease.value.deadline
    ensures Holds(ws[k].slot, ws[k].now, t)
    ensures ws[i].slot.lease.value.deadline <= ws[k].slot.lease.value.deadline
    decreases k
  {
    if i < k {
      assert StepAt(ws, es, k - 1);
      StepFrame(ws[k - 1], es[k - 1]);
      LeaseKept(ws, es, i, k - 1, t);
      BoundedThroughout(ws, es, k - 1);
      assert !ReleasesAt(ws, es, k - 1, t);
      KeptStep(ws[k - 1], es[k - 1], t);
    }
  }

  /** After an accepted renewal the lease is held for a whole time to live unless its process releases it. */
  lemma RenewalHolds(ws: seq<World>, es: seq<Event>, i: nat, k: nat, t: nat)
    requires Run(ws, es) && i < k < |ws| && es[i].Renew? && InTenure(ws[i], es[i].p, t)
    requires Holds(ws[i].slot, ws[i].now, t) && Unreleased(ws, es, i + 1, k, t) && ws[k].now < ws[i].now + LEASE_TTL
    ensures Holds(ws[k].slot, ws[k].now, t)
  {
    assert StepAt(ws, es, i);
    RenewExtends(ws[i], es[i].p);
    TimeGrows(ws, es, i + 1, k);
    LeaseKept(ws, es, i + 1, k, t);
  }

  lemma {:induction false} TimeGrows(ws: seq<World>, es: seq<Event>, i: nat, k: nat)
    requires Run(ws, es) && i <= k < |ws|
    ensures ws[i].now <= ws[k].now
    decreases k
  {
    if i < k {
      TimeGrows(ws, es, i, k - 1);
      assert StepAt(ws, es, k - 1);
      StepFrame(ws[k - 1], es[k - 1]);
    }
  }

  /** Asking while the lease is held, or taking it, makes it last a whole time to live from then on. */
  lemma TouchHolds(ws: seq<World>, es: seq<Event>, a: nat, j: nat, k: nat, t: nat)
    requires Run(ws, es) && a <= j < k < |ws| && es[a].Acquire? && t == ws[a].nextToken
    requires Touches(ws, es, j, t) && (j == a || Holds(ws[j].slot, ws[j].now, t))
    requires Unreleased(ws, es, a, k, t) && ws[k].now < ws[j].now + LEASE_TTL
    ensures Holds(ws[k].slot, ws[k].now, t)
  {
    if j == a {
      assert ws[j + 1].slot.lease == Some(Lease(t, ws[j].now + LEASE_TTL));
    } else {
      assert StepAt(ws, es, a);
      TokensGrow(ws, es, a + 1, j);
      RenewExtends(ws[j], es[j].p);
    }
    TimeGrows(ws, es, j + 1, k);
    LeaseKept(ws, es, j + 1, k, t);
  }

  lemma {:induction false} InTimeHolds(ws: seq<World>, es: seq<Event>, a: nat, k: nat, t: nat)
    requires Run(ws, es) && a < k < |ws| && es[a].Acquire? && t == ws[a].nextToken
    requires Unreleased(ws, es, a, k, t) && forall m | a < m <= k :: InTime(ws, es, a, m, t)
    ensures Holds(ws[k].slot, ws[k].now, t)
    decreases k
  {
    assert InTime(ws, es, a, k, t);
    var j :| a <= j < k && Touches(ws, es, j, t) && ws[k].now < ws[j].now + LEASE_TTL;
    if a < j {
      InTimeHolds(ws, es, a, j, t);
    }
    TouchHolds(ws, es, a, j, k, t);
  }

  /** A live lease was last set by an Acquire or Renew of its own process, a time to live before its deadline. */
  lemma {:induction false} DeadlineHasTouch(ws: seq<World>, es: seq<Event>, a: nat, k: nat, t: nat) returns (j: nat)
    requires Run(ws, es) && a < k < |ws| && es[a].Acquire? && t == ws[a].nextToken
    requires Holds(ws[k].slot, ws[k].now, t)
    ensures a <= j < k && Touches(ws, es, j, t) && ws[k].slot.lease.value.deadline == ws[j].now + LEASE_TTL
    decreases k
  {
    assert StepAt(ws, es, a) && StepAt(ws, es, k - 1);
    if k == a + 1 {
      return a;
    }
    TokensGrow(ws, es, a + 1, k - 1);
    StepFrame(ws[k - 1], es[k - 1]);
    HoldStepsBack(ws[k - 1], es[k - 1], ws[k], t);
    j := DeadlineHasTouch(ws, es, a, k - 1, t);
    if ws[k].slot.lease != ws[k - 1].slot.lease {
      SaneThroughout(ws, es, k - 1);
      assert es[k - 1].Renew?;
      j := k - 1;
    }
  }

  /** A lease, exactly: a process that has not released its lease holds it if and only if at every moment since it took
      it, less than a time to live had passed since it last asked. So renewing often enough keeps it for any length of
      time, and one late renewal loses it for good. */
  lemma HeldIffRenewedInTime(ws: seq<World>, es: seq<Event>, a: nat, k: nat, t: nat)
    requires Run(ws, es) && a < k < |ws| && es[a].Acquire? && t == ws[a].nextToken
    requires Unreleased(ws, es, a, k, t)
    ensures Holds(ws[k].slot, ws[k].now, t) <==> forall m | a < m <= k :: InTime(ws, es, a, m, t)
  {
    if Holds(ws[k].slot, ws[k].now, t) {
      assert StepAt(ws, es, a);
      forall m | a < m <= k ensures InTime(ws, es, a, m, t) {
        HeldWithoutGap(ws, es, a + 1, m, k, t);
        var j := DeadlineHasTouch(ws, es, a, m, t);
        assert ws[m].now < ws[j].now + LEASE_TTL;
      }
    } else if forall m | a < m <= k :: InTime(ws, es, a, m, t) {
      InTimeHolds(ws, es, a, k, t);
    }
  }
}
