/** Why an Announce flood over any set of relays ends: from any moment of any run, what can still happen within one
    retention time is bounded. */
module RelayMeshBound {
  import opened Text
  import opened RelayFanout
  import opened RelayMesh

  function Attempts(ms: seq<Message>): nat {
    if ms == [] then 0 else Attempts(ms[..|ms| - 1]) + ms[|ms| - 1].attempts
  }

  /** What one fan-out can add: every target, every attempt. */
  function Quota(mesh: Mesh): nat {
    3 * mesh.maxFanout * mesh.attempts
  }

  function Budget(quota: nat, n: nat): nat {
    if n == 0 then 0 else Budget(quota, n - 1) + quota
  }

  lemma {:induction false} BudgetIsProduct(quota: nat, n: nat)
    ensures Budget(quota, n) == quota * n
  {
    if n > 0 {
      BudgetIsProduct(quota, n - 1);
      assert quota * n == quota * (n - 1) + quota;
    }
  }

  lemma {:induction false} AttemptsUpdate(ms: seq<Message>, m: nat)
    requires m < |ms| && ms[m].attempts > 0
    ensures Attempts(ms[m := ms[m].(attempts := ms[m].attempts - 1)]) == Attempts(ms) - 1
    decreases |ms|
  {
    var ms' := ms[m := ms[m].(attempts := ms[m].attempts - 1)];
    if m < |ms| - 1 {
      AttemptsUpdate(ms[..|ms| - 1], m);
      assert ms'[..|ms| - 1] == ms[..|ms| - 1][m := ms[m].(attempts := ms[m].attempts - 1)];
    } else {
      assert ms'[..|ms| - 1] == ms[..|ms| - 1];
    }
  }

  lemma {:induction false} AttemptsAppend(ms: seq<Message>, extra: seq<Message>, budget: nat)
    requires forall i | 0 <= i < |extra| :: extra[i].attempts == budget
    ensures Attempts(ms + extra) == Attempts(ms) + budget * |extra|
    decreases |extra|
  {
    if extra == [] {
      assert ms + extra == ms;
    } else {
      AttemptsAppend(ms, extra[..|extra| - 1], budget);
      assert (ms + extra)[..|ms + extra| - 1] == ms + extra[..|extra| - 1];
      assert budget * |extra| == budget * (|extra| - 1) + budget;
    }
  }

  lemma {:induction false} KeptLength(plan: Receiver -> bool, rs: seq<Receiver>)
    ensures |Kept(plan, rs)| <= |rs|
    decreases |rs|
  {
    if rs != [] {
      KeptLength(plan, rs[..|rs| - 1]);
    }
  }

  // ---- what jobs still owe ----

  function Weight(p: Phase): nat {
    if p == Fanning then 2 else if p == Releasing then 1 else 0
  }

  /** An old job, one of the first `old`, brings its own quota for its fan-out. */
  function Owes(p: Phase, isOld: bool, quota: nat): nat {
    Weight(p) + if p == Fanning && isOld then quota else 0
  }

  function Owed(jobs: seq<Job>, since: nat, quota: nat): nat {
    if jobs == [] then 0
    else Owed(jobs[..|jobs| - 1], since, quota) + Owes(jobs[|jobs| - 1].phase, |jobs| - 1 < since, quota)
  }

  lemma {:induction false} OwedUpdate(jobs: seq<Job>, j: nat, phase: Phase, since: nat, quota: nat)
    requires j < |jobs|
    ensures Owed(jobs[j := jobs[j].(phase := phase)], since, quota) ==
            Owed(jobs, since, quota) - Owes(jobs[j].phase, j < since, quota) + Owes(phase, j < since, quota)
    decreases |jobs|
  {
    var jobs' := jobs[j := jobs[j].(phase := phase)];
    if j < |jobs| - 1 {
      OwedUpdate(jobs[..|jobs| - 1], j, phase, since, quota);
      assert jobs'[..|jobs| - 1] == jobs[..|jobs| - 1][j := jobs[j].(phase := phase)];
    } else {
      assert jobs'[..|jobs| - 1] == jobs[..|jobs| - 1];
    }
  }

  lemma OwedAppend(jobs: seq<Job>, job: Job, since: nat, quota: nat)
    requires since <= |jobs|
    ensures Owed(jobs + [job], since, quota) == Owed(jobs, since, quota) + Weight(job.phase)
  {
    assert (jobs + [job])[..|jobs|] == jobs;
  }

  function CountPhase(jobs: seq<Job>, phase: Phase): nat {
    if jobs == [] then 0
    else CountPhase(jobs[..|jobs| - 1], phase) + (if jobs[|jobs| - 1].phase == phase then 1 else 0)
  }

  lemma {:induction false} OwedByAll(jobs: seq<Job>, since: nat, quota: nat)
    requires |jobs| <= since
    ensures Owed(jobs, since, quota) == (2 + quota) * CountPhase(jobs, Fanning) + CountPhase(jobs, Releasing)
    decreases |jobs|
  {
    if jobs != [] {
      var n := CountPhase(jobs[..|jobs| - 1], Fanning);
      OwedByAll(jobs[..|jobs| - 1], since, quota);
      assert (2 + quota) * (n + 1) == (2 + quota) * n + (2 + quota);
    }
  }

  // ---- canonical IDs that can come up ----

  /** URLs that can come up, and a finite set that holds their canonical IDs. */
  datatype Scope = Scope(reach: string -> bool, keys: set<string>)

  /** Whatever a URL in scope is ever answered with has its canonical ID, and its own ID, in scope. */
  ghost predicate Closed(mesh: Mesh, scope: Scope) {
    forall url, original | scope.reach(url) && mesh.serves(url, original) ::
      KeyOf(original) in scope.keys && scope.reach(original.id)
  }

  ghost function Universe(mesh: Mesh, keys: set<string>): set<(string, string)> {
    set r, k | r in mesh.relays && k in keys :: (r, k)
  }

  ghost predicate MessagesWithin(scope: Scope, ms: seq<Message>) {
    forall m | 0 <= m < |ms| :: scope.reach(ms[m].url)
  }

  predicate JobWithin(mesh: Mesh, job: Job, scope: Scope) {
    job.relay in mesh.relays && Trim(job.id) in scope.keys && scope.reach(job.id)
  }

  ghost predicate JobsWithin(mesh: Mesh, jobs: seq<Job>, scope: Scope) {
    forall j | 0 <= j < |jobs| :: JobWithin(mesh, jobs[j], scope)
  }

  ghost predicate Within(mesh: Mesh, w: World, scope: Scope) {
    MessagesWithin(scope, w.messages) && JobsWithin(mesh, w.jobs, scope)
  }

  lemma DeliverWithin(mesh: Mesh, w: World, e: Event, scope: Scope)
    requires CanStep(mesh, w, e) && e.Deliver? && Closed(mesh, scope) && Within(mesh, w, scope)
    ensures Within(mesh, Step(mesh, w, e), scope)
  {
    assert scope.reach(w.messages[e.m].url);
  }

  lemma WithinStep(mesh: Mesh, w: World, e: Event, scope: Scope)
    requires CanStep(mesh, w, e) && Closed(mesh, scope) && Within(mesh, w, scope)
    ensures Within(mesh, Step(mesh, w, e), scope)
  {
    if e.Deliver? {
      DeliverWithin(mesh, w, e, scope);
    } else if !e.Tick? {
      assert JobWithin(mesh, w.jobs[e.j], scope);
    }
  }

  // ---- potential ----

  predicate NewlyDone(w: World, since: nat, j: nat) {
    since <= j < |w.jobs| && w.jobs[j].phase == Completed
  }

  /** The relays and keys that jobs accepted since have fanned out. */
  ghost function DoneKeys(w: World, since: nat): set<(string, string)> {
    set j: nat | j < |w.jobs| && NewlyDone(w, since, j) :: JobKey(w.jobs[j])
  }

  /** What is left to happen, when `universe` holds every relay and key that can fan out. */
  ghost function Potential(w: World, since: nat, universe: set<(string, string)>, quota: nat): nat {
    3 * Attempts(w.messages) + Owed(w.jobs, since, quota) + Budget(quota, |universe - DoneKeys(w, since)|)
  }

  /** Inside the window that began at t0 with `since` jobs. */
  ghost predicate InWindow(w: World, since: nat, t0: int) {
    && Guarded(w) && since <= |w.jobs| && t0 <= w.now < t0 + ACTIVITY_RETENTION
    && forall j | since <= j < |w.jobs| :: t0 <= w.jobs[j].acceptedAt
  }

  lemma SentCost(mesh: Mesh, n: nat)
    requires n <= mesh.maxFanout
    ensures 3 * (mesh.attempts * n) <= Quota(mesh)
  {
    assert mesh.attempts * n <= mesh.attempts * mesh.maxFanout;
  }

  lemma FanOutAddsMessages(mesh: Mesh, w: World, e: Event)
    requires CanStep(mesh, w, e) && e.FanOut?
    ensures 3 * Attempts(Step(mesh, w, e).messages) <= 3 * Attempts(w.messages) + Quota(mesh)
  {
    var job := w.jobs[e.j];
    var sent := Sent(mesh, job, e.receivers, e.planned);
    AttemptsAppend(w.messages, Announce(mesh, job, e.j, sent, w.now), mesh.attempts);
    KeptLength(r => r in e.planned, JobTargets(mesh, job, e.receivers));
    SentCost(mesh, |sent|);
  }

  /** A job accepted in the window fans out a key that no other job accepted in it has fanned out. */
  lemma NewKey(mesh: Mesh, w: World, j: nat, since: nat, t0: int)
    requires InWindow(w, since, t0) && since <= j && JobAt(w, j, Fanning)
    ensures JobKey(w.jobs[j]) !in DoneKeys(w, since)
  {
    forall c: nat | NewlyDone(w, since, c) ensures JobKey(w.jobs[c]) != JobKey(w.jobs[j]) {
      assert OwnsAt(w, c) && OwnsAt(w, j) && InPlace(w, c) && InPlace(w, j);
      assert c < j ==> Apart(w, c, j);
      assert j < c ==> Apart(w, j, c);
    }
  }

  /** The keys done after one job's phase has changed. */
  lemma DoneKeysUpdate(w: World, w': World, j: nat, phase: Phase, since: nat)
    requires j < |w.jobs| && w.jobs[j].phase != Completed && w'.jobs == w.jobs[j := w.jobs[j].(phase := phase)]
    ensures DoneKeys(w', since) ==
            DoneKeys(w, since) + if phase == Completed && since <= j then {JobKey(w.jobs[j])} else {}
  {
    forall c: nat | c < |w.jobs| && c != j ensures w'.jobs[c] == w.jobs[c] {
    }
    forall key | key in DoneKeys(w, since) ensures key in DoneKeys(w', since) {
      var c: nat :| c < |w.jobs| && NewlyDone(w, since, c) && JobKey(w.jobs[c]) == key;
      assert NewlyDone(w', since, c);
    }
    if phase == Completed && since <= j {
      assert NewlyDone(w', since, j);
    }
    forall key | key in DoneKeys(w', since)
      ensures key in DoneKeys(w, since) || (phase == Completed && since <= j && key == JobKey(w.jobs[j]))
    {
      var c: nat :| c < |w'.jobs| && NewlyDone(w', since, c) && JobKey(w'.jobs[c]) == key;
      assert c != j ==> NewlyDone(w, since, c);
    }
  }

  lemma OneLess(universe: set<(string, string)>, before: set<(string, string)>, key: (string, string))
    requires key in universe && key !in before
    ensures |universe - (before + {key})| == |universe - before| - 1
  {
    assert universe - (before + {key}) == (universe - before) - {key};
  }

  lemma InUniverse(mesh: Mesh, job: Job, scope: Scope)
    requires JobWithin(mesh, job, scope)
    ensures JobKey(job) in Universe(mesh, scope.keys)
  {
  }

  /** A new job's fan-out takes its key out of what is left of the universe. */
  lemma FanOutUsesKey(mesh: Mesh, w: World, w': World, j: nat, since: nat, t0: int, scope: Scope)
    requires InWindow(w, since, t0) && Within(mesh, w, scope) && JobAt(w, j, Fanning)
    requires w'.jobs == w.jobs[j := w.jobs[j].(phase := Completed)]
    ensures |Universe(mesh, scope.keys) - DoneKeys(w', since)| ==
            |Universe(mesh, scope.keys) - DoneKeys(w, since)| - (if since <= j then 1 else 0)
  {
    DoneKeysUpdate(w, w', j, Completed, since);
    if since <= j {
      NewKey(mesh, w, j, since, t0);
      InUniverse(mesh, w.jobs[j], scope);
      OneLess(Universe(mesh, scope.keys), DoneKeys(w, since), JobKey(w.jobs[j]));
    } else {
      assert DoneKeys(w, since) + {} == DoneKeys(w, since);
    }
  }

  /** The arithmetic of a fan-out: at most a quota of new attempts, paid by the job or by its key. */
  lemma FanOutPays(w: World, w': World, j: nat, since: nat, universe: set<(string, string)>, quota: nat)
    requires 3 * Attempts(w'.messages) <= 3 * Attempts(w.messages) + quota
    requires JobAt(w, j, Fanning) && w'.jobs == w.jobs[j := w.jobs[j].(phase := Completed)]
    requires |universe - DoneKeys(w', since)| == |universe - DoneKeys(w, since)| - (if since <= j then 1 else 0)
    ensures Potential(w', since, universe, quota) < Potential(w, since, universe, quota)
  {
    OwedUpdate(w.jobs, j, Completed, since, quota);
  }

  lemma FanOutShape(mesh: Mesh, w: World, e: Event)
    requires CanStep(mesh, w, e) && e.FanOut?
    ensures JobAt(w, e.j, Fanning) && Step(mesh, w, e).jobs == w.jobs[e.j := w.jobs[e.j].(phase := Completed)]
  {
  }

  lemma FanOutSpends(mesh: Mesh, w: World, e: Event, since: nat, t0: int, scope: Scope)
    requires CanStep(mesh, w, e) && e.FanOut? && InWindow(w, since, t0) && Within(mesh, w, scope)
    ensures Potential(Step(mesh, w, e), since, Universe(mesh, scope.keys), Quota(mesh))
            < Potential(w, since, Universe(mesh, scope.keys), Quota(mesh))
  {
    FanOutShape(mesh, w, e);
    FanOutAddsMessages(mesh, w, e);
    FanOutUsesKey(mesh, w, Step(mesh, w, e), e.j, since, t0, scope);
    FanOutPays(w, Step(mesh, w, e), e.j, since, Universe(mesh, scope.keys), Quota(mesh));
  }

  lemma DoneKeysAppend(w: World, w': World, job: Job, since: nat)
    requires w'.jobs == w.jobs + [job] && job.phase != Completed
    ensures DoneKeys(w', since) == DoneKeys(w, since)
  {
    forall key | key in DoneKeys(w, since) ensures key in DoneKeys(w', since) {
      var c: nat :| c < |w.jobs| && NewlyDone(w, since, c) && JobKey(w.jobs[c]) == key;
      assert NewlyDone(w', since, c);
    }
    forall key | key in DoneKeys(w', since) ensures key in DoneKeys(w, since) {
      var c: nat :| c < |w'.jobs| && NewlyDone(w', since, c) && JobKey(w'.jobs[c]) == key;
      assert NewlyDone(w, since, c);
    }
  }

  /** A delivery uses up one attempt and adds at most one job, which has yet to fan out. */
  lemma DeliverShape(mesh: Mesh, w: World, e: Event)
    requires CanStep(mesh, w, e) && e.Deliver?
    ensures var w' := Step(mesh, w, e);
            && w'.messages == w.messages[e.m := w.messages[e.m].(attempts := w.messages[e.m].attempts - 1)]
            && (w'.jobs == w.jobs || (|w'.jobs| == |w.jobs| + 1 && w'.jobs == w.jobs + [w'.jobs[|w.jobs|]]
                                      && w'.jobs[|w.jobs|].phase == Fanning))
  {
  }

  lemma DoneKeysSame(w: World, w': World, since: nat)
    requires w'.jobs == w.jobs
    ensures DoneKeys(w', since) == DoneKeys(w, since)
  {
    assert forall j: nat :: NewlyDone(w', since, j) <==> NewlyDone(w, since, j);
  }

  lemma DeliverSpends(mesh: Mesh, w: World, e: Event, since: nat, universe: set<(string, string)>, quota: nat)
    requires CanStep(mesh, w, e) && e.Deliver? && since <= |w.jobs|
    ensures Potential(Step(mesh, w, e), since, universe, quota) < Potential(w, since, universe, quota)
  {
    var w' := Step(mesh, w, e);
    DeliverShape(mesh, w, e);
    AttemptsUpdate(w.messages, e.m);
    if w'.jobs == w.jobs {
      DoneKeysSame(w, w', since);
    } else {
      OwedAppend(w.jobs, w'.jobs[|w.jobs|], since, quota);
      DoneKeysAppend(w, w', w'.jobs[|w.jobs|], since);
    }
  }

  lemma ReleaseSpends(mesh: Mesh, w: World, e: Event, since: nat, universe: set<(string, string)>, quota: nat)
    requires CanStep(mesh, w, e) && (e.FanFail? || e.Release?)
    ensures Potential(Step(mesh, w, e), since, universe, quota) < Potential(w, since, universe, quota)
  {
    var phase := if e.FanFail? then Releasing else Released;
    OwedUpdate(w.jobs, e.j, phase, since, quota);
    DoneKeysUpdate(w, Step(mesh, w, e), e.j, phase, since);
    assert DoneKeys(Step(mesh, w, e), since) == DoneKeys(w, since);
  }

  lemma TickKeeps(mesh: Mesh, w: World, e: Event, since: nat, universe: set<(string, string)>, quota: nat)
    requires e.Tick?
    ensures Potential(Step(mesh, w, e), since, universe, quota) == Potential(w, since, universe, quota)
  {
    DoneKeysSame(w, Step(mesh, w, e), since);
  }

  /** Every event but the passing of time spends potential. */
  lemma StepSpends(mesh: Mesh, w: World, e: Event, since: nat, t0: int, scope: Scope)
    requires CanStep(mesh, w, e) && InWindow(w, since, t0) && Within(mesh, w, scope)
    ensures (if e.Tick? then 0 else 1) + Potential(Step(mesh, w, e), since, Universe(mesh, scope.keys), Quota(mesh))
            <= Potential(w, since, Universe(mesh, scope.keys), Quota(mesh))
  {
    match e {
      case Tick(_) => TickKeeps(mesh, w, e, since, Universe(mesh, scope.keys), Quota(mesh));
      case Deliver(_, _, _) => DeliverSpends(mesh, w, e, since, Universe(mesh, scope.keys), Quota(mesh));
      case FanOut(_, _, _) => FanOutSpends(mesh, w, e, since, t0, scope);
      case FanFail(_) => ReleaseSpends(mesh, w, e, since, Universe(mesh, scope.keys), Quota(mesh));
      case Release(_) => ReleaseSpends(mesh, w, e, since, Universe(mesh, scope.keys), Quota(mesh));
    }
  }

  // ---- windows of runs ----

  /** From step i to step k less than a retention time passes. */
  ghost predicate Window(mesh: Mesh, ws: seq<World>, es: seq<Event>, i: int, k: int) {
    && Run(mesh, ws, es) && 0 <= i <= k <= |es|
    && forall m | i <= m < k :: ws[m].now < ws[i].now + ACTIVITY_RETENTION
  }

  ghost predicate Since(w: World, since: nat, t0: int) {
    since <= |w.jobs| && t0 <= w.now && forall j | since <= j < |w.jobs| :: t0 <= w.jobs[j].acceptedAt
  }

  lemma {:induction false} SinceThroughout(mesh: Mesh, ws: seq<World>, es: seq<Event>, i: nat, k: nat)
    requires Run(mesh, ws, es) && i <= k < |ws|
    ensures Since(ws[k], |ws[i].jobs|, ws[i].now)
    decreases k
  {
    if k > i {
      SinceThroughout(mesh, ws, es, i, k - 1);
      assert StepAt(mesh, ws, es, k - 1);
    }
  }

  lemma {:induction false} WithinThroughout(mesh: Mesh, ws: seq<World>, es: seq<Event>, scope: Scope, i: nat, k: nat)
    requires Run(mesh, ws, es) && i <= k < |ws| && Closed(mesh, scope) && Within(mesh, ws[i], scope)
    ensures Within(mesh, ws[k], scope)
    decreases k
  {
    if k > i {
      WithinThroughout(mesh, ws, es, scope, i, k - 1);
      assert StepAt(mesh, ws, es, k - 1);
      WithinStep(mesh, ws[k - 1], es[k - 1], scope);
    }
  }

  /** How many of the first k events are not ticks. */
  function Activity(es: seq<Event>, k: nat): nat
    requires k <= |es|
  {
    if k == 0 then 0 else Activity(es, k - 1) + (if es[k - 1].Tick? then 0 else 1)
  }

  lemma {:induction false} FanoutsAreActivity(mesh: Mesh, ws: seq<World>, es: seq<Event>, k: nat)
    requires Run(mesh, ws, es) && k < |ws|
    ensures |ws[k].fanouts| <= Activity(es, k)
  {
    if k > 0 {
      FanoutsAreActivity(mesh, ws, es, k - 1);
      assert StepAt(mesh, ws, es, k - 1);
    }
  }

  ghost predicate SpendsAt(potential: World -> nat, ws: seq<World>, es: seq<Event>, k: int) {
    0 <= k < |es| && k + 1 < |ws| && (if es[k].Tick? then 0 else 1) + potential(ws[k + 1]) <= potential(ws[k])
  }

  /** What the events from i to k have spent of any potential that every event but a tick lowers. */
  lemma {:induction false} SpentSoFar(potential: World -> nat, ws: seq<World>, es: seq<Event>, i: nat, k: nat)
    requires |ws| == |es| + 1 && i <= k <= |es| && forall m | i <= m < k :: SpendsAt(potential, ws, es, m)
    ensures Activity(es, k) - Activity(es, i) + potential(ws[k]) <= potential(ws[i])
    decreases k
  {
    if k > i {
      SpentSoFar(potential, ws, es, i, k - 1);
      assert SpendsAt(potential, ws, es, k - 1);
    }
  }

  lemma SpentAt(mesh: Mesh, ws: seq<World>, es: seq<Event>, scope: Scope, i: nat, m: nat)
    requires Run(mesh, ws, es) && Closed(mesh, scope) && i <= m < |es| && Within(mesh, ws[i], scope)
    requires ws[m].now < ws[i].now + ACTIVITY_RETENTION
    ensures (if es[m].Tick? then 0 else 1) + Potential(ws[m + 1], |ws[i].jobs|, Universe(mesh, scope.keys), Quota(mesh))
            <= Potential(ws[m], |ws[i].jobs|, Universe(mesh, scope.keys), Quota(mesh))
  {
    GuardedThroughout(mesh, ws, es, m);
    SinceThroughout(mesh, ws, es, i, m);
    WithinThroughout(mesh, ws, es, scope, i, m);
    assert StepAt(mesh, ws, es, m);
    StepSpends(mesh, ws[m], es[m], |ws[i].jobs|, ws[i].now, scope);
  }

  lemma InitialPotential(mesh: Mesh, w: World, scope: Scope)
    ensures Potential(w, |w.jobs|, Universe(mesh, scope.keys), Quota(mesh)) == FloodBound(mesh, w, scope.keys)
  {
    assert DoneKeys(w, |w.jobs|) == {};
    assert Universe(mesh, scope.keys) - {} == Universe(mesh, scope.keys);
    OwedByAll(w.jobs, |w.jobs|, Quota(mesh));
    BudgetIsProduct(Quota(mesh), |Universe(mesh, scope.keys)|);
  }

  /** Three per pending attempt, a quota and two per job still fanning out, one per job still releasing, and a quota per
      relay and key. */
  ghost function FloodBound(mesh: Mesh, w: World, keys: set<string>): nat {
    3 * Attempts(w.messages) + (2 + Quota(mesh)) * CountPhase(w.jobs, Fanning) + CountPhase(w.jobs, Releasing)
    + Quota(mesh) * |Universe(mesh, keys)|
  }

  /** The flood ends. From any moment of any run over any set of relays, if the canonical IDs under way lie in a finite
      closed set, then within one retention time the number of deliveries, fan-outs and releases is bounded, in any
      interleaving. */
  lemma FloodIsBounded(mesh: Mesh, ws: seq<World>, es: seq<Event>, scope: Scope, i: nat, k: nat)
    requires Window(mesh, ws, es, i, k) && Closed(mesh, scope) && Within(mesh, ws[i], scope)
    ensures Activity(es, k) - Activity(es, i) <= FloodBound(mesh, ws[i], scope.keys)
  {
    ghost var potential: World -> nat := w => Potential(w, |ws[i].jobs|, Universe(mesh, scope.keys), Quota(mesh));
    forall m | i <= m < k ensures SpendsAt(potential, ws, es, m) {
      SpentAt(mesh, ws, es, scope, i, m);
    }
    SpentSoFar(potential, ws, es, i, k);
    InitialPotential(mesh, ws[i], scope);
  }

  lemma {:induction false} JobsInMesh(mesh: Mesh, ws: seq<World>, es: seq<Event>, k: nat)
    requires Run(mesh, ws, es) && k < |ws|
    ensures forall j | 0 <= j < |ws[k].jobs| :: ws[k].jobs[j].relay in mesh.relays
  {
    if k > 0 {
      JobsInMesh(mesh, ws, es, k - 1);
      assert StepAt(mesh, ws, es, k - 1);
    }
  }

  /** The canonical ID behind a URL never changes, whatever else about the answer does, and is its own. */
  ghost predicate SelfResolving(mesh: Mesh, idOf: string -> string) {
    forall url, original | mesh.serves(url, original) ::
      KeyOf(original) == idOf(url) && idOf(original.id) == idOf(url)
  }

  /** The canonical IDs of what is under way. */
  ghost function KeysAt(w: World, idOf: string -> string): set<string> {
    (set m | 0 <= m < |w.messages| :: idOf(w.messages[m].url))
    + (set j | 0 <= j < |w.jobs| :: Trim(w.jobs[j].id))
    + (set j | 0 <= j < |w.jobs| :: idOf(w.jobs[j].id))
  }

  /** In particular, when origins serve activities under their own IDs the IDs under way are closed. */
  lemma SelfResolvingFloodIsBounded(mesh: Mesh, ws: seq<World>, es: seq<Event>, idOf: string -> string, i: nat, k: nat)
    requires Window(mesh, ws, es, i, k) && SelfResolving(mesh, idOf)
    ensures Activity(es, k) - Activity(es, i) <= FloodBound(mesh, ws[i], KeysAt(ws[i], idOf))
  {
    var keys := KeysAt(ws[i], idOf);
    var scope := Scope(url => idOf(url) in keys, keys);
    JobsInMesh(mesh, ws, es, i);
    forall j | 0 <= j < |ws[i].jobs| ensures JobWithin(mesh, ws[i].jobs[j], scope) {
    }
    FloodIsBounded(mesh, ws, es, scope, i, k);
  }
}
