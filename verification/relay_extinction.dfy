/** When a flood dies out for good. With prompt hops no Announce comes back to a relay after its reservation has expired,
    so a run of any length has a bounded number of events; with slower hops it can circle for ever. */
module RelayExtinction {
  import opened RelayMesh
  import opened RelayMeshBound
  import opened RelayWalk

  /** The longest time from sending to delivery, and from acceptance to fan-out. */
  datatype Hop = Hop(delivery: nat, lag: nat)

  function Span(h: Hop): nat {
    h.delivery + h.lag
  }

  /** The time of n hops. */
  function Hops(h: Hop, n: nat): nat {
    if n == 0 then 0 else Hops(h, n - 1) + Span(h)
  }

  lemma {:induction false} HopsIsProduct(h: Hop, n: nat)
    ensures Hops(h, n) == n * Span(h)
  {
    if n > 0 {
      HopsIsProduct(h, n - 1);
      assert n * Span(h) == (n - 1) * Span(h) + Span(h);
    }
  }

  lemma {:induction false} HopsMonotone(h: Hop, m: nat, n: nat)
    requires m <= n
    ensures Hops(h, m) <= Hops(h, n)
    decreases n
  {
    if m < n {
      HopsMonotone(h, m, n - 1);
    }
  }

  /** Only seed messages may wait. */
  predicate PromptStep(h: Hop, w: World, e: Event) {
    match e
    case Deliver(m, _, _) =>
      m < |w.messages| && w.messages[m].trail != [] ==> w.now <= w.messages[m].born + h.delivery
    case FanOut(j, _, _) => j < |w.jobs| ==> w.now <= w.jobs[j].acceptedAt + h.lag
    case _ => true
  }

  ghost predicate PromptRun(mesh: Mesh, h: Hop, ws: seq<World>, es: seq<Event>) {
    Run(mesh, ws, es) && forall k | 0 <= k < |es| :: PromptStep(h, ws[k], es[k])
  }

  // ---- an Announce never goes through one relay and ID twice ----

  predicate Done(w: World, j: nat) {
    j < |w.jobs| && w.jobs[j].phase == Completed
  }

  /** A trail is of completed jobs with pairwise different relays or keys. */
  ghost predicate TrailFits(w: World, trail: seq<nat>) {
    && (forall i | 0 <= i < |trail| :: Done(w, trail[i]))
    && (forall a, b | 0 <= a < b < |trail| :: JobKey(w.jobs[trail[a]]) != JobKey(w.jobs[trail[b]]))
  }

  ghost predicate MessageFits(h: Hop, w: World, msg: Message) {
    && TrailFits(w, msg.trail)
    && forall i | 0 <= i < |msg.trail| ::
         msg.born <= w.jobs[msg.trail[i]].acceptedAt + Hops(h, |msg.trail| - 1 - i) + h.lag
  }

  ghost predicate JobFits(h: Hop, w: World, job: Job) {
    && TrailFits(w, job.trail)
    && forall i | 0 <= i < |job.trail| ::
         && job.acceptedAt <= w.jobs[job.trail[i]].acceptedAt + Hops(h, |job.trail| - i)
         && JobKey(w.jobs[job.trail[i]]) != JobKey(job)
  }

  ghost predicate Fits(h: Hop, w: World) {
    && (forall m | 0 <= m < |w.messages| :: MessageFits(h, w, w.messages[m]))
    && (forall j | 0 <= j < |w.jobs| :: JobFits(h, w, w.jobs[j]))
  }

  /** Jobs only move on, and completed ones stay. */
  ghost predicate JobsKept(w: World, w': World) {
    && |w.jobs| <= |w'.jobs|
    && forall j: nat | j < |w.jobs| ::
         && JobKey(w'.jobs[j]) == JobKey(w.jobs[j]) && w'.jobs[j].acceptedAt == w.jobs[j].acceptedAt
         && w'.jobs[j].trail == w.jobs[j].trail && (Done(w, j) ==> Done(w', j))
  }

  lemma StepKeepsJobs(mesh: Mesh, w: World, e: Event)
    requires CanStep(mesh, w, e)
    ensures JobsKept(w, Step(mesh, w, e))
  {
  }

  lemma TrailKept(w: World, w': World, trail: seq<nat>)
    requires TrailFits(w, trail) && JobsKept(w, w')
    ensures TrailFits(w', trail)
    ensures forall i | 0 <= i < |trail| :: w'.jobs[trail[i]].acceptedAt == w.jobs[trail[i]].acceptedAt
  {
    forall i | 0 <= i < |trail| ensures Done(w', trail[i]) && JobKey(w'.jobs[trail[i]]) == JobKey(w.jobs[trail[i]]) {
      assert Done(w, trail[i]);
    }
  }

  lemma MessageKept(h: Hop, w: World, w': World, msg: Message, later: Message)
    requires MessageFits(h, w, msg) && JobsKept(w, w') && later.born == msg.born && later.trail == msg.trail
    ensures MessageFits(h, w', later)
  {
    TrailKept(w, w', msg.trail);
  }

  lemma JobKept(h: Hop, w: World, w': World, j: nat)
    requires j < |w.jobs| && JobFits(h, w, w.jobs[j]) && JobsKept(w, w')
    ensures JobFits(h, w', w'.jobs[j])
  {
    var trail := w.jobs[j].trail;
    TrailKept(w, w', trail);
    forall i | 0 <= i < |trail| ensures JobKey(w'.jobs[trail[i]]) != JobKey(w'.jobs[j]) {
      assert Done(w, trail[i]);
    }
  }

  /** The keys a trail has gone through. */
  ghost function TrailKeys(w: World, trail: seq<nat>): set<(string, string)>
    requires TrailFits(w, trail)
  {
    set i | 0 <= i < |trail| :: JobKey(w.jobs[trail[i]])
  }

  lemma {:induction false} TrailKeysCount(w: World, trail: seq<nat>)
    requires TrailFits(w, trail)
    ensures |TrailKeys(w, trail)| == |trail|
    decreases |trail|
  {
    if trail != [] {
      var front, last := trail[..|trail| - 1], trail[|trail| - 1];
      TrailKeysCount(w, front);
      assert TrailKeys(w, trail) == TrailKeys(w, front) + {JobKey(w.jobs[last])};
      assert JobKey(w.jobs[last]) !in TrailKeys(w, front);
    }
  }

  lemma SubsetCount(a: set<(string, string)>, b: set<(string, string)>)
    requires a <= b
    ensures |a| <= |b|
  {
    assert b == a + (b - a);
  }

  /** A trail is no longer than the universe, and shorter when a key of the universe is not on it. */
  lemma TrailIsShort(mesh: Mesh, w: World, scope: Scope, trail: seq<nat>, key: (string, string))
    requires Within(mesh, w, scope) && TrailFits(w, trail)
    ensures |trail| <= |Universe(mesh, scope.keys)|
    ensures key in Universe(mesh, scope.keys) && (forall i | 0 <= i < |trail| :: JobKey(w.jobs[trail[i]]) != key) ==>
              |trail| < |Universe(mesh, scope.keys)|
  {
    var u, on := Universe(mesh, scope.keys), TrailKeys(w, trail);
    TrailKeysCount(w, trail);
    forall k | k in on ensures k in u {
      var i :| 0 <= i < |trail| && JobKey(w.jobs[trail[i]]) == k;
      assert Done(w, trail[i]) && JobWithin(mesh, w.jobs[trail[i]], scope);
    }
    SubsetCount(on, u);
    if key in u && forall i | 0 <= i < |trail| :: JobKey(w.jobs[trail[i]]) != key {
      assert key !in on && on + {key} <= u;
      SubsetCount(on + {key}, u);
    }
  }

  /** The universe can be crossed before the first reservation on the way expires. */
  ghost predicate Brisk(mesh: Mesh, h: Hop, scope: Scope) {
    Hops(h, |Universe(mesh, scope.keys)|) < ACTIVITY_RETENTION
  }

  lemma DeliveredInTime(h: Hop, w: World, m: nat, i: nat)
    requires m < |w.messages| && MessageFits(h, w, w.messages[m]) && i < |w.messages[m].trail|
    requires w.now <= w.messages[m].born + h.delivery
    ensures w.now <= w.jobs[w.messages[m].trail[i]].acceptedAt + Hops(h, |w.messages[m].trail| - i)
  {
  }

  lemma StillReserved(w: World, c: nat)
    requires Guarded(w) && Done(w, c) && w.now < w.jobs[c].acceptedAt + ACTIVITY_RETENTION
    ensures Reserved(w.reservations, w.now, JobKey(w.jobs[c]))
  {
    assert OwnsAt(w, c) && InPlace(w, c);
  }

  lemma TrailIsRecent(mesh: Mesh, h: Hop, scope: Scope, w: World, m: nat, i: nat)
    requires m < |w.messages| && MessageFits(h, w, w.messages[m]) && i < |w.messages[m].trail|
    requires w.now <= w.messages[m].born + h.delivery && Within(mesh, w, scope) && Brisk(mesh, h, scope)
    ensures Done(w, w.messages[m].trail[i])
    ensures w.now < w.jobs[w.messages[m].trail[i]].acceptedAt + ACTIVITY_RETENTION
  {
    var trail := w.messages[m].trail;
    assert Done(w, trail[i]);
    DeliveredInTime(h, w, m, i);
    TrailIsShort(mesh, w, scope, trail, JobKey(w.jobs[trail[i]]));
    HopsMonotone(h, |trail| - i, |Universe(mesh, scope.keys)|);
  }

  /** Every job on the trail still holds its reservation, so what is accepted is new to the trail. */
  lemma AcceptedIsNew(mesh: Mesh, h: Hop, scope: Scope, w: World, m: nat, original: Original, i: nat)
    requires Guarded(w) && Within(mesh, w, scope) && Brisk(mesh, h, scope)
    requires m < |w.messages| && MessageFits(h, w, w.messages[m]) && i < |w.messages[m].trail|
    requires w.now <= w.messages[m].born + h.delivery && Accepts(mesh, w, m, true, original)
    ensures Done(w, w.messages[m].trail[i])
    ensures JobKey(w.jobs[w.messages[m].trail[i]]) != (w.messages[m].to, KeyOf(original))
  {
    TrailIsRecent(mesh, h, scope, w, m, i);
    StillReserved(w, w.messages[m].trail[i]);
  }

  lemma NewJobFits(mesh: Mesh, h: Hop, scope: Scope, w: World, m: nat, original: Original)
    requires Guarded(w) && Fits(h, w) && Within(mesh, w, scope) && Brisk(mesh, h, scope)
    requires m < |w.messages| && PromptStep(h, w, Deliver(m, true, original)) && Accepts(mesh, w, m, true, original)
    ensures JobFits(h, w, JobOf(w.messages[m], original, w.now))
  {
    var msg := w.messages[m];
    assert MessageFits(h, w, msg);
    forall i | 0 <= i < |msg.trail|
      ensures w.now <= w.jobs[msg.trail[i]].acceptedAt + Hops(h, |msg.trail| - i)
              && JobKey(w.jobs[msg.trail[i]]) != (msg.to, KeyOf(original))
    {
      DeliveredInTime(h, w, m, i);
      AcceptedIsNew(mesh, h, scope, w, m, original, i);
    }
  }

  lemma DeliverFits(mesh: Mesh, h: Hop, scope: Scope, w: World, e: Event)
    requires CanStep(mesh, w, e) && e.Deliver? && PromptStep(h, w, e)
    requires Guarded(w) && Fits(h, w) && Within(mesh, w, scope) && Brisk(mesh, h, scope)
    ensures Fits(h, Step(mesh, w, e))
  {
    var w' := Step(mesh, w, e);
    StepKeepsJobs(mesh, w, e);
    forall m | 0 <= m < |w'.messages| ensures MessageFits(h, w', w'.messages[m]) {
      MessageKept(h, w, w', w.messages[m], w'.messages[m]);
    }
    forall j | 0 <= j < |w'.jobs| ensures JobFits(h, w', w'.jobs[j]) {
      if j < |w.jobs| {
        JobKept(h, w, w', j);
      } else {
        NewJobFits(mesh, h, scope, w, e.m, e.original);
        var job := JobOf(w.messages[e.m], e.original, w.now);
        TrailKept(w, w', job.trail);
        forall i | 0 <= i < |job.trail| ensures JobKey(w'.jobs[job.trail[i]]) == JobKey(w.jobs[job.trail[i]]) {
          assert Done(w, job.trail[i]);
        }
      }
    }
  }

  /** What job j sends has j at the end of its trail. */
  lemma SentFits(h: Hop, w: World, w': World, j: nat, msg: Message)
    requires JobAt(w, j, Fanning) && JobFits(h, w, w.jobs[j]) && w.now <= w.jobs[j].acceptedAt + h.lag
    requires w'.jobs == w.jobs[j := w.jobs[j].(phase := Completed)]
    requires msg.born == w.now && msg.trail == w.jobs[j].trail + [j]
    ensures MessageFits(h, w', msg)
  {
    var trail := w.jobs[j].trail;
    forall i | 0 <= i < |trail|
      ensures Done(w', trail[i]) && w'.jobs[trail[i]] == w.jobs[trail[i]]
    {
      assert Done(w, trail[i]);
    }
    forall i | 0 <= i < |msg.trail|
      ensures msg.born <= w'.jobs[msg.trail[i]].acceptedAt + Hops(h, |msg.trail| - 1 - i) + h.lag
    {
      assert i < |trail| ==> msg.trail[i] == trail[i];
    }
  }

  lemma FanOutFits(mesh: Mesh, h: Hop, w: World, e: Event)
    requires CanStep(mesh, w, e) && e.FanOut? && PromptStep(h, w, e) && Fits(h, w)
    ensures Fits(h, Step(mesh, w, e))
  {
    var w' := Step(mesh, w, e);
    StepKeepsJobs(mesh, w, e);
    forall m | 0 <= m < |w'.messages| ensures MessageFits(h, w', w'.messages[m]) {
      if m < |w.messages| {
        MessageKept(h, w, w', w.messages[m], w'.messages[m]);
      } else {
        SentFits(h, w, w', e.j, w'.messages[m]);
      }
    }
    forall j | 0 <= j < |w'.jobs| ensures JobFits(h, w', w'.jobs[j]) {
      JobKept(h, w, w', j);
    }
  }

  lemma FitsStep(mesh: Mesh, h: Hop, scope: Scope, w: World, e: Event)
    requires CanStep(mesh, w, e) && PromptStep(h, w, e)
    requires Guarded(w) && Fits(h, w) && Within(mesh, w, scope) && Brisk(mesh, h, scope)
    ensures Fits(h, Step(mesh, w, e))
  {
    if e.Deliver? {
      DeliverFits(mesh, h, scope, w, e);
    } else if e.FanOut? {
      FanOutFits(mesh, h, w, e);
    } else {
      var w' := Step(mesh, w, e);
      StepKeepsJobs(mesh, w, e);
      forall m | 0 <= m < |w'.messages| ensures MessageFits(h, w', w'.messages[m]) {
        MessageKept(h, w, w', w.messages[m], w'.messages[m]);
      }
      forall j | 0 <= j < |w'.jobs| ensures JobFits(h, w', w'.jobs[j]) {
        JobKept(h, w, w', j);
      }
    }
  }

  /** A prompt run in a closed scope whose universe can be crossed in time. */
  ghost predicate BriskRun(mesh: Mesh, h: Hop, scope: Scope, ws: seq<World>, es: seq<Event>) {
    && PromptRun(mesh, h, ws, es) && Closed(mesh, scope) && MessagesWithin(scope, ws[0].messages)
    && Brisk(mesh, h, scope)
  }

  lemma {:induction false} FitsThroughout(mesh: Mesh, h: Hop, scope: Scope, ws: seq<World>, es: seq<Event>, k: nat)
    requires BriskRun(mesh, h, scope, ws, es) && k < |ws|
    ensures Fits(h, ws[k]) && Guarded(ws[k]) && Within(mesh, ws[k], scope)
  {
    GuardedThroughout(mesh, ws, es, k);
    WithinThroughout(mesh, ws, es, scope, 0, k);
    if k > 0 {
      FitsThroughout(mesh, h, scope, ws, es, k - 1);
      assert StepAt(mesh, ws, es, k - 1) && PromptStep(h, ws[k - 1], es[k - 1]);
      FitsStep(mesh, h, scope, ws[k - 1], es[k - 1]);
    }
  }

  /** In every such run, of any length, an Announce and everything it leads to goes through a relay and ID once. */
  lemma TrailsNeverCross(mesh: Mesh, h: Hop, scope: Scope, ws: seq<World>, es: seq<Event>, k: nat, j: nat)
    requires BriskRun(mesh, h, scope, ws, es) && k < |ws| && j < |ws[k].jobs|
    ensures forall i | 0 <= i < |ws[k].jobs[j].trail| ::
              && ws[k].jobs[j].trail[i] < |ws[k].jobs|
              && JobKey(ws[k].jobs[ws[k].jobs[j].trail[i]]) != JobKey(ws[k].jobs[j])
    ensures |ws[k].jobs[j].trail| < |Universe(mesh, scope.keys)|
  {
    FitsThroughout(mesh, h, scope, ws, es, k);
    var w := ws[k];
    assert JobFits(h, w, w.jobs[j]) && JobWithin(mesh, w.jobs[j], scope);
    InUniverse(mesh, w.jobs[j], scope);
    TrailIsShort(mesh, w, scope, w.jobs[j].trail, JobKey(w.jobs[j]));
    forall i | 0 <= i < |w.jobs[j].trail| ensures w.jobs[j].trail[i] < |w.jobs| {
      assert Done(w, w.jobs[j].trail[i]);
    }
  }

  // ---- so every run has a bounded number of events ----

  /** What one fan-out sends at most. */
  function Breadth(mesh: Mesh): nat {
    mesh.maxFanout * mesh.attempts
  }

  /** The events one delivery can lead to when so many relays and keys are left for it. */
  function Cost(breadth: nat, left: nat): nat {
    if left == 0 then 1 else 3 + breadth * Cost(breadth, left - 1)
  }

  lemma {:induction false} CostPositive(breadth: nat, left: nat)
    ensures Cost(breadth, left) >= 1
  {
  }

  function Left(size: nat, trail: seq<nat>): nat {
    if |trail| <= size then size - |trail| else 0
  }

  function Load(breadth: nat, size: nat, ms: seq<Message>): nat {
    if ms == [] then 0
    else
      var last := ms[|ms| - 1];
      Load(breadth, size, ms[..|ms| - 1]) + last.attempts * Cost(breadth, Left(size, last.trail))
  }

  lemma OneLessTimes(n: nat, c: nat)
    requires n > 0
    ensures (n - 1) * c == n * c - c
  {
  }

  lemma {:induction false} LoadUsed(breadth: nat, size: nat, ms: seq<Message>, m: nat)
    requires m < |ms| && ms[m].attempts > 0
    ensures Load(breadth, size, ms[m := ms[m].(attempts := ms[m].attempts - 1)]) ==
            Load(breadth, size, ms) - Cost(breadth, Left(size, ms[m].trail))
    decreases |ms|
  {
    var ms' := ms[m := ms[m].(attempts := ms[m].attempts - 1)];
    if m < |ms| - 1 {
      LoadUsed(breadth, size, ms[..|ms| - 1], m);
      assert ms'[..|ms| - 1] == ms[..|ms| - 1][m := ms[m].(attempts := ms[m].attempts - 1)];
    } else {
      assert ms'[..|ms| - 1] == ms[..|ms| - 1];
      OneLessTimes(ms[m].attempts, Cost(breadth, Left(size, ms[m].trail)));
    }
  }

  lemma {:induction false} LoadSent(breadth: nat, size: nat, ms: seq<Message>, extra: seq<Message>, each: nat)
    requires forall i | 0 <= i < |extra| :: extra[i].attempts * Cost(breadth, Left(size, extra[i].trail)) == each
    ensures Load(breadth, size, ms + extra) == Load(breadth, size, ms) + |extra| * each
    decreases |extra|
  {
    if extra == [] {
      assert ms + extra == ms;
    } else {
      LoadSent(breadth, size, ms, extra[..|extra| - 1], each);
      assert (ms + extra)[..|ms + extra| - 1] == ms + extra[..|extra| - 1];
      OneLessTimes(|extra|, each);
    }
  }

  /** What a job still leads to: its fan-out and what that sends, or its release. */
  function Due(breadth: nat, size: nat, job: Job): nat {
    match job.phase
    case Fanning => 2 + breadth * Cost(breadth, Left(size, job.trail + [0]))
    case Releasing => 1
    case Completed => 0
    case Released => 0
  }

  function TotalDue(breadth: nat, size: nat, jobs: seq<Job>): nat {
    if jobs == [] then 0
    else TotalDue(breadth, size, jobs[..|jobs| - 1]) + Due(breadth, size, jobs[|jobs| - 1])
  }

  lemma {:induction false} DueUpdate(breadth: nat, size: nat, jobs: seq<Job>, j: nat, phase: Phase)
    requires j < |jobs|
    ensures TotalDue(breadth, size, jobs[j := jobs[j].(phase := phase)]) ==
            TotalDue(breadth, size, jobs) - Due(breadth, size, jobs[j]) + Due(breadth, size, jobs[j].(phase := phase))
    decreases |jobs|
  {
    var jobs' := jobs[j := jobs[j].(phase := phase)];
    if j < |jobs| - 1 {
      DueUpdate(breadth, size, jobs[..|jobs| - 1], j, phase);
      assert jobs'[..|jobs| - 1] == jobs[..|jobs| - 1][j := jobs[j].(phase := phase)];
    } else {
      assert jobs'[..|jobs| - 1] == jobs[..|jobs| - 1];
    }
  }

  lemma DueAppend(breadth: nat, size: nat, jobs: seq<Job>, job: Job)
    ensures TotalDue(breadth, size, jobs + [job]) == TotalDue(breadth, size, jobs) + Due(breadth, size, job)
  {
    assert (jobs + [job])[..|jobs|] == jobs;
  }

  function Remaining(breadth: nat, size: nat, w: World): nat {
    Load(breadth, size, w.messages) + TotalDue(breadth, size, w.jobs)
  }

  lemma DeliverLowers(mesh: Mesh, w: World, e: Event, breadth: nat, size: nat)
    requires CanStep(mesh, w, e) && e.Deliver?
    requires Accepts(mesh, w, e.m, e.able, e.original) ==> |w.messages[e.m].trail| < size
    ensures Remaining(breadth, size, Step(mesh, w, e)) < Remaining(breadth, size, w)
  {
    var msg := w.messages[e.m];
    LoadUsed(breadth, size, w.messages, e.m);
    CostPositive(breadth, Left(size, msg.trail));
    if Accepts(mesh, w, e.m, e.able, e.original) {
      DueAppend(breadth, size, w.jobs, JobOf(msg, e.original, w.now));
      assert Left(size, msg.trail + [0]) == Left(size, msg.trail) - 1;
    }
  }

  lemma SentLoad(mesh: Mesh, n: nat, cost: nat)
    requires n <= mesh.maxFanout
    ensures n * (mesh.attempts * cost) <= Breadth(mesh) * cost
  {
    var each := mesh.attempts * cost;
    assert n * each <= mesh.maxFanout * each;
    assert mesh.maxFanout * each == Breadth(mesh) * cost;
  }

  lemma FanOutLowers(mesh: Mesh, w: World, e: Event, size: nat)
    requires CanStep(mesh, w, e) && e.FanOut?
    ensures Remaining(Breadth(mesh), size, Step(mesh, w, e)) < Remaining(Breadth(mesh), size, w)
  {
    var job := w.jobs[e.j];
    var sent := Sent(mesh, job, e.receivers, e.planned);
    var cost := Cost(Breadth(mesh), Left(size, job.trail + [0]));
    var extra := Announce(mesh, job, e.j, sent, w.now);
    forall i | 0 <= i < |extra|
      ensures extra[i].attempts * Cost(Breadth(mesh), Left(size, extra[i].trail)) == mesh.attempts * cost
    {
      assert |extra[i].trail| == |job.trail + [0]|;
    }
    LoadSent(Breadth(mesh), size, w.messages, extra, mesh.attempts * cost);
    KeptLength(r => r in e.planned, JobTargets(mesh, job, e.receivers));
    SentLoad(mesh, |sent|, cost);
    DueUpdate(Breadth(mesh), size, w.jobs, e.j, Completed);
  }

  lemma OthersLower(mesh: Mesh, w: World, e: Event, breadth: nat, size: nat)
    requires CanStep(mesh, w, e) && !e.Deliver? && !e.FanOut?
    ensures (if e.Tick? then 0 else 1) + Remaining(breadth, size, Step(mesh, w, e)) <= Remaining(breadth, size, w)
  {
    if e.FanFail? {
      DueUpdate(breadth, size, w.jobs, e.j, Releasing);
    } else if e.Release? {
      DueUpdate(breadth, size, w.jobs, e.j, Released);
    }
  }

  lemma StepLowers(mesh: Mesh, h: Hop, scope: Scope, ws: seq<World>, es: seq<Event>, k: nat)
    requires BriskRun(mesh, h, scope, ws, es) && k < |es|
    ensures var size := |Universe(mesh, scope.keys)|;
            (if es[k].Tick? then 0 else 1) + Remaining(Breadth(mesh), size, ws[k + 1])
            <= Remaining(Breadth(mesh), size, ws[k])
  {
    var w, e, size := ws[k], es[k], |Universe(mesh, scope.keys)|;
    assert StepAt(mesh, ws, es, k);
    if e.Deliver? {
      if Accepts(mesh, w, e.m, e.able, e.original) {
        TrailsNeverCross(mesh, h, scope, ws, es, k + 1, |w.jobs|);
      }
      DeliverLowers(mesh, w, e, Breadth(mesh), size);
    } else if e.FanOut? {
      FanOutLowers(mesh, w, e, size);
    } else {
      OthersLower(mesh, w, e, Breadth(mesh), size);
    }
  }

  /** The flood dies out for good: a prompt run of any length, over any set of relays, has at most so many deliveries,
      fan-outs and releases as its seed messages allow. */
  lemma FloodDiesOut(mesh: Mesh, h: Hop, scope: Scope, ws: seq<World>, es: seq<Event>)
    requires BriskRun(mesh, h, scope, ws, es)
    ensures Activity(es, |es|) <= Load(Breadth(mesh), |Universe(mesh, scope.keys)|, ws[0].messages)
  {
    ghost var remaining: World -> nat := w => Remaining(Breadth(mesh), |Universe(mesh, scope.keys)|, w);
    forall k | 0 <= k < |es| ensures SpendsAt(remaining, ws, es, k) {
      StepLowers(mesh, h, scope, ws, es, k);
    }
    SpentSoFar(remaining, ws, es, 0, |es|);
  }
}
