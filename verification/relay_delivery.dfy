/** The delivery ledger: one stored body shared by many targets, counted down as they finish. */
module RelayDelivery {
  import opened Text

  const RETRY_COUNT: int := 5
  const MAX_ATTEMPTS: int := 6
  const INITIAL_RETRY_TIMEOUT: int := 5
  const RETENTION: int := 900_000

  datatype Entry = Entry(body: string, remain: int, deadline: int)

  predicate Live(entry: Option<Entry>, now: int) {
    entry.Some? && now < entry.value.deadline
  }

  /** The finish script: nothing on a missing hash, deletion below one. */
  function Finished(entry: Option<Entry>, now: int): Option<Entry> {
    if !Live(entry, now) then entry
    else if entry.value.remain - 1 < 1 then None
    else Some(entry.value.(remain := entry.value.remain - 1))
  }

  function FinishResult(entry: Option<Entry>, now: int): int {
    if Live(entry, now) then entry.value.remain - 1 else -1
  }

  class ActivityStore {
    var now: int
    var entries: map<string, Entry>

    constructor ()
      ensures entries == map[]
    {
      now := 0;
      entries := map[];
    }

    ghost function At(id: string): Option<Entry>
      reads this
    {
      if id in entries then Some(entries[id]) else None
    }

    method StoreRelayActivity(id: string, body: string, targetCount: int)
      modifies this`entries
      ensures At(id) == Some(Entry(body, targetCount, now + RETENTION))
      ensures forall o | o != id :: At(o) == old(At(o))
    {
      entries := entries[id := Entry(body, targetCount, now + RETENTION)];
    }

    method LoadBody(id: string) returns (body: Option<string>)
      ensures body == if Live(At(id), now) then Some(At(id).value.body) else None
    {
      if id in entries && now < entries[id].deadline {
        return Some(entries[id].body);
      }
      return None;
    }

    method FinishRelayTarget(id: string) returns (remaining: int)
      modifies this`entries
      ensures remaining == FinishResult(old(At(id)), now)
      ensures At(id) == Finished(old(At(id)), now)
      ensures forall o | o != id :: At(o) == old(At(o))
    {
      if id !in entries || entries[id].deadline <= now {
        return -1;
      }
      remaining := entries[id].remain - 1;
      if remaining < 1 {
        entries := entries - {id};
      } else {
        entries := entries[id := entries[id].(remain := remaining)];
      }
    }

    /** relayActivityV2 for a task with so many retries left; `accepts` is the receiver. It is tried again exactly
        when it failed with retries left, and its target is finished, once, exactly when it is not. */
    method RelayActivityV2(id: string, retryCount: int, accepts: string -> bool) returns (again: bool)
      modifies this`entries
      ensures again <==> retryCount > 0 && !(Live(old(At(id)), now) && accepts(old(At(id)).value.body))
      ensures At(id) == if again then old(At(id)) else Finished(old(At(id)), now)
      ensures forall o | o != id :: At(o) == old(At(o))
    {
      var attempt := CurrentAttempt(retryCount);
      var body := LoadBody(id);
      if body.None? {
        if !attempt.terminal {
          return true;
        }
        var _ := FinishRelayTarget(id);
        return false;
      }
      if accepts(body.value) {
        var _ := FinishRelayTarget(id);
        return false;
      }
      if !attempt.terminal {
        return true;
      }
      var _ := FinishRelayTarget(id);
      return false;
    }
  }

  // ---- attempts ----

  datatype Attempt = Attempt(number: int, retriesRemaining: int, terminal: bool)

  /** currentDeliveryAttempt for a queued task. */
  function CurrentAttempt(retryCount: int): Attempt {
    var number := MAX_ATTEMPTS - retryCount;
    Attempt(if number < 1 then 1 else if number > MAX_ATTEMPTS then MAX_ATTEMPTS else number,
            retryCount, retryCount <= 0)
  }

  /** The first Fibonacci number above start, as Machinery computes its next delay. */
  function NextFibonacci(a: nat, b: nat, start: nat): nat
    requires 0 < a <= b
    decreases if b > start then 0 else 1 + start - b, if a > start then 0 else 1
  {
    if a > start then a else NextFibonacci(b, a + b, start)
  }

  /** The delay in seconds before the k-th retry. */
  function RetryDelay(k: nat): nat {
    if k == 0 then INITIAL_RETRY_TIMEOUT else NextFibonacci(1, 1, RetryDelay(k - 1))
  }

  lemma Delays()
    ensures RetryDelay(1) == 8 && RetryDelay(2) == 13 && RetryDelay(3) == 21
    ensures RetryDelay(4) == 34 && RetryDelay(5) == 55
  {
    assert NextFibonacci(1, 1, 5) == NextFibonacci(1, 2, 5) == NextFibonacci(2, 3, 5)
        == NextFibonacci(3, 5, 5) == NextFibonacci(5, 8, 5) == NextFibonacci(8, 13, 5) == 8;
    assert NextFibonacci(1, 1, 8) == NextFibonacci(1, 2, 8) == NextFibonacci(2, 3, 8)
        == NextFibonacci(3, 5, 8) == NextFibonacci(5, 8, 8) == NextFibonacci(8, 13, 8)
        == NextFibonacci(13, 21, 8) == 13;
    assert NextFibonacci(1, 1, 13) == NextFibonacci(1, 2, 13) == NextFibonacci(2, 3, 13)
        == NextFibonacci(3, 5, 13) == NextFibonacci(5, 8, 13) == NextFibonacci(8, 13, 13)
        == NextFibonacci(13, 21, 13) == NextFibonacci(21, 34, 13) == 21;
    assert NextFibonacci(1, 1, 21) == NextFibonacci(1, 2, 21) == NextFibonacci(2, 3, 21)
        == NextFibonacci(3, 5, 21) == NextFibonacci(5, 8, 21) == NextFibonacci(8, 13, 21)
        == NextFibonacci(13, 21, 21) == NextFibonacci(21, 34, 21) == NextFibonacci(34, 55, 21) == 34;
    assert NextFibonacci(1, 1, 34) == NextFibonacci(1, 2, 34) == NextFibonacci(2, 3, 34)
        == NextFibonacci(3, 5, 34) == NextFibonacci(5, 8, 34) == NextFibonacci(8, 13, 34)
        == NextFibonacci(13, 21, 34) == NextFibonacci(21, 34, 34) == NextFibonacci(34, 55, 34)
        == NextFibonacci(55, 89, 34) == 55;
  }

  // ---- interleavings of workers ----

  datatype Phase = Unpushed | Queued | Sending | Finishing | Done

  /** A queued target; `due` is when it may run next, or when its send began. */
  datatype Task = Task(phase: Phase, retryCount: int, starts: nat, due: int)

  datatype World = World(now: int, entry: Option<Entry>, tasks: seq<Task>)

  datatype Event =
    | Tick(elapsed: nat)
    | Push(i: nat)            // the group send reaches the broker target by target
    | Start(i: nat)           // a worker takes it and loads the body
    | Reply(i: nat, ok: bool)
    | Finish(i: nat)

  predicate TaskAt(w: World, i: nat, phase: Phase) {
    i < |w.tasks| && w.tasks[i].phase == phase
  }

  predicate CanStep(w: World, e: Event) {
    match e
    case Tick(_) => true
    case Push(i) => TaskAt(w, i, Unpushed)
    case Start(i) => TaskAt(w, i, Queued) && w.tasks[i].due <= w.now
    case Reply(i, _) => TaskAt(w, i, Sending)
    case Finish(i) => TaskAt(w, i, Finishing)
  }

  /** A failed run: an exhausted task goes on to finish, any other waits its delay with one retry less. */
  function Failed(task: Task, now: int): Task {
    if CurrentAttempt(task.retryCount).terminal then task.(phase := Finishing)
    else task.(phase := Queued, retryCount := task.retryCount - 1, due := now + 1000 * RetryDelay(task.starts))
  }

  function NextTask(w: World, e: Event): Task
    requires CanStep(w, e) && !e.Tick?
  {
    var task := w.tasks[e.i];
    match e
    case Push(_) => task.(phase := Queued, due := w.now)
    case Start(_) =>
      var begun := task.(starts := task.starts + 1, due := w.now);
      if Live(w.entry, w.now) then begun.(phase := Sending) else Failed(begun, w.now)
    case Reply(_, ok) => if ok then task.(phase := Finishing) else Failed(task, w.now)
    case Finish(_) => task.(phase := Done)
  }

  function Step(w: World, e: Event): World
    requires CanStep(w, e)
  {
    match e
    case Tick(d) => w.(now := w.now + d)
    case Push(i) => w.(tasks := w.tasks[i := NextTask(w, e)])
    case Start(i) => w.(tasks := w.tasks[i := NextTask(w, e)])
    case Reply(i, _) => w.(tasks := w.tasks[i := NextTask(w, e)])
    case Finish(i) => w.(tasks := w.tasks[i := NextTask(w, e)], entry := Finished(w.entry, w.now))
  }

  predicate Fresh(task: Task) {
    task.phase == Unpushed && task.retryCount == RETRY_COUNT && task.starts == 0
  }

  /** The state right after storing a body for its targets. */
  ghost predicate Init(w: World, body: string) {
    && w.tasks != []
    && w.entry == Some(Entry(body, |w.tasks|, w.now + RETENTION))
    && (forall i | 0 <= i < |w.tasks| :: Fresh(w.tasks[i]))
  }

  ghost predicate StepAt(ws: seq<World>, es: seq<Event>, k: int) {
    0 <= k < |es| && k + 1 < |ws| && CanStep(ws[k], es[k]) && ws[k + 1] == Step(ws[k], es[k])
  }

  ghost predicate Run(ws: seq<World>, es: seq<Event>, body: string) {
    |ws| == |es| + 1 && Init(ws[0], body) && forall k | 0 <= k < |es| :: StepAt(ws, es, k)
  }

  /** Targets neither succeeded nor exhausted. */
  function Unfinished(tasks: seq<Task>): nat {
    if tasks == [] then 0
    else Unfinished(tasks[..|tasks| - 1]) + (if tasks[|tasks| - 1].phase == Done then 0 else 1)
  }

  lemma {:induction false} UnfinishedUpdate(tasks: seq<Task>, i: nat, task: Task)
    requires i < |tasks| && tasks[i].phase != Done
    ensures Unfinished(tasks[i := task]) == Unfinished(tasks) - (if task.phase == Done then 1 else 0)
    ensures Unfinished(tasks) > 0
    decreases |tasks|
  {
    var front := tasks[..|tasks| - 1];
    if i < |tasks| - 1 {
      UnfinishedUpdate(front, i, task);
      assert tasks[i := task][..|tasks| - 1] == front[i := task];
    } else {
      assert tasks[i := task][..|tasks| - 1] == front;
    }
  }

  lemma {:induction false} AllDoneNoneUnfinished(tasks: seq<Task>)
    requires forall i | 0 <= i < |tasks| :: tasks[i].phase == Done
    ensures Unfinished(tasks) == 0
    decreases |tasks|
  {
    if tasks != [] {
      AllDoneNoneUnfinished(tasks[..|tasks| - 1]);
    }
  }

  lemma {:induction false} AllFreshUnfinished(tasks: seq<Task>)
    requires forall i | 0 <= i < |tasks| :: Fresh(tasks[i])
    ensures Unfinished(tasks) == |tasks|
    decreases |tasks|
  {
    if tasks != [] {
      AllFreshUnfinished(tasks[..|tasks| - 1]);
    }
  }

  /** Starts and remaining retries add up, so the attempt a worker reports is the one it makes. */
  predicate TaskCounts(task: Task) {
    && 0 <= task.retryCount <= RETRY_COUNT
    && (task.phase == Unpushed || task.phase == Queued ==> task.starts + task.retryCount == RETRY_COUNT)
    && (task.phase == Sending ==> task.starts + task.retryCount == MAX_ATTEMPTS)
    && task.starts <= MAX_ATTEMPTS
  }

  ghost predicate Conserved(w: World, body: string, deadline: int) {
    && (w.entry.Some? ==> w.entry.value.body == body && w.entry.value.deadline == deadline)
    && (Live(w.entry, w.now) <==> w.now < deadline && Unfinished(w.tasks) > 0)
    && (Live(w.entry, w.now) ==> w.entry.value.remain == Unfinished(w.tasks))
    && (forall i | 0 <= i < |w.tasks| :: TaskCounts(w.tasks[i]))
  }

  /** Events a task can still take part in. */
  function Weight(task: Task): int {
    match task.phase
    case Unpushed => 4 + 2 * task.retryCount
    case Queued => 3 + 2 * task.retryCount
    case Sending => 2 + 2 * task.retryCount
    case Finishing => 1
    case Done => 0
  }

  lemma TaskCountsStep(w: World, e: Event)
    requires CanStep(w, e) && !e.Tick? && TaskCounts(w.tasks[e.i])
    ensures TaskCounts(NextTask(w, e))
    ensures NextTask(w, e).phase == Done <==> e.Finish?
    ensures Weight(NextTask(w, e)) < Weight(w.tasks[e.i])
  {
  }

  lemma ConservedStep(w: World, e: Event, body: string, deadline: int)
    requires CanStep(w, e) && Conserved(w, body, deadline)
    ensures Conserved(Step(w, e), body, deadline)
    ensures |Step(w, e).tasks| == |w.tasks|
  {
    if !e.Tick? {
      TaskCountsStep(w, e);
      UnfinishedUpdate(w.tasks, e.i, NextTask(w, e));
    }
  }

  lemma {:induction false} ConservedThroughout(ws: seq<World>, es: seq<Event>, body: string, k: nat)
    requires Run(ws, es, body) && k < |ws|
    ensures Conserved(ws[k], body, ws[0].now + RETENTION) && |ws[k].tasks| == |ws[0].tasks|
  {
    if k == 0 {
      AllFreshUnfinished(ws[0].tasks);
    } else {
      ConservedThroughout(ws, es, body, k - 1);
      assert StepAt(ws, es, k - 1);
      ConservedStep(ws[k - 1], es[k - 1], body, ws[0].now + RETENTION);
    }
  }

  /** Ledger conservation, in every interleaving: inside the retention window the hash is there exactly while some
      target is unfinished, it counts those targets and still holds the stored body; and a worker reports the
      number of the attempt it makes, terminal exactly on the sixth. */
  lemma LedgerIsConserved(ws: seq<World>, es: seq<Event>, body: string, k: nat)
    requires Run(ws, es, body) && k < |ws|
    ensures Live(ws[k].entry, ws[k].now) <==> ws[k].now < ws[0].now + RETENTION && Unfinished(ws[k].tasks) > 0
    ensures Live(ws[k].entry, ws[k].now) ==>
              ws[k].entry.value == Entry(body, Unfinished(ws[k].tasks), ws[0].now + RETENTION)
    ensures k < |es| && es[k].Start? ==>
              && TaskAt(ws[k], es[k].i, Queued)
              && CurrentAttempt(ws[k].tasks[es[k].i].retryCount).number == ws[k].tasks[es[k].i].starts + 1 <= MAX_ATTEMPTS
              && (CurrentAttempt(ws[k].tasks[es[k].i].retryCount).terminal <==>
                    ws[k].tasks[es[k].i].starts + 1 == MAX_ATTEMPTS)
  {
    ConservedThroughout(ws, es, body, k);
    if k < |es| && es[k].Start? {
      assert StepAt(ws, es, k);
      assert TaskCounts(ws[k].tasks[es[k].i]);
    }
  }

  lemma {:induction false} DoneStays(ws: seq<World>, es: seq<Event>, body: string, i: nat, k: nat, m: nat)
    requires Run(ws, es, body) && k <= m < |ws| && TaskAt(ws[k], i, Done)
    ensures TaskAt(ws[m], i, Done)
    decreases m
  {
    if k < m {
      DoneStays(ws, es, body, i, k, m - 1);
      assert StepAt(ws, es, m - 1);
    }
  }

  /** No target finishes twice. */
  lemma FinishesOnce(ws: seq<World>, es: seq<Event>, body: string, k: nat, m: nat)
    requires Run(ws, es, body) && k < |es| && m < |es|
    requires es[k].Finish? && es[m].Finish? && es[k].i == es[m].i
    ensures k == m
  {
    assert StepAt(ws, es, k) && StepAt(ws, es, m);
    if k < m {
      DoneStays(ws, es, body, es[k].i, k + 1, m);
    } else if m < k {
      DoneStays(ws, es, body, es[k].i, m + 1, k);
    }
  }

  // ---- every target finishes ----

  function TotalWeight(tasks: seq<Task>): int {
    if tasks == [] then 0 else TotalWeight(tasks[..|tasks| - 1]) + Weight(tasks[|tasks| - 1])
  }

  lemma {:induction false} WeightUpdate(tasks: seq<Task>, i: nat, task: Task)
    requires i < |tasks|
    ensures TotalWeight(tasks[i := task]) == TotalWeight(tasks) - Weight(tasks[i]) + Weight(task)
    decreases |tasks|
  {
    var front := tasks[..|tasks| - 1];
    if i < |tasks| - 1 {
      WeightUpdate(front, i, task);
      assert tasks[i := task][..|tasks| - 1] == front[i := task];
    } else {
      assert tasks[i := task][..|tasks| - 1] == front;
    }
  }

  lemma {:induction false} WeightBounds(tasks: seq<Task>)
    requires forall i | 0 <= i < |tasks| :: TaskCounts(tasks[i])
    ensures 0 <= TotalWeight(tasks) <= 14 * |tasks|
    decreases |tasks|
  {
    if tasks != [] {
      WeightBounds(tasks[..|tasks| - 1]);
      assert TaskCounts(tasks[|tasks| - 1]);
    }
  }

  function Activity(es: seq<Event>, k: nat): nat
    requires k <= |es|
  {
    if k == 0 then 0 else Activity(es, k - 1) + (if es[k - 1].Tick? then 0 else 1)
  }

  lemma {:induction false} WeightSpent(ws: seq<World>, es: seq<Event>, body: string, k: nat)
    requires Run(ws, es, body) && k < |ws|
    ensures Activity(es, k) + TotalWeight(ws[k].tasks) <= TotalWeight(ws[0].tasks)
  {
    if k > 0 {
      WeightSpent(ws, es, body, k - 1);
      ConservedThroughout(ws, es, body, k - 1);
      assert StepAt(ws, es, k - 1);
      var w, e := ws[k - 1], es[k - 1];
      if !e.Tick? {
        TaskCountsStep(w, e);
        WeightUpdate(w.tasks, e.i, NextTask(w, e));
        assert ws[k].tasks == w.tasks[e.i := NextTask(w, e)];
      }
    }
  }

  /** Nothing but time can pass. */
  ghost predicate Quiescent(w: World) {
    forall e: Event :: CanStep(w, e) ==> e.Tick?
  }

  /** Delivery ends: at most 14 events per target ever happen, and once nothing more can happen however long one
      waits, every target has finished and the body is gone. */
  lemma DeliveryEnds(ws: seq<World>, es: seq<Event>, body: string)
    requires Run(ws, es, body)
    ensures Activity(es, |es|) <= 14 * |ws[0].tasks|
    ensures (forall d: nat :: Quiescent(Step(ws[|es|], Tick(d)))) ==>
              && !Live(ws[|es|].entry, ws[|es|].now)
              && forall i | 0 <= i < |ws[|es|].tasks| :: ws[|es|].tasks[i].phase == Done
  {
    WeightSpent(ws, es, body, |es|);
    ConservedThroughout(ws, es, body, 0);
    ConservedThroughout(ws, es, body, |es|);
    WeightBounds(ws[0].tasks);
    WeightBounds(ws[|es|].tasks);
    var w := ws[|es|];
    if forall d: nat :: Quiescent(Step(w, Tick(d))) {
      forall i | 0 <= i < |w.tasks| ensures w.tasks[i].phase == Done {
        StuckTaskIsDone(w, i);
      }
      AllDoneNoneUnfinished(w.tasks);
    }
  }

  lemma StuckTaskIsDone(w: World, i: nat)
    requires i < |w.tasks| && forall d: nat :: Quiescent(Step(w, Tick(d)))
    ensures w.tasks[i].phase == Done
  {
    var wait := if w.tasks[i].due <= w.now then 0 else w.tasks[i].due - w.now;
    var later := Step(w, Tick(wait));
    assert Quiescent(later);
    assert !CanStep(later, Push(i)) && !CanStep(later, Start(i));
    assert !CanStep(later, Reply(i, true)) && !CanStep(later, Finish(i));
  }
}
