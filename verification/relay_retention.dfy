/** How late brokers and workers may be for every delivery attempt to find the stored body. */
module RelayRetention {
  import opened Text
  import opened RelayDelivery

  const SEND_TIMEOUT: int := 5_000

  /** Workers take due tasks, and the broker takes pushes, within `latency`; sends end within SEND_TIMEOUT. */
  predicate PromptStep(latency: int, w: World, e: Event, start: int) {
    match e
    case Push(i) => w.now <= start + latency
    case Start(i) => i < |w.tasks| ==> w.now <= w.tasks[i].due + latency
    case Reply(i, _) => i < |w.tasks| ==> w.now <= w.tasks[i].due + SEND_TIMEOUT
    case _ => true
  }

  ghost predicate PromptRun(latency: int, ws: seq<World>, es: seq<Event>, body: string) {
    Run(ws, es, body) && forall m | 0 <= m < |es| :: PromptStep(latency, ws[m], es[m], ws[0].now)
  }

  /** Retry delays in milliseconds, added up. */
  function Waited(starts: nat): nat {
    if starts == 0 then 0 else Waited(starts - 1) + 1000 * RetryDelay(starts)
  }

  /** Latest time after storing at which a task with this many starts behind it becomes due. */
  function DueBy(latency: int, starts: nat): int {
    latency + (latency + SEND_TIMEOUT) * starts + Waited(starts)
  }

  lemma WaitedTable()
    ensures Waited(0) == 0 && Waited(1) == 8_000 && Waited(2) == 21_000
    ensures Waited(3) == 42_000 && Waited(4) == 76_000 && Waited(5) == 131_000
  {
    Delays();
    assert Waited(1) == 8_000;
    assert Waited(2) == 21_000;
    assert Waited(3) == 42_000;
    assert Waited(4) == 76_000;
  }

  lemma NextDue(latency: int, starts: nat)
    requires 1 <= starts <= 5
    ensures DueBy(latency, starts) == DueBy(latency, starts - 1) + latency + SEND_TIMEOUT + 1000 * RetryDelay(starts)
  {
    assert (latency + SEND_TIMEOUT) * starts == (latency + SEND_TIMEOUT) * (starts - 1) + (latency + SEND_TIMEOUT);
  }

  predicate Punctual(latency: int, task: Task, start: int) {
    && (task.phase == Queued ==> latency >= 0 && task.starts <= 5 && task.due <= start + DueBy(latency, task.starts))
    && (task.phase == Sending ==>
          latency >= 0 && 1 <= task.starts <= 6 && task.due <= start + DueBy(latency, task.starts - 1) + latency)
  }

  lemma FailedPunctual(latency: int, task: Task, now: int, start: int)
    requires latency >= 0 && task.starts > 0 && TaskRetries(task)
    requires now <= start + DueBy(latency, task.starts - 1) + latency + SEND_TIMEOUT
    ensures Punctual(latency, Failed(task, now), start)
  {
    if task.retryCount > 0 {
      NextDue(latency, task.starts);
    }
  }

  /** A task that is being tried: starts and retries left make six. */
  predicate TaskRetries(task: Task) {
    0 <= task.retryCount <= RETRY_COUNT && task.starts + task.retryCount == MAX_ATTEMPTS
  }

  lemma PunctualStart(latency: int, w: World, i: nat, start: int)
    requires CanStep(w, Start(i)) && PromptStep(latency, w, Start(i), start)
    requires TaskCounts(w.tasks[i]) && Punctual(latency, w.tasks[i], start)
    ensures Punctual(latency, NextTask(w, Start(i)), start)
  {
    var task := w.tasks[i];
    assert w.now <= start + DueBy(latency, task.starts) + latency;
    FailedPunctual(latency, task.(starts := task.starts + 1, due := w.now), w.now, start);
  }

  lemma PunctualReply(latency: int, w: World, i: nat, ok: bool, start: int)
    requires CanStep(w, Reply(i, ok)) && PromptStep(latency, w, Reply(i, ok), start)
    requires TaskCounts(w.tasks[i]) && Punctual(latency, w.tasks[i], start)
    ensures Punctual(latency, NextTask(w, Reply(i, ok)), start)
  {
    var task := w.tasks[i];
    assert w.now <= start + DueBy(latency, task.starts - 1) + latency + SEND_TIMEOUT;
    FailedPunctual(latency, task, w.now, start);
  }

  lemma PunctualPush(latency: int, w: World, i: nat, start: int)
    requires CanStep(w, Push(i)) && PromptStep(latency, w, Push(i), start) && TaskCounts(w.tasks[i]) && start <= w.now
    requires w.tasks[i].starts == 0
    ensures Punctual(latency, NextTask(w, Push(i)), start)
  {
    WaitedTable();
  }

  lemma {:induction false} TimeGoesOn(ws: seq<World>, es: seq<Event>, body: string, k: nat)
    requires Run(ws, es, body) && k < |ws|
    ensures ws[0].now <= ws[k].now
    ensures forall i | 0 <= i < |ws[k].tasks| && ws[k].tasks[i].phase == Unpushed :: ws[k].tasks[i].starts == 0
  {
    if k > 0 {
      TimeGoesOn(ws, es, body, k - 1);
      assert StepAt(ws, es, k - 1);
    }
  }

  lemma PunctualStep(latency: int, w: World, e: Event, start: int)
    requires CanStep(w, e) && !e.Tick? && PromptStep(latency, w, e, start) && start <= w.now
    requires TaskCounts(w.tasks[e.i]) && Punctual(latency, w.tasks[e.i], start)
    requires w.tasks[e.i].phase == Unpushed ==> w.tasks[e.i].starts == 0
    ensures Punctual(latency, NextTask(w, e), start)
  {
    match e
    case Push(i) => PunctualPush(latency, w, i, start);
    case Start(i) => PunctualStart(latency, w, i, start);
    case Reply(i, ok) => PunctualReply(latency, w, i, ok, start);
    case Finish(_) =>
  }

  lemma {:induction false} PunctualThroughout(latency: int, ws: seq<World>, es: seq<Event>, body: string, k: nat)
    requires PromptRun(latency, ws, es, body) && k < |ws|
    ensures forall i | 0 <= i < |ws[k].tasks| :: Punctual(latency, ws[k].tasks[i], ws[0].now)
  {
    if k > 0 {
      PunctualThroughout(latency, ws, es, body, k - 1);
      ConservedThroughout(ws, es, body, k - 1);
      TimeGoesOn(ws, es, body, k - 1);
      assert StepAt(ws, es, k - 1) && PromptStep(latency, ws[k - 1], es[k - 1], ws[0].now);
      var e := es[k - 1];
      if !e.Tick? {
        PunctualStep(latency, ws[k - 1], e, ws[0].now);
        assert ws[k].tasks == ws[k - 1].tasks[e.i := NextTask(ws[k - 1], e)];
      }
    }
  }

  /** A latency for which the whole schedule fits into the retention time: seven waits for the system, five timed-out
      sends and five retry delays. */
  predicate ScheduleFits(latency: int) {
    7 * latency + 156_000 < RETENTION
  }

  lemma DueInTime(latency: int, starts: nat)
    requires latency >= 0 && starts <= 5
    ensures DueBy(latency, starts) <= 6 * latency + 156_000
    ensures starts == 5 ==> DueBy(latency, starts) == 6 * latency + 156_000
  {
    WaitedTable();
    assert (latency + SEND_TIMEOUT) * starts == latency * starts + 5_000 * starts;
    assert latency * starts <= latency * 5;
  }

  /** Every attempt of every target finds the original body. */
  lemma EveryAttemptFindsBody(latency: int, ws: seq<World>, es: seq<Event>, body: string, k: nat)
    requires PromptRun(latency, ws, es, body) && ScheduleFits(latency) && k < |es| && es[k].Start?
    ensures Live(ws[k].entry, ws[k].now) && ws[k].entry.value.body == body
    ensures TaskAt(ws[k + 1], es[k].i, Sending)
  {
    PunctualThroughout(latency, ws, es, body, k);
    ConservedThroughout(ws, es, body, k);
    assert StepAt(ws, es, k);
    var task := ws[k].tasks[es[k].i];
    assert TaskCounts(task) && Punctual(latency, task, ws[0].now) && PromptStep(latency, ws[k], es[k], ws[0].now);
    DueInTime(latency, task.starts);
    UnfinishedUpdate(ws[k].tasks, es[k].i, task);
  }

  // ---- and no later ----

  lemma Extend(latency: int, ws: seq<World>, es: seq<Event>, body: string, e: Event)
    returns (xs: seq<World>, fs: seq<Event>)
    requires PromptRun(latency, ws, es, body) && CanStep(ws[|es|], e) && PromptStep(latency, ws[|es|], e, ws[0].now)
    ensures PromptRun(latency, xs, fs, body) && xs[0] == ws[0] && fs == es + [e]
    ensures ws <= xs && xs[|fs|] == Step(ws[|es|], e)
  {
    xs, fs := ws + [Step(ws[|es|], e)], es + [e];
    forall k | 0 <= k < |fs| ensures StepAt(xs, fs, k) && PromptStep(latency, xs[k], fs[k], xs[0].now) {
      assert k < |es| ==> StepAt(ws, es, k) && PromptStep(latency, ws[k], es[k], ws[0].now);
    }
  }

  function Stored(body: string): Option<Entry> {
    Some(Entry(body, 1, RETENTION))
  }

  /** One target, stored at time zero, about to be tried once more at the last moment the latency allows. */
  function LastMoment(latency: int, starts: nat, body: string): World {
    World(DueBy(latency, starts) + latency, Stored(body), [Task(Queued, RETRY_COUNT - starts, starts, DueBy(latency, starts))])
  }

  lemma FirstLastMoment(latency: nat, body: string) returns (ws: seq<World>, es: seq<Event>)
    ensures PromptRun(latency, ws, es, body) && ws[0].now == 0 && ws[|es|] == LastMoment(latency, 0, body)
  {
    var initial := World(0, Stored(body), [Task(Unpushed, RETRY_COUNT, 0, 0)]);
    WaitedTable();
    assert PromptRun(latency, [initial], [], body);
    ws, es := Extend(latency, [initial], [], body, Tick(latency));
    ws, es := Extend(latency, ws, es, body, Push(0));
    ws, es := Extend(latency, ws, es, body, Tick(latency));
  }

  lemma FailsOnce(latency: nat, ws: seq<World>, es: seq<Event>, body: string, starts: nat)
    returns (xs: seq<World>, fs: seq<Event>)
    requires PromptRun(latency, ws, es, body) && ws[0].now == 0 && starts < 5
    requires ws[|es|] == LastMoment(latency, starts, body) && DueBy(latency, starts) + latency < RETENTION
    ensures PromptRun(latency, xs, fs, body) && xs[0].now == 0
    ensures xs[|fs|] == World(DueBy(latency, starts) + latency + SEND_TIMEOUT, Stored(body),
                              [Task(Queued, RETRY_COUNT - starts - 1, starts + 1, DueBy(latency, starts + 1))])
  {
    NextDue(latency, starts + 1);
    xs, fs := Extend(latency, ws, es, body, Start(0));
    xs, fs := Extend(latency, xs, fs, body, Tick(SEND_TIMEOUT));
    xs, fs := Extend(latency, xs, fs, body, Reply(0, false));
  }

  /** If the first attempts find the body as late as they may, so does the next moment come as late as it may. */
  lemma {:induction false} NextLastMoment(latency: nat, body: string, starts: nat)
    returns (ws: seq<World>, es: seq<Event>)
    requires starts <= 5 && forall j | 0 <= j < starts :: DueBy(latency, j) + latency < RETENTION
    ensures PromptRun(latency, ws, es, body) && ws[0].now == 0 && ws[|es|] == LastMoment(latency, starts, body)
  {
    if starts == 0 {
      ws, es := FirstLastMoment(latency, body);
    } else {
      ws, es := NextLastMoment(latency, body, starts - 1);
      ws, es := FailsOnce(latency, ws, es, body, starts - 1);
      NextDue(latency, starts);
      ws, es := Extend(latency, ws, es, body, Tick(1000 * RetryDelay(starts) + latency));
    }
  }

  lemma {:induction false} FirstLate(latency: nat, starts: nat) returns (first: nat)
    requires starts <= 5 && DueBy(latency, starts) + latency >= RETENTION
    ensures first <= starts && DueBy(latency, first) + latency >= RETENTION
    ensures forall j | 0 <= j < first :: DueBy(latency, j) + latency < RETENTION
  {
    if j: nat :| j < starts && DueBy(latency, j) + latency >= RETENTION {
      first := FirstLate(latency, j);
    } else {
      first := starts;
    }
  }

  /** A latency that does not fit has a run in which an attempt comes when the body is gone. */
  lemma LateAttemptMissesBody(latency: int, body: string) returns (ws: seq<World>, es: seq<Event>)
    requires !ScheduleFits(latency)
    ensures PromptRun(latency, ws, es, body) && es != [] && es[|es| - 1].Start?
    ensures !Live(ws[|es| - 1].entry, ws[|es| - 1].now)
  {
    DueInTime(latency, 5);
    var first := FirstLate(latency, 5);
    ws, es := NextLastMoment(latency, body, first);
    ghost var late := ws[|es|];
    ws, es := Extend(latency, ws, es, body, Start(0));
    assert ws[|es| - 1] == late;
  }

  ghost predicate BodyAlwaysFound(latency: int) {
    forall ws: seq<World>, es: seq<Event>, body: string, k: nat
      | PromptRun(latency, ws, es, body) && k < |es| && es[k].Start? :: Live(ws[k].entry, ws[k].now)
  }

  /** The retention time, exactly: every attempt of every target finds the body if and only if the schedule fits, that is
      for latencies of up to 106.285 seconds. */
  lemma BodyAlwaysFoundIff(latency: int)
    ensures BodyAlwaysFound(latency) <==> ScheduleFits(latency)
    ensures ScheduleFits(latency) <==> latency <= 106_285
  {
    if ScheduleFits(latency) {
      forall ws: seq<World>, es: seq<Event>, body: string, k: nat
        | PromptRun(latency, ws, es, body) && k < |es| && es[k].Start?
        ensures Live(ws[k].entry, ws[k].now)
      {
        EveryAttemptFindsBody(latency, ws, es, body, k);
      }
    } else {
      var ws, es := LateAttemptMissesBody(latency, "");
      assert es[|es| - 1].Start?;
    }
  }
}
