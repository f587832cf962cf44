/** Single hops of an Announce through a mesh, and how close together two fan-outs of one ID can come. */
module RelayWalk {
  import opened Text
  import opened RelayFanout
  import opened RelayMesh

  lemma Extend(mesh: Mesh, ws: seq<World>, es: seq<Event>, e: Event) returns (xs: seq<World>, fs: seq<Event>)
    requires Run(mesh, ws, es) && CanStep(mesh, ws[|es|], e)
    ensures Run(mesh, xs, fs) && ws <= xs && fs == es + [e] && xs[|fs|] == Step(mesh, ws[|es|], e)
  {
    xs, fs := ws + [Step(mesh, ws[|es|], e)], es + [e];
    forall k | 0 <= k < |fs| ensures StepAt(mesh, xs, fs, k) {
      assert k < |es| ==> StepAt(mesh, ws, es, k);
    }
  }

  // ---- hops ----

  function JobOf(msg: Message, original: Original, now: int): Job {
    Job(msg.to, original.id, msg.source, original.domain, Fanning, now, msg.trail)
  }

  /** A free key is reserved and the activity accepted. */
  lemma HopDeliver(mesh: Mesh, w: World, m: nat, original: Original)
    requires m < |w.messages| && w.messages[m].attempts > 0 && mesh.serves(w.messages[m].url, original)
    requires w.messages[m].to in mesh.relays && KeyOf(original) != ""
    requires !Reserved(w.reservations, w.now, (w.messages[m].to, KeyOf(original)))
    ensures CanStep(mesh, w, Deliver(m, true, original))
    ensures var msg := w.messages[m];
            Step(mesh, w, Deliver(m, true, original)) ==
            w.(messages := w.messages[m := msg.(attempts := msg.attempts - 1)],
               reservations := w.reservations[(msg.to, KeyOf(original)) := Reservation(|w.jobs|, w.now + ACTIVITY_RETENTION)],
               jobs := w.jobs + [JobOf(msg, original, w.now)])
  {
  }

  lemma KeptSingle(plan: Receiver -> bool, receiver: Receiver)
    requires plan(receiver)
    ensures Kept(plan, [receiver]) == [receiver]
  {
    assert [receiver][..0] == [] && Kept(plan, []) == [];
  }

  /** A receiver that is neither where the Announce came from nor its origin. */
  predicate Onward(mesh: Mesh, job: Job, receiver: Receiver) {
    && mesh.net.normalize(receiver.domain) == receiver.domain && receiver.domain != ""
    && receiver.domain != mesh.net.normalize(job.source) && receiver.domain != mesh.net.normalize(job.origin)
    && mesh.net.validInbox(receiver.inboxURL)
  }

  lemma OnwardIsTarget(mesh: Mesh, job: Job, receiver: Receiver, planned: set<Receiver>)
    requires Onward(mesh, job, receiver) && receiver in planned
    ensures JobTargets(mesh, job, [receiver]) == [receiver]
    ensures Sent(mesh, job, [receiver], planned) == [receiver]
  {
    var net := mesh.net;
    assert Chosen(net, [receiver], ExcludedSet(net, [job.source, job.origin]), 0);
    assert ChosenUpTo(net, [receiver], ExcludedSet(net, [job.source, job.origin]), 0) == [];
    KeptSingle(r => r in planned, receiver);
  }

  function MessageOf(mesh: Mesh, job: Job, j: nat, receiver: Receiver, now: int): Message {
    Message(job.relay, receiver.domain, job.id, mesh.attempts, now, job.trail + [j])
  }

  /** Fanning out to one such receiver sends it one message and leaves the reservations alone. */
  lemma HopFanOut(mesh: Mesh, w: World, j: nat, receiver: Receiver)
    requires JobAt(w, j, Fanning) && Onward(mesh, w.jobs[j], receiver) && mesh.maxFanout >= 1
    ensures var e := FanOut(j, [receiver], {receiver});
            && CanStep(mesh, w, e)
            && var next := Step(mesh, w, e);
               && next.now == w.now && next.reservations == w.reservations && |next.fanouts| == |w.fanouts| + 1
               && next.jobs == w.jobs[j := w.jobs[j].(phase := Completed)]
               && next.messages == w.messages + [MessageOf(mesh, w.jobs[j], j, receiver, w.now)]
  {
    OnwardIsTarget(mesh, w.jobs[j], receiver, {receiver});
    assert Announce(mesh, w.jobs[j], j, [receiver], w.now) == [MessageOf(mesh, w.jobs[j], j, receiver, w.now)];
  }

  // ---- the spacing of fan-outs is exact ----

  /** Every fan-out happened within `lag` of its acceptance. */
  ghost predicate LagAtMost(lag: nat, w: World) {
    forall f: nat | f < |w.fanouts| && w.fanouts[f].job < |w.jobs| :: w.fanouts[f].at <= AcceptedAt(w, f) + lag
  }

  ghost predicate SameKey(w: World, f: nat, g: nat) {
    f < |w.fanouts| && g < |w.fanouts| && f != g && FanoutKey(w.fanouts[f]) == FanoutKey(w.fanouts[g])
  }

  predicate Distant(a: int, b: int, distance: int) {
    a + distance <= b || b + distance <= a
  }

  /** Two fan-outs of one relay and canonical ID are never closer than `distance`. */
  ghost predicate AlwaysSpaced(mesh: Mesh, lag: nat, distance: int) {
    forall ws: seq<World>, es: seq<Event>, f: nat, g: nat
      | Run(mesh, ws, es) && LagAtMost(lag, ws[|es|]) && SameKey(ws[|es|], f, g) ::
      Distant(ws[|es|].fanouts[f].at, ws[|es|].fanouts[g].at, distance)
  }

  lemma FanOutToNobody(mesh: Mesh, w: World, j: nat)
    requires JobAt(w, j, Fanning)
    ensures CanStep(mesh, w, FanOut(j, [], {}))
    ensures var job := w.jobs[j];
            Step(mesh, w, FanOut(j, [], {})) ==
            w.(jobs := w.jobs[j := job.(phase := Completed)],
               fanouts := w.fanouts + [Fanout(j, job.relay, Trim(job.id), job.source, job.origin, [], w.now)])
  {
  }

  /** A relay that gets one self-same activity from two senders. */
  function TwoSeeds(relay: string, url: string): World {
    World(0, map[], [Message("s", relay, url, 1, 0, []), Message("t", relay, url, 1, 0, [])], [], [])
  }

  lemma FirstFanOut(mesh: Mesh, relay: string, url: string, original: Original, wait: nat)
    returns (ws: seq<World>, es: seq<Event>)
    requires relay in mesh.relays && mesh.serves(url, original) && KeyOf(original) != "" && mesh.attempts >= 1
    ensures Run(mesh, ws, es)
    ensures var w := ws[|es|];
            && w.now == wait && |w.messages| == 2 && w.messages[1] == Message("t", relay, url, 1, 0, [])
            && w.reservations == map[(relay, KeyOf(original)) := Reservation(0, ACTIVITY_RETENTION)]
            && w.jobs == [Job(relay, original.id, "s", original.domain, Completed, 0, [])]
            && w.fanouts == [Fanout(0, relay, KeyOf(original), "s", original.domain, [], wait)]
  {
    var start := TwoSeeds(relay, url);
    assert Run(mesh, [start], []);
    HopDeliver(mesh, start, 0, original);
    ws, es := Extend(mesh, [start], [], Deliver(0, true, original));
    ws, es := Extend(mesh, ws, es, Tick(wait));
    FanOutToNobody(mesh, ws[|es|], 0);
    ws, es := Extend(mesh, ws, es, FanOut(0, [], {}));
  }

  /** The first fan-out as late as it may be, and a second acceptance and fan-out the moment the reservation has expired. */
  lemma ClosestFanOuts(mesh: Mesh, relay: string, url: string, original: Original, lag: nat, wait: nat)
    returns (ws: seq<World>, es: seq<Event>)
    requires relay in mesh.relays && mesh.serves(url, original) && KeyOf(original) != "" && mesh.attempts >= 1
    requires wait <= lag && wait <= ACTIVITY_RETENTION
    ensures Run(mesh, ws, es) && LagAtMost(lag, ws[|es|]) && SameKey(ws[|es|], 0, 1)
    ensures ws[|es|].fanouts[0].at == wait && ws[|es|].fanouts[1].at == ACTIVITY_RETENTION
  {
    ws, es := FirstFanOut(mesh, relay, url, original, wait);
    ws, es := Extend(mesh, ws, es, Tick(ACTIVITY_RETENTION - wait));
    HopDeliver(mesh, ws[|es|], 1, original);
    ws, es := Extend(mesh, ws, es, Deliver(1, true, original));
    FanOutToNobody(mesh, ws[|es|], 1);
    ws, es := Extend(mesh, ws, es, FanOut(1, [], {}));
  }

  /** The spacing, exactly, in every mesh in which some relay can accept something: fan-outs of one relay and ID are
      always a given positive time apart if and only if that is at most the retention time less the lag. */
  lemma AlwaysSpacedIff(mesh: Mesh, relay: string, url: string, original: Original, lag: nat, distance: int)
    requires relay in mesh.relays && mesh.serves(url, original) && KeyOf(original) != "" && mesh.attempts >= 1
    requires distance > 0
    ensures AlwaysSpaced(mesh, lag, distance) <==> distance <= ACTIVITY_RETENTION - lag
  {
    if distance <= ACTIVITY_RETENTION - lag {
      forall ws: seq<World>, es: seq<Event>, f: nat, g: nat
        | Run(mesh, ws, es) && LagAtMost(lag, ws[|es|]) && SameKey(ws[|es|], f, g)
        ensures Distant(ws[|es|].fanouts[f].at, ws[|es|].fanouts[g].at, distance)
      {
        FromJobsThroughout(mesh, ws, es, |es|);
        assert FromJob(ws[|es|], ws[|es|].fanouts[f]) && FromJob(ws[|es|], ws[|es|].fanouts[g]);
        FanoutsAreSpaced(mesh, ws, es, |es|, lag, f, g);
      }
    } else {
      var wait := if lag <= ACTIVITY_RETENTION then lag else ACTIVITY_RETENTION;
      var ws, es := ClosestFanOuts(mesh, relay, url, original, lag, wait);
      assert !Distant(ws[|es|].fanouts[0].at, ws[|es|].fanouts[1].at, distance);
    }
  }
}
