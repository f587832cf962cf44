/** A full mesh forgets an activity for good exactly when one trip through all its relays is shorter than the retention
    time; otherwise one Announce can circle for ever. */
module RelayCirculation {
  import opened RelayFanout
  import opened RelayMesh
  import opened RelayMeshBound
  import opened RelayWalk
  import opened RelayExtinction

  /** The relays of a mesh in some order, with an inbox they accept. */
  datatype Ring = Ring(relays: seq<string>, inbox: string)

  ghost predicate Distinct(rs: seq<string>) {
    forall i, j | 0 <= i < j < |rs| :: rs[i] != rs[j]
  }

  predicate Usable(mesh: Mesh, original: Original, relay: string) {
    relay in mesh.relays && mesh.net.normalize(relay) == relay && relay != ""
    && relay != mesh.net.normalize(original.domain)
  }

  /** At least three relays, all of them usable for an activity that is served under its own ID. */
  ghost predicate Circular(mesh: Mesh, ring: Ring, original: Original) {
    && |ring.relays| >= 3 && Distinct(ring.relays)
    && (forall i | 0 <= i < |ring.relays| :: Usable(mesh, original, ring.relays[i]))
    && mesh.net.validInbox(ring.inbox) && mesh.maxFanout >= 1 && mesh.attempts >= 1
    && mesh.serves(original.id, original) && KeyOf(original) != ""
  }

  function After(size: nat, p: nat): nat
    requires p < size
  {
    if p + 1 == size then 0 else p + 1
  }

  function Before(size: nat, p: nat): nat
    requires p < size
  {
    if p == 0 then size - 1 else p - 1
  }

  /** Hops from relay p on to relay i. */
  function Ahead(size: nat, p: nat, i: nat): nat
    requires p < size && i < size
  {
    if p <= i then i - p else size + i - p
  }

  lemma AheadAfter(size: nat, p: nat, i: nat)
    requires p < size && i < size
    ensures i != p ==> Ahead(size, p, i) == Ahead(size, After(size, p), i) + 1
    ensures Ahead(size, After(size, p), p) == size - 1
  {
  }

  lemma RingMoves(ring: Ring, p: nat)
    requires |ring.relays| >= 3 && Distinct(ring.relays) && p < |ring.relays|
    ensures var size := |ring.relays|;
            Before(size, After(size, p)) == p && ring.relays[After(size, p)] != ring.relays[Before(size, p)]
  {
  }

  /** Each reservation on the way runs out by the time the Announce comes round to it. */
  ghost predicate FreeInTime(h: Hop, ring: Ring, key: string, reservations: map<(string, string), Reservation>, at: int, p: nat)
    requires p < |ring.relays|
  {
    forall i | 0 <= i < |ring.relays| && (ring.relays[i], key) in reservations ::
      reservations[(ring.relays[i], key)].deadline <= at + Hops(h, Ahead(|ring.relays|, p, i))
  }

  /** One message is on its way to relay p, just sent. */
  ghost predicate Rolling(mesh: Mesh, h: Hop, ring: Ring, original: Original, w: World, p: nat) {
    && p < |ring.relays| && w.messages != []
    && (var msg := w.messages[|w.messages| - 1];
        && msg.source == ring.relays[Before(|ring.relays|, p)] && msg.to == ring.relays[p]
        && msg.url == original.id && msg.attempts == mesh.attempts && msg.born == w.now)
    && FreeInTime(h, ring, KeyOf(original), w.reservations, w.now + h.delivery, p)
  }

  /** Relay p has just accepted it. */
  ghost predicate Accepted(h: Hop, ring: Ring, original: Original, w: World, p: nat) {
    && p < |ring.relays| && w.jobs != []
    && (var job := w.jobs[|w.jobs| - 1];
        && job.relay == ring.relays[p] && job.source == ring.relays[Before(|ring.relays|, p)]
        && job.id == original.id && job.origin == original.domain && job.phase == Fanning && job.acceptedAt == w.now)
    && FreeInTime(h, ring, KeyOf(original), w.reservations, w.now + Span(h), After(|ring.relays|, p))
  }

  /** One trip takes as long as a reservation lasts. */
  ghost predicate Slow(h: Hop, ring: Ring) {
    ACTIVITY_RETENTION <= Hops(h, |ring.relays|)
  }

  lemma ReservedAgain(h: Hop, ring: Ring, key: string, reservations: map<(string, string), Reservation>, now: int, p: nat, token: nat)
    requires |ring.relays| >= 3 && Distinct(ring.relays) && p < |ring.relays| && Slow(h, ring)
    requires FreeInTime(h, ring, key, reservations, now, p)
    ensures FreeInTime(h, ring, key,
                       reservations[(ring.relays[p], key) := Reservation(token, now + ACTIVITY_RETENTION)],
                       now + Span(h), After(|ring.relays|, p))
  {
    forall i | 0 <= i < |ring.relays| ensures
      && (i != p ==> Hops(h, Ahead(|ring.relays|, p, i)) == Span(h) + Hops(h, Ahead(|ring.relays|, After(|ring.relays|, p), i)))
      && (i == p ==> ACTIVITY_RETENTION <= Span(h) + Hops(h, Ahead(|ring.relays|, After(|ring.relays|, p), i)))
      && (i != p ==> ring.relays[i] != ring.relays[p])
    {
      AheadAfter(|ring.relays|, p, i);
    }
  }

  lemma CircleDelivers(mesh: Mesh, h: Hop, ring: Ring, original: Original, w: World, p: nat)
    requires Circular(mesh, ring, original) && Slow(h, ring) && Rolling(mesh, h, ring, original, w, p)
    ensures var later := w.(now := w.now + h.delivery);
            var e := Deliver(|w.messages| - 1, true, original);
            && CanStep(mesh, later, e) && PromptStep(h, later, e)
            && Accepted(h, ring, original, Step(mesh, later, e), p)
            && Step(mesh, later, e).fanouts == w.fanouts
  {
    var later := w.(now := w.now + h.delivery);
    assert Usable(mesh, original, ring.relays[p]);
    assert Ahead(|ring.relays|, p, p) == 0 && Hops(h, 0) == 0;
    HopDeliver(mesh, later, |w.messages| - 1, original);
    ReservedAgain(h, ring, KeyOf(original), w.reservations, later.now, p, |w.jobs|);
  }

  lemma CircleFansOut(mesh: Mesh, h: Hop, ring: Ring, original: Original, v: World, p: nat)
    requires Circular(mesh, ring, original) && Accepted(h, ring, original, v, p)
    ensures var next := After(|ring.relays|, p);
            var later, receiver := v.(now := v.now + h.lag), Receiver(ring.relays[next], ring.inbox);
            var e := FanOut(|v.jobs| - 1, [receiver], {receiver});
            && CanStep(mesh, later, e) && PromptStep(h, later, e)
            && Rolling(mesh, h, ring, original, Step(mesh, later, e), next)
            && |Step(mesh, later, e).fanouts| == |v.fanouts| + 1
  {
    var next := After(|ring.relays|, p);
    var later := v.(now := v.now + h.lag);
    RingMoves(ring, p);
    assert Usable(mesh, original, ring.relays[next]) && Usable(mesh, original, ring.relays[Before(|ring.relays|, p)]);
    HopFanOut(mesh, later, |v.jobs| - 1, Receiver(ring.relays[next], ring.inbox));
  }

  // ---- runs ----

  /** A prompt run from one seed message for the URL, of any length. */
  ghost predicate FromSeed(mesh: Mesh, h: Hop, url: string, ws: seq<World>, es: seq<Event>) {
    PromptRun(mesh, h, ws, es) && |ws[0].messages| == 1 && ws[0].messages[0].url == url
  }

  lemma ExtendPrompt(mesh: Mesh, h: Hop, url: string, ws: seq<World>, es: seq<Event>, e: Event)
    returns (xs: seq<World>, fs: seq<Event>)
    requires FromSeed(mesh, h, url, ws, es) && CanStep(mesh, ws[|es|], e) && PromptStep(h, ws[|es|], e)
    ensures FromSeed(mesh, h, url, xs, fs) && xs[|fs|] == Step(mesh, ws[|es|], e)
  {
    xs, fs := Extend(mesh, ws, es, e);
    forall k | 0 <= k < |fs| ensures PromptStep(h, xs[k], fs[k]) {
      assert k < |es| ==> PromptStep(h, ws[k], es[k]) && xs[k] == ws[k];
    }
  }

  lemma DeliverRound(mesh: Mesh, h: Hop, ring: Ring, original: Original, ws: seq<World>, es: seq<Event>, p: nat)
    returns (xs: seq<World>, fs: seq<Event>)
    requires Circular(mesh, ring, original) && Slow(h, ring)
    requires FromSeed(mesh, h, original.id, ws, es) && Rolling(mesh, h, ring, original, ws[|es|], p)
    ensures FromSeed(mesh, h, original.id, xs, fs) && Accepted(h, ring, original, xs[|fs|], p)
    ensures |xs[|fs|].fanouts| == |ws[|es|].fanouts|
  {
    var w := ws[|es|];
    CircleDelivers(mesh, h, ring, original, w, p);
    xs, fs := ExtendPrompt(mesh, h, original.id, ws, es, Tick(h.delivery));
    xs, fs := ExtendPrompt(mesh, h, original.id, xs, fs, Deliver(|w.messages| - 1, true, original));
  }

  lemma FanOutRound(mesh: Mesh, h: Hop, ring: Ring, original: Original, ws: seq<World>, es: seq<Event>, p: nat)
    returns (xs: seq<World>, fs: seq<Event>)
    requires Circular(mesh, ring, original)
    requires FromSeed(mesh, h, original.id, ws, es) && Accepted(h, ring, original, ws[|es|], p)
    ensures FromSeed(mesh, h, original.id, xs, fs)
    ensures Rolling(mesh, h, ring, original, xs[|fs|], After(|ring.relays|, p))
    ensures |xs[|fs|].fanouts| == |ws[|es|].fanouts| + 1
  {
    var v := ws[|es|];
    var receiver := Receiver(ring.relays[After(|ring.relays|, p)], ring.inbox);
    CircleFansOut(mesh, h, ring, original, v, p);
    xs, fs := ExtendPrompt(mesh, h, original.id, ws, es, Tick(h.lag));
    xs, fs := ExtendPrompt(mesh, h, original.id, xs, fs, FanOut(|v.jobs| - 1, [receiver], {receiver}));
  }

  /** With slow hops one Announce circles through the relays as often as one likes. */
  lemma {:induction false} CirclesForEver(mesh: Mesh, h: Hop, ring: Ring, original: Original, rounds: nat)
    returns (ws: seq<World>, es: seq<Event>, p: nat)
    requires Circular(mesh, ring, original) && Slow(h, ring)
    ensures FromSeed(mesh, h, original.id, ws, es) && Rolling(mesh, h, ring, original, ws[|es|], p)
    ensures |ws[|es|].fanouts| == rounds
  {
    if rounds == 0 {
      p := 0;
      var last := ring.relays[|ring.relays| - 1];
      ws, es := [World(0, map[], [Message(last, ring.relays[0], original.id, mesh.attempts, 0, [])], [], [])], [];
    } else {
      ws, es, p := CirclesForEver(mesh, h, ring, original, rounds - 1);
      ws, es := DeliverRound(mesh, h, ring, original, ws, es, p);
      ws, es := FanOutRound(mesh, h, ring, original, ws, es, p);
      p := After(|ring.relays|, p);
    }
  }

  // ---- exactly ----

  ghost predicate FanoutsAtMost(mesh: Mesh, h: Hop, url: string, bound: nat) {
    forall ws: seq<World>, es: seq<Event> | FromSeed(mesh, h, url, ws, es) :: |ws[|es|].fanouts| <= bound
  }

  /** Whatever happens at this speed, an Announce of the URL leads to a bounded number of fan-outs in all time. */
  ghost predicate DiesOut(mesh: Mesh, h: Hop, url: string) {
    exists bound: nat :: FanoutsAtMost(mesh, h, url, bound)
  }

  lemma SeedLoad(mesh: Mesh, size: nat, msg: Message)
    requires msg.attempts <= mesh.attempts && msg.trail == []
    ensures Load(Breadth(mesh), size, [msg]) <= mesh.attempts * Cost(Breadth(mesh), size)
  {
    assert [msg][..0] == [];
    assert msg.attempts * Cost(Breadth(mesh), size) <= mesh.attempts * Cost(Breadth(mesh), size);
  }

  lemma SeedDiesOut(mesh: Mesh, h: Hop, scope: Scope, url: string, ws: seq<World>, es: seq<Event>)
    requires FromSeed(mesh, h, url, ws, es) && Closed(mesh, scope) && scope.reach(url) && Brisk(mesh, h, scope)
    ensures |ws[|es|].fanouts| <= mesh.attempts * Cost(Breadth(mesh), |Universe(mesh, scope.keys)|)
  {
    FloodDiesOut(mesh, h, scope, ws, es);
    FanoutsAreActivity(mesh, ws, es, |es|);
    assert ws[0].messages == [ws[0].messages[0]];
    SeedLoad(mesh, |Universe(mesh, scope.keys)|, ws[0].messages[0]);
  }

  lemma BriskDiesOut(mesh: Mesh, h: Hop, scope: Scope, url: string)
    requires Closed(mesh, scope) && scope.reach(url) && Brisk(mesh, h, scope)
    ensures DiesOut(mesh, h, url)
  {
    var bound := mesh.attempts * Cost(Breadth(mesh), |Universe(mesh, scope.keys)|);
    forall ws: seq<World>, es: seq<Event> | FromSeed(mesh, h, url, ws, es) ensures |ws[|es|].fanouts| <= bound {
      SeedDiesOut(mesh, h, scope, url, ws, es);
    }
    assert FanoutsAtMost(mesh, h, url, bound);
  }

  lemma BeyondAnyBound(mesh: Mesh, h: Hop, ring: Ring, original: Original, bound: nat)
    requires Circular(mesh, ring, original) && Slow(h, ring)
    ensures !FanoutsAtMost(mesh, h, original.id, bound)
  {
    var ws, es, p := CirclesForEver(mesh, h, ring, original, bound + 1);
    assert FromSeed(mesh, h, original.id, ws, es) && |ws[|es|].fanouts| == bound + 1;
  }

  ghost function Pairs(rs: seq<string>, key: string): set<(string, string)> {
    set i | 0 <= i < |rs| :: (rs[i], key)
  }

  lemma {:induction false} PairsCount(rs: seq<string>, key: string)
    requires Distinct(rs)
    ensures |Pairs(rs, key)| == |rs|
    decreases |rs|
  {
    if rs != [] {
      var front, last := rs[..|rs| - 1], rs[|rs| - 1];
      PairsCount(front, key);
      assert Pairs(rs, key) == Pairs(front, key) + {(last, key)};
      assert (last, key) !in Pairs(front, key);
    }
  }

  /** Extinction, exactly. In a mesh of at least three mutually following relays, an activity whose canonical ID is its own
      dies out for good if and only if the relays times the longest hop stay below the retention time. */
  lemma DiesOutIff(mesh: Mesh, h: Hop, ring: Ring, original: Original, reach: string -> bool)
    requires Circular(mesh, ring, original) && (forall r | r in mesh.relays :: r in ring.relays)
    requires Closed(mesh, Scope(reach, {KeyOf(original)})) && reach(original.id)
    ensures DiesOut(mesh, h, original.id) <==> |ring.relays| * Span(h) < ACTIVITY_RETENTION
  {
    var scope := Scope(reach, {KeyOf(original)});
    HopsIsProduct(h, |ring.relays|);
    if |ring.relays| * Span(h) < ACTIVITY_RETENTION {
      WholeUniverse(mesh, ring, original);
      BriskDiesOut(mesh, h, scope, original.id);
    } else {
      forall bound: nat ensures !FanoutsAtMost(mesh, h, original.id, bound) {
        BeyondAnyBound(mesh, h, ring, original, bound);
      }
    }
  }

  lemma WholeUniverse(mesh: Mesh, ring: Ring, original: Original)
    requires Circular(mesh, ring, original) && (forall r | r in mesh.relays :: r in ring.relays)
    ensures |Universe(mesh, {KeyOf(original)})| == |ring.relays|
  {
    var u, pairs := Universe(mesh, {KeyOf(original)}), Pairs(ring.relays, KeyOf(original));
    forall pair | pair in pairs ensures pair in u {
      var i :| 0 <= i < |ring.relays| && pair == (ring.relays[i], KeyOf(original));
      assert Usable(mesh, original, ring.relays[i]);
    }
    forall pair | pair in u ensures pair in pairs {
      var i :| 0 <= i < |ring.relays| && ring.relays[i] == pair.0;
    }
    assert u == pairs;
    PairsCount(ring.relays, KeyOf(original));
  }
}
