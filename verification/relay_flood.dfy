/** When the flood of one Announce ends, exactly: three relays pass an activity on for as long as its origin keeps naming
    it anew, and no longer. */
module RelayFlood {
  import opened Text
  import opened RelayFanout
  import opened RelayMesh
  import opened RelayMeshBound
  import opened RelayWalk

  // ---- what re-announcing goes through ----

  /** Origins answer every URL, always, as `fetch` says. */
  ghost predicate Fetches(mesh: Mesh, fetch: string -> Original) {
    forall url, original :: mesh.serves(url, original) <==> original == fetch(url)
  }

  /** The URLs that re-announcing goes through from a seed. */
  function Orbit(fetch: string -> Original, url: string, n: nat): string {
    if n == 0 then url else fetch(Orbit(fetch, url, n - 1)).id
  }

  function OrbitKey(fetch: string -> Original, url: string, n: nat): string {
    KeyOf(fetch(Orbit(fetch, url, n)))
  }

  ghost predicate SameKeys(fetch: string -> Original, url: string, m: nat, n: nat) {
    m < n && OrbitKey(fetch, url, m) == OrbitKey(fetch, url, n)
  }

  /** Some canonical ID comes back. */
  ghost predicate Repeats(fetch: string -> Original, url: string) {
    exists m: nat, n: nat :: SameKeys(fetch, url, m, n)
  }

  predicate BlindAt(fetch: string -> Original, url: string) {
    fetch(url) == fetch(Trim(url))
  }

  /** Padding around a URL does not change what is fetched. */
  ghost predicate TrimBlind(fetch: string -> Original) {
    forall url :: BlindAt(fetch, url)
  }

  // ---- floods from one seed ----

  /** A run from one seed message for the URL, inside one retention time. */
  ghost predicate FromSeed(mesh: Mesh, url: string, ws: seq<World>, es: seq<Event>) {
    && Run(mesh, ws, es) && |ws[0].messages| == 1 && ws[0].messages[0].url == url
    && forall k | 0 <= k < |ws| :: ws[k].now < ws[0].now + ACTIVITY_RETENTION
  }

  ghost predicate FanoutsAtMost(mesh: Mesh, url: string, bound: nat) {
    forall ws: seq<World>, es: seq<Event> | FromSeed(mesh, url, ws, es) :: |ws[|es|].fanouts| <= bound
  }

  /** However it goes, a flood from this seed has a bounded number of fan-outs. */
  ghost predicate FloodEnds(mesh: Mesh, url: string) {
    exists bound: nat :: FanoutsAtMost(mesh, url, bound)
  }

  // ---- a repeated ID ends it, in every mesh ----

  lemma KeyLeadsOn(fetch: string -> Original, url: string, j: nat, u: string)
    requires TrimBlind(fetch) && Trim(u) == OrbitKey(fetch, url, j)
    ensures KeyOf(fetch(u)) == OrbitKey(fetch, url, j + 1)
  {
    assert BlindAt(fetch, u) && BlindAt(fetch, Orbit(fetch, url, j + 1));
  }

  ghost function OrbitKeys(fetch: string -> Original, url: string, n: nat): set<string> {
    set j: nat | j < n :: OrbitKey(fetch, url, j)
  }

  ghost function OrbitScope(fetch: string -> Original, url: string, n: nat): Scope {
    var keys := OrbitKeys(fetch, url, n);
    Scope(u => u == url || Trim(u) in keys, keys)
  }

  lemma OrbitScopeClosed(mesh: Mesh, fetch: string -> Original, url: string, m: nat, n: nat)
    requires Fetches(mesh, fetch) && TrimBlind(fetch) && SameKeys(fetch, url, m, n)
    ensures Closed(mesh, OrbitScope(fetch, url, n))
  {
    var scope := OrbitScope(fetch, url, n);
    forall u, original | scope.reach(u) && mesh.serves(u, original)
      ensures KeyOf(original) in scope.keys && scope.reach(original.id)
    {
      assert original == fetch(u);
      if u == url {
        assert KeyOf(original) == OrbitKey(fetch, url, 0);
      } else {
        var j: nat :| j < n && OrbitKey(fetch, url, j) == Trim(u);
        KeyLeadsOn(fetch, url, j, u);
        assert j + 1 == n ==> KeyOf(original) == OrbitKey(fetch, url, m);
      }
    }
  }

  lemma OneMessage(msg: Message)
    ensures Attempts([msg]) == msg.attempts
  {
    assert [msg][..0] == [];
  }

  lemma SeedBound(mesh: Mesh, url: string, ws: seq<World>, es: seq<Event>, scope: Scope)
    requires FromSeed(mesh, url, ws, es) && Closed(mesh, scope) && scope.reach(url)
    ensures |ws[|es|].fanouts| <= 3 * mesh.attempts + Quota(mesh) * |Universe(mesh, scope.keys)|
  {
    FloodIsBounded(mesh, ws, es, scope, 0, |es|);
    FanoutsAreActivity(mesh, ws, es, |es|);
    assert ws[0].messages == [ws[0].messages[0]];
    OneMessage(ws[0].messages[0]);
    assert ws[0].messages[0].attempts <= mesh.attempts;
  }

  /** Where the URLs that can come up have finitely many canonical IDs, every flood ends. */
  lemma ClosedScopeEnds(mesh: Mesh, url: string, scope: Scope)
    requires Closed(mesh, scope) && scope.reach(url)
    ensures FloodEnds(mesh, url)
  {
    var bound := 3 * mesh.attempts + Quota(mesh) * |Universe(mesh, scope.keys)|;
    forall ws: seq<World>, es: seq<Event> | FromSeed(mesh, url, ws, es) ensures |ws[|es|].fanouts| <= bound {
      SeedBound(mesh, url, ws, es, scope);
    }
    assert FanoutsAtMost(mesh, url, bound);
  }

  lemma RepeatingOrbitEnds(mesh: Mesh, fetch: string -> Original, url: string)
    requires Fetches(mesh, fetch) && TrimBlind(fetch) && Repeats(fetch, url)
    ensures FloodEnds(mesh, url)
  {
    var m: nat, n: nat :| SameKeys(fetch, url, m, n);
    OrbitScopeClosed(mesh, fetch, url, m, n);
    ClosedScopeEnds(mesh, url, OrbitScope(fetch, url, n));
  }

  // ---- and nothing else does, where three relays follow each other ----

  datatype Triangle = Triangle(a: string, b: string, c: string, inbox: string)

  /** Three relays of the mesh that can announce to each other. */
  ghost predicate Connected(mesh: Mesh, t: Triangle) {
    && t.a != t.b && t.b != t.c && t.a != t.c
    && (forall r | r in {t.a, t.b, t.c} :: r in mesh.relays && mesh.net.normalize(r) == r && r != "")
    && mesh.net.validInbox(t.inbox) && mesh.maxFanout >= 1 && mesh.attempts >= 1
  }

  function Corner(t: Triangle, n: nat): string {
    if n % 3 == 0 then t.a else if n % 3 == 1 then t.b else t.c
  }

  lemma CornersTurn(mesh: Mesh, t: Triangle, n: nat)
    requires Connected(mesh, t)
    ensures Corner(t, n) in {t.a, t.b, t.c} && Corner(t, n + 2) != Corner(t, n)
    ensures Corner(t, n) in mesh.relays && mesh.net.normalize(Corner(t, n)) == Corner(t, n) && Corner(t, n) != ""
  {
  }

  predicate OutsideAt(mesh: Mesh, t: Triangle, original: Original) {
    KeyOf(original) != "" && mesh.net.normalize(original.domain) !in {t.a, t.b, t.c}
  }

  /** The activity has an ID and comes from outside the three relays, whatever it is called. */
  ghost predicate Outside(mesh: Mesh, t: Triangle, fetch: string -> Original, url: string) {
    forall n: nat :: OutsideAt(mesh, t, fetch(Orbit(fetch, url, n)))
  }

  predicate UsedBefore(fetch: string -> Original, url: string, n: nat, key: string) {
    exists m: nat | m < n :: OrbitKey(fetch, url, m) == key
  }

  /** After n rounds one message is on its way, and only IDs of earlier rounds are reserved. */
  ghost predicate Rolling(mesh: Mesh, t: Triangle, fetch: string -> Original, url: string, w: World, n: nat) {
    && w.now == 0 && |w.fanouts| == n && w.messages != []
    && (var msg := w.messages[|w.messages| - 1];
        && msg.source == Corner(t, n) && msg.to == Corner(t, n + 1) && msg.url == Orbit(fetch, url, n)
        && msg.attempts == mesh.attempts)
    && (forall key | key in w.reservations :: UsedBefore(fetch, url, n, key.1))
  }

  /** The activity of round n has just been accepted. */
  ghost predicate Accepted(t: Triangle, fetch: string -> Original, url: string, w: World, n: nat) {
    && w.now == 0 && |w.fanouts| == n && w.jobs != []
    && (var job := w.jobs[|w.jobs| - 1];
        && job.relay == Corner(t, n + 1) && job.source == Corner(t, n) && job.id == Orbit(fetch, url, n + 1)
        && job.origin == fetch(Orbit(fetch, url, n)).domain && job.phase == Fanning)
    && (forall key | key in w.reservations :: UsedBefore(fetch, url, n + 1, key.1))
  }

  lemma UsedLater(fetch: string -> Original, url: string, n: nat, key: string)
    requires UsedBefore(fetch, url, n, key) || key == OrbitKey(fetch, url, n)
    ensures UsedBefore(fetch, url, n + 1, key)
  {
    if UsedBefore(fetch, url, n, key) {
      var m: nat :| m < n && OrbitKey(fetch, url, m) == key;
    }
  }

  lemma RoundDelivers(mesh: Mesh, t: Triangle, fetch: string -> Original, url: string, w: World, n: nat)
    requires Fetches(mesh, fetch) && Connected(mesh, t) && Outside(mesh, t, fetch, url) && !Repeats(fetch, url)
    requires Rolling(mesh, t, fetch, url, w, n)
    ensures var e := Deliver(|w.messages| - 1, true, fetch(Orbit(fetch, url, n)));
            CanStep(mesh, w, e) && Accepted(t, fetch, url, Step(mesh, w, e), n)
  {
    var original := fetch(Orbit(fetch, url, n));
    var key := OrbitKey(fetch, url, n);
    CornersTurn(mesh, t, n + 1);
    assert OutsideAt(mesh, t, original);
    assert !UsedBefore(fetch, url, n, key) by {
      if m: nat :| m < n && OrbitKey(fetch, url, m) == key {
        assert SameKeys(fetch, url, m, n);
      }
    }
    HopDeliver(mesh, w, |w.messages| - 1, original);
    var v := Step(mesh, w, Deliver(|w.messages| - 1, true, original));
    forall k | k in v.reservations ensures UsedBefore(fetch, url, n + 1, k.1) {
      UsedLater(fetch, url, n, k.1);
    }
  }

  lemma RoundFansOut(mesh: Mesh, t: Triangle, fetch: string -> Original, url: string, v: World, n: nat)
    requires Connected(mesh, t) && Outside(mesh, t, fetch, url) && Accepted(t, fetch, url, v, n)
    ensures var receiver := Receiver(Corner(t, n + 2), t.inbox);
            var e := FanOut(|v.jobs| - 1, [receiver], {receiver});
            CanStep(mesh, v, e) && Rolling(mesh, t, fetch, url, Step(mesh, v, e), n + 1)
  {
    CornersTurn(mesh, t, n);
    CornersTurn(mesh, t, n + 2);
    assert OutsideAt(mesh, t, fetch(Orbit(fetch, url, n)));
    HopFanOut(mesh, v, |v.jobs| - 1, Receiver(Corner(t, n + 2), t.inbox));
  }

  /** A run from one seed in which no time passes. */
  ghost predicate AtOnce(mesh: Mesh, url: string, ws: seq<World>, es: seq<Event>) {
    Run(mesh, ws, es) && |ws[0].messages| == 1 && ws[0].messages[0].url == url && forall k | 0 <= k < |ws| :: ws[k].now == 0
  }

  lemma ExtendAtOnce(mesh: Mesh, url: string, ws: seq<World>, es: seq<Event>, e: Event)
    returns (xs: seq<World>, fs: seq<Event>)
    requires AtOnce(mesh, url, ws, es) && CanStep(mesh, ws[|es|], e) && Step(mesh, ws[|es|], e).now == 0
    ensures AtOnce(mesh, url, xs, fs) && xs[|fs|] == Step(mesh, ws[|es|], e)
  {
    xs, fs := Extend(mesh, ws, es, e);
    forall k | 0 <= k < |xs| ensures xs[k].now == 0 {
      assert k < |ws| ==> xs[k] == ws[k];
    }
  }

  lemma DeliverRound(mesh: Mesh, t: Triangle, fetch: string -> Original, url: string, ws: seq<World>, es: seq<Event>, n: nat)
    returns (xs: seq<World>, fs: seq<Event>)
    requires Fetches(mesh, fetch) && Connected(mesh, t) && Outside(mesh, t, fetch, url) && !Repeats(fetch, url)
    requires AtOnce(mesh, url, ws, es) && Rolling(mesh, t, fetch, url, ws[|es|], n)
    ensures AtOnce(mesh, url, xs, fs) && Accepted(t, fetch, url, xs[|fs|], n)
  {
    var w := ws[|es|];
    RoundDelivers(mesh, t, fetch, url, w, n);
    xs, fs := ExtendAtOnce(mesh, url, ws, es, Deliver(|w.messages| - 1, true, fetch(Orbit(fetch, url, n))));
  }

  lemma FanOutRound(mesh: Mesh, t: Triangle, fetch: string -> Original, url: string, ws: seq<World>, es: seq<Event>, n: nat)
    returns (xs: seq<World>, fs: seq<Event>)
    requires Connected(mesh, t) && Outside(mesh, t, fetch, url)
    requires AtOnce(mesh, url, ws, es) && Accepted(t, fetch, url, ws[|es|], n)
    ensures AtOnce(mesh, url, xs, fs) && Rolling(mesh, t, fetch, url, xs[|fs|], n + 1)
  {
    var v := ws[|es|];
    var receiver := Receiver(Corner(t, n + 2), t.inbox);
    RoundFansOut(mesh, t, fetch, url, v, n);
    xs, fs := ExtendAtOnce(mesh, url, ws, es, FanOut(|v.jobs| - 1, [receiver], {receiver}));
  }

  /** As long as the seed's canonical IDs stay new, three relays make a fan-out for each of them, in no time. */
  lemma {:induction false} RestlessOriginNeverSettles(mesh: Mesh, t: Triangle, fetch: string -> Original, url: string, n: nat)
    returns (ws: seq<World>, es: seq<Event>)
    requires Fetches(mesh, fetch) && Connected(mesh, t) && Outside(mesh, t, fetch, url) && !Repeats(fetch, url)
    ensures AtOnce(mesh, url, ws, es) && Rolling(mesh, t, fetch, url, ws[|es|], n)
  {
    if n == 0 {
      ws, es := [World(0, map[], [Message(t.a, t.b, url, mesh.attempts, 0, [])], [], [])], [];
    } else {
      ws, es := RestlessOriginNeverSettles(mesh, t, fetch, url, n - 1);
      ws, es := DeliverRound(mesh, t, fetch, url, ws, es, n - 1);
      ws, es := FanOutRound(mesh, t, fetch, url, ws, es, n - 1);
    }
  }

  lemma BeyondAnyBound(mesh: Mesh, t: Triangle, fetch: string -> Original, url: string, bound: nat)
    requires Fetches(mesh, fetch) && Connected(mesh, t) && Outside(mesh, t, fetch, url) && !Repeats(fetch, url)
    ensures !FanoutsAtMost(mesh, url, bound)
  {
    var ws, es := RestlessOriginNeverSettles(mesh, t, fetch, url, bound + 1);
    assert FromSeed(mesh, url, ws, es) && |ws[|es|].fanouts| == bound + 1;
  }

  /** The flood, exactly. In any mesh with three relays that follow each other, an activity from outside them floods to a
      bounded number of fan-outs if and only if re-announcing brings some canonical ID back. */
  lemma FloodEndsIff(mesh: Mesh, t: Triangle, fetch: string -> Original, url: string)
    requires Fetches(mesh, fetch) && TrimBlind(fetch) && Connected(mesh, t) && Outside(mesh, t, fetch, url)
    ensures FloodEnds(mesh, url) <==> Repeats(fetch, url)
  {
    if Repeats(fetch, url) {
      RepeatingOrbitEnds(mesh, fetch, url);
    } else {
      forall bound: nat ensures !FanoutsAtMost(mesh, url, bound) {
        BeyondAnyBound(mesh, t, fetch, url, bound);
      }
    }
  }

  // ---- an origin that never repeats itself ----

  function Renaming(url: string): Original {
    Original(Trim(url) + "x", "o")
  }

  lemma {:induction false} SolidTrim(s: string)
    requires s != "" && !IsSpace(s[0]) && !IsSpace(s[|s| - 1])
    ensures Trim(s) == s
  {
  }

  lemma {:induction false} RenamedOrbit(n: nat)
    ensures var s := Orbit(Renaming, "u", n);
            |s| == n + 1 && s[0] == 'u' && !IsSpace(s[n]) && Trim(s) == s
  {
    if n > 0 {
      RenamedOrbit(n - 1);
      assert Orbit(Renaming, "u", n) == Orbit(Renaming, "u", n - 1) + "x";
    }
    SolidTrim(Orbit(Renaming, "u", n));
  }

  /** Appending a letter to every URL it serves, an origin is blind to padding and never repeats a canonical ID. */
  lemma RenamingNeverRepeats()
    ensures TrimBlind(Renaming) && !Repeats(Renaming, "u")
  {
    forall url ensures BlindAt(Renaming, url) {
      TrimIdempotent(url);
    }
    forall m: nat, n: nat | m < n ensures !SameKeys(Renaming, "u", m, n) {
      RenamedOrbit(m + 1);
      RenamedOrbit(n + 1);
    }
  }

  /** Relays a, b and c with such an origin. */
  function Ring(): Mesh {
    Mesh(Net(d => d, i => i, i => true), (url, original) => original == Renaming(url), {"a", "b", "c"}, 1, 1)
  }

  /** A concrete flood without end. */
  lemma RenamingFloodNeverEnds()
    ensures !FloodEnds(Ring(), "u")
  {
    var t := Triangle("a", "b", "c", "i");
    assert "o"[0] == 'o' && "a"[0] == 'a' && "b"[0] == 'b' && "c"[0] == 'c';
    assert Connected(Ring(), t);
    forall n: nat ensures OutsideAt(Ring(), t, Renaming(Orbit(Renaming, "u", n))) {
      RenamedOrbit(n + 1);
    }
    RenamingNeverRepeats();
    FloodEndsIff(Ring(), t, Renaming, "u");
  }
}
