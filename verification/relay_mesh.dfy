/** The loop guard: canonical reservations, and why an Announce flood over any set of relays ends. */
module RelayMesh {
  import opened Text
  import opened RelayFanout

  const ACTIVITY_RETENTION: int := 900_000

  datatype Reservation = Reservation(token: nat, deadline: int)

  predicate Reserved<K>(keys: map<K, Reservation>, now: int, key: K) {
    key in keys && now < keys[key].deadline
  }

  function Reserve<K>(keys: map<K, Reservation>, now: int, key: K, token: nat): map<K, Reservation> {
    if Reserved(keys, now, key) then keys else keys[key := Reservation(token, now + ACTIVITY_RETENTION)]
  }

  function ReleaseKey<K>(keys: map<K, Reservation>, now: int, key: K, token: nat): map<K, Reservation> {
    if Reserved(keys, now, key) && keys[key].token == token then keys - {key} else keys
  }

  /** The guard of one relay, on its own Redis. */
  class CanonicalGuard {
    var now: int
    var keys: map<string, Reservation>

    constructor ()
      ensures keys == map[]
    {
      now := 0;
      keys := map[];
    }

    /** reserveCanonicalRelayActivity; an empty ID is an error. */
    method ReserveCanonical(id: string, token: nat) returns (accepted: bool, err: bool)
      modifies this`keys
      ensures err <==> Trim(id) == ""
      ensures accepted <==> !err && !old(Reserved(keys, now, Trim(id)))
      ensures keys == if err then old(keys) else Reserve(old(keys), now, Trim(id), token)
      ensures accepted ==> keys[Trim(id)] == Reservation(token, now + ACTIVITY_RETENTION)
    {
      var key := Trim(id);
      if key == "" {
        return false, true;
      }
      if key in keys && now < keys[key].deadline {
        return false, false;
      }
      keys := keys[key := Reservation(token, now + ACTIVITY_RETENTION)];
      return true, false;
    }

    /** releaseCanonicalRelayActivity: only the owner's token deletes. */
    method ReleaseCanonical(key: string, token: nat)
      modifies this`keys
      ensures keys == ReleaseKey(old(keys), now, key, token)
      ensures forall k | k in old(keys) && (k != key || old(keys)[k].token != token) ::
                k in keys && keys[k] == old(keys)[k]
    {
      if key in keys && now < keys[key].deadline && keys[key].token == token {
        keys := keys - {key};
      }
    }
  }

  // ---- the mesh ----

  /** An activity as an origin server returns it. */
  datatype Original = Original(id: string, domain: string)

  datatype Mesh = Mesh(
    net: Net,
    serves: (string, Original) -> bool, // what a URL may ever be answered with
    relays: set<string>, // domains that run the relay
    maxFanout: nat,      // MAX_FANOUT_TARGETS
    attempts: nat)       // deliveries per queued message, redeliveries included

  /** A queued Announce. When it was sent, and the jobs it goes back to, oldest first, are history and not on the wire. */
  datatype Message = Message(source: string, to: string, url: string, attempts: nat, born: int, trail: seq<nat>)

  datatype Phase = Fanning | Releasing | Completed | Released

  /** One accepted Announce; its token is its index. */
  datatype Job = Job(
    relay: string,
    id: string,
    source: string,
    origin: string,
    phase: Phase,
    acceptedAt: int,
    trail: seq<nat>) // the jobs its message went back to

  /** A completed fan-out of one job, and when it happened. */
  datatype Fanout = Fanout(
    job: nat,
    relay: string,
    key: string,
    source: string,
    origin: string,
    targets: seq<Receiver>,
    at: int)

  datatype World = World(
    now: int,
    reservations: map<(string, string), Reservation>,
    messages: seq<Message>,
    jobs: seq<Job>,
    fanouts: seq<Fanout>)

  datatype Event =
    | Tick(elapsed: nat)
    | Deliver(m: nat, able: bool, original: Original) // able: sender follows, fetch works, actor may relay
    | FanOut(j: nat, receivers: seq<Receiver>, planned: set<Receiver>)
    | FanFail(j: nat)
    | Release(j: nat)

  function KeyOf(original: Original): string {
    Trim(original.id)
  }

  function JobKey(job: Job): (string, string) {
    (job.relay, Trim(job.id))
  }

  /** The reservation is taken only if the request passes the relay's checks and the key is free. */
  predicate Accepts(mesh: Mesh, w: World, m: nat, able: bool, original: Original)
    requires m < |w.messages|
  {
    var msg := w.messages[m];
    && able && msg.to in mesh.relays && KeyOf(original) != ""
    && !Reserved(w.reservations, w.now, (msg.to, KeyOf(original)))
  }

  function JobTargets(mesh: Mesh, job: Job, receivers: seq<Receiver>): seq<Receiver> {
    Targets(mesh.net, receivers, [job.source, job.origin])
  }

  function Sent(mesh: Mesh, job: Job, receivers: seq<Receiver>, planned: set<Receiver>): seq<Receiver> {
    Kept(r => r in planned, JobTargets(mesh, job, receivers))
  }

  /** The messages of job j's fan-out. */
  function Announce(mesh: Mesh, job: Job, j: nat, rs: seq<Receiver>, now: int): (ms: seq<Message>)
    ensures |ms| == |rs|
  {
    seq(|rs|, i requires 0 <= i < |rs| =>
      Message(job.relay, DomainOf(mesh.net, rs[i]), job.id, mesh.attempts, now, job.trail + [j]))
  }

  predicate JobAt(w: World, j: int, phase: Phase) {
    0 <= j < |w.jobs| && w.jobs[j].phase == phase
  }

  predicate CanStep(mesh: Mesh, w: World, e: Event) {
    match e
    case Tick(_) => true
    case Deliver(m, able, original) =>
      && m < |w.messages| && w.messages[m].attempts > 0
      && (able ==> mesh.serves(w.messages[m].url, original))
    case FanOut(j, receivers, planned) =>
      && JobAt(w, j, Fanning)
      && |JobTargets(mesh, w.jobs[j], receivers)| <= mesh.maxFanout
      && (JobTargets(mesh, w.jobs[j], receivers) != [] ==> Sent(mesh, w.jobs[j], receivers, planned) != [])
    case FanFail(j) => JobAt(w, j, Fanning)
    case Release(j) => JobAt(w, j, Releasing)
  }

  function Step(mesh: Mesh, w: World, e: Event): World
    requires CanStep(mesh, w, e)
  {
    match e
    case Tick(d) => w.(now := w.now + d)
    case Deliver(m, able, original) =>
      var msg := w.messages[m];
      var used := w.(messages := w.messages[m := msg.(attempts := msg.attempts - 1)]);
      if !Accepts(mesh, w, m, able, original) then used
      else
        used.(reservations := Reserve(w.reservations, w.now, (msg.to, KeyOf(original)), |w.jobs|),
              jobs := w.jobs + [Job(msg.to, original.id, msg.source, original.domain, Fanning, w.now, msg.trail)])
    case FanOut(j, receivers, planned) =>
      var job := w.jobs[j];
      var sent := Sent(mesh, job, receivers, planned);
      w.(jobs := w.jobs[j := job.(phase := Completed)],
         messages := w.messages + Announce(mesh, job, j, sent, w.now),
         fanouts := w.fanouts + [Fanout(j, job.relay, Trim(job.id), job.source, job.origin, sent, w.now)])
    case FanFail(j) => w.(jobs := w.jobs[j := w.jobs[j].(phase := Releasing)])
    case Release(j) =>
      w.(jobs := w.jobs[j := w.jobs[j].(phase := Released)],
         reservations := ReleaseKey(w.reservations, w.now, JobKey(w.jobs[j]), j))
  }

  ghost predicate StepAt(mesh: Mesh, ws: seq<World>, es: seq<Event>, k: int) {
    0 <= k < |es| && k + 1 < |ws| && CanStep(mesh, ws[k], es[k]) && ws[k + 1] == Step(mesh, ws[k], es[k])
  }

  /** A finite seed of referenced Announces, nothing reserved yet. */
  ghost predicate Init(mesh: Mesh, w: World) {
    && w.reservations == map[] && w.jobs == [] && w.fanouts == []
    && (forall m | 0 <= m < |w.messages| :: w.messages[m].attempts <= mesh.attempts && w.messages[m].trail == [])
  }

  ghost predicate Run(mesh: Mesh, ws: seq<World>, es: seq<Event>) {
    |ws| == |es| + 1 && Init(mesh, ws[0]) && forall k | 0 <= k < |es| :: StepAt(mesh, ws, es, k)
  }

  /** Late releases are harmless: a live reservation changes only by the release of its own owner. */
  lemma OnlyOwnerReleases(mesh: Mesh, w: World, e: Event, key: (string, string))
    requires CanStep(mesh, w, e) && Reserved(w.reservations, w.now, key)
    ensures (key in Step(mesh, w, e).reservations && Step(mesh, w, e).reservations[key] == w.reservations[key])
            || (e == Release(w.reservations[key].token) && JobKey(w.jobs[e.j]) == key)
  {
  }

  // ---- at most one fan-out per relay and canonical ID in any retention window ----

  predicate Owns(job: Job) {
    job.phase != Released
  }

  predicate OwnsAt(w: World, j: int) {
    0 <= j < |w.jobs| && Owns(w.jobs[j])
  }

  function FanoutKey(f: Fanout): (string, string) {
    (f.relay, f.key)
  }

  /** For its first retention time an unreleased job owns the reservation of its key. */
  ghost predicate InPlace(w: World, j: int)
    requires 0 <= j < |w.jobs|
  {
    var job := w.jobs[j];
    && job.acceptedAt <= w.now
    && (w.now < job.acceptedAt + ACTIVITY_RETENTION ==>
          && JobKey(job) in w.reservations
          && w.reservations[JobKey(job)] == Reservation(j, job.acceptedAt + ACTIVITY_RETENTION))
  }

  /** Two unreleased jobs of one relay and key were accepted a retention time apart. */
  predicate Apart(w: World, i: int, j: int)
    requires 0 <= i < |w.jobs| && 0 <= j < |w.jobs|
  {
    JobKey(w.jobs[i]) == JobKey(w.jobs[j]) ==> w.jobs[i].acceptedAt + ACTIVITY_RETENTION <= w.jobs[j].acceptedAt
  }

  ghost predicate Guarded(w: World) {
    && (forall j | OwnsAt(w, j) :: InPlace(w, j))
    && (forall i, j | i < j && OwnsAt(w, i) && OwnsAt(w, j) :: Apart(w, i, j))
  }

  lemma GuardedDeliver(mesh: Mesh, w: World, e: Event)
    requires CanStep(mesh, w, e) && Guarded(w) && e.Deliver?
    ensures Guarded(Step(mesh, w, e))
  {
    var w' := Step(mesh, w, e);
    forall j | OwnsAt(w', j) ensures InPlace(w', j) {
      assert OwnsAt(w, j) ==> InPlace(w, j);
    }
    forall i, j | i < j && OwnsAt(w', i) && OwnsAt(w', j) ensures Apart(w', i, j) {
      assert OwnsAt(w, i) && InPlace(w, i);
      assert OwnsAt(w, j) ==> Apart(w, i, j);
    }
  }

  lemma GuardedStep(mesh: Mesh, w: World, e: Event)
    requires CanStep(mesh, w, e) && Guarded(w)
    ensures Guarded(Step(mesh, w, e))
  {
    if e.Deliver? {
      GuardedDeliver(mesh, w, e);
    } else {
      var w' := Step(mesh, w, e);
      forall j | OwnsAt(w', j) ensures InPlace(w', j) {
        assert OwnsAt(w, j) && InPlace(w, j);
      }
      forall i, j | i < j && OwnsAt(w', i) && OwnsAt(w', j) ensures Apart(w', i, j) {
        assert OwnsAt(w, i) && OwnsAt(w, j) && Apart(w, i, j);
      }
    }
  }

  /** In every run of any length: reservations expire, are taken again and are released late, and still no two unreleased
      jobs of one relay and key were accepted within one retention time. */
  lemma {:induction false} GuardedThroughout(mesh: Mesh, ws: seq<World>, es: seq<Event>, k: nat)
    requires Run(mesh, ws, es) && k < |ws|
    ensures Guarded(ws[k])
  {
    if k > 0 {
      GuardedThroughout(mesh, ws, es, k - 1);
      assert StepAt(mesh, ws, es, k - 1);
      GuardedStep(mesh, ws[k - 1], es[k - 1]);
    }
  }

  /** Fan-outs are of different, completed jobs. */
  ghost predicate FromJobs(w: World) {
    && (forall f | 0 <= f < |w.fanouts| :: FromJob(w, w.fanouts[f]))
    && (forall f, g | 0 <= f < g < |w.fanouts| :: w.fanouts[f].job != w.fanouts[g].job)
  }

  predicate FromJob(w: World, f: Fanout) {
    f.job < |w.jobs| && w.jobs[f.job].phase == Completed && JobKey(w.jobs[f.job]) == FanoutKey(f)
    && w.jobs[f.job].acceptedAt <= f.at
  }

  lemma FromJobsStep(mesh: Mesh, w: World, e: Event)
    requires CanStep(mesh, w, e) && FromJobs(w) && Guarded(w)
    ensures FromJobs(Step(mesh, w, e))
  {
    var w' := Step(mesh, w, e);
    if e.FanOut? {
      assert OwnsAt(w, e.j) && InPlace(w, e.j);
    }
    forall f | 0 <= f < |w'.fanouts| ensures FromJob(w', w'.fanouts[f]) {
      assert f < |w.fanouts| ==> FromJob(w, w.fanouts[f]);
    }
    forall f, g | 0 <= f < g < |w'.fanouts| ensures w'.fanouts[f].job != w'.fanouts[g].job {
      assert FromJob(w, w.fanouts[f]);
    }
  }

  lemma {:induction false} FromJobsThroughout(mesh: Mesh, ws: seq<World>, es: seq<Event>, k: nat)
    requires Run(mesh, ws, es) && k < |ws|
    ensures FromJobs(ws[k])
  {
    if k > 0 {
      FromJobsThroughout(mesh, ws, es, k - 1);
      GuardedThroughout(mesh, ws, es, k - 1);
      assert StepAt(mesh, ws, es, k - 1);
      FromJobsStep(mesh, ws[k - 1], es[k - 1]);
    }
  }

  /** When a fan-out's activity was accepted. */
  function AcceptedAt(w: World, f: nat): int
    requires f < |w.fanouts| && w.fanouts[f].job < |w.jobs|
  {
    w.jobs[w.fanouts[f].job].acceptedAt
  }

  predicate AcceptedIn(w: World, f: nat, from: int) {
    f < |w.fanouts| && w.fanouts[f].job < |w.jobs|
    && from <= AcceptedAt(w, f) < from + ACTIVITY_RETENTION
  }

  /** In every run of any length, of what a relay accepts in any one retention window it completes at most one fan-out of
      a canonical ID. */
  lemma AtMostOneFanout(mesh: Mesh, ws: seq<World>, es: seq<Event>, k: nat, from: int, f: nat, g: nat)
    requires Run(mesh, ws, es) && k < |ws|
    requires AcceptedIn(ws[k], f, from) && AcceptedIn(ws[k], g, from)
    requires FanoutKey(ws[k].fanouts[f]) == FanoutKey(ws[k].fanouts[g])
    ensures f == g
  {
    var w := ws[k];
    GuardedThroughout(mesh, ws, es, k);
    FromJobsThroughout(mesh, ws, es, k);
    assert FromJob(w, w.fanouts[f]) && FromJob(w, w.fanouts[g]);
    var i, j := w.fanouts[f].job, w.fanouts[g].job;
    assert OwnsAt(w, i) && OwnsAt(w, j);
    assert i < j ==> Apart(w, i, j);
    assert j < i ==> Apart(w, j, i);
  }

  /** Fan-outs happen after acceptance, so in time they are apart by the retention time less the longest wait for a
      fan-out. */
  lemma FanoutsAreSpaced(mesh: Mesh, ws: seq<World>, es: seq<Event>, k: nat, lag: nat, f: nat, g: nat)
    requires Run(mesh, ws, es) && k < |ws| && f < |ws[k].fanouts| && g < |ws[k].fanouts| && f != g
    requires FanoutKey(ws[k].fanouts[f]) == FanoutKey(ws[k].fanouts[g])
    requires ws[k].fanouts[f].job < |ws[k].jobs| && ws[k].fanouts[f].at <= AcceptedAt(ws[k], f) + lag
    requires ws[k].fanouts[g].job < |ws[k].jobs| && ws[k].fanouts[g].at <= AcceptedAt(ws[k], g) + lag
    ensures ws[k].fanouts[f].at + ACTIVITY_RETENTION - lag <= ws[k].fanouts[g].at
            || ws[k].fanouts[g].at + ACTIVITY_RETENTION - lag <= ws[k].fanouts[f].at
  {
    var w := ws[k];
    FromJobsThroughout(mesh, ws, es, k);
    assert FromJob(w, w.fanouts[f]) && FromJob(w, w.fanouts[g]);
    var from := if AcceptedAt(w, f) <= AcceptedAt(w, g) then AcceptedAt(w, f) else AcceptedAt(w, g);
    if AcceptedIn(w, f, from) && AcceptedIn(w, g, from) {
      AtMostOneFanout(mesh, ws, es, k, from, f, g);
    }
  }

  // ---- no fan-out goes back ----

  /** No target is the relay the Announce came from or the origin of the activity. */
  ghost predicate AvoidsSenders(mesh: Mesh, f: Fanout) {
    forall r | r in f.targets ::
      && mesh.net.validInbox(r.inboxURL)
      && (DomainOf(mesh.net, r) != "" ==>
            DomainOf(mesh.net, r) != mesh.net.normalize(f.source)
            && DomainOf(mesh.net, r) != mesh.net.normalize(f.origin))
  }

  lemma SentAvoidsSenders(mesh: Mesh, job: Job, receivers: seq<Receiver>, planned: set<Receiver>)
    ensures forall j, at :: AvoidsSenders(mesh, Fanout(j, job.relay, Trim(job.id), job.source, job.origin,
                                                       Sent(mesh, job, receivers, planned), at))
  {
    var domains := [job.source, job.origin];
    var excluded := ExcludedSet(mesh.net, domains);
    forall r | r in Sent(mesh, job, receivers, planned)
      ensures mesh.net.validInbox(r.inboxURL)
      ensures DomainOf(mesh.net, r) != "" ==>
                DomainOf(mesh.net, r) != mesh.net.normalize(job.source)
                && DomainOf(mesh.net, r) != mesh.net.normalize(job.origin)
    {
      KeptIff(x => x in planned, JobTargets(mesh, job, receivers), r);
      TargetsAreEligible(mesh.net, receivers, excluded, |receivers|, r);
      assert domains[0] == job.source && domains[1] == job.origin;
      assert job.source in domains && job.origin in domains;
    }
  }

  /** In every run, at any length, every fan-out avoids both senders. */
  lemma {:induction false} FanoutsNeverGoBack(mesh: Mesh, ws: seq<World>, es: seq<Event>, k: nat)
    requires Run(mesh, ws, es) && k < |ws|
    ensures forall f | 0 <= f < |ws[k].fanouts| :: AvoidsSenders(mesh, ws[k].fanouts[f])
  {
    if k > 0 {
      FanoutsNeverGoBack(mesh, ws, es, k - 1);
      assert StepAt(mesh, ws, es, k - 1);
      if es[k - 1].FanOut? {
        SentAvoidsSenders(mesh, ws[k - 1].jobs[es[k - 1].j], es[k - 1].receivers, es[k - 1].planned);
      }
    }
  }
}
