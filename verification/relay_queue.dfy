/** Queue admission: reservations against MAX_QUEUE_JOBS while several senders push at once. */
module RelayQueue {
  import opened Text

  const RESERVATION_TTL: int := 60_000

  datatype Counter = Counter(value: int, deadline: int)

  function Reading(counter: Option<Counter>, now: int): int {
    if counter.Some? && now < counter.value.deadline then counter.value.value else 0
  }

  /** The reserve script when it admits. */
  function Reserved(counter: Option<Counter>, now: int, additional: int): Option<Counter> {
    Some(Counter(Reading(counter, now) + additional, now + RESERVATION_TTL))
  }

  /** The release script: the key goes away at zero or below, and keeps its expiry otherwise. */
  function Returned(counter: Option<Counter>, now: int, additional: int): Option<Counter> {
    var remaining := Reading(counter, now) - additional;
    if remaining <= 0 || counter.None? then None else Some(counter.value.(value := remaining))
  }

  class QueueAdmission {
    const maximum: nat // MAX_QUEUE_JOBS
    var now: int
    var queued: nat
    var counter: Option<Counter>

    constructor (maximum: nat)
      ensures this.maximum == maximum && queued == 0 && counter == None
    {
      this.maximum := maximum;
      now := 0;
      queued := 0;
      counter := None;
    }

    method ReserveCapacity(additional: int) returns (accepted: bool)
      modifies this`counter
      ensures accepted <==> additional < 1 || queued + old(Reading(counter, now)) + additional <= maximum
      ensures counter == if accepted && additional >= 1 then Reserved(old(counter), now, additional) else old(counter)
    {
      if additional < 1 {
        return true;
      }
      var reserved := 0;
      if counter.Some? && now < counter.value.deadline {
        reserved := counter.value.value;
      }
      if queued + reserved + additional > maximum {
        return false;
      }
      counter := Some(Counter(reserved + additional, now + RESERVATION_TTL));
      return true;
    }

    method ReleaseCapacity(additional: int)
      modifies this`counter
      ensures counter == if additional < 1 then old(counter) else Returned(old(counter), now, additional)
    {
      if additional < 1 {
        return;
      }
      var remaining := -additional;
      if counter.Some? && now < counter.value.deadline {
        remaining := counter.value.value - additional;
      }
      if remaining <= 0 {
        counter := None;
      } else {
        counter := Some(counter.value.(value := remaining));
      }
    }
  }

  // ---- interleavings ----

  /** One sender's reservation; it is closed by its release. */
  datatype Claim = Claim(size: nat, pushed: nat, open: bool, since: int)

  datatype World = World(now: int, queued: nat, counter: Option<Counter>, claims: seq<Claim>)

  datatype Event =
    | Tick(elapsed: nat)
    | Reserve(size: nat)
    | Push(p: nat)
    | Pop
    | Release(p: nat)

  predicate OpenAt(w: World, p: nat) {
    p < |w.claims| && w.claims[p].open
  }

  predicate Admits(maximum: nat, w: World, size: nat) {
    w.queued + Reading(w.counter, w.now) + size <= maximum
  }

  predicate CanStep(maximum: nat, w: World, e: Event) {
    match e
    case Tick(_) => true
    case Reserve(size) => size >= 1 && Admits(maximum, w, size)
    case Push(p) => OpenAt(w, p) && w.claims[p].pushed < w.claims[p].size
    case Pop => w.queued > 0
    case Release(p) => OpenAt(w, p)
  }

  function Step(maximum: nat, w: World, e: Event): World
    requires CanStep(maximum, w, e)
  {
    match e
    case Tick(d) => w.(now := w.now + d)
    case Reserve(size) =>
      w.(counter := Reserved(w.counter, w.now, size), claims := w.claims + [Claim(size, 0, true, w.now)])
    case Push(p) =>
      w.(queued := w.queued + 1, claims := w.claims[p := w.claims[p].(pushed := w.claims[p].pushed + 1)])
    case Pop => w.(queued := w.queued - 1)
    case Release(p) =>
      w.(counter := Returned(w.counter, w.now, w.claims[p].size), claims := w.claims[p := w.claims[p].(open := false)])
  }

  /** The sum of outstanding reservations. */
  function Outstanding(claims: seq<Claim>): nat {
    if claims == [] then 0
    else
      var last := claims[|claims| - 1];
      Outstanding(claims[..|claims| - 1]) + (if last.open then last.size else 0)
  }

  /** Jobs reserved but not pushed yet. */
  function Unpushed(claims: seq<Claim>): int {
    if claims == [] then 0
    else
      var last := claims[|claims| - 1];
      Unpushed(claims[..|claims| - 1]) + (if last.open then last.size - last.pushed else 0)
  }

  ghost predicate WellPushed(claims: seq<Claim>) {
    forall p | 0 <= p < |claims| :: claims[p].pushed <= claims[p].size && claims[p].size >= 1
  }

  lemma {:induction false} SumsUpdate(claims: seq<Claim>, p: nat, claim: Claim)
    requires p < |claims| && claims[p].open && claim.size == claims[p].size
    ensures Outstanding(claims[p := claim]) == Outstanding(claims) - (if claim.open then 0 else claim.size)
    ensures Unpushed(claims[p := claim]) ==
            Unpushed(claims) - (claims[p].size - claims[p].pushed)
            + (if claim.open then claim.size - claim.pushed else 0)
    decreases |claims|
  {
    var front := claims[..|claims| - 1];
    if p < |claims| - 1 {
      SumsUpdate(front, p, claim);
      assert claims[p := claim][..|claims| - 1] == front[p := claim];
    } else {
      assert claims[p := claim][..|claims| - 1] == front;
    }
  }

  lemma SumsAppend(claims: seq<Claim>, claim: Claim)
    requires claim.open
    ensures Outstanding(claims + [claim]) == Outstanding(claims) + claim.size
    ensures Unpushed(claims + [claim]) == Unpushed(claims) + claim.size - claim.pushed
  {
    assert (claims + [claim])[..|claims|] == claims;
  }

  lemma {:induction false} UnpushedBelowOutstanding(claims: seq<Claim>)
    requires WellPushed(claims)
    ensures 0 <= Unpushed(claims) <= Outstanding(claims)
    decreases |claims|
  {
    if claims != [] {
      UnpushedBelowOutstanding(claims[..|claims| - 1]);
    }
  }

  lemma {:induction false} OpenClaimCounts(claims: seq<Claim>, p: nat)
    requires p < |claims| && claims[p].open
    ensures claims[p].size <= Outstanding(claims)
    decreases |claims|
  {
    if p < |claims| - 1 {
      OpenClaimCounts(claims[..|claims| - 1], p);
    }
  }

  /** The reservation key is there as long as anything is reserved. */
  predicate KeyOutlives(w: World) {
    Outstanding(w.claims) > 0 ==> w.counter.Some? && w.now < w.counter.value.deadline
  }

  ghost predicate Accounted(maximum: nat, w: World) {
    && WellPushed(w.claims)
    && Reading(w.counter, w.now) == Outstanding(w.claims)
    && w.queued + Unpushed(w.claims) <= maximum
  }

  lemma AccountedReserve(maximum: nat, w: World, size: nat)
    requires CanStep(maximum, w, Reserve(size)) && Accounted(maximum, w)
    ensures Accounted(maximum, Step(maximum, w, Reserve(size)))
  {
    SumsAppend(w.claims, Claim(size, 0, true, w.now));
    UnpushedBelowOutstanding(w.claims);
  }

  lemma AccountedPush(maximum: nat, w: World, p: nat)
    requires CanStep(maximum, w, Push(p)) && Accounted(maximum, w)
    ensures Accounted(maximum, Step(maximum, w, Push(p)))
  {
    SumsUpdate(w.claims, p, w.claims[p].(pushed := w.claims[p].pushed + 1));
  }

  lemma AccountedRelease(maximum: nat, w: World, p: nat)
    requires CanStep(maximum, w, Release(p)) && Accounted(maximum, w) && KeyOutlives(w)
    ensures Accounted(maximum, Step(maximum, w, Release(p)))
  {
    SumsUpdate(w.claims, p, w.claims[p].(open := false));
    OpenClaimCounts(w.claims, p);
  }

  lemma AccountedStep(maximum: nat, w: World, e: Event)
    requires CanStep(maximum, w, e) && Accounted(maximum, w)
    requires KeyOutlives(w) && KeyOutlives(Step(maximum, w, e))
    ensures Accounted(maximum, Step(maximum, w, e))
  {
    match e {
      case Tick(_) =>
      case Reserve(size) => AccountedReserve(maximum, w, size);
      case Push(p) => AccountedPush(maximum, w, p);
      case Pop =>
      case Release(p) => AccountedRelease(maximum, w, p);
    }
  }

  ghost predicate StepAt(maximum: nat, ws: seq<World>, es: seq<Event>, k: int) {
    0 <= k < |es| && k + 1 < |ws| && CanStep(maximum, ws[k], es[k]) && ws[k + 1] == Step(maximum, ws[k], es[k])
  }

  ghost predicate Run(maximum: nat, ws: seq<World>, es: seq<Event>) {
    && |ws| == |es| + 1
    && ws[0].queued <= maximum && ws[0].counter == None && ws[0].claims == []
    && (forall k | 0 <= k < |es| :: StepAt(maximum, ws, es, k))
  }

  /** Admission bound: while the key does not expire under an outstanding reservation, in every interleaving the
      counter is the sum of outstanding reservations and queued plus reserved-but-unpushed jobs stay in bounds. */
  lemma {:induction false} QueueStaysBounded(maximum: nat, ws: seq<World>, es: seq<Event>, k: nat)
    requires Run(maximum, ws, es) && k < |ws|
    requires forall m | 0 <= m <= k :: KeyOutlives(ws[m])
    ensures Reading(ws[k].counter, ws[k].now) == Outstanding(ws[k].claims)
    ensures 0 <= Unpushed(ws[k].claims) && ws[k].queued + Unpushed(ws[k].claims) <= maximum
    ensures Accounted(maximum, ws[k])
  {
    if k > 0 {
      QueueStaysBounded(maximum, ws, es, k - 1);
      assert StepAt(maximum, ws, es, k - 1);
      assert KeyOutlives(ws[k - 1]) && KeyOutlives(ws[k]);
      AccountedStep(maximum, ws[k - 1], es[k - 1]);
    }
    UnpushedBelowOutstanding(ws[k].claims);
  }

  // ---- how long a sender may hold its reservation ----

  /** No reservation has been open for longer than `hold`. */
  ghost predicate HeldAtMost(hold: int, w: World) {
    forall p | 0 <= p < |w.claims| && w.claims[p].open :: w.now - w.claims[p].since <= hold
  }

  ghost predicate BriefRun(maximum: nat, hold: int, ws: seq<World>, es: seq<Event>) {
    Run(maximum, ws, es) && forall k | 0 <= k < |ws| :: HeldAtMost(hold, ws[k])
  }

  /** The key lives a whole time to live from every open reservation on. */
  ghost predicate KeyCovers(w: World) {
    forall p | 0 <= p < |w.claims| && w.claims[p].open ::
      w.claims[p].since <= w.now && w.counter.Some? && w.claims[p].since + RESERVATION_TTL <= w.counter.value.deadline
  }

  lemma {:induction false} OutstandingIsOpen(claims: seq<Claim>) returns (p: int)
    requires Outstanding(claims) > 0
    ensures 0 <= p < |claims| && claims[p].open
    decreases |claims|
  {
    if claims[|claims| - 1].open {
      p := |claims| - 1;
    } else {
      p := OutstandingIsOpen(claims[..|claims| - 1]);
    }
  }

  lemma CoveredOutlives(hold: int, w: World)
    requires KeyCovers(w) && HeldAtMost(hold, w) && hold < RESERVATION_TTL
    ensures KeyOutlives(w)
  {
    if Outstanding(w.claims) > 0 {
      var p := OutstandingIsOpen(w.claims);
    }
  }

  /** Two open claims weigh more than either, so releasing one leaves the key in place for the other. */
  lemma {:induction false} OthersRemain(claims: seq<Claim>, p: nat, q: nat)
    requires p < |claims| && q < |claims| && p != q && claims[p].open && claims[q].open
    ensures claims[p].size + claims[q].size <= Outstanding(claims)
    decreases |claims|
  {
    var front := claims[..|claims| - 1];
    if p == |claims| - 1 {
      OpenClaimCounts(front, q);
    } else if q == |claims| - 1 {
      OpenClaimCounts(front, p);
    } else {
      OthersRemain(front, p, q);
    }
  }

  lemma CoversRelease(maximum: nat, w: World, p: nat)
    requires CanStep(maximum, w, Release(p)) && Accounted(maximum, w) && KeyOutlives(w) && KeyCovers(w)
    ensures KeyCovers(Step(maximum, w, Release(p)))
  {
    forall q | 0 <= q < |w.claims| && w.claims[q].open && q != p
      ensures w.claims[p].size + w.claims[q].size <= Outstanding(w.claims)
    {
      OthersRemain(w.claims, p, q);
    }
  }

  lemma CoversStep(maximum: nat, w: World, e: Event)
    requires CanStep(maximum, w, e) && Accounted(maximum, w) && KeyOutlives(w) && KeyCovers(w)
    ensures KeyCovers(Step(maximum, w, e))
  {
    if e.Release? {
      CoversRelease(maximum, w, e.p);
    } else if e.Reserve? {
      CoversReserve(maximum, w, e.size);
    }
  }

  /** A new reservation never brings the deadline forward. */
  lemma CoversReserve(maximum: nat, w: World, size: nat)
    requires CanStep(maximum, w, Reserve(size)) && KeyCovers(w)
    ensures KeyCovers(Step(maximum, w, Reserve(size)))
  {
    var next := Step(maximum, w, Reserve(size));
    forall p | 0 <= p < |next.claims| && next.claims[p].open
      ensures next.claims[p].since <= next.now
              && next.claims[p].since + RESERVATION_TTL <= next.counter.value.deadline
    {
      assert p < |w.claims| ==> next.claims[p] == w.claims[p];
    }
  }

  lemma {:induction false} BriefRunsAccounted(maximum: nat, hold: int, ws: seq<World>, es: seq<Event>, k: nat)
    requires BriefRun(maximum, hold, ws, es) && hold < RESERVATION_TTL && k < |ws|
    ensures Accounted(maximum, ws[k]) && KeyCovers(ws[k]) && KeyOutlives(ws[k])
  {
    if k > 0 {
      BriefRunsAccounted(maximum, hold, ws, es, k - 1);
      assert StepAt(maximum, ws, es, k - 1);
      CoversStep(maximum, ws[k - 1], es[k - 1]);
      CoveredOutlives(hold, ws[k]);
      AccountedStep(maximum, ws[k - 1], es[k - 1]);
    }
  }

  lemma Extend(maximum: nat, hold: int, ws: seq<World>, es: seq<Event>, e: Event)
    returns (ws': seq<World>, es': seq<Event>)
    requires BriefRun(maximum, hold, ws, es) && CanStep(maximum, ws[|es|], e)
    requires HeldAtMost(hold, Step(maximum, ws[|es|], e))
    ensures BriefRun(maximum, hold, ws', es') && ws'[|es'|] == Step(maximum, ws[|es|], e)
  {
    es' := es + [e];
    ws' := ws + [Step(maximum, ws[|es|], e)];
    forall k | 0 <= k < |es'| ensures StepAt(maximum, ws', es', k) {
      if k < |es| {
        assert StepAt(maximum, ws, es, k);
      }
    }
    forall k | 0 <= k < |ws'| ensures HeldAtMost(hold, ws'[k]) {
      assert k < |ws| ==> ws'[k] == ws[k];
    }
  }

  lemma StalledSender(maximum: nat, hold: int) returns (ws: seq<World>, es: seq<Event>)
    requires maximum >= 1 && RESERVATION_TTL <= hold
    ensures BriefRun(maximum, hold, ws, es)
    ensures ws[|es|] == World(60_000, 0, Some(Counter(maximum, 60_000)), [Claim(maximum, 0, true, 0)])
  {
    var empty := World(0, 0, None, []);
    assert BriefRun(maximum, hold, [empty], []);
    ws, es := Extend(maximum, hold, [empty], [], Reserve(maximum));
    ws, es := Extend(maximum, hold, ws, es, Tick(60_000));
  }

  /** A sender that stalls for the life of the key between reserving and pushing lets a second one in: one job more than
      the maximum is then queued or on its way. */
  lemma StalledSenderOverflows(maximum: nat, hold: int) returns (ws: seq<World>, es: seq<Event>)
    requires maximum >= 1 && RESERVATION_TTL <= hold
    ensures BriefRun(maximum, hold, ws, es) && ws[|es|].queued + Unpushed(ws[|es|].claims) == maximum + 1
  {
    ws, es := StalledSender(maximum, hold);
    ghost var stalled := ws[|es|].claims;
    ws, es := Extend(maximum, hold, ws, es, Reserve(1));
    SumsAppend([], Claim(maximum, 0, true, 0));
    SumsAppend(stalled, Claim(1, 0, true, 60_000));
    assert [] + [Claim(maximum, 0, true, 0)] == stalled;
  }

  lemma {:induction false} NothingAdmitted(ws: seq<World>, es: seq<Event>, k: nat)
    requires Run(0, ws, es) && k < |ws|
    ensures ws[k].queued == 0 && ws[k].claims == [] && ws[k].counter == None
  {
    if k > 0 {
      NothingAdmitted(ws, es, k - 1);
      assert StepAt(0, ws, es, k - 1);
    }
  }

  /** However senders interleave, the queue and what is reserved for it stay within the maximum. */
  ghost predicate Bounded(maximum: nat, hold: int) {
    forall ws: seq<World>, es: seq<Event> | BriefRun(maximum, hold, ws, es) ::
      ws[|es|].queued + Unpushed(ws[|es|].claims) <= maximum
  }

  /** The admission bound, exactly: with any room at all it holds if and only if no sender keeps a reservation open for as
      long as the reservation key lives. */
  lemma BoundedIff(maximum: nat, hold: int)
    ensures Bounded(maximum, hold) <==> maximum == 0 || hold < RESERVATION_TTL
  {
    if maximum == 0 {
      forall ws: seq<World>, es: seq<Event> | BriefRun(maximum, hold, ws, es)
        ensures ws[|es|].queued + Unpushed(ws[|es|].claims) <= maximum
      {
        NothingAdmitted(ws, es, |es|);
      }
    } else if hold < RESERVATION_TTL {
      forall ws: seq<World>, es: seq<Event> | BriefRun(maximum, hold, ws, es)
        ensures ws[|es|].queued + Unpushed(ws[|es|].claims) <= maximum
      {
        BriefRunsAccounted(maximum, hold, ws, es, |es|);
      }
    } else {
      var ws, es := StalledSenderOverflows(maximum, hold);
    }
  }

  // ---- conservation ----

  function Pushes(es: seq<Event>, k: nat): nat
    requires k <= |es|
  {
    if k == 0 then 0 else Pushes(es, k - 1) + if es[k - 1].Push? then 1 else 0
  }

  function Pops(es: seq<Event>, k: nat): nat
    requires k <= |es|
  {
    if k == 0 then 0 else Pops(es, k - 1) + if es[k - 1].Pop? then 1 else 0
  }

  /** What all senders have pushed. */
  function Pushed(claims: seq<Claim>): int {
    if claims == [] then 0 else Pushed(claims[..|claims| - 1]) + claims[|claims| - 1].pushed
  }

  lemma {:induction false} PushedUpdate(claims: seq<Claim>, p: nat, claim: Claim)
    requires p < |claims|
    ensures Pushed(claims[p := claim]) == Pushed(claims) - claims[p].pushed + claim.pushed
    decreases |claims|
  {
    var front := claims[..|claims| - 1];
    if p == |claims| - 1 {
      assert claims[p := claim][..|claims| - 1] == front;
    } else {
      PushedUpdate(front, p, claim);
      assert claims[p := claim][..|claims| - 1] == front[p := claim];
    }
  }

  lemma ConservedStep(maximum: nat, w: World, e: Event)
    requires CanStep(maximum, w, e)
    ensures Step(maximum, w, e).queued == w.queued + (if e.Push? then 1 else 0) - (if e.Pop? then 1 else 0)
    ensures Pushed(Step(maximum, w, e).claims) == Pushed(w.claims) + (if e.Push? then 1 else 0)
  {
    match e
    case Tick(_) =>
    case Reserve(size) =>
      assert (w.claims + [Claim(size, 0, true, w.now)])[..|w.claims|] == w.claims;
    case Push(p) => PushedUpdate(w.claims, p, w.claims[p].(pushed := w.claims[p].pushed + 1));
    case Pop =>
    case Release(p) => PushedUpdate(w.claims, p, w.claims[p].(open := false));
  }

  /** No job is lost or made up: in every run the queue holds what it held at first and what senders have pushed, less
      what workers have taken. */
  lemma {:induction false} JobsAreConserved(maximum: nat, ws: seq<World>, es: seq<Event>, k: nat)
    requires Run(maximum, ws, es) && k < |ws|
    ensures Pushed(ws[k].claims) == Pushes(es, k)
    ensures ws[k].queued + Pops(es, k) == ws[0].queued + Pushed(ws[k].claims)
  {
    if k > 0 {
      JobsAreConserved(maximum, ws, es, k - 1);
      assert StepAt(maximum, ws, es, k - 1);
      ConservedStep(maximum, ws[k - 1], es[k - 1]);
    }
  }
}
