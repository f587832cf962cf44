/** One signed GET against any server: redirects are planned and signed one by one, and an unknown destination may be
    asked once more with the legacy signature. */
module SignatureGet {
  import opened Text
  import opened SignatureStore
  import opened SignatureNegotiation

  const MAX_REDIRECTS: nat := 10

  datatype Outcome =
    | Succeeded
    | ExplicitSignatureRejection
    | AmbiguousClientRejection
    | ServerFailure
    | OtherFailure

  function Classify(response: Response): Outcome {
    if 200 <= response.status < 300 then Succeeded
    else if ExplicitRejection(response) then ExplicitSignatureRejection
    else if response.status == 400 then AmbiguousClientRejection
    else if 500 <= response.status < 600 then ServerFailure
    else OtherFailure
  }

  predicate ShouldFallback(plan: Plan, outcome: Outcome) {
    && plan.scope == Fetch && plan.primary == RFC9421 && plan.fallback == Some(Legacy)
    && (outcome == ExplicitSignatureRejection || outcome == AmbiguousClientRejection)
  }

  /** What a server does with a request, and what the client's own redirect policy then says. */
  datatype Reply = TransportFailure | Redirect(target: string, allowed: bool) | Final(response: Response)

  function FinalResponse(reply: Reply): Option<Response> {
    if reply.Final? then Some(reply.response) else None
  }

  /** What servers answer to request number i for a URL and profile, and what planning step i decides for a URL. */
  datatype World = World(server: (nat, string, Profile) -> Reply, plan: (nat, string) -> Option<Plan>)

  /** The store as one planning step finds it. */
  datatype View = View(records: Records, redisNow: int, now: int)

  /** Planning by a negotiator whose store may change arbitrarily between planning steps. */
  function Planner(n: Negotiator, configured: Profile, view: nat -> View): (nat, string) -> Option<Plan> {
    (i: nat, url: string) => PlanFor(n, view(i).records, view(i).redisNow, view(i).now, configured, Fetch, url)
  }

  /** Plans offer a fallback exactly when they probe an unknown destination the modern way. */
  predicate FetchPlan(plan: Plan) {
    && plan.scope == Fetch && WireProfile(plan.primary)
    && (plan.fallback == if plan.reason == UnknownFetchProbe then Some(Legacy) else None)
    && (plan.reason == UnknownFetchProbe ==> plan.primary == RFC9421)
  }

  ghost predicate PlansFetches(plan: (nat, string) -> Option<Plan>) {
    forall i: nat, url :: plan(i, url).Some? ==> FetchPlan(plan(i, url).value)
  }

  lemma PlannerPlansFetches(n: Negotiator, configured: Profile, view: nat -> View)
    ensures PlansFetches(Planner(n, configured, view))
  {
    var plan := Planner(n, configured, view);
    forall i: nat, url | plan(i, url).Some? ensures FetchPlan(plan(i, url).value) {
      PlanProperties(n, view(i).records, view(i).redisNow, view(i).now, configured, Fetch, url);
    }
  }

  /** A request on the wire with the plan attached to it. */
  datatype Request = Request(url: string, profile: Profile, plan: Plan)

  /** Request i carries the profile planned for its own URL. */
  predicate Planned(w: World, i: nat, r: Request) {
    w.plan(i, r.url) == Some(r.plan) && r.profile == r.plan.primary
  }

  function ReplyTo(w: World, sent: seq<Request>, i: nat): Reply
    requires i < |sent|
  {
    w.server(i, sent[i].url, sent[i].profile)
  }

  /** Requests first..end form one client run: planned redirects, each allowed and followed from the one before. */
  ghost predicate ClientRun(w: World, sent: seq<Request>, first: nat, end: nat) {
    && first < end <= |sent| && end - first <= MAX_REDIRECTS
    && (forall i | first < i < end :: Planned(w, i, sent[i]))
    && (forall i | first <= i < end - 1 :: ReplyTo(w, sent, i) == Redirect(sent[i + 1].url, true))
  }

  /** The client gave up on the last answer only for a reason: a refused redirect, the tenth request, or no plan. */
  predicate Ended(w: World, sent: seq<Request>, first: nat, end: nat)
    requires first < end <= |sent|
  {
    match ReplyTo(w, sent, end - 1)
    case Redirect(target, allowed) => !allowed || end - first == MAX_REDIRECTS || w.plan(end, target) == None
    case _ => true
  }

  ghost predicate WholeRun(w: World, sent: seq<Request>, first: nat, end: nat) {
    ClientRun(w, sent, first, end) && Ended(w, sent, first, end)
  }

  lemma ExtendRun(w: World, sent: seq<Request>, first: nat, next: Request)
    requires ClientRun(w, sent, first, |sent|) && |sent| - first < MAX_REDIRECTS
    requires Planned(w, |sent|, next) && ReplyTo(w, sent, |sent| - 1) == Redirect(next.url, true)
    ensures ClientRun(w, sent + [next], first, |sent| + 1)
  {
    var longer := sent + [next];
    forall i | first <= i < |sent| ensures ReplyTo(w, longer, i) == Redirect(longer[i + 1].url, true) {
      assert ReplyTo(w, longer, i) == ReplyTo(w, sent, i);
      assert i < |sent| - 1 ==> longer[i + 1] == sent[i + 1];
    }
  }

  /** http.Client.Do with the signing redirect hook. */
  method Do(w: World, before: seq<Request>, request: Request) returns (sent: seq<Request>, response: Option<Response>)
    ensures before + [request] <= sent
    ensures WholeRun(w, sent, |before|, |sent|)
    ensures response == FinalResponse(ReplyTo(w, sent, |sent| - 1))
  {
    sent := before + [request];
    while true
      invariant before + [request] <= sent
      invariant ClientRun(w, sent, |before|, |sent|)
      decreases |before| + MAX_REDIRECTS - |sent|
    {
      var last := |sent| - 1;
      match w.server(last, sent[last].url, sent[last].profile)
      case TransportFailure => return sent, None;
      case Final(answer) => return sent, Some(answer);
      case Redirect(target, allowed) =>
        if |sent| - |before| >= MAX_REDIRECTS || !allowed {
          return sent, None;
        }
        var plan := w.plan(last + 1, target);
        if plan.None? {
          return sent, None;
        }
        var next := Request(target, plan.value.primary, plan.value);
        ExtendRun(w, sent, |before|, next);
        sent := sent + [next];
    }
  }

  /** Evidence handed to the store after a client run. */
  datatype Note = Observed(url: string, profile: Profile, response: Response) | FallbackWorked(url: string)

  datatype Result = Result(sent: seq<Request>, fallback: Option<nat>, notes: seq<Note>, response: Option<Response>)

  function LegacyRetry(rejected: Request): Request {
    Request(rejected.url, Legacy, Plan(rejected.plan.origin, Fetch, Legacy, None, CachedCapability))
  }

  /** Request c is the legacy retry of the unknown, modern-signed request just before it. */
  ghost predicate FallbackAt(w: World, sent: seq<Request>, c: nat) {
    && 0 < c < |sent|
    && sent[c] == LegacyRetry(sent[c - 1])
    && Planned(w, c - 1, sent[c - 1])
    && sent[c - 1].profile == RFC9421 && sent[c - 1].plan.reason == UnknownFetchProbe
    && ReplyTo(w, sent, c - 1).Final?
    && Rejects(ReplyTo(w, sent, c - 1).response)
  }

  predicate Rejects(response: Response) {
    response.status == 400 || ExplicitRejection(response)
  }

  /** The first client run of a GET, ending where it does, calls for a fallback. */
  ghost predicate Unsettled(w: World, sent: seq<Request>) {
    && sent != []
    && sent[|sent| - 1].plan.reason == UnknownFetchProbe
    && ReplyTo(w, sent, |sent| - 1).Final?
    && Rejects(ReplyTo(w, sent, |sent| - 1).response)
  }

  /** The outcome of an answer, by its status. */
  lemma OutcomeExactly(response: Response)
    ensures Classify(response) == Succeeded <==> response.status / 100 == 2
    ensures Classify(response) == ExplicitSignatureRejection <==> response.status in {401, 403} && response.challenged
    ensures Classify(response) == AmbiguousClientRejection <==> response.status == 400
    ensures Classify(response) == ServerFailure <==> response.status / 100 == 5
  {
  }

  lemma FallbackExactly(plan: Plan, response: Response)
    requires FetchPlan(plan)
    ensures ShouldFallback(plan, Classify(response)) <==> plan.reason == UnknownFetchProbe && Rejects(response)
  {
  }

  /** Evidence after a retry: its final answer, and that legacy works only if 400 led here and legacy then succeeded. */
  function RetryNotes(rejection: Response, last: Request, response: Option<Response>): seq<Note> {
    if response.None? then []
    else [Observed(last.url, last.profile, response.value)]
         + if rejection.status == 400 && last.profile == Legacy && Success(response.value)
           then [FallbackWorked(last.url)] else []
  }

  /** Evidence after a whole GET: the final answer of each client run under the profile it was asked with. */
  ghost function ExpectedNotes(w: World, r: Result): seq<Note>
    requires r.sent != [] && (r.fallback.Some? ==> FallbackAt(w, r.sent, r.fallback.value))
  {
    var last := r.sent[|r.sent| - 1];
    if r.fallback.None? then
      if r.response.Some? then [Observed(last.url, last.profile, r.response.value)] else []
    else
      var c := r.fallback.value;
      var rejection := ReplyTo(w, r.sent, c - 1).response;
      [Observed(r.sent[c - 1].url, RFC9421, rejection)] + RetryNotes(rejection, last, r.response)
  }

  /** A retry teaches that legacy works if and only if 400 led to it and a legacy request then got a 2xx. */
  lemma RetryTeachesExactly(rejection: Response, last: Request, response: Option<Response>)
    ensures FallbackWorked(last.url) in RetryNotes(rejection, last, response) <==>
              rejection.status == 400 && last.profile == Legacy && response.Some? && response.value.status / 100 == 2
    ensures response.Some? <==> Observed(last.url, last.profile, FinalOr(response)) in RetryNotes(rejection, last, response)
  {
    var notes := RetryNotes(rejection, last, response);
    if response.Some? {
      assert notes[0] == Observed(last.url, last.profile, response.value);
      if rejection.status == 400 && last.profile == Legacy && Success(response.value) {
        assert notes[1] == FallbackWorked(last.url);
      }
    }
  }

  function FinalOr(response: Option<Response>): Response {
    if response.Some? then response.value else Response(0, false, false)
  }

  lemma PrefixRun(w: World, shorter: seq<Request>, sent: seq<Request>)
    requires WholeRun(w, shorter, 0, |shorter|) && shorter <= sent
    ensures WholeRun(w, sent, 0, |shorter|)
  {
    assert ReplyTo(w, sent, |shorter| - 1) == ReplyTo(w, shorter, |shorter| - 1);
    forall i | 0 <= i < |shorter| - 1 ensures ReplyTo(w, sent, i) == Redirect(sent[i + 1].url, true) {
      assert ReplyTo(w, sent, i) == ReplyTo(w, shorter, i);
    }
  }

  /** A second run was made for the rejected last request of a first one, with its own evidence. */
  ghost predicate Retried(w: World, first: seq<Request>, rejection: Response, r: Result) {
    && first != [] && first <= r.sent && r.fallback == Some(|first|)
    && FallbackAt(w, r.sent, |first|)
    && WholeRun(w, r.sent, 0, |first|) && WholeRun(w, r.sent, |first|, |r.sent|)
    && r.response == FinalResponse(ReplyTo(w, r.sent, |r.sent| - 1))
    && r.notes == RetryNotes(rejection, r.sent[|r.sent| - 1], r.response)
  }

  /** The legacy retry of the last request of a first client run. */
  method Fallback(w: World, first: seq<Request>, rejection: Response) returns (r: Result)
    requires first != [] && WholeRun(w, first, 0, |first|) && Planned(w, 0, first[0])
    requires Unsettled(w, first) && first[|first| - 1].profile == RFC9421
    requires ReplyTo(w, first, |first| - 1) == Final(rejection)
    ensures Retried(w, first, rejection, r)
  {
    var rejected := first[|first| - 1];
    var request := LegacyRetry(rejected);
    var sent, answer := Do(w, first, request);
    assert first <= sent && sent[|first|] == request && sent[|first| - 1] == rejected by {
      assert first <= first + [request];
      assert (first + [request])[|first|] == request;
    }
    PrefixRun(w, first, sent);
    assert ReplyTo(w, sent, |first| - 1) == ReplyTo(w, first, |first| - 1);
    if answer.None? {
      return Result(sent, Some(|first|), [], None);
    }
    var final := sent[|sent| - 1];
    var notes := [Observed(final.url, final.profile, answer.value)];
    if Classify(rejection) == AmbiguousClientRejection && final.profile == Legacy && 200 <= answer.value.status < 300 {
      notes := notes + [FallbackWorked(final.url)];
    }
    return Result(sent, Some(|first|), notes, answer);
  }

  /** Bounded negotiation, for every server: one client run of at most ten requests, or two with exactly one fallback
      between them; the fallback happens exactly when the first run ends at a rejected probe of an unknown
      destination; no run ends before its time; every other request carries the profile planned for its own URL; a
      working fallback is recorded only when 400 led to it and a legacy request then succeeded. */
  ghost predicate Got(w: World, url: string, r: Result) {
    if r.sent == [] then w.plan(0, url) == None && r == Result([], None, [], None)
    else
      && r.sent[0].url == url && Planned(w, 0, r.sent[0])
      && (r.fallback.None? ==> WholeRun(w, r.sent, 0, |r.sent|) && !Unsettled(w, r.sent))
      && (r.fallback.Some? ==>
            && FallbackAt(w, r.sent, r.fallback.value)
            && WholeRun(w, r.sent, 0, r.fallback.value)
            && WholeRun(w, r.sent, r.fallback.value, |r.sent|))
      && r.response == FinalResponse(ReplyTo(w, r.sent, |r.sent| - 1))
      && r.notes == ExpectedNotes(w, r)
  }

  /** A run does not end before its end. */
  lemma GoesOn(w: World, sent: seq<Request>, first: nat, k: nat, end: nat)
    requires ClientRun(w, sent, first, end) && first < k < end
    ensures !Ended(w, sent, first, k)
  {
    assert ReplyTo(w, sent, k - 1) == Redirect(sent[k].url, true) && Planned(w, k, sent[k]);
  }

  /** Two runs to the end from the same request are the same. */
  lemma RunIsDetermined(w: World, a: seq<Request>, b: seq<Request>, first: nat, m: nat, n: nat)
    requires WholeRun(w, a, first, m) && WholeRun(w, b, first, n) && a[..first + 1] == b[..first + 1] && m <= n
    ensures m == n && a[..m] == b[..n]
  {
    SameSoFar(w, a, b, first, m, n, m);
    assert a[m - 1] == a[..m][m - 1] == b[..m][m - 1] == b[m - 1];
    assert Ended(w, b, first, m);
    if m < n {
      GoesOn(w, b, first, m, n);
    }
  }

  lemma {:induction false} SameSoFar(w: World, a: seq<Request>, b: seq<Request>, first: nat, m: nat, n: nat, k: nat)
    requires ClientRun(w, a, first, m) && ClientRun(w, b, first, n) && a[..first + 1] == b[..first + 1]
    requires first < k <= m && k <= n
    ensures a[..k] == b[..k]
    decreases k
  {
    if first + 1 < k {
      SameSoFar(w, a, b, first, m, n, k - 1);
      assert a[k - 2] == a[..k - 1][k - 2] == b[..k - 1][k - 2] == b[k - 2];
      assert ReplyTo(w, a, k - 2) == Redirect(a[k - 1].url, true) && ReplyTo(w, b, k - 2) == Redirect(b[k - 1].url, true);
      assert Planned(w, k - 1, a[k - 1]) && Planned(w, k - 1, b[k - 1]);
      assert a[..k] == a[..k - 1] + [a[k - 1]] && b[..k] == b[..k - 1] + [b[k - 1]];
    }
  }

  lemma FirstRunsAgree(w: World, a: seq<Request>, b: seq<Request>, m: nat, n: nat)
    requires WholeRun(w, a, 0, m) && WholeRun(w, b, 0, n)
    requires a[0].url == b[0].url && Planned(w, 0, a[0]) && Planned(w, 0, b[0])
    ensures m == n && a[..m] == b[..m] && a[m - 1] == b[m - 1]
  {
    assert a[..1] == [a[0]] && b[..1] == [b[0]];
    if m <= n {
      RunIsDetermined(w, a, b, 0, m, n);
    } else {
      RunIsDetermined(w, b, a, 0, n, m);
    }
    assert a[m - 1] == a[..m][m - 1] == b[..m][m - 1];
  }

  lemma RetriesAgree(w: World, a: seq<Request>, b: seq<Request>, c: nat)
    requires FallbackAt(w, a, c) && FallbackAt(w, b, c) && a[..c] == b[..c]
    requires WholeRun(w, a, c, |a|) && WholeRun(w, b, c, |b|)
    ensures a == b
  {
    assert a[c - 1] == a[..c][c - 1] == b[c - 1];
    assert a[..c + 1] == a[..c] + [a[c]] && b[..c + 1] == b[..c] + [b[c]];
    if |a| <= |b| {
      RunIsDetermined(w, a, b, c, |a|, |b|);
    } else {
      RunIsDetermined(w, b, a, c, |b|, |a|);
    }
    assert a[..|a|] == a && b[..|b|] == b;
  }

  lemma GotTogether(w: World, url: string, first: seq<Request>, rejection: Response, r: Result)
    requires Retried(w, first, rejection, r) && first[0].url == url && Planned(w, 0, first[0])
    requires ReplyTo(w, first, |first| - 1) == Final(rejection) && first[|first| - 1].profile == RFC9421
    ensures Got(w, url, r.(notes := [Observed(first[|first| - 1].url, RFC9421, rejection)] + r.notes))
  {
    assert r.sent[0] == first[0] && r.sent[|first| - 1] == first[|first| - 1];
    assert ReplyTo(w, r.sent, |first| - 1) == ReplyTo(w, first, |first| - 1);
  }

  /** A first run that called for a fallback is not a whole GET. */
  lemma FallbackIsCalledFor(w: World, first: seq<Request>, sent: seq<Request>)
    requires FallbackAt(w, sent, |first|) && sent[..|first|] == first
    ensures Unsettled(w, first)
  {
    assert first[|first| - 1] == sent[..|first|][|first| - 1] == sent[|first| - 1];
    assert ReplyTo(w, first, |first| - 1) == ReplyTo(w, sent, |first| - 1);
  }

  lemma SameFallback(w: World, url: string, r: Result, s: Result)
    requires Got(w, url, r) && Got(w, url, s) && r.sent != [] && s.sent != []
    ensures r.fallback == s.fallback && r.sent == s.sent
  {
    var m := if r.fallback.Some? then r.fallback.value else |r.sent|;
    var n := if s.fallback.Some? then s.fallback.value else |s.sent|;
    FirstRunsAgree(w, r.sent, s.sent, m, n);
    assert r.fallback.None? ==> r.sent[..m] == r.sent;
    assert s.fallback.None? ==> s.sent[..m] == s.sent;
    if r.fallback.Some? && s.fallback.Some? {
      RetriesAgree(w, r.sent, s.sent, m);
    } else if r.fallback.Some? {
      FallbackIsCalledFor(w, s.sent, r.sent);
    } else if s.fallback.Some? {
      FallbackIsCalledFor(w, r.sent, s.sent);
    }
  }

  /** What a GET does is fixed by the servers, the redirect policy and the plans: requests, answer and evidence. */
  lemma GetIsDetermined(w: World, url: string, r: Result, s: Result)
    requires Got(w, url, r) && Got(w, url, s)
    ensures r == s
  {
    if r.sent != [] && s.sent != [] {
      SameFallback(w, url, r, s);
    }
  }

  method DoGET(w: World, url: string) returns (r: Result)
    requires PlansFetches(w.plan)
    ensures Got(w, url, r)
  {
    var plan := w.plan(0, url);
    if plan.None? {
      return Result([], None, [], None);
    }
    var request := Request(url, plan.value.primary, plan.value);
    var first, response := Do(w, [], request);
    assert first[0] == request;
    var last := |first| - 1;
    if response.None? {
      return Result(first, None, [], None);
    }
    var notes := [Observed(first[last].url, first[last].profile, response.value)];
    FallbackExactly(first[last].plan, response.value);
    if !ShouldFallback(first[last].plan, Classify(response.value)) {
      return Result(first, None, notes, response);
    }

    r := Fallback(w, first, response.value);
    GotTogether(w, url, first, response.value, r);
    r := r.(notes := notes + r.notes);
  }
}
