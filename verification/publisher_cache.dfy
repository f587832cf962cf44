/** The in-memory publisher list and map, and their agreement with Redis under racing recorders. */
module PublisherCache {
  import opened Text

  datatype Publisher = Publisher(
    domain: string,
    actorID: string,
    inboxURL: string,
    firstSeen: string,
    lastSeen: string,
    lastActivityID: string,
    lastActivityType: string,
    activityCount: int)

  type Records = map<string, Publisher>

  /** A record replaces the one in memory unless that one has a greater count. */
  function Applied(memory: Records, p: Publisher): Records {
    if p.domain in memory && memory[p.domain].activityCount > p.activityCount then memory
    else memory[p.domain := p]
  }

  predicate At(list: seq<Publisher>, i: int, d: string) {
    0 <= i < |list| && list[i].domain == d
  }

  ghost predicate Listed(list: seq<Publisher>, d: string) {
    exists i :: At(list, i, d)
  }

  ghost predicate Sorted(list: seq<Publisher>) {
    forall i, j | 0 <= i < j < |list| :: Less(list[i].domain, list[j].domain)
  }

  /** The list holds exactly the map's records, in domain order. */
  ghost predicate Agree(list: seq<Publisher>, records: Records) {
    && Sorted(list)
    && (forall i | 0 <= i < |list| :: list[i].domain in records && records[list[i].domain] == list[i])
    && (forall d | d in records :: Listed(list, d))
  }

  /** Where binary search ends: everything before is smaller, everything from there on is not. */
  ghost predicate SplitsAt(list: seq<Publisher>, domain: string, index: int) {
    && 0 <= index <= |list|
    && (forall i | 0 <= i < index :: Less(list[i].domain, domain))
    && (forall i | index <= i < |list| :: !Less(list[i].domain, domain))
  }

  lemma NotLessForward(list: seq<Publisher>, domain: string, h: int)
    requires Sorted(list) && 0 <= h < |list|
    ensures !Less(list[h].domain, domain) ==> forall i | h <= i < |list| :: !Less(list[i].domain, domain)
    ensures Less(list[h].domain, domain) ==> forall i | 0 <= i <= h :: Less(list[i].domain, domain)
  {
    forall i | h < i < |list| ensures Less(list[i].domain, domain) ==> Less(list[h].domain, domain) {
      if Less(list[i].domain, domain) {
        LessTransitive(list[h].domain, list[i].domain, domain);
      }
    }
    forall i | 0 <= i < h ensures Less(list[h].domain, domain) ==> Less(list[i].domain, domain) {
      if Less(list[h].domain, domain) {
        LessTransitive(list[i].domain, list[h].domain, domain);
      }
    }
  }

  lemma ReplaceAgrees(list: seq<Publisher>, records: Records, p: Publisher, index: int)
    requires Agree(list, records) && 0 <= index < |list| && list[index].domain == p.domain
    ensures Agree(list[index := p], records[p.domain := p])
  {
    var next := list[index := p];
    forall i | 0 <= i < |next| ensures next[i].domain in records && records[p.domain := p][next[i].domain] == next[i] {
      if i != index {
        LessIrreflexive(p.domain);
      }
    }
    forall d | Listed(list, d) ensures Listed(next, d) {
      var i :| At(list, i, d);
      assert At(next, i, d);
    }
  }

  function Inserted(list: seq<Publisher>, index: nat, p: Publisher): seq<Publisher>
    requires index <= |list|
  {
    list[..index] + [p] + list[index..]
  }

  lemma AbsentIsStrict(list: seq<Publisher>, p: Publisher, index: nat)
    requires Sorted(list) && SplitsAt(list, p.domain, index)
    requires index < |list| ==> list[index].domain != p.domain
    ensures forall i | index <= i < |list| :: Less(p.domain, list[i].domain)
  {
    forall i | index <= i < |list| ensures Less(p.domain, list[i].domain) {
      LessTotal(list[index].domain, p.domain);
      if i > index {
        LessTransitive(p.domain, list[index].domain, list[i].domain);
      }
    }
  }

  lemma InsertSorts(list: seq<Publisher>, p: Publisher, index: nat)
    requires Sorted(list) && SplitsAt(list, p.domain, index)
    requires index < |list| ==> list[index].domain != p.domain
    ensures Sorted(Inserted(list, index, p))
  {
    AbsentIsStrict(list, p, index);
    var next := Inserted(list, index, p);
    forall i, j | 0 <= i < j < |next| ensures Less(next[i].domain, next[j].domain) {
      assert i != index ==> next[i] == list[if i < index then i else i - 1];
      assert j != index ==> next[j] == list[if j < index then j else j - 1];
    }
  }

  lemma InsertKeeps(list: seq<Publisher>, p: Publisher, index: nat)
    requires index <= |list|
    ensures var next := Inserted(list, index, p);
            && At(next, index, p.domain)
            && (forall d | Listed(list, d) :: Listed(next, d))
            && (forall i | 0 <= i < |next| :: next[i] == p || next[i] in list)
  {
    var next := Inserted(list, index, p);
    assert next[index] == p;
    forall d | Listed(list, d) ensures Listed(next, d) {
      var i :| At(list, i, d);
      assert next[if i < index then i else i + 1] == list[i];
      assert At(next, if i < index then i else i + 1, d);
    }
  }

  lemma SplitMissesAbsent(list: seq<Publisher>, records: Records, p: Publisher, index: nat)
    requires Agree(list, records) && SplitsAt(list, p.domain, index)
    requires index < |list| ==> list[index].domain != p.domain
    ensures p.domain !in records
  {
    if p.domain in records {
      var i :| At(list, i, p.domain);
      AbsentIsStrict(list, p, index);
      LessIrreflexive(p.domain);
      assert false;
    }
  }

  lemma InsertAgrees(list: seq<Publisher>, records: Records, p: Publisher, index: nat)
    requires Agree(list, records) && SplitsAt(list, p.domain, index)
    requires index < |list| ==> list[index].domain != p.domain
    ensures Agree(Inserted(list, index, p), records[p.domain := p])
  {
    SplitMissesAbsent(list, records, p, index);
    InsertSorts(list, p, index);
    InsertKeeps(list, p, index);
  }

  lemma SortedDistinct(list: seq<Publisher>, i: int, j: int)
    requires Sorted(list) && 0 <= i < j < |list|
    ensures list[i].domain != list[j].domain
  {
    LessIrreflexive(list[i].domain);
  }

  method IndexByDomain(list: seq<Publisher>) returns (records: Records)
    requires Sorted(list)
    ensures Agree(list, records)
  {
    records := map[];
    for i := 0 to |list|
      invariant forall k | 0 <= k < i :: list[k].domain in records && records[list[k].domain] == list[k]
      invariant forall d | d in records :: Listed(list, d)
    {
      forall k | 0 <= k < i ensures list[k].domain != list[i].domain {
        SortedDistinct(list, k, i);
      }
      records := records[list[i].domain := list[i]];
      assert At(list, i, list[i].domain);
    }
  }

  lemma LoadedIsWhole(domains: seq<string>, hashes: Records, list: seq<Publisher>, records: Records)
    requires (forall d :: d in domains <==> d in hashes) && (forall d | d in hashes :: hashes[d].domain == d)
    requires |list| == |domains| && (forall k | 0 <= k < |list| :: list[k] == hashes[domains[k]])
    requires Agree(list, records)
    ensures records == hashes
  {
    forall d | d in hashes ensures d in records && records[d] == hashes[d] {
      var i :| 0 <= i < |domains| && domains[i] == d;
      assert list[i].domain in records;
    }
    forall d | d in records ensures d in hashes {
      var i :| At(list, i, d);
    }
  }

  class RelayState {
    var publishers: seq<Publisher>
    var publishersByDomain: Records

    constructor ()
      ensures Valid() && publishersByDomain == map[]
    {
      publishers := [];
      publishersByDomain := map[];
    }

    ghost predicate Valid()
      reads this
    {
      Agree(publishers, publishersByDomain)
    }

    /** The publisher part of Load: sorted distinct keys and their hashes. */
    method Load(domains: seq<string>, hashes: Records)
      requires StrictlySorted(domains) && (forall d :: d in domains <==> d in hashes)
      requires forall d | d in hashes :: hashes[d].domain == d
      modifies this
      ensures Valid() && publishersByDomain == hashes
    {
      var list: seq<Publisher> := [];
      for i := 0 to |domains|
        invariant |list| == i
        invariant forall k | 0 <= k < i :: list[k] == hashes[domains[k]]
      {
        list := list + [hashes[domains[i]]];
      }
      assert Sorted(list);
      var records := IndexByDomain(list);
      LoadedIsWhole(domains, hashes, list, records);
      publishers, publishersByDomain := list, records;
    }

    /** sort.Search over the list. */
    method Search(domain: string) returns (index: nat)
      requires Sorted(publishers)
      ensures SplitsAt(publishers, domain, index)
    {
      var low, high := 0, |publishers|;
      while low < high
        invariant 0 <= low <= high <= |publishers|
        invariant forall i | 0 <= i < low :: Less(publishers[i].domain, domain)
        invariant forall i | high <= i < |publishers| :: !Less(publishers[i].domain, domain)
      {
        var h := (low + high) / 2;
        NotLessForward(publishers, domain, h);
        if Less(publishers[h].domain, domain) {
          low := h + 1;
        } else {
          high := h;
        }
      }
      return low;
    }

    /** The part of RecordPublisherActivity under the mutex. */
    method Apply(p: Publisher)
      requires Valid()
      modifies this
      ensures Valid() && publishersByDomain == Applied(old(publishersByDomain), p)
    {
      if p.domain in publishersByDomain && publishersByDomain[p.domain].activityCount > p.activityCount {
        return;
      }
      var index := Search(p.domain);
      if index < |publishers| && publishers[index].domain == p.domain {
        ReplaceAgrees(publishers, publishersByDomain, p, index);
        publishersByDomain := publishersByDomain[p.domain := p];
        publishers := publishers[index := p];
      } else {
        InsertAgrees(publishers, publishersByDomain, p, index);
        publishersByDomain := publishersByDomain[p.domain := p];
        publishers := publishers[..index] + [p] + publishers[index..];
      }
    }
  }

  ghost function Domains(list: seq<Publisher>): seq<string> {
    seq(|list|, i requires 0 <= i < |list| => list[i].domain)
  }

  lemma DomainsOfAgreeing(list: seq<Publisher>, records: Records)
    requires Agree(list, records)
    ensures StrictlySorted(Domains(list)) && Elements(Domains(list)) == records.Keys
  {
    forall d | d in records ensures d in Domains(list) {
      var i :| At(list, i, d);
      assert Domains(list)[i] == d;
    }
    forall d | d in Domains(list) ensures d in records {
      var i :| 0 <= i < |list| && Domains(list)[i] == d;
      assert list[i].domain in records;
    }
  }

  /** Agreement pins the list down: a map has at most one agreeing list. */
  lemma AgreeingListIsUnique(list: seq<Publisher>, other: seq<Publisher>, records: Records)
    requires Agree(list, records) && Agree(other, records)
    ensures list == other
  {
    DomainsOfAgreeing(list, records);
    DomainsOfAgreeing(other, records);
    SortedUnique(Domains(list), Domains(other));
    assert |list| == |Domains(list)| && |other| == |Domains(other)|;
    forall i | 0 <= i < |list| ensures list[i] == other[i] {
      assert Domains(list)[i] == list[i].domain && Domains(other)[i] == other[i].domain;
    }
  }

  // ---- racing recorders ----

  datatype Phase = Committed | Fetched | Finished

  /** A recorder after its transaction: the record it will apply, complete once the first-seen time is read back. */
  datatype Call = Call(record: Publisher, phase: Phase)

  datatype World = World(redis: Records, memory: Records, calls: seq<Call>)

  datatype Event = Commit(publisher: Publisher) | ReadBack(i: nat) | Apply(i: nat)

  predicate CanStep(w: World, e: Event) {
    match e
    case Commit(p) => p.domain != ""
    case ReadBack(i) => i < |w.calls| && w.calls[i].phase == Committed && w.calls[i].record.domain in w.redis
    case Apply(i) => i < |w.calls| && w.calls[i].phase == Fetched
  }

  /** The transaction: first_seen if absent, the other fields, and the count one up. */
  function Hash(redis: Records, p: Publisher): Publisher {
    p.(firstSeen := if p.domain in redis then redis[p.domain].firstSeen else p.lastSeen,
       activityCount := if p.domain in redis then redis[p.domain].activityCount + 1 else 1)
  }

  function Step(w: World, e: Event): World
    requires CanStep(w, e)
  {
    match e
    case Commit(p) =>
      var hash := Hash(w.redis, p);
      World(w.redis[p.domain := hash], w.memory, w.calls + [Call(p.(activityCount := hash.activityCount), Committed)])
    case ReadBack(i) =>
      var record := w.calls[i].record;
      w.(calls := w.calls[i := Call(record.(firstSeen := w.redis[record.domain].firstSeen), Fetched)])
    case Apply(i) =>
      w.(memory := Applied(w.memory, w.calls[i].record), calls := w.calls[i := w.calls[i].(phase := Finished)])
  }

  ghost predicate StepAt(ws: seq<World>, es: seq<Event>, k: int) {
    0 <= k < |es| && k + 1 < |ws| && CanStep(ws[k], es[k]) && ws[k + 1] == Step(ws[k], es[k])
  }

  /** Recorders of one process start from a fresh load. */
  ghost predicate Run(ws: seq<World>, es: seq<Event>) {
    && |ws| == |es| + 1
    && ws[0].memory == ws[0].redis && ws[0].calls == []
    && (forall d | d in ws[0].redis :: ws[0].redis[d].domain == d)
    && forall k | 0 <= k < |es| :: StepAt(ws, es, k)
  }

  /** A record of domain d is behind the hash, or is the hash. */
  predicate UpTo(redis: Records, p: Publisher) {
    && p.domain in redis && p.activityCount <= redis[p.domain].activityCount
    && p.firstSeen == redis[p.domain].firstSeen
    && (p.activityCount == redis[p.domain].activityCount ==> p == redis[p.domain])
  }

  /** Call i still carries the newest record of d. */
  predicate Carries(w: World, i: int, d: string) {
    && 0 <= i < |w.calls| && w.calls[i].phase != Finished && w.calls[i].record.domain == d
    && d in w.redis && w.calls[i].record.activityCount == w.redis[d].activityCount
  }

  ghost predicate CallFits(w: World, call: Call) {
    call.record.domain in w.redis
    && UpTo(w.redis, call.record.(firstSeen := w.redis[call.record.domain].firstSeen))
    && (call.phase == Fetched ==> UpTo(w.redis, call.record))
  }

  /** Memory has the newest record of d, or some call is about to bring it. */
  ghost predicate Served(w: World, d: string) {
    (d in w.memory && d in w.redis && w.memory[d] == w.redis[d]) || exists i :: Carries(w, i, d)
  }

  ghost predicate MemoryFits(redis: Records, memory: Records) {
    forall d | d in memory :: memory[d].domain == d && UpTo(redis, memory[d])
  }

  ghost predicate Coherent(w: World) {
    && (forall d | d in w.redis :: w.redis[d].domain == d)
    && MemoryFits(w.redis, w.memory)
    && (forall i | 0 <= i < |w.calls| :: CallFits(w, w.calls[i]))
    && (forall d | d in w.redis :: Served(w, d))
  }

  lemma CommitCalls(w: World, p: Publisher, i: nat)
    requires Coherent(w) && CanStep(w, Commit(p)) && i <= |w.calls|
    ensures CallFits(Step(w, Commit(p)), Step(w, Commit(p)).calls[i])
  {
    assert i < |w.calls| ==> CallFits(w, w.calls[i]);
  }

  lemma CommitServes(w: World, p: Publisher, d: string)
    requires Coherent(w) && CanStep(w, Commit(p)) && d in Step(w, Commit(p)).redis
    ensures Served(Step(w, Commit(p)), d)
  {
    var next := Step(w, Commit(p));
    if d == p.domain {
      assert Carries(next, |w.calls|, d);
    } else {
      assert Served(w, d);
      if i :| Carries(w, i, d) {
        assert Carries(next, i, d);
      }
    }
  }

  lemma CoherentCommit(w: World, p: Publisher)
    requires Coherent(w) && CanStep(w, Commit(p))
    ensures Coherent(Step(w, Commit(p)))
  {
    var next := Step(w, Commit(p));
    forall i | 0 <= i < |next.calls| ensures CallFits(next, next.calls[i]) {
      CommitCalls(w, p, i);
    }
    forall d | d in next.redis ensures Served(next, d) {
      CommitServes(w, p, d);
    }
    assert MemoryFits(next.redis, next.memory);
  }

  lemma CoherentReadBack(w: World, i: nat)
    requires Coherent(w) && CanStep(w, ReadBack(i))
    ensures Coherent(Step(w, ReadBack(i)))
  {
    var next := Step(w, ReadBack(i));
    forall j | 0 <= j < |next.calls| ensures CallFits(next, next.calls[j]) {
      assert CallFits(w, w.calls[j]);
    }
    forall d | d in next.redis ensures Served(next, d) {
      assert Served(w, d);
      if j :| Carries(w, j, d) {
        assert Carries(next, j, d);
      }
    }
  }

  lemma AppliedFits(redis: Records, memory: Records, p: Publisher)
    requires MemoryFits(redis, memory) && UpTo(redis, p)
    ensures MemoryFits(redis, Applied(memory, p))
    ensures p.activityCount == redis[p.domain].activityCount ==>
              p.domain in Applied(memory, p) && Applied(memory, p)[p.domain] == redis[p.domain]
    ensures forall d | d in memory && d in redis && memory[d] == redis[d] ::
              d in Applied(memory, p) && Applied(memory, p)[d] == redis[d]
  {
    assert p.domain in memory ==> UpTo(redis, memory[p.domain]);
  }

  lemma CoherentApply(w: World, i: nat)
    requires Coherent(w) && CanStep(w, Apply(i))
    ensures Coherent(Step(w, Apply(i)))
  {
    var next := Step(w, Apply(i));
    assert CallFits(w, w.calls[i]);
    AppliedFits(w.redis, w.memory, w.calls[i].record);
    forall j | 0 <= j < |next.calls| ensures CallFits(next, next.calls[j]) {
      assert CallFits(w, w.calls[j]);
    }
    forall d | d in next.redis ensures Served(next, d) {
      assert Served(w, d);
      if j :| Carries(w, j, d) && j != i {
        assert Carries(next, j, d);
      }
    }
  }

  lemma {:induction false} CoherentThroughout(ws: seq<World>, es: seq<Event>, k: nat)
    requires Run(ws, es) && k < |ws|
    ensures Coherent(ws[k])
  {
    if k > 0 {
      CoherentThroughout(ws, es, k - 1);
      assert StepAt(ws, es, k - 1);
      match es[k - 1]
      case Commit(p) => CoherentCommit(ws[k - 1], p);
      case ReadBack(i) => CoherentReadBack(ws[k - 1], i);
      case Apply(i) => CoherentApply(ws[k - 1], i);
    }
  }

  /** Once every recorder has finished, in whatever order they committed, read back and applied, memory is Redis. */
  lemma MemoryEqualsRedis(ws: seq<World>, es: seq<Event>)
    requires Run(ws, es)
    requires forall i | 0 <= i < |ws[|es|].calls| :: ws[|es|].calls[i].phase == Finished
    ensures ws[|es|].memory == ws[|es|].redis
  {
    CoherentThroughout(ws, es, |es|);
    var w := ws[|es|];
    forall d | d in w.redis ensures d in w.memory && w.memory[d] == w.redis[d] {
      assert Served(w, d);
    }
    forall d | d in w.memory ensures d in w.redis {
      assert UpTo(w.redis, w.memory[d]);
    }
  }

  /** On the way there memory never runs ahead of Redis and never goes back. */
  lemma MemoryOnlyAdvances(ws: seq<World>, es: seq<Event>, k: nat, d: string)
    requires Run(ws, es) && k < |es| && d in ws[k].memory
    ensures d in ws[k + 1].memory && d in ws[k].redis
    ensures ws[k].memory[d].activityCount <= ws[k + 1].memory[d].activityCount
    ensures ws[k].memory[d].activityCount <= ws[k].redis[d].activityCount
  {
    CoherentThroughout(ws, es, k);
    assert StepAt(ws, es, k);
    assert UpTo(ws[k].redis, ws[k].memory[d]);
  }

  // ---- nothing is counted twice or forgotten ----

  predicate CommitsTo(e: Event, d: string) {
    e.Commit? && e.publisher.domain == d
  }

  function Commits(es: seq<Event>, k: nat, d: string): nat
    requires k <= |es|
  {
    if k == 0 then 0 else Commits(es, k - 1, d) + if CommitsTo(es[k - 1], d) then 1 else 0
  }

  function CountIn(redis: Records, d: string): int {
    if d in redis then redis[d].activityCount else 0
  }

  /** The stored count of a domain is what it was at first and one more for every activity recorded since. */
  lemma {:induction false} EveryCommitCounts(ws: seq<World>, es: seq<Event>, k: nat, d: string)
    requires Run(ws, es) && k < |ws|
    ensures CountIn(ws[k].redis, d) == CountIn(ws[0].redis, d) + Commits(es, k, d)
  {
    if k > 0 {
      EveryCommitCounts(ws, es, k - 1, d);
      assert StepAt(ws, es, k - 1);
    }
  }

  ghost predicate NoCommit(es: seq<Event>, i: nat, k: nat, d: string)
    requires k <= |es|
  {
    forall m | i <= m < k :: !CommitsTo(es[m], d)
  }

  lemma {:induction false} UntouchedBetween(ws: seq<World>, es: seq<Event>, i: nat, k: nat, d: string)
    requires Run(ws, es) && i <= k < |ws| && NoCommit(es, i, k, d)
    ensures d in ws[k].redis <==> d in ws[i].redis
    ensures d in ws[i].redis ==> ws[k].redis[d] == ws[i].redis[d]
    decreases k
  {
    if i < k {
      UntouchedBetween(ws, es, i, k - 1, d);
      assert StepAt(ws, es, k - 1) && !CommitsTo(es[k - 1], d);
    }
  }

  lemma {:induction false} FirstSeenStays(ws: seq<World>, es: seq<Event>, i: nat, k: nat, d: string)
    requires Run(ws, es) && i <= k < |ws| && d in ws[i].redis
    ensures d in ws[k].redis && ws[k].redis[d].firstSeen == ws[i].redis[d].firstSeen
    decreases k
  {
    if i < k {
      FirstSeenStays(ws, es, i, k - 1, d);
      assert StepAt(ws, es, k - 1);
    }
  }

  /** The stored record of a domain is its last recorded activity, with the first-seen time of its first one. */
  lemma LastCommitIsStored(ws: seq<World>, es: seq<Event>, first: nat, last: nat, k: nat, d: string)
    requires Run(ws, es) && first <= last < k < |ws| && CommitsTo(es[first], d) && CommitsTo(es[last], d)
    requires d !in ws[first].redis && NoCommit(es, last + 1, k, d)
    ensures d in ws[k].redis
    ensures ws[k].redis[d] == es[last].publisher.(firstSeen := es[first].publisher.lastSeen, activityCount := Commits(es, k, d))
  {
    assert StepAt(ws, es, first) && StepAt(ws, es, last);
    FirstSeenStays(ws, es, first + 1, last + 1, d);
    UntouchedBetween(ws, es, last + 1, k, d);
    EveryCommitCounts(ws, es, k, d);
    if d in ws[0].redis {
      FirstSeenStays(ws, es, 0, first, d);
    }
  }
}
