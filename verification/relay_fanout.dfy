/** Which receivers one relayed activity is queued for. */
module RelayFanout {
  import opened Text

  datatype Receiver = Receiver(domain: string, inboxURL: string)

  /** What the selection needs of the network names: a normalizer of stored domains, the key of an inbox
      text, and inbox validation. All results hold for every choice. */
  datatype Net = Net(normalize: string -> string, inboxKey: string -> string, validInbox: string -> bool)

  function DropDot(s: string): string {
    if s != "" && s[|s| - 1] == '.' then s[..|s| - 1] else s
  }

  /** normalizedStoredDomain; `hostname` is the host part of the text parsed as an authority, "" when there is none. */
  function NormalizedStoredDomain(hostname: string -> string, lower: string -> string, domain: string): string {
    var text := Trim(domain);
    if text == "" then ""
    else
      var host := hostname(text);
      lower(DropDot(if host != "" then host else text))
  }

  /** The relay's own choice. */
  function RelayNet(hostname: string -> string, lower: string -> string, validInbox: string -> bool): Net {
    Net(d => NormalizedStoredDomain(hostname, lower, d), i => lower(Trim(i)), validInbox)
  }

  function DomainOf(net: Net, r: Receiver): string {
    net.normalize(r.domain)
  }

  function ExcludedSet(net: Net, domains: seq<string>): set<string> {
    set d | d in domains && net.normalize(d) != "" :: net.normalize(d)
  }

  /** Receivers without a domain are told apart by their inbox. */
  function DedupeKey(net: Net, r: Receiver): string {
    if DomainOf(net, r) != "" then DomainOf(net, r) else net.inboxKey(r.inboxURL)
  }

  predicate Eligible(net: Net, excluded: set<string>, r: Receiver) {
    DomainOf(net, r) !in excluded && net.validInbox(r.inboxURL)
  }

  /** Entry i is chosen when it is the first eligible entry with its key. */
  predicate Chosen(net: Net, rs: seq<Receiver>, excluded: set<string>, i: nat)
    requires i < |rs|
  {
    && Eligible(net, excluded, rs[i])
    && (DedupeKey(net, rs[i]) != "" ==>
          forall j | 0 <= j < i && Eligible(net, excluded, rs[j]) :: DedupeKey(net, rs[j]) != DedupeKey(net, rs[i]))
  }

  /** The chosen entries among the first n, in order. */
  function ChosenUpTo(net: Net, rs: seq<Receiver>, excluded: set<string>, n: nat): seq<Receiver>
    requires n <= |rs|
  {
    if n == 0 then []
    else ChosenUpTo(net, rs, excluded, n - 1) + (if Chosen(net, rs, excluded, n - 1) then [rs[n - 1]] else [])
  }

  function Targets(net: Net, rs: seq<Receiver>, excludedDomains: seq<string>): seq<Receiver> {
    ChosenUpTo(net, rs, ExcludedSet(net, excludedDomains), |rs|)
  }

  function Kept(plan: Receiver -> bool, rs: seq<Receiver>): seq<Receiver> {
    if rs == [] then []
    else Kept(plan, rs[..|rs| - 1]) + (if plan(rs[|rs| - 1]) then [rs[|rs| - 1]] else [])
  }

  /** enqueueActivityExcept. `plan` says which targets get a signature plan; `admitted`, `stored` and `sent`
      are the answers of queue admission, payload storage and the all-or-nothing group send. */
  method EnqueueActivityExcept(net: Net, subscriptions: seq<Receiver>, excludedDomains: seq<string>,
                               maxFanout: nat, plan: Receiver -> bool, admitted: bool, stored: bool, sent: bool)
    returns (ok: bool, queued: seq<Receiver>)
    ensures var targets := Targets(net, subscriptions, excludedDomains);
            && (ok <==> |targets| <= maxFanout
                        && (targets == [] || (Kept(plan, targets) != [] && admitted && stored && sent)))
            && queued == if ok then Kept(plan, targets) else []
  {
    var excluded: set<string> := {};
    for i := 0 to |excludedDomains|
      invariant excluded == ExcludedSet(net, excludedDomains[..i])
    {
      var normalized := net.normalize(excludedDomains[i]);
      assert excludedDomains[..i + 1] == excludedDomains[..i] + [excludedDomains[i]];
      if normalized != "" {
        excluded := excluded + {normalized};
      }
    }
    assert excludedDomains[..|excludedDomains|] == excludedDomains;
    var targets := CollectTargets(net, subscriptions, excluded);
    if |targets| > maxFanout {
      return false, [];
    }
    if |targets| < 1 {
      return true, [];
    }
    var signatures: seq<Receiver> := [];
    for i := 0 to |targets|
      invariant signatures == Kept(plan, targets[..i])
    {
      assert targets[..i + 1][..i] == targets[..i];
      if plan(targets[i]) {
        signatures := signatures + [targets[i]];
      }
    }
    assert targets[..|targets|] == targets;
    if |signatures| < 1 || !admitted || !stored || !sent {
      return false, [];
    }
    return true, signatures;
  }

  function KeysUpTo(net: Net, rs: seq<Receiver>, excluded: set<string>, n: nat): set<string>
    requires n <= |rs|
  {
    set j | 0 <= j < n && Eligible(net, excluded, rs[j]) && DedupeKey(net, rs[j]) != "" :: DedupeKey(net, rs[j])
  }

  method CollectTargets(net: Net, subscriptions: seq<Receiver>, excluded: set<string>)
    returns (targets: seq<Receiver>)
    ensures targets == ChosenUpTo(net, subscriptions, excluded, |subscriptions|)
  {
    var seen: set<string> := {};
    targets := [];
    for i := 0 to |subscriptions|
      invariant targets == ChosenUpTo(net, subscriptions, excluded, i)
      invariant seen == KeysUpTo(net, subscriptions, excluded, i)
    {
      var r := subscriptions[i];
      if DomainOf(net, r) in excluded || !net.validInbox(r.inboxURL) {
        continue;
      }
      var key := DedupeKey(net, r);
      if key != "" {
        if key in seen {
          continue;
        }
        seen := seen + {key};
      }
      targets := targets + [r];
    }
  }

  // ---- what the selection guarantees ----

  /** How many entries of a list have one domain. */
  function CountDomain(net: Net, rs: seq<Receiver>, domain: string): nat {
    if rs == [] then 0
    else CountDomain(net, rs[..|rs| - 1], domain) + (if DomainOf(net, rs[|rs| - 1]) == domain then 1 else 0)
  }

  lemma {:induction false} CountAppend(net: Net, a: seq<Receiver>, b: seq<Receiver>, domain: string)
    ensures CountDomain(net, a + b, domain) == CountDomain(net, a, domain) + CountDomain(net, b, domain)
    decreases |b|
  {
    if b == [] {
      assert a + b == a;
    } else {
      CountAppend(net, a, b[..|b| - 1], domain);
      assert (a + b)[..|a + b| - 1] == a + b[..|b| - 1];
    }
  }

  lemma {:induction false} CountKept(net: Net, plan: Receiver -> bool, rs: seq<Receiver>, domain: string)
    ensures CountDomain(net, Kept(plan, rs), domain) <= CountDomain(net, rs, domain)
    decreases |rs|
  {
    if rs != [] {
      CountKept(net, plan, rs[..|rs| - 1], domain);
      CountAppend(net, Kept(plan, rs[..|rs| - 1]), if plan(rs[|rs| - 1]) then [rs[|rs| - 1]] else [], domain);
      SingletonCount(net, rs[|rs| - 1], domain);
    }
  }

  lemma SingletonCount(net: Net, r: Receiver, domain: string)
    ensures CountDomain(net, [r], domain) == if DomainOf(net, r) == domain then 1 else 0
  {
    assert [r][..0] == [];
  }

  predicate HasEligible(net: Net, rs: seq<Receiver>, excluded: set<string>, n: nat, domain: string)
    requires n <= |rs|
  {
    exists j | 0 <= j < n :: Eligible(net, excluded, rs[j]) && DomainOf(net, rs[j]) == domain
  }

  lemma ChosenIsFirst(net: Net, rs: seq<Receiver>, excluded: set<string>, i: nat)
    requires i < |rs| && Chosen(net, rs, excluded, i) && DomainOf(net, rs[i]) != ""
    ensures !HasEligible(net, rs, excluded, i, DomainOf(net, rs[i]))
  {
  }

  /** A domain is chosen at most once, and only if it has an eligible entry. */
  lemma {:induction false} AtMostOncePerDomain(net: Net, rs: seq<Receiver>, excluded: set<string>, n: nat, domain: string)
    requires n <= |rs| && domain != ""
    ensures CountDomain(net, ChosenUpTo(net, rs, excluded, n), domain) <=
            if HasEligible(net, rs, excluded, n, domain) then 1 else 0
    decreases n
  {
    if n > 0 {
      AtMostOncePerDomain(net, rs, excluded, n - 1, domain);
      var before := ChosenUpTo(net, rs, excluded, n - 1);
      assert before + [] == before;
      if Chosen(net, rs, excluded, n - 1) {
        CountAppend(net, before, [rs[n - 1]], domain);
        SingletonCount(net, rs[n - 1], domain);
        if DomainOf(net, rs[n - 1]) == domain {
          ChosenIsFirst(net, rs, excluded, n - 1);
        }
      }
    }
  }

  predicate FirstEligible(net: Net, rs: seq<Receiver>, excluded: set<string>, i: nat) {
    && i < |rs| && Eligible(net, excluded, rs[i])
    && !HasEligible(net, rs, excluded, i, DomainOf(net, rs[i]))
  }

  /** An earlier eligible entry without a domain spells its inbox like this entry's domain, and takes its key. */
  predicate Shadowed(net: Net, rs: seq<Receiver>, excluded: set<string>, i: nat)
    requires i < |rs|
  {
    exists j | 0 <= j < i ::
      Eligible(net, excluded, rs[j]) && DomainOf(net, rs[j]) == "" && DedupeKey(net, rs[j]) == DomainOf(net, rs[i])
  }

  /** With a domain, "chosen" is exactly "first entry of its domain with a valid inbox, and not shadowed". */
  lemma ChosenIffFirstEligible(net: Net, rs: seq<Receiver>, excluded: set<string>, i: nat)
    requires i < |rs| && DomainOf(net, rs[i]) != ""
    ensures Chosen(net, rs, excluded, i) <==> FirstEligible(net, rs, excluded, i) && !Shadowed(net, rs, excluded, i)
  {
    if FirstEligible(net, rs, excluded, i) && !Shadowed(net, rs, excluded, i) {
      forall j | 0 <= j < i && Eligible(net, excluded, rs[j])
        ensures DedupeKey(net, rs[j]) != DedupeKey(net, rs[i])
      {
        assert DomainOf(net, rs[j]) != DomainOf(net, rs[i]);
      }
    }
  }

  predicate TakenAt(net: Net, rs: seq<Receiver>, excluded: set<string>, i: nat, r: Receiver) {
    i < |rs| && rs[i] == r && FirstEligible(net, rs, excluded, i) && !Shadowed(net, rs, excluded, i)
  }

  /** The targets with a domain are exactly the first valid-inbox entry of every domain that is not excluded. */
  lemma {:induction false} TargetsAreFirstPerDomain(net: Net, rs: seq<Receiver>, excluded: set<string>, n: nat, r: Receiver)
    requires n <= |rs| && DomainOf(net, r) != ""
    ensures r in ChosenUpTo(net, rs, excluded, n) <==> exists i: nat :: i < n && TakenAt(net, rs, excluded, i, r)
    decreases n
  {
    if n > 0 {
      TargetsAreFirstPerDomain(net, rs, excluded, n - 1, r);
      if rs[n - 1] == r {
        ChosenIffFirstEligible(net, rs, excluded, n - 1);
        assert Chosen(net, rs, excluded, n - 1) <==> TakenAt(net, rs, excluded, n - 1, r);
      }
    }
  }

  /** No eligible domain-less entry spells its inbox like this domain. */
  ghost predicate Unshadowed(net: Net, rs: seq<Receiver>, excluded: set<string>, domain: string) {
    forall j | 0 <= j < |rs| && Eligible(net, excluded, rs[j]) && DomainOf(net, rs[j]) == "" ::
      DedupeKey(net, rs[j]) != domain
  }

  /** A domain with an eligible entry is chosen exactly once. */
  lemma {:induction false} ExactlyOncePerDomain(net: Net, rs: seq<Receiver>, excluded: set<string>, n: nat, domain: string)
    requires n <= |rs| && domain != "" && Unshadowed(net, rs, excluded, domain)
    requires HasEligible(net, rs, excluded, n, domain)
    ensures CountDomain(net, ChosenUpTo(net, rs, excluded, n), domain) == 1
    decreases n
  {
    AtMostOncePerDomain(net, rs, excluded, n, domain);
    var before := ChosenUpTo(net, rs, excluded, n - 1);
    CountAppend(net, before, if Chosen(net, rs, excluded, n - 1) then [rs[n - 1]] else [], domain);
    SingletonCount(net, rs[n - 1], domain);
    if HasEligible(net, rs, excluded, n - 1, domain) {
      ExactlyOncePerDomain(net, rs, excluded, n - 1, domain);
    } else {
      ChosenIffFirstEligible(net, rs, excluded, n - 1);
    }
  }

  lemma {:induction false} TargetsAreEligible(net: Net, rs: seq<Receiver>, excluded: set<string>, n: nat, r: Receiver)
    requires n <= |rs| && r in ChosenUpTo(net, rs, excluded, n)
    ensures Eligible(net, excluded, r)
    decreases n
  {
    if !(Chosen(net, rs, excluded, n - 1) && r == rs[n - 1]) {
      TargetsAreEligible(net, rs, excluded, n - 1, r);
    }
  }

  // ---- one relayed activity ----

  /** The source's own bytes, or the relay's Announce of an object. */
  datatype Body = OriginalBody(bytes: string) | RelayWrapper(announced: string)

  datatype Enqueue = Enqueue(body: Body, targets: seq<Receiver>)

  datatype Snapshot = Snapshot(subscribers: seq<Receiver>, followers: seq<Receiver>)

  function Domains(rs: seq<Receiver>): (ds: seq<string>)
    ensures |ds| == |rs|
  {
    seq(|rs|, i requires 0 <= i < |rs| => rs[i].domain)
  }

  /** An activity as it arrives: its bytes, whether they carry an LD signature, and the ID of its object if any. */
  datatype Incoming = Incoming(source: string, bytes: string, signed: bool, objectID: Option<string>)

  /** executeRelayActivity: an LD-signed body goes unchanged to subscribers and wrapped to the other followers;
      an unsigned one is wrapped for everybody. Without an object ID there is no wrapper. */
  function EnqueuesFor(net: Net, s: Snapshot, a: Incoming): seq<Enqueue> {
    if a.signed then
      [Enqueue(OriginalBody(a.bytes), Targets(net, s.subscribers, [a.source]))]
      + (if a.objectID.Some?
         then [Enqueue(RelayWrapper(a.objectID.value), Targets(net, s.followers, [a.source] + Domains(s.subscribers)))]
         else [])
    else if a.objectID.Some? then
      [Enqueue(RelayWrapper(a.objectID.value), Targets(net, s.subscribers + s.followers, [a.source]))]
    else []
  }

  /** Everything that is targeted with one body. */
  function TargetsWith(es: seq<Enqueue>, body: Body): seq<Receiver> {
    if es == [] then [] else (if es[0].body == body then es[0].targets else []) + TargetsWith(es[1..], body)
  }

  function AllTargets(es: seq<Enqueue>): seq<Receiver> {
    if es == [] then [] else es[0].targets + AllTargets(es[1..])
  }

  lemma ExcludedHas(net: Net, domains: seq<string>, d: string)
    requires d in domains && net.normalize(d) != ""
    ensures net.normalize(d) in ExcludedSet(net, domains)
  {
  }

  lemma NoneOfExcluded(net: Net, rs: seq<Receiver>, domains: seq<string>, domain: string)
    requires domain != "" && domain in ExcludedSet(net, domains)
    ensures CountDomain(net, Targets(net, rs, domains), domain) == 0
  {
    AtMostOncePerDomain(net, rs, ExcludedSet(net, domains), |rs|, domain);
  }

  lemma AtMostOneTarget(net: Net, rs: seq<Receiver>, domains: seq<string>, domain: string)
    requires domain != ""
    ensures CountDomain(net, Targets(net, rs, domains), domain) <= 1
  {
    AtMostOncePerDomain(net, rs, ExcludedSet(net, domains), |rs|, domain);
  }

  /** In the signed case a domain with any subscriber entry, even an unusable one, gets no wrapper. */
  lemma SubscribersGetNoWrapper(net: Net, s: Snapshot, source: string, k: nat)
    requires k < |s.subscribers| && DomainOf(net, s.subscribers[k]) != ""
    ensures CountDomain(net, Targets(net, s.followers, [source] + Domains(s.subscribers)),
                        DomainOf(net, s.subscribers[k])) == 0
  {
    var domains := [source] + Domains(s.subscribers);
    assert domains[k + 1] == s.subscribers[k].domain;
    ExcludedHas(net, domains, s.subscribers[k].domain);
    NoneOfExcluded(net, s.followers, domains, DomainOf(net, s.subscribers[k]));
  }

  /** One delivery per domain: over the one or two enqueues of a relayed activity together, every non-empty
      domain is targeted at most once and the source never. */
  lemma OneDeliveryPerDomain(net: Net, s: Snapshot, a: Incoming, domain: string)
    requires domain != ""
    ensures CountDomain(net, AllTargets(EnqueuesFor(net, s, a)), domain) <=
            if domain == net.normalize(a.source) then 0 else 1
  {
    var source := a.source;
    if a.signed {
      var first := Targets(net, s.subscribers, [source]);
      var domains := [source] + Domains(s.subscribers);
      var second := if a.objectID.Some? then Targets(net, s.followers, domains) else [];
      AllOfTwo(EnqueuesFor(net, s, a), first, second);
      CountAppend(net, first, second, domain);
      AtMostOneTarget(net, s.subscribers, [source], domain);
      AtMostOneTarget(net, s.followers, domains, domain);
      if domain == net.normalize(source) {
        assert source in [source] && domains[0] == source;
        NoneOfExcluded(net, s.subscribers, [source], domain);
        NoneOfExcluded(net, s.followers, domains, domain);
      } else if CountDomain(net, first, domain) > 0 {
        AtMostOncePerDomain(net, s.subscribers, ExcludedSet(net, [source]), |s.subscribers|, domain);
        var k :| 0 <= k < |s.subscribers| && DomainOf(net, s.subscribers[k]) == domain;
        SubscribersGetNoWrapper(net, s, source, k);
      }
    } else if a.objectID.Some? {
      var only := Targets(net, s.subscribers + s.followers, [source]);
      AllOfTwo(EnqueuesFor(net, s, a), only, []);
      assert only + [] == only;
      AtMostOneTarget(net, s.subscribers + s.followers, [source], domain);
      if domain == net.normalize(source) {
        assert source in [source];
        NoneOfExcluded(net, s.subscribers + s.followers, [source], domain);
      }
    }
  }

  ghost predicate HasBody(es: seq<Enqueue>, body: Body) {
    exists i :: 0 <= i < |es| && es[i].body == body
  }

  lemma {:induction false} ChosenAreEntries(net: Net, rs: seq<Receiver>, excluded: set<string>, n: nat, r: Receiver)
    requires n <= |rs| && r in ChosenUpTo(net, rs, excluded, n)
    ensures r in rs
    decreases n
  {
    if !(Chosen(net, rs, excluded, n - 1) && r == rs[n - 1]) {
      ChosenAreEntries(net, rs, excluded, n - 1, r);
    }
  }

  /** Who may get this body: the source's own bytes are for subscribers and only under an LD signature; beside them the
      relay's Announce is for followers whose domain has no subscriber entry. The source gets nothing. */
  ghost predicate Entitled(net: Net, s: Snapshot, a: Incoming, body: Body, r: Receiver) {
    && net.validInbox(r.inboxURL) && (DomainOf(net, r) != "" ==> DomainOf(net, r) != net.normalize(a.source))
    && match body
       case OriginalBody(bytes) => bytes == a.bytes && a.signed && r in s.subscribers
       case RelayWrapper(announced) =>
         && a.objectID == Some(announced)
         && (if a.signed then r in s.followers && !SubscriberDomain(net, s, DomainOf(net, r))
             else r in s.subscribers + s.followers)
  }

  ghost predicate SubscriberDomain(net: Net, s: Snapshot, domain: string) {
    domain != "" && exists k :: 0 <= k < |s.subscribers| && DomainOf(net, s.subscribers[k]) == domain
  }

  lemma TargetsAreEntitled(net: Net, s: Snapshot, a: Incoming, e: Enqueue, r: Receiver)
    requires e in EnqueuesFor(net, s, a) && r in e.targets
    ensures Entitled(net, s, a, e.body, r)
  {
    var alone, both := [a.source], [a.source] + Domains(s.subscribers);
    var rs := if !a.signed then s.subscribers + s.followers else if e.body.OriginalBody? then s.subscribers else s.followers;
    var excluded := if a.signed && e.body.RelayWrapper? then both else alone;
    ChosenAreEntries(net, rs, ExcludedSet(net, excluded), |rs|, r);
    TargetsAreEligible(net, rs, ExcludedSet(net, excluded), |rs|, r);
    assert excluded[0] == a.source;
    forall k | 0 <= k < |s.subscribers| && excluded == both && DomainOf(net, s.subscribers[k]) != ""
      ensures DomainOf(net, r) != DomainOf(net, s.subscribers[k])
    {
      assert both[k + 1] == s.subscribers[k].domain;
    }
  }

  predicate Due(a: Incoming, body: Body) {
    match body
    case OriginalBody(bytes) => a.signed && bytes == a.bytes
    case RelayWrapper(announced) => a.objectID == Some(announced)
  }

  /** Which bodies are sent: the original if and only if it is LD-signed, the Announce if and only if there is an object
      ID, each once. So an unsigned activity without one is dropped. */
  lemma BodiesExactly(net: Net, s: Snapshot, a: Incoming, body: Body)
    ensures var es := EnqueuesFor(net, s, a);
            && (HasBody(es, body) <==> Due(a, body))
            && (forall i, j | 0 <= i < j < |es| :: es[i].body != es[j].body)
  {
    var es := EnqueuesFor(net, s, a);
    if a.signed {
      assert es[0].body == OriginalBody(a.bytes);
      assert a.objectID.Some? ==> es[1].body == RelayWrapper(a.objectID.value);
    } else if a.objectID.Some? {
      assert es[0].body == RelayWrapper(a.objectID.value);
    }
  }

  lemma {:induction false} OnlyWith(es: seq<Enqueue>, body: Body, i: nat)
    requires i < |es| && es[i].body == body && forall j | 0 <= j < |es| && j != i :: es[j].body != body
    ensures TargetsWith(es, body) == es[i].targets
    decreases |es|
  {
    if i == 0 {
      NoneWith(es[1..], body);
    } else {
      assert es[1..][i - 1] == es[i];
      OnlyWith(es[1..], body, i - 1);
    }
  }

  lemma {:induction false} NoneWith(es: seq<Enqueue>, body: Body)
    requires forall j | 0 <= j < |es| :: es[j].body != body
    ensures TargetsWith(es, body) == []
    decreases |es|
  {
    if es != [] {
      NoneWith(es[1..], body);
    }
  }

  /** No domain is forgotten. A domain other than the source with a usable entry is targeted exactly once: with a usable
      subscriber entry by the signed body, with follower entries only by the wrapper, and by the one wrapper for
      all of an unsigned activity. */
  lemma EveryDomainServed(net: Net, s: Snapshot, a: Incoming, domain: string)
    requires domain != "" && domain != net.normalize(a.source)
    ensures var excluded := ExcludedSet(net, [a.source]);
            a.signed && HasEligible(net, s.subscribers, excluded, |s.subscribers|, domain)
            && Unshadowed(net, s.subscribers, excluded, domain) ==>
              CountDomain(net, TargetsWith(EnqueuesFor(net, s, a), OriginalBody(a.bytes)), domain) == 1
    ensures var excluded := ExcludedSet(net, [a.source] + Domains(s.subscribers));
            a.signed && a.objectID.Some? && HasEligible(net, s.followers, excluded, |s.followers|, domain)
            && Unshadowed(net, s.followers, excluded, domain) ==>
              CountDomain(net, TargetsWith(EnqueuesFor(net, s, a), RelayWrapper(a.objectID.value)), domain) == 1
    ensures var excluded, all := ExcludedSet(net, [a.source]), s.subscribers + s.followers;
            !a.signed && a.objectID.Some? && HasEligible(net, all, excluded, |all|, domain)
            && Unshadowed(net, all, excluded, domain) ==>
              CountDomain(net, TargetsWith(EnqueuesFor(net, s, a), RelayWrapper(a.objectID.value)), domain) == 1
  {
    var es := EnqueuesFor(net, s, a);
    var alone, both := ExcludedSet(net, [a.source]), ExcludedSet(net, [a.source] + Domains(s.subscribers));
    var all := s.subscribers + s.followers;
    if a.signed {
      OnlyWith(es, OriginalBody(a.bytes), 0);
      if HasEligible(net, s.subscribers, alone, |s.subscribers|, domain) && Unshadowed(net, s.subscribers, alone, domain) {
        ExactlyOncePerDomain(net, s.subscribers, alone, |s.subscribers|, domain);
      }
      if a.objectID.Some? {
        OnlyWith(es, RelayWrapper(a.objectID.value), 1);
        if HasEligible(net, s.followers, both, |s.followers|, domain) && Unshadowed(net, s.followers, both, domain) {
          ExactlyOncePerDomain(net, s.followers, both, |s.followers|, domain);
        }
      }
    } else if a.objectID.Some? {
      OnlyWith(es, RelayWrapper(a.objectID.value), 0);
      if HasEligible(net, all, alone, |all|, domain) && Unshadowed(net, all, alone, domain) {
        ExactlyOncePerDomain(net, all, alone, |all|, domain);
      }
    }
  }

  /** What is queued when `plan` says which targets of which body get a signature plan. */
  function AllQueued(plan: (Body, Receiver) -> bool, es: seq<Enqueue>): seq<Receiver> {
    if es == [] then []
    else Kept(r => plan(es[0].body, r), es[0].targets) + AllQueued(plan, es[1..])
  }

  lemma {:induction false} QueuedCount(net: Net, plan: (Body, Receiver) -> bool, es: seq<Enqueue>, domain: string)
    ensures CountDomain(net, AllQueued(plan, es), domain) <= CountDomain(net, AllTargets(es), domain)
    decreases |es|
  {
    if es != [] {
      var kept := Kept(r => plan(es[0].body, r), es[0].targets);
      QueuedCount(net, plan, es[1..], domain);
      CountKept(net, r => plan(es[0].body, r), es[0].targets, domain);
      CountAppend(net, kept, AllQueued(plan, es[1..]), domain);
      CountAppend(net, es[0].targets, AllTargets(es[1..]), domain);
    }
  }

  /** Whatever is planned, over both enqueues together every non-empty domain is queued at most once and the source
      never. */
  lemma QueuedOncePerDomain(net: Net, s: Snapshot, a: Incoming, plan: (Body, Receiver) -> bool, domain: string)
    requires domain != ""
    ensures CountDomain(net, AllQueued(plan, EnqueuesFor(net, s, a)), domain) <=
            if domain == net.normalize(a.source) then 0 else 1
  {
    QueuedCount(net, plan, EnqueuesFor(net, s, a), domain);
    OneDeliveryPerDomain(net, s, a, domain);
  }

  // ---- the whole of it ----

  /** What is known of the actor before anything is sent: a usable ID, not blocked, allowed, and recorded. */
  datatype Standing = Standing(valid: bool, blocked: bool, able: bool, recorded: bool)

  predicate Accepted(standing: Standing) {
    standing.valid && !standing.blocked && standing.able && standing.recorded
  }

  /** The answers of queue admission, payload storage and the group send. */
  datatype Answers = Answers(admitted: bool, stored: bool, sent: bool)

  /** What one enqueue puts into the queue. */
  function Queued(e: Enqueue, maxFanout: nat, plan: (Body, Receiver) -> bool, answers: Body -> Answers): seq<Receiver> {
    var a := answers(e.body);
    if |e.targets| <= maxFanout && a.admitted && a.stored && a.sent then Kept(r => plan(e.body, r), e.targets) else []
  }

  /** executeRelayActivity with its one or two enqueues. Every body that has to go out goes out, once; whoever is queued
      for it is entitled to it and planned; and everybody targeted is queued where planning, the fan-out limit and the
      queue let them. */
  method ExecuteRelayActivity(net: Net, s: Snapshot, a: Incoming, standing: Standing, maxFanout: nat,
                              plan: (Body, Receiver) -> bool, answers: Body -> Answers)
    returns (err: bool, out: seq<Enqueue>)
    ensures err <==> !standing.valid || standing.blocked || (standing.able && !standing.recorded)
    ensures !Accepted(standing) ==> out == []
    ensures Accepted(standing) ==>
              && (forall body :: HasBody(out, body) <==> Due(a, body))
              && (forall i, j | 0 <= i < j < |out| :: out[i].body != out[j].body)
              && |out| == |EnqueuesFor(net, s, a)|
              && (forall i | 0 <= i < |out| ::
                    out[i].targets == Queued(EnqueuesFor(net, s, a)[i], maxFanout, plan, answers))
    ensures forall e, r | e in out && r in e.targets :: Entitled(net, s, a, e.body, r) && plan(e.body, r)
  {
    out := [];
    if !standing.valid || standing.blocked {
      return true, [];
    }
    if !standing.able {
      return false, [];
    }
    if !standing.recorded {
      return true, [];
    }
    if a.signed {
      var body := OriginalBody(a.bytes);
      var queued := EnqueueBody(net, s.subscribers, [a.source], body, maxFanout, plan, answers);
      out := out + [Enqueue(body, queued)];
    }
    if a.objectID.None? {
      QueuedAreEntitled(net, s, a, out, maxFanout, plan, answers);
      return false, out;
    }
    var wrapper := RelayWrapper(a.objectID.value);
    if a.signed {
      var excludedDomains := [a.source];
      for i := 0 to |s.subscribers|
        invariant excludedDomains == [a.source] + Domains(s.subscribers)[..i]
      {
        excludedDomains := excludedDomains + [s.subscribers[i].domain];
      }
      assert Domains(s.subscribers)[..|s.subscribers|] == Domains(s.subscribers);
      var queued := EnqueueBody(net, s.followers, excludedDomains, wrapper, maxFanout, plan, answers);
      out := out + [Enqueue(wrapper, queued)];
    } else {
      var queued := EnqueueBody(net, s.subscribers + s.followers, [a.source], wrapper, maxFanout, plan, answers);
      out := out + [Enqueue(wrapper, queued)];
    }
    QueuedAreEntitled(net, s, a, out, maxFanout, plan, answers);
    return false, out;
  }

  method EnqueueBody(net: Net, rs: seq<Receiver>, excludedDomains: seq<string>, body: Body, maxFanout: nat,
                     plan: (Body, Receiver) -> bool, answers: Body -> Answers)
    returns (queued: seq<Receiver>)
    ensures queued == Queued(Enqueue(body, Targets(net, rs, excludedDomains)), maxFanout, plan, answers)
  {
    var a := answers(body);
    var _, q := EnqueueActivityExcept(net, rs, excludedDomains, maxFanout, r => plan(body, r), a.admitted, a.stored, a.sent);
    queued := q;
  }

  /** Planning leaves out exactly those without a plan. */
  lemma {:induction false} KeptIff(plan: Receiver -> bool, rs: seq<Receiver>, r: Receiver)
    ensures r in Kept(plan, rs) <==> r in rs && plan(r)
    decreases |rs|
  {
    if rs != [] {
      KeptIff(plan, rs[..|rs| - 1], r);
      assert rs == rs[..|rs| - 1] + [rs[|rs| - 1]];
    }
  }

  lemma QueuedAreEntitled(net: Net, s: Snapshot, a: Incoming, out: seq<Enqueue>, maxFanout: nat,
                          plan: (Body, Receiver) -> bool, answers: Body -> Answers)
    requires |out| == |EnqueuesFor(net, s, a)|
    requires forall i | 0 <= i < |out| :: out[i].body == EnqueuesFor(net, s, a)[i].body
                                          && out[i].targets == Queued(EnqueuesFor(net, s, a)[i], maxFanout, plan, answers)
    ensures forall e, r | e in out && r in e.targets :: Entitled(net, s, a, e.body, r) && plan(e.body, r)
    ensures forall body :: HasBody(out, body) <==> Due(a, body)
    ensures forall i, j | 0 <= i < j < |out| :: out[i].body != out[j].body
  {
    var es := EnqueuesFor(net, s, a);
    forall e, r | e in out && r in e.targets ensures Entitled(net, s, a, e.body, r) && plan(e.body, r) {
      var i :| 0 <= i < |out| && out[i] == e;
      KeptIff(x => plan(es[i].body, x), es[i].targets, r);
      TargetsAreEntitled(net, s, a, es[i], r);
    }
    forall body ensures HasBody(out, body) <==> Due(a, body) {
      BodiesExactly(net, s, a, body);
      if i :| 0 <= i < |es| && es[i].body == body {
        assert out[i].body == body;
      }
    }
    BodiesExactly(net, s, a, OriginalBody(a.bytes));
  }

  // ---- the relay's own names ----

  /** What URL parsing is known to do: valid inboxes hold a slash and hosts do not, and a text without a host is not a
      valid inbox spelled differently. */
  ghost predicate ParserLaws(hostname: string -> string, lower: string -> string, validInbox: string -> bool) {
    && (forall i | validInbox(i) :: '/' in lower(Trim(i)))
    && (forall t | hostname(t) != "" :: '/' !in lower(DropDot(hostname(t))))
    && (forall t, i | hostname(t) == "" && validInbox(i) :: lower(DropDot(t)) != lower(Trim(i)))
  }

  /** One domain, however it is stored: padding and one final dot make no difference, and blank text is no domain. */
  lemma DomainSpelling(hostname: string -> string, lower: string -> string, text: string, padded: string)
    requires text != "" && text[|text| - 1] != '.' && Trim(text) == text && Trim(text + ".") == text + "."
    requires hostname(text) == "" == hostname(text + ".")
    requires Trim(padded) == text
    ensures NormalizedStoredDomain(hostname, lower, text) == lower(text)
    ensures NormalizedStoredDomain(hostname, lower, text + ".") == lower(text)
    ensures NormalizedStoredDomain(hostname, lower, padded) == lower(text)
    ensures NormalizedStoredDomain(hostname, lower, "") == ""
  {
    assert (text + ".")[..|text|] == text;
  }

  /** Under the relay's own normalizer no inbox is spelled like a domain. */
  lemma RelayNetUnshadowed(hostname: string -> string, lower: string -> string, validInbox: string -> bool,
                           rs: seq<Receiver>, excluded: set<string>, stored: string)
    requires ParserLaws(hostname, lower, validInbox) && NormalizedStoredDomain(hostname, lower, stored) != ""
    ensures Unshadowed(RelayNet(hostname, lower, validInbox), rs, excluded, NormalizedStoredDomain(hostname, lower, stored))
  {
    var net := RelayNet(hostname, lower, validInbox);
    forall j | 0 <= j < |rs| && Eligible(net, excluded, rs[j]) && DomainOf(net, rs[j]) == ""
      ensures DedupeKey(net, rs[j]) != NormalizedStoredDomain(hostname, lower, stored)
    {
      assert DedupeKey(net, rs[j]) == lower(Trim(rs[j].inboxURL)) && validInbox(rs[j].inboxURL);
    }
  }

  /** So the relay chooses every domain with a usable entry exactly once. */
  lemma RelayServesEachOnce(hostname: string -> string, lower: string -> string, validInbox: string -> bool,
                            rs: seq<Receiver>, excludedDomains: seq<string>, i: nat)
    requires ParserLaws(hostname, lower, validInbox) && i < |rs|
    requires var net := RelayNet(hostname, lower, validInbox);
             DomainOf(net, rs[i]) != "" && Eligible(net, ExcludedSet(net, excludedDomains), rs[i])
    ensures var net := RelayNet(hostname, lower, validInbox);
            CountDomain(net, Targets(net, rs, excludedDomains), DomainOf(net, rs[i])) == 1
  {
    var net := RelayNet(hostname, lower, validInbox);
    var excluded := ExcludedSet(net, excludedDomains);
    RelayNetUnshadowed(hostname, lower, validInbox, rs, excluded, rs[i].domain);
    assert HasEligible(net, rs, excluded, |rs|, DomainOf(net, rs[i]));
    ExactlyOncePerDomain(net, rs, excluded, |rs|, DomainOf(net, rs[i]));
  }

  lemma AllOfTwo(es: seq<Enqueue>, first: seq<Receiver>, second: seq<Receiver>)
    requires |es| == 1 || |es| == 2
    requires es[0].targets == first
    requires |es| == 2 ==> es[1].targets == second
    requires |es| == 1 ==> second == []
    ensures AllTargets(es) == first + second
  {
    if |es| == 2 {
      assert AllTargets(es[1..]) == second + AllTargets(es[1..][1..]);
      assert es[1..][1..] == [];
    }
  }

  /** A subscriber entry with a valid inbox beats a follower entry of the same domain. */
  lemma SubscriberEntryWins(net: Net, s: Snapshot, excluded: set<string>, k: nat, i: nat)
    requires k < |s.subscribers| && Eligible(net, excluded, s.subscribers[k])
    requires |s.subscribers| <= i < |s.subscribers + s.followers|
    requires DomainOf(net, (s.subscribers + s.followers)[i]) == DomainOf(net, s.subscribers[k]) != ""
    ensures !Chosen(net, s.subscribers + s.followers, excluded, i)
  {
    var rs := s.subscribers + s.followers;
    assert rs[k] == s.subscribers[k];
    if Chosen(net, rs, excluded, i) {
      ChosenIsFirst(net, rs, excluded, i);
    }
  }
}
