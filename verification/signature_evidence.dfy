/** Newest evidence wins, in any arrival order of saves to one capability key. */
module SignatureEvidence {
  import opened Text
  import opened SignatureStore

  datatype World = World(now: int, slot: Option<Record>)
  datatype Event = Tick(elapsed: nat) | Save(capability: Capability)

  function Step(normalize: Normalizer, w: World, e: Event): World {
    match e
    case Tick(d) => w.(now := w.now + d)
    case Save(c) => if Admissible(normalize, c, w.now) then w.(slot := SaveSlot(w.slot, w.now, c)) else w
  }

  ghost predicate StepAt(normalize: Normalizer, ws: seq<World>, es: seq<Event>, k: int) {
    0 <= k < |es| && k + 1 < |ws| && ws[k + 1] == Step(normalize, ws[k], es[k])
  }

  /** Saves for one scope and origin, from any number of processes, on a key that is empty at first. */
  ghost predicate Run(normalize: Normalizer, ws: seq<World>, es: seq<Event>, scope: Scope, origin: string) {
    && |ws| == |es| + 1
    && ws[0].slot == None
    && (forall k | 0 <= k < |es| :: StepAt(normalize, ws, es, k))
    && (forall k | 0 <= k < |es| && es[k].Save? ::
          es[k].capability.scope == scope && es[k].capability.origin == origin)
  }

  predicate SaveAt(normalize: Normalizer, ws: seq<World>, es: seq<Event>, k: int) {
    0 <= k < |es| && k < |ws| && es[k].Save? && Admissible(normalize, es[k].capability, ws[k].now)
  }

  /** Save `newest` has the greatest observation millisecond among saves in [lo, hi), and is the first with it. */
  ghost predicate Newest(normalize: Normalizer, ws: seq<World>, es: seq<Event>, lo: nat, hi: nat, newest: int) {
    && lo <= newest < hi
    && SaveAt(normalize, ws, es, newest)
    && (forall m | lo <= m < hi && SaveAt(normalize, ws, es, m) ::
          && Millis(es[m].capability.observedAt) <= Millis(es[newest].capability.observedAt)
          && (m < newest ==> Millis(es[m].capability.observedAt) < Millis(es[newest].capability.observedAt)))
  }

  /** The key was gone at `lo` and has been there ever since. */
  ghost predicate LiveSince(ws: seq<World>, lo: nat, hi: nat) {
    && lo < hi < |ws|
    && !Live(ws[lo].slot, ws[lo].now)
    && forall m | lo < m <= hi :: Live(ws[m].slot, ws[m].now)
  }

  /** The stored record is the newest of the saves applied since the key last expired, the first winning ties. */
  lemma {:induction false} NewestEvidenceWins(
    normalize: Normalizer, ws: seq<World>, es: seq<Event>, scope: Scope, origin: string, lo: nat, hi: nat)
    returns (newest: int)
    requires Run(normalize, ws, es, scope, origin) && LiveSince(ws, lo, hi)
    ensures Newest(normalize, ws, es, lo, hi, newest)
    ensures ws[hi].slot == Some(RecordOf(es[newest].capability))
    decreases hi
  {
    assert StepAt(normalize, ws, es, hi - 1);
    if lo == hi - 1 {
      newest := lo;
    } else {
      assert Live(ws[hi - 1].slot, ws[hi - 1].now);
      newest := NewestEvidenceWins(normalize, ws, es, scope, origin, lo, hi - 1);
      if SaveAt(normalize, ws, es, hi - 1)
         && Millis(es[newest].capability.observedAt) < Millis(es[hi - 1].capability.observedAt) {
        newest := hi - 1;
      }
    }
  }

  lemma {:induction false} LiveHasBirth(
    normalize: Normalizer, ws: seq<World>, es: seq<Event>, scope: Scope, origin: string, hi: nat)
    returns (lo: nat)
    requires Run(normalize, ws, es, scope, origin) && hi < |ws| && Live(ws[hi].slot, ws[hi].now)
    ensures LiveSince(ws, lo, hi)
    decreases hi
  {
    if Live(ws[hi - 1].slot, ws[hi - 1].now) {
      lo := LiveHasBirth(normalize, ws, es, scope, origin, hi - 1);
    } else {
      lo := hi - 1;
    }
  }

  /** Stored validity, exactly: a live record loads, for its own key, as the newest save at millisecond grain,
      if and only if that save is still valid at that grain. */
  lemma StoredLoadsIff(
    normalize: Normalizer, ws: seq<World>, es: seq<Event>, scope: Scope, origin: string, hi: nat)
    returns (lo: nat, newest: int)
    requires Run(normalize, ws, es, scope, origin) && hi < |ws| && Live(ws[hi].slot, ws[hi].now)
    ensures LiveSince(ws, lo, hi) && Newest(normalize, ws, es, lo, hi, newest)
    ensures LoadSlot(normalize, ws[hi].slot, ws[hi].now, scope, origin) ==
            if SurvivesMillis(es[newest].capability)
            then Found(CapabilityOf(RecordOf(es[newest].capability)))
            else Failed
  {
    lo := LiveHasBirth(normalize, ws, es, scope, origin, hi);
    newest := NewestEvidenceWins(normalize, ws, es, scope, origin, lo, hi);
    var c := es[newest].capability;
    assert c.scope == scope && c.origin == origin && ValidCapability(normalize, c);
    assert CapabilityOf(RecordOf(c)).observedAt == ZERO_TIME <==> Millis(c.observedAt) == Millis(ZERO_TIME);
  }
}
