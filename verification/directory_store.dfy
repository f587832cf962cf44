/** The Redis side of one Directory: a token lease with expiry and a state hash written under it.
    A key is readable while `now` is before its deadline. Times here are Redis milliseconds. */
module DirectoryStore {
  import opened Text
  import opened DirectoryState

  const LEASE_TTL: int := 60_000
  const STATE_RETENTION: int := 7_776_000_000 // 90 days

  datatype Lease = Lease(token: nat, deadline: int)
  datatype Stored = Stored(fields: Fields, deadline: int)

  /** The two keys derived from one origin. */
  datatype Slot = Slot(lease: Option<Lease>, stored: Option<Stored>)

  predicate Holds(slot: Slot, now: int, token: nat) {
    slot.lease.Some? && now < slot.lease.value.deadline && slot.lease.value.token == token
  }

  predicate Free(slot: Slot, now: int) {
    slot.lease.None? || slot.lease.value.deadline <= now
  }

  /** SET NX with a time to live. */
  function AcquireSlot(slot: Slot, now: int, token: nat, ttl: int): Slot {
    if Free(slot, now) then slot.(lease := Some(Lease(token, now + ttl))) else slot
  }

  function RenewSlot(slot: Slot, now: int, token: nat, ttl: int): Slot {
    if Holds(slot, now, token) then slot.(lease := Some(Lease(token, now + ttl))) else slot
  }

  function ReleaseSlot(slot: Slot, now: int, token: nat): Slot {
    if Holds(slot, now, token) then slot.(lease := None) else slot
  }

  /** The fenced write: nothing happens unless the caller's token is the live lease. */
  function SaveOwnedSlot(slot: Slot, now: int, token: nat, st: State): Slot {
    if Holds(slot, now, token) && ValidState(st)
    then slot.(stored := Some(Stored(StateArguments(st), now + STATE_RETENTION)))
    else slot
  }

  /** Load; None is ErrStore, a missing or expired hash is the empty state. */
  function LoadSlot(slot: Slot, now: int): Option<State> {
    if slot.stored.None? || slot.stored.value.deadline <= now then Some(EMPTY_STATE)
    else ParseFields(slot.stored.value.fields)
  }

  /** A state saved under a live lease is read back in whole seconds until it expires if and only if its times are
      storable; after that the record is empty again. */
  lemma SavedStateLoads(slot: Slot, now: int, token: nat, st: State, later: int)
    requires Holds(slot, now, token) && ValidState(st)
    ensures later < now + STATE_RETENTION ==>
              (LoadSlot(SaveOwnedSlot(slot, now, token, st), later) == Some(WholeSeconds(st)) <==> Storable(st))
    ensures now + STATE_RETENTION <= later ==> LoadSlot(SaveOwnedSlot(slot, now, token, st), later) == Some(EMPTY_STATE)
  {
    SaveLoadRoundTrip(st);
  }

  /** A lease object remembers the key it was taken for. */
  datatype Handle = Handle(origin: string, token: nat)

  /** All Directories on one Redis. */
  class RedisStore {
    var now: int
    var leases: map<string, Lease>
    var hashes: map<string, Stored>

    constructor ()
      ensures forall o :: SlotOf(o) == Slot(None, None)
    {
      now := 0;
      leases := map[];
      hashes := map[];
    }

    ghost function SlotOf(origin: string): Slot
      reads this
    {
      Slot(if origin in leases then Some(leases[origin]) else None,
           if origin in hashes then Some(hashes[origin]) else None)
    }

    method Acquire(origin: string, token: nat, ttl: int) returns (acquired: bool, err: bool)
      modifies this`leases
      ensures err <==> origin == "" || ttl <= 0
      ensures acquired <==> !err && old(Free(SlotOf(origin), now))
      ensures SlotOf(origin) == if err then old(SlotOf(origin)) else AcquireSlot(old(SlotOf(origin)), now, token, ttl)
      ensures acquired ==> origin in leases && leases[origin] == Lease(token, now + ttl)
      ensures forall o | o != origin :: SlotOf(o) == old(SlotOf(o))
    {
      if origin == "" || ttl <= 0 {
        return false, true;
      }
      if origin in leases && now < leases[origin].deadline {
        return false, false;
      }
      leases := leases[origin := Lease(token, now + ttl)];
      return true, false;
    }

    method Renew(handle: Handle, ttl: int) returns (renewed: bool, err: bool)
      modifies this`leases
      ensures err <==> ttl <= 0
      ensures renewed <==> !err && old(Holds(SlotOf(handle.origin), now, handle.token))
      ensures SlotOf(handle.origin) ==
              if err then old(SlotOf(handle.origin))
              else RenewSlot(old(SlotOf(handle.origin)), now, handle.token, ttl)
      ensures renewed ==> handle.origin in leases && leases[handle.origin] == Lease(handle.token, now + ttl)
      ensures !renewed ==> leases == old(leases)
      ensures forall o | o != handle.origin :: SlotOf(o) == old(SlotOf(o))
    {
      if ttl <= 0 {
        return false, true;
      }
      if handle.origin in leases && now < leases[handle.origin].deadline
         && leases[handle.origin].token == handle.token {
        leases := leases[handle.origin := Lease(handle.token, now + ttl)];
        return true, false;
      }
      return false, false;
    }

    method Release(handle: Handle)
      modifies this`leases
      ensures SlotOf(handle.origin) == ReleaseSlot(old(SlotOf(handle.origin)), now, handle.token)
      ensures leases == if old(Holds(SlotOf(handle.origin), now, handle.token)) then old(leases) - {handle.origin}
                        else old(leases)
      ensures forall o | o != handle.origin :: SlotOf(o) == old(SlotOf(o))
    {
      if handle.origin in leases && now < leases[handle.origin].deadline
         && leases[handle.origin].token == handle.token {
        leases := leases - {handle.origin};
      }
    }

    method SaveOwned(origin: string, handle: Handle, st: State) returns (owned: bool, err: bool)
      modifies this`hashes
      ensures err <==> origin == "" || handle.origin != origin || !ValidState(st)
      ensures owned <==> !err && Holds(SlotOf(origin), now, handle.token)
      ensures SlotOf(origin) ==
              if err then old(SlotOf(origin)) else SaveOwnedSlot(old(SlotOf(origin)), now, handle.token, st)
      ensures forall o | o != origin :: SlotOf(o) == old(SlotOf(o))
    {
      if origin == "" || handle.origin != origin || !ValidState(st) {
        return false, true;
      }
      if origin !in leases || leases[origin].deadline <= now || leases[origin].token != handle.token {
        return false, false;
      }
      hashes := hashes[origin := Stored(StateArguments(st), now + STATE_RETENTION)];
      return true, false;
    }

    method Load(origin: string) returns (result: Option<State>)
      ensures result == if origin == "" then None else LoadSlot(SlotOf(origin), now)
      ensures result.Some? ==> ValidState(result.value)
    {
      if origin == "" {
        return None;
      }
      if origin !in hashes || hashes[origin].deadline <= now {
        return Some(EMPTY_STATE);
      }
      result := ParseFields(hashes[origin].fields);
    }
  }
}
