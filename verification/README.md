# Activity-Relay in Dafny

A model of the stateful core of Activity-Relay, an ActivityPub relay written in Go, with proofs about it. It covers
what several processes do to one Redis at once, what a crash leaves on disk, and what a remote server can make the
relay do. Every run theorem speaks about all interleavings of all lengths: a run is a sequence of worlds and a
sequence of events, one step each.

- `directory_*.dfy`: the Directory scheduler and its operator commands. State and its storage, the lease, its
  renewal and the fenced write, all interleavings of scheduler cycles, unregister and lifecycle commands, and convergence.
- `relay_*.dfy`: fan-out selection, the loop guard over a mesh of relays, queue admission and the delivery ledger.
- `signature_*.dfy`: the capability store, dual-profile negotiation, what it learns, and the signed GET with its one fallback.
- `replay_window.dfy`: inbound RFC 9421 verification and its nonce store.
- `config_*.dfy`: the crash-safe, locked configuration editor.
- `publisher_cache.dfy`: the in-memory publisher list and map against Redis.
- `strict_json.dfy`: the scan for repeated object names.
- `text.dfy`, `decimal.dfy`: the few string and number operations the rest needs.

Conventions. A Redis key is readable while the clock is before its deadline. Each Redis script or command is one atomic
step; operations that the code performs one after the other are separate steps, so anything may happen in between.
Code that updates state in place is a class whose methods are proved against the pure step functions that the run
models use. Library code that is not visible (URL, mail, YAML and structured-field parsing, RSA, digests) is a
parameter, and the results hold for every choice of it.

Some of what one would expect of the code does not hold of it as written. Each case is kept, shown by a concrete run
or input, and given its exact condition:

- Save and load of scheduler states: `DirectoryState.EpochIsNotStorable`; exact by `SaveLoadRoundTrip`.
- The disable/register race with a late scheduler: `DirectoryRaceLimits.WideWindowReopensRace`; exact by `RaceClosedIff`.
- The registered flag after unregister with a lifecycle command under way:
  `DirectoryRaceLimits.LateRegisterExists`; exact by `StaysUnregisteredIff`.
- Queue admission with a stalled sender: `RelayQueue.StalledSenderOverflows`; exact by `BoundedIff`.
- The stored body with slow workers: `RelayRetention.LateAttemptMissesBody`; exact by `BodyAlwaysFoundIff`.
- Loading a stored capability: `SignatureStore.SubMillisecondExpiryFailsToLoad`; exact by `StoredLoadsIff`, and the
  negotiator always meets it.
- Replay policies and slow verification: `ReplayWindow.WrappedPolicyAccepted` and `SecondAccept`; exact by `NewPolicy`
  and `ReplayFreeIff`.
- A retried disable: `ConfigEditor.RetriedDisableCanBeLost`; exact by `DisableIsDurableIff`.
- The Announce flood within one retention time: `RelayFlood.RenamingFloodNeverEnds`; exact by `FloodEndsIff`.
- The Announce flood in all time: `RelayCirculation.CirclesForEver`; exact by `DiesOutIff`.

## Model

| member | source | states |
|---|---|---|
| DirectoryState.LoadedStateIsValid | internal/directoryscheduler/store.go:64-124 | Whatever Load accepts from a hash also passes validateState |
| DirectoryState.TimeRoundTrip | internal/directoryscheduler/store.go:289-305 | A time written and parsed comes back to the second if and only if it is the zero time or at least one second after the epoch |
| DirectoryState.SaveLoadRoundTrip | internal/directoryscheduler/store.go:64-142 | For every valid state, save then load gives it back in whole seconds if and only if its three times are storable |
| DirectoryState.EpochIsNotStorable | internal/directoryscheduler/store.go:289-305 | A concrete valid state whose observation time is lost by save and load |
| DirectoryState.MissingFieldsAreUnset | internal/directoryscheduler/store.go:64-124 | A hash with the registered flag and nothing else loads with everything else unset |
| DirectoryState.DigestAlphabet | internal/directoryscheduler/store.go:64-142 | A digest is exactly 64 lower-case hexadecimal digits |
| DirectoryState.StableJitter | internal/directoryscheduler/scheduler.go:383-387 | The daily jitter lies between zero and two hours for every digest |
| DirectoryState.RetryDelayBounds | internal/directoryscheduler/scheduler.go:389-408 | For every attempt and digest the delay is between 30 seconds and 15 minutes, at least its base and at most a fifth above it |
| DirectoryState.RetryBaseMonotone | internal/directoryscheduler/scheduler.go:389-408 | Another failed attempt never shortens the base delay |
| DirectoryState.RetryBaseDoubles | internal/directoryscheduler/scheduler.go:389-408 | The base starts at 30 seconds and doubles until 15 minutes |
| DirectoryState.RetryCeiling | internal/directoryscheduler/scheduler.go:389-408 | It is 15 minutes if and only if it is at least the sixth attempt |
| DirectoryState.DelaysSpread | internal/directoryscheduler/scheduler.go:383-408 | Every whole second of the jitter ranges is some digest's delay |
| DirectoryState.HeartbeatDeadline | internal/directoryscheduler/scheduler.go:287-295 | The next heartbeat is due 30 seconds to 26 hours after completion |
| DirectoryState.FailureStatePersistable | internal/directoryscheduler/scheduler.go:324-363 | Any failure of any valid state gives a valid state with attempt at most 16 and the next attempt in its window, and leaves the registered flag alone |
| DirectoryState.FailureSchedule | internal/directoryscheduler/scheduler.go:324-363 | Transient failures count up to 16 and wait at least the back-off base and any Retry-After of up to a day; all others reset to the next daily heartbeat; the profile and last success are kept |
| DirectoryState.FailureDiagnosed | internal/directoryscheduler/scheduler.go:324-345 | Each outcome and each diagnostic arises from exactly its own kinds of failure |
| DirectoryState.SuccessRecorded | internal/directoryscheduler/scheduler.go:254-277 | A success is dated by its completion, registered or heartbeat by its reply, due in a day, and only a register with a digest replaces the profile |
| DirectoryState.SuppressionRecorded | internal/directorycommand/command.go:348-445 | Suppression marks the state disabled, takes its next attempt away and keeps the rest |
| DirectoryState.SuccessStatePersistable | internal/directoryscheduler/scheduler.go:254-277 | Any success gives a valid state with the next attempt in its window |
| DirectoryState.WholeSecondsPersistable | internal/directoryscheduler/store.go:64-142 | Reading a persisted state back keeps that invariant |
| DirectoryState.Scheduler.MonotonicNow | internal/directoryscheduler/scheduler.go:310-322 | The answer is never before an earlier answer or the persisted observation, whatever the clock says, and is otherwise the clock in whole seconds |
| DirectoryState.Scheduler.ApplyFailure | internal/directoryscheduler/scheduler.go:324-363 | The field-by-field update computes exactly the specified failure state |
| DirectoryStore.RedisStore.Acquire | internal/directoryscheduler/store.go:213-234 | The lease is taken exactly when no live one is there; other origins are untouched |
| DirectoryStore.RedisStore.Renew | internal/directoryscheduler/store.go:242-267 | A lease is extended to a whole time to live from now exactly for the holder of its token; otherwise nothing changes |
| DirectoryStore.RedisStore.Release | internal/directoryscheduler/store.go:249-279 | A release deletes only the lease with the caller's own token |
| DirectoryStore.RedisStore.SaveOwned | internal/directoryscheduler/store.go:169-211 | The state is written exactly when it is valid, the handle is for this origin and its token is the live lease; the result says so |
| DirectoryStore.SavedStateLoads | internal/directoryscheduler/store.go:64-211 | A state saved under a live lease loads in whole seconds until it expires if and only if its times are storable; after that the record is empty |
| DirectoryProtocol.OnlySavesWrite | internal/directoryscheduler/store.go:169-211 | No event but an accepted save changes the record |
| DirectoryProtocol.SaneThroughout | internal/directoryscheduler/scheduler.go:150-285 | In every reachable world tokens are unique, a holder that has read sees the record it read or wrote, and an unreleased lease is in place for its first time to live |
| DirectoryProtocol.SuccessNeverGoesBack | internal/directorycommand/command.go:276-313 | An operator's success is never dated before the last one, a scheduler's by its clock or the observation |
| DirectoryProtocol.RecheckFollowsEntry | internal/directoryscheduler/scheduler.go:190-205 | The recheck under the lease lets a scheduler through after enabling and stops it on a disabled entry |
| DirectoryProtocol.LostRenewalStops | internal/directoryscheduler/scheduler.go:214-252 | A renewal that finds the lease gone ends a call under way, and the process offers no save and sends no unregister after it |
| DirectoryProtocol.LostForGood | internal/directoryscheduler/scheduler.go:214-252 | A process that has lost its lease knows it for the rest of its time |
| DirectoryLease.RenewalHolds | internal/directoryscheduler/store.go:242-267 | After an accepted renewal the lease is held for a whole time to live unless its process releases it |
| DirectoryLease.ReleaseFrees | internal/directoryscheduler/store.go:249-279 | A release by the holder lets another process acquire at once |
| DirectoryLease.HeldIffRenewedInTime | internal/directoryscheduler/store.go:213-267 | In every run an unreleased lease is held if and only if at every moment since it was taken less than a time to live had passed since its process last asked |
| DirectoryFencing.HeldWithoutGap | internal/directoryscheduler/store.go:169-279 | A token held now and already issued then was held at every moment in between |
| DirectoryFencing.FencedSave | internal/directoryscheduler/store.go:169-279 | An accepted save proves its lease was held at every moment since Acquire, and every write since then was its own |
| DirectoryFencing.NoLostUpdate | internal/directoryscheduler/store.go:169-279 | From reload to accepted save the record did not change, so the save replaces exactly the record it was computed from |
| DirectoryRace.HolderSilencesSchedulers | internal/directoryscheduler/scheduler.go:180-253 | While a command holds the lease of a disabled entry, no scheduler call is in flight or can still start |
| DirectoryRace.UnregisterClosesRace | internal/directorycommand/command.go:348-445 | If schedulers start their calls within any window of at most lease time less call timeout, then once the remote unregister is sent no scheduler request is in flight, not even one of a crashed scheduler, and none starts until the entry is enabled again |
| DirectoryRace.RegisteredStaysFalse | internal/directorycommand/command.go:426-445 | After the final save, if at that moment no lifecycle command has read the entry and still has to take the lease, every later record says unregistered until the entry is enabled again; no timing is needed |
| DirectoryRaceLimits.WideWindowReopensRace | internal/directoryscheduler/scheduler.go:180-253 | For every larger window there is a timely run in which the remote unregister is sent while a scheduler's call is in flight |
| DirectoryRaceLimits.RaceClosedIff | internal/directoryscheduler/scheduler.go:180-253 | The race is closed if and only if the start window is at most lease time less call timeout |
| DirectoryRaceLimits.ManualRegisterUndoesUnregister | internal/directorycommand/command.go:236-313 | Every run that finishes unregister with a lifecycle command on its way to the lease has a continuation that puts the registered flag back while the entry stays disabled |
| DirectoryRaceLimits.StaysUnregisteredIff | internal/directorycommand/command.go:426-445 | The record stays unregistered in every continuation without enabling if and only if no lifecycle command is on its way to the lease at the final save |
| DirectoryRaceLimits.LateRegisterExists | internal/directorycommand/command.go:236-445 | A concrete run in which a register command reads the entry before unregister does all its work, and the record does not stay unregistered |
| DirectoryHistory.NextStateSound | internal/directorycommand/command.go:276-313 | Whatever a scheduler, lifecycle or unregister step saves passes validation and keeps the invariant |
| DirectoryHistory.PersistedStatesAreSound | internal/directoryscheduler/store.go:64-142 | In every run every state offered for saving is valid, keeps the attempt and next-attempt windows and survives save and load to the second; the record always loads |
| DirectoryHistory.LastObservedNeverDecreases | internal/directoryscheduler/scheduler.go:254-322 | Over scheduler and lifecycle writes without expiry the observation time never decreases, whatever the clocks do |
| DirectoryProfile.ComputeNormalList | internal/directoryclient/profile.go:167-188 | Collecting trimmed items in a set and sorting them in any order of retrieval gives the strictly sorted list of the distinct trimmed items, or an error exactly for a bad list |
| DirectoryProfile.ListFormIsCanonical | internal/directoryclient/profile.go:167-188 | Two accepted lists have one normal form if and only if they have the same set of trimmed items |
| DirectoryProfile.ListFormIsFixed | internal/directoryclient/profile.go:167-188 | Normalizing a normal form changes nothing |
| DirectoryProfile.SameProfileSameForm | internal/directoryclient/profile.go:59-99 | Two accepted spellings of a profile, up to padding, list order and duplicates, have one normal form |
| DirectoryProfile.ProfileFormIsFieldwise | internal/directoryclient/profile.go:59-99 | A profile is accepted if and only if every field fits, and its form is the form of each field in its own place |
| DirectoryProfile.ListAcceptedExactly | internal/directoryclient/profile.go:155-188 | Lists have at most 16 items, none blank, over 128 bytes or with control characters |
| DirectoryConvergence.ValidStatusLifecycleVersions | internal/directoryclient/v2.go:81-104 | A version list is accepted exactly when it fits its schema, strictly increases and starts at 1 |
| DirectoryConvergence.NegotiatedProtocolVersion | internal/directoryclient/v2.go:106-124 | The result is the greatest version both sides speak |
| DirectoryConvergence.HeartbeatWithRegisterReconciliation | internal/directoryclient/v2.go:150-167 | At most three calls; a register exactly after a not-registered heartbeat, a second heartbeat exactly after a successful register |
| DirectoryConvergence.CycleSettles | internal/directoryscheduler/scheduler.go:214-272 | A completed cycle settles any state, and a settled state sends a heartbeat or nothing and stays settled |
| DirectoryConvergence.OnlyHeartbeatsAfterFirst | internal/directoryscheduler/scheduler.go:214-272 | From any stored state, with one profile up to spelling, every completed cycle after the first sends exactly a heartbeat |
| DirectoryConvergence.AtMostOneRegisteringCycle | internal/directoryscheduler/scheduler.go:214-272 | At most one cycle of such a run sends a register |
| DirectoryConvergence.SendsIff | internal/directoryscheduler/scheduler.go:150-228 | A completing cycle sends if and only if it is the first since startup, the profile changed, nothing was scheduled, or the next attempt has come |
| DirectoryConvergence.NextHeartbeatComes | internal/directoryscheduler/scheduler.go:150-295 | With one profile and no restart, after a success nothing is sent for a day, and a completing cycle 26 hours later sends a heartbeat |
| RelayFanout.EnqueueActivityExcept | api/resolver.go:252-372 | Queues exactly the planned targets, and reports success exactly when the fan-out limit holds and there was nothing to send or everything was admitted, stored and sent |
| RelayFanout.CollectTargets | api/resolver.go:271-299 | The deduplicating loop computes the chosen entries in order |
| RelayFanout.AtMostOncePerDomain | api/resolver.go:264-299 | A non-empty domain is chosen at most once, and only with an eligible entry |
| RelayFanout.ChosenIffFirstEligible | api/resolver.go:264-299 | An entry with a domain is chosen if and only if it is the first valid-inbox entry of a domain that is not excluded and no earlier domain-less inbox took its key |
| RelayFanout.TargetsAreFirstPerDomain | api/resolver.go:264-299 | The targets with a domain are exactly those entries |
| RelayFanout.SubscribersGetNoWrapper | api/resolver.go:777-819 | In the signed case a domain with any subscriber entry gets no wrapper |
| RelayFanout.OneDeliveryPerDomain | api/resolver.go:715-830 | Over the one or two enqueues of an activity together every non-empty domain is targeted at most once and the source never |
| RelayFanout.QueuedOncePerDomain | api/resolver.go:301-371 | The same of what is queued, whichever targets of each enqueue get a signature plan |
| RelayFanout.ExactlyOncePerDomain | api/resolver.go:264-299 | A domain with an eligible entry is chosen exactly once unless a domain-less inbox took its key |
| RelayFanout.ExecuteRelayActivity | api/resolver.go:715-830 | Errors exactly for a bad, blocked or unrecordable actor; otherwise every body due goes out once, to exactly the planned targets the limit and queue let through, all of them entitled to it |
| RelayFanout.BodiesExactly | api/resolver.go:735-830 | The original is sent if and only if it is LD-signed, the Announce of the object if and only if it has an ID, each once |
| RelayFanout.TargetsAreEntitled | api/resolver.go:735-830 | The original goes to subscribers only; beside it the Announce goes only to followers whose domain has no subscriber; nothing goes to the source or an invalid inbox |
| RelayFanout.EveryDomainServed | api/resolver.go:715-830 | No domain is forgotten: exactly once, a usable subscriber is targeted with the original, a follower-only domain with the Announce, and every usable domain with the one Announce of an unsigned activity |
| RelayFanout.DomainSpelling | api/resolver.go:240-250 | Padding and one final dot make no difference to a stored domain |
| RelayFanout.RelayServesEachOnce | api/resolver.go:240-299 | With the relay's own normalizer every domain with a usable entry is chosen exactly once, without further condition |
| RelayFanout.SubscriberEntryWins | api/resolver.go:264-299 | A valid subscriber entry beats every follower entry of its domain |
| RelayMesh.CanonicalGuard.ReserveCanonical | api/relay_loop_guard.go:30-60 | A canonical ID is reserved exactly when it is not empty and not reserved, for the retention time |
| RelayMesh.CanonicalGuard.ReleaseCanonical | api/relay_loop_guard.go:19-79 | Only the owner's token frees a reservation; everything else stays |
| RelayMesh.OnlyOwnerReleases | api/relay_loop_guard.go:19-79 | No event but the owner's own release changes a live reservation |
| RelayMesh.GuardedThroughout | api/relay_loop_guard.go:19-79 | In every run of any length, with expiry, re-reservation and late release, two unreleased jobs of one relay and ID were accepted at least a retention time apart |
| RelayMesh.AtMostOneFanout | api/resolver.go:841-898 | In every run, of what a relay accepts in any one retention window it completes at most one fan-out of a canonical ID |
| RelayMesh.FanoutsAreSpaced | api/resolver.go:841-898 | In time, fan-outs of one relay and ID are apart by the retention time less the longest wait between acceptance and fan-out |
| RelayWalk.AlwaysSpacedIff | api/resolver.go:841-898 | In every mesh where some relay can accept something, they are always a given positive time apart if and only if it is at most that |
| RelayMesh.FanoutsNeverGoBack | api/resolver.go:390-399 | In every run no fan-out targets the relay it came from or the origin domain |
| RelayMeshBound.FloodIsBounded | api/handle.go:306-331 | From any moment of any run over any relays, and however origins change their answers, if the URLs that can come up have canonical IDs in a finite set, the deliveries, fan-outs and releases within one retention time are bounded by pending attempts, jobs under way and relays times IDs |
| RelayMeshBound.SelfResolvingFloodIsBounded | api/handle.go:306-331 | In particular when the canonical ID behind a URL never changes and is its own, with the IDs under way |
| RelayFlood.ClosedScopeEnds | api/handle.go:306-331 | In every mesh, where the URLs that can come up have finitely many canonical IDs every flood from one seed ends |
| RelayFlood.RestlessOriginNeverSettles | api/resolver.go:841-898 | In any mesh with three relays that follow each other, an activity from outside them whose canonical IDs never repeat is fanned out any number of times from one seed message and in no time |
| RelayFlood.FloodEndsIff | api/resolver.go:841-898 | In such a mesh the flood of an activity has a bounded number of fan-outs in a retention time if and only if re-announcing brings some canonical ID back |
| RelayFlood.RenamingFloodNeverEnds | api/resolver.go:841-898 | A concrete mesh and origin whose flood has no bound |
| RelayExtinction.TrailsNeverCross | api/relay_loop_guard.go:19-79 | If relays times IDs times the longest hop stay below the retention time, then in every run of any length an Announce and all it leads to goes through a relay and ID once |
| RelayExtinction.FloodDiesOut | api/handle.go:306-331 | Under the same condition a run of any length, over any relays, has at most as many events as its seed messages allow: the flood dies out for good |
| RelayCirculation.CirclesForEver | api/relay_loop_guard.go:30-60 | With slower hops one Announce circles through three or more relays as often as one likes |
| RelayCirculation.DiesOutIff | api/relay_loop_guard.go:19-79 | In a full mesh of at least three relays an activity with its own ID dies out for good if and only if the relays times the longest hop stay below the retention time |
| RelayQueue.QueueAdmission.ReserveCapacity | api/resolver.go:63-92 | Admits exactly when queued, reserved and additional jobs fit, and then adds to the counter |
| RelayQueue.QueueAdmission.ReleaseCapacity | api/resolver.go:94-107 | Subtracts, and deletes the counter at zero or below |
| RelayQueue.QueueStaysBounded | api/resolver.go:334-371 | While the key outlives its reservations, in every interleaving the counter is the sum of outstanding reservations and queued plus unpushed jobs never exceed the maximum |
| RelayQueue.JobsAreConserved | api/resolver.go:334-371 | In every run the queue holds its initial jobs and what senders pushed, less what workers took |
| RelayQueue.BoundedIff | api/resolver.go:63-107 | With any room at all, queued plus unpushed jobs stay within the maximum in every interleaving if and only if no sender holds a reservation for as long as the reservation key lives |
| RelayQueue.StalledSenderOverflows | api/resolver.go:63-107 | For every maximum, a run of senders that hold for that long and exceed it |
| RelayDelivery.ActivityStore.StoreRelayActivity | api/resolver.go:24-27 | Stores body and target count with the retention deadline |
| RelayDelivery.ActivityStore.FinishRelayTarget | deliver/deliver.go:108-128 | Counts down, deletes at the last target, does nothing on a missing hash |
| RelayDelivery.ActivityStore.RelayActivityV2 | deliver/deliver.go:190-346 | A task is tried again exactly when it failed with retries left; exactly otherwise its target is finished, once; other activities are untouched |
| RelayDelivery.Delays | internal/deliverypolicy/policy.go:6-22 | The retry schedule is 8, 13, 21, 34 and 55 seconds |
| RelayDelivery.LedgerIsConserved | deliver/deliver.go:190-346 | In every interleaving the hash lives exactly while retention lasts and some target is unfinished, counts those targets and holds the original body; the reported attempt is the real one and terminal exactly on the sixth |
| RelayDelivery.FinishesOnce | deliver/deliver.go:299-346 | No target finishes twice |
| RelayDelivery.DeliveryEnds | deliver/deliver.go:190-346 | At most 14 events per target ever happen, and when nothing more can happen every target has finished and the body is gone |
| RelayRetention.EveryAttemptFindsBody | internal/deliverypolicy/policy.go:6-24 | For every latency of brokers and workers for which seven waits, five timed-out sends and the retry delays fit into the retention time, every attempt of every target finds the original body |
| RelayRetention.LateAttemptMissesBody | internal/deliverypolicy/policy.go:6-24 | For every other latency there is a run in which an attempt comes when the body is gone |
| RelayRetention.BodyAlwaysFoundIff | internal/deliverypolicy/policy.go:6-24 | Every attempt finds the body if and only if the latency is at most 106.285 seconds |
| SignatureStore.RedisDestinationCapabilityStore.SaveDestinationCapability | internal/httpsignature/redis_destination_capability.go:73-110 | Errors exactly for an invalid or expired capability; otherwise the newer record stays, and the result says which |
| SignatureStore.SavedCapabilityLoads | internal/httpsignature/redis_destination_capability.go:73-202 | A save newer than what is stored is found again by its own key until it expires if and only if it is still valid at millisecond grain |
| SignatureStore.ExpiredIsGone | internal/httpsignature/redis_destination_capability.go:73-202 | An expired capability is neither taken nor given back |
| SignatureStore.SaveTouchesOneKey | internal/httpsignature/redis_destination_capability.go:62-71 | A save changes only its own scope and origin |
| SignatureStore.SubMillisecondExpiryFailsToLoad | internal/httpsignature/redis_destination_capability.go:73-202 | A capability that passes validation, is stored, and fails validation when loaded |
| SignatureEvidence.NewestEvidenceWins | internal/httpsignature/redis_destination_capability.go:18-35 | In any arrival order the stored record is the save with the greatest observation millisecond since the key last expired, the first winning ties |
| SignatureEvidence.StoredLoadsIff | internal/httpsignature/redis_destination_capability.go:135-202 | A live record loads for its own key as that save at millisecond grain if and only if the save is still valid at that grain |
| SignatureNegotiation.WireProfileRoundTrip | internal/httpsignature/configured_signer.go:24-34 | A profile name is parsed back by the worker exactly for the two wire profiles |
| SignatureNegotiation.WorkerProfileIsWire | deliver/deliver.go:175-188 | Whatever its arguments and configuration, a worker signs with a wire profile or refuses |
| SignatureNegotiation.WorkerFollowsTask | deliver/deliver.go:175-188 | A worker signs as its task says, without that as a fixed configuration says, and legacy otherwise |
| SignatureNegotiation.NewDestinationNegotiator | internal/httpsignature/destination_negotiation.go:261-300 | Accepts exactly the lifetimes that, defaults filled in, are at least an hour and a minute and in order, and uses them |
| SignatureNegotiation.PlanProperties | internal/httpsignature/destination_negotiation.go:305-393 | Every plan names a wire profile for its own origin, offers a fallback exactly for an unknown fetch, and signs a dual-mode delivery the modern way only on live positive delivery evidence |
| SignatureNegotiation.FixedModesAreFixed | internal/httpsignature/destination_negotiation.go:325-338 | A fixed mode signs every request as configured without fallback, whatever the store holds and the clocks say |
| SignatureNegotiation.UnknownDestination | internal/httpsignature/destination_negotiation.go:350-393 | Without live evidence a dual fetch is modern with one legacy fallback, and a dual delivery is legacy |
| SignatureNegotiation.SavedCapabilityDecides | internal/httpsignature/destination_negotiation.go:350-380 | A capability saved over nothing or older evidence decides every dual plan for its scope and origin until it expires |
| SignatureNegotiation.ConfiguredSigner.PlanRequest | internal/httpsignature/destination_negotiation.go:305-393 | Plans as specified from the store's current record; a fixed mode exactly as configured |
| SignatureNegotiation.ConfiguredSigner.ObserveRFC9421Success | internal/httpsignature/destination_negotiation.go:395-465 | Stores the positive observation if it is valid and newer |
| SignatureNegotiation.ConfiguredSigner.ObserveResponse | internal/httpsignature/configured_signer.go:482-523 | Stores exactly the capability a response teaches, and nothing for any other response |
| SignatureNegotiation.ObservationsSurvive | internal/httpsignature/destination_negotiation.go:395-501 | Whatever a valid negotiator stores is still valid at millisecond grain |
| SignatureNegotiation.LearnedExactly | internal/httpsignature/configured_signer.go:482-523 | Positive answers teach the modern profile for the long lifetime, explicit rejections the old one for the short lifetime, and nothing else teaches anything |
| SignatureNegotiation.StatusesExactly | internal/httpsignature/configured_signer.go:457-523 | 2xx succeeds, and only a challenged 401 or 403 rejects |
| SignatureLearning.EvidenceDecides | internal/httpsignature/destination_negotiation.go:305-501 | In every dual-mode run an observation decides every later plan for its scope and origin until it expires or newer evidence arrives |
| SignatureLearning.ModernOnceTaught | internal/httpsignature/configured_signer.go:493-511 | After a 2xx legacy delivery with a compatible Accept-Signature, every delivery planned for that origin within the positive lifetime, without newer evidence, is queued and signed the modern way |
| SignatureLearning.LegacyOnceRejected | internal/httpsignature/configured_signer.go:512-523 | After an explicit rejection of a modern delivery, deliveries are signed legacy within the negative lifetime |
| SignatureLearning.FallbackRemembered | internal/httpsignature/destination_negotiation.go:484-501 | After a working fallback, fetches from that origin are signed legacy at once within the negative lifetime |
| SignatureLearning.ModernDeliveryExists | internal/httpsignature/configured_signer.go:482-523 | From an empty store a run whose second delivery is modern, for every destination and teaching answer |
| SignatureNegotiation.LearnedModernDelivery | internal/httpsignature/destination_negotiation.go:305-501 | In every dual-mode run from empty, every RFC 9421 delivery is preceded by a 2xx legacy delivery to the same origin with a compatible Accept-Signature |
| SignatureNegotiation.QueuedProfilesAccepted | api/resolver.go:109-124 | In every such run every queued profile is one its worker accepts and signs with |
| SignatureNegotiation.FetchesDoNotInterfere | internal/httpsignature/destination_negotiation.go:305-501 | Leaving every fetch observation out of a run gives the same queue, the same deliveries and the same delivery evidence |
| SignatureGet.PlannerPlansFetches | internal/httpsignature/configured_signer.go:275-295 | Every planner over an arbitrarily changing store yields plans of the shape DoGET relies on |
| SignatureGet.Do | internal/httpsignature/configured_signer.go:360-386 | For every server one client run sends at most ten requests, each redirect planned for its own URL, allowed, and followed from the one before; it ends at a redirect only if that is refused, cannot be planned, or follows the tenth request |
| SignatureGet.FallbackExactly | internal/httpsignature/destination_negotiation.go:233-243 | A fallback is taken if and only if an unknown destination was probed and answered 400 or an explicit Signature challenge |
| SignatureGet.OutcomeExactly | internal/httpsignature/configured_signer.go:457-480 | The outcome of an answer by its status |
| SignatureGet.RetryTeachesExactly | internal/httpsignature/configured_signer.go:436-454 | A retry teaches that legacy works if and only if 400 led to it and a legacy request then got a 2xx |
| SignatureGet.Fallback | internal/httpsignature/configured_signer.go:411-454 | One legacy retry of the rejected request as a second bounded client run, with exactly the evidence it records |
| SignatureGet.DoGET | internal/httpsignature/configured_signer.go:341-455 | At most two client runs of at most ten requests, neither ended early, at most one fallback and exactly when the first run ends at a rejected probe; every other request carries the profile planned for its own URL; exactly the stated evidence is recorded |
| SignatureGet.GetIsDetermined | internal/httpsignature/configured_signer.go:341-455 | That leaves nothing open: servers, redirect policy and plans determine requests, answer and evidence |
| ReplayWindow.NewPolicy | internal/httpsignature/rfc9421_verify.go:127-151 | Exactly which durations are accepted, zero meaning the default; an accepted replay lifetime covers age and skew if and only if their sum does not wrap at 64 bits |
| ReplayWindow.WrappedPolicyAccepted | internal/httpsignature/rfc9421_verify.go:143-151 | A concrete accepted policy whose window is not covered |
| ReplayWindow.CheckCovered | internal/httpsignature/rfc9421_verify.go:219-246 | A component list is accepted exactly when none is empty or repeated and every required one is there |
| ReplayWindow.ValidateParameters | internal/httpsignature/rfc9421_verify.go:178-246 | Parameters are accepted exactly under the stated key, algorithm, nonce, window, expiry and coverage conditions |
| ReplayWindow.RedisNonceStore.ReserveNonce | internal/httpsignature/redis_nonce_store.go:59-84 | A nonce is reserved exactly when it is not reserved, for the given time to live; other pairs are untouched |
| ReplayWindow.OrderedThroughout | internal/httpsignature/rfc9421_verify.go:311-385 | In every run acceptances of one nonce lie a time to live apart, each within the delay of its own time check |
| ReplayWindow.SecondAccept | internal/httpsignature/rfc9421_verify.go:201-217 | For every policy without enough slack, a run that accepts one signature twice |
| ReplayWindow.ReplayFreeIff | internal/httpsignature/rfc9421_verify.go:311-385 | For every accepted policy no key ID, nonce and created time is ever accepted twice if and only if the delay from time check to reservation is strictly below replay lifetime minus age and skew, or the lifetime is not positive and every reservation errors |
| ConfigEditor.Directory.AtomicReplace | internal/directoryconfig/editor.go:172-226 | From any directory state and whatever step fails, every state passed through leaves after a crash only what could be left before or exactly the replacement, and once the replacement can be there a kept backup is as safe as it was and a new one is there after every crash; success is durable |
| ConfigEditor.SettledCrashSafe | internal/directoryconfig/editor.go:172-226 | From a synced directory that is exactly the original or exactly the replacement, and a visible replacement implies the one complete durable backup |
| ConfigEditor.BackupIsPreEdit | internal/directoryconfig/editor.go:92-118 | Through any disables, errors, crashes and a final remove the path holds one of three exact texts, and once the entry is not enabled every crash finds the backup equal to the bytes before the enabled-to-disabled edit |
| ConfigEditor.DisableIsDurableIff | internal/directoryconfig/editor.go:92-118 | In every run a disable that rewrote the file is durable when it reports success; one that found the work done is durable if and only if no earlier disable failed between rename and directory sync with neither a crash nor a directory sync since |
| ConfigEditor.RetriedDisableCanBeLost | internal/directoryconfig/editor.go:92-95 | A run in which a retried disable reports success and a crash brings the enabled entry back |
| ConfigLocks.OpenLockedSnapshot | internal/directoryconfig/editor.go:120-156 | Up to four tries; the first that is neither moved nor refused is taken, any refusal ends it |
| ConfigLocks.FreeFileIsRead | internal/directoryconfig/editor.go:120-156 | An editor that finds the file free reads its current content at the first try |
| ConfigLocks.MovedFileIsReopened | internal/directoryconfig/editor.go:120-156 | A replaced file is given back and the new one opened, three times at most |
| ConfigLocks.FinishedIsFree | internal/directoryconfig/editor.go:120-156 | However an editor ends, its lock is free and it may start over |
| ConfigLocks.SerialThroughout | internal/directoryconfig/editor.go:120-156 | In every run of any number of editors, a verified inode stays the path's inode with the content read while its lock is held |
| ConfigLocks.CommitsAreCurrent | internal/directoryconfig/editor.go:209-215 | Every committed edit was computed from the content at the path when it was renamed into place, and the last check never finds the file moved |
| ConfigLocks.NoEditLost | internal/directoryconfig/editor.go:120-215 | The file always holds the initial content with every committed edit applied in commit order |
| PublisherCache.RelayState.Load | models/state.go:246-317 | From sorted distinct keys the list and the map agree and are the stored hashes |
| PublisherCache.RelayState.Search | models/state.go:587-589 | Binary search finds the split: smaller domains before, the rest from there on |
| PublisherCache.RelayState.Apply | models/state.go:578-598 | Replacing or inserting keeps the list strictly sorted and equal to the map, and a smaller count changes nothing |
| PublisherCache.AgreeingListIsUnique | models/state.go:578-598 | The map determines the list |
| PublisherCache.MemoryEqualsRedis | models/state.go:543-598 | Once all racing recorders have finished, in whatever order, memory is Redis |
| PublisherCache.MemoryOnlyAdvances | models/state.go:583-586 | On the way memory never runs ahead of Redis and its counts never go back |
| PublisherCache.EveryCommitCounts | models/state.go:543-572 | In every run the stored count of a domain is its initial count plus the activities recorded for it |
| PublisherCache.LastCommitIsStored | models/state.go:543-572 | The stored record of a domain is its last recorded activity with the first-seen time of its first |
| StrictJson.Decoder.ScanValue | internal/directoryclient/client.go:500-540 | The stateful recursive scan computes the specified scan of what is left and stops just past the value |
| StrictJson.ScanOfValue | internal/directoryclient/client.go:500-540 | On the tokens of any value followed by anything, the scan reports a duplicate if and only if some object at any depth repeats a name, and otherwise consumes exactly the value |
| StrictJson.ScannedIsValue | internal/directoryclient/client.go:500-540 | Whatever the scan lets through is one well-formed value without repeated names |
| StrictJson.PassesIffDuplicateFree | internal/directoryclient/client.go:498-546 | A token stream passes if and only if it is exactly one value without repeated names |
| StrictJson.DuplicateJSONName | internal/directoryclient/client.go:498-546 | The whole check returns false exactly for such streams |

## Left out

- RSA signing and verification, signature bases, structured fields, YAML and mail parsing: parameters or outcomes here, because the library code is not part of the repository.
- URL parsing: origins, hosts and redirect targets are taken as parsed; origin normalization is an arbitrary function.
- Machinery's own delivery guarantees: a failed task is run again with one retry less after the next Fibonacci delay; redelivery of a finished task and lost tasks are not modelled.
- Mid-group failures of the group send: a fan-out's send is all or nothing.
- The delayed queue and the separate follow enqueue: outside the queue bound.
- RedisStore.Save, the unfenced write: no scheduler or command calls it.
- Environment-only configuration of the unregister command: only the file-backed, Redis-coordinated one is modelled.
- Duplicate keys from Redis SCAN: each key is taken to be returned once when the publisher list is built, and no Load runs beside recorders.
- HTTP handlers, WebFinger, NodeInfo, status page, metrics, logging, command wiring, key generation: plumbing around the modelled steps.
- SanitizeRelayProfile, ReceiverDomainFromInboxURL, receiver health and error statistics: only easy members.
- contrib/, debian/ and scripts/: build tooling.
- Sub-millisecond times in the Directory modules, and sub-millisecond time-to-live truncation of nonce reservations.
- DirectoryHistory.PersistedStatesAreSound: wall clocks may step in any direction between 1970-01-01T00:00:01 and the end of year 9999.
- RelayFlood.FloodEndsIff: for origins whose answer to a URL does not change and does not depend on padding around it, and activities that have an ID and come from outside the three relays; FloodIsBounded and FloodDiesOut need none of this.
- RelayCirculation.DiesOutIff: for an activity that is served under its own ID, has one canonical ID and comes from outside the mesh.
- RelayFanout.RelayServesEachOnce: URL parsing enters as three laws about hosts and inboxes.
- DirectoryProfile.ComputeNormalList: the library sort is an insertion sort here.
