# Starry server overlay: verified models

This project models the state machines that the Starry overlay adds to RustDesk
Server and proves what they promise over every input, every run and every
interleaving.

- **Profile activation registry.** `ActivationProtocol` is a transition system in
  which every access to a shared table is a step of its own: requests queue on
  per-peer locks, claims stay outstanding until they are committed or dropped, and
  the retention sweep and the bulk socket disconnection touch records without the
  peer's lock. `ActivationSafety` holds the invariant, `ActivationTheorems` the
  results over executions, `ActivationLeaseShape` the one place where route and
  lease token come apart, `ActivationBurst`, `ActivationBurstVerdicts` and
  `ActivationBurstRuns` the burst limiter, `ActivationEffects` what each step decides
  and writes field by field, `ActivationTimes` how long records and routes last, and
  `ActivationRegistry` the registry's methods on its own tables.
  `ActivationTraces` and `ActivationScenes` build executions step by step;
  `ActivationSlip` and `ActivationOvershoot` are two of them.
- **AKR1 media relay.** `RelayWire`, `ReplayWindow`, `TokenBucket` and
  `RelayGrants` are its parts, `MediaRelay` is one datagram or cleanup tick,
  `MediaRelaySafety`, `MediaRelayTheorems`, `MediaRelayIngress` and
  `MediaRelayRebinds` are the guarantees over whole runs, `MediaRelayForwarding`
  says exactly which media is passed on, `MediaRelayAnswers` exactly which hellos and
  binds are answered, `MediaRelayLifetimes` exactly how long allocations are kept, and
  `MediaRelayEngine` holds the mutable objects.
- **Fast Relay grant store.** `GrantStore` keeps three maps in step,
  `GrantAcceptance` follows the store through whole runs, `GrantDecisions` says exactly
  which requests are answered and with what, `GrantStoreObject` updates it in place, and `GrantHandshake` follows an issued pair through the
  relay's handshake to two bound roles.
- **Relay enrollment.** `EnrollmentModel` is the command on a directory that may
  lose power before any install or removal, `EnrollmentResume` proves that it
  resumes, `EnrollmentAnyDisk` what holds on a directory it did not write,
  `EnrollmentDecisions` exactly when it succeeds on any directory,
  `EnrollmentDirectory` is the command step by step, `EnrollmentPreflight` is the
  relay's start-up check, `EnrollmentStart` says exactly when a finished directory
  passes it, and `EnrollmentRefusals` exactly which copied or altered ones do not.
- **Smaller pieces.** `IntrospectionCache`, `CanonicalJson`, `LocalControl`,
  `RelayLoad` and `RelayLimits`.

Conventions. Clocks are in milliseconds and wall-clock times in seconds unless the
source counts seconds. Signatures, MACs, digests, certificates, base64, URLs and
the pairing broker are function-valued parameters; where a result needs a fact
about one of them (a digest has its form, a decodable text is made of base64
characters) the fact is a named predicate in its `requires`. Random tokens and
keys are parameters. Text is a sequence of Unicode scalar values; blanks are the
property White_Space, control characters the category Cc, and length limits count
bytes of UTF-8.

Some things the source does that a reader might not expect, each with an exact
condition and a case in which it happens:

- A renewal that commits after its route was disconnected leaves a routed record
  with an empty token (`ActivationLeaseShape`).
- Each request reads the clock before it queues for the burst table. A request that
  is overtaken by a full prune of another identity with a later clock loses sight of
  accepted calls still in its window, and a thirteenth can pass
  (`ActivationBurstVerdicts`, `ActivationSlip`).
- Enrollment accepts a node id with outer blanks or control characters, a certificate
  text over 64 KiB and a telemetry secret that occurs in the exported text; the relay
  then refuses to start (`EnrollmentStart`).
- A cached positive verdict can outlive its token when the introspection request
  was slow, because its lifetime is counted from the moment of storing
  (`IntrospectionCache`).
- Between a claim's record being written and its reservation being given back,
  records plus the reservation counter can exceed the cap by the claims in that gap;
  records plus reserved claims never do (`ActivationTheorems`, `ActivationOvershoot`).
- The limit of twelve moves a minute is kept per fixed window, so that twenty-four can
  fall together (`MediaRelayRebinds`).
- The start-up check compares some of the directory only in part: another telemetry
  secret, another certificate of the same key, another relay pool or enrollment id pass
  unnoticed (`EnrollmentRefusals.Tolerated`).

## Model

| member | source | states |
|---|---|---|
| `ActivationSafety.LocksStep` | overlay/src/profile_activation.rs:810-827 | Every step keeps: all tasks of a peer refer to the one lock object the table has for it, and exactly the running task holds it, although idle entries are evicted when the table is full |
| `ActivationSafety.InvStep` | overlay/src/profile_activation.rs:441-686 | Every step of every operation, on every interleaving with other peers, keeps locks, records, claims and the reservation counter in agreement |
| `ActivationSafety.DisconnectForeign` | overlay/src/profile_activation.rs:733-763 | The bulk disconnection takes no lock, and to every peer it can only take the route and token away |
| `ActivationSafety.WorkForeign` | overlay/src/profile_activation.rs:919-936 | A task, its retention sweep included, does to other peers' records nothing but weaken or drop them; generations and the v2 set only grow |
| `ActivationTheorems.ReachableInv` | overlay/src/profile_activation.rs:441-855 | The invariant holds in every state of every execution from the empty registry |
| `ActivationTheorems.OneTaskPerPeer` | overlay/src/profile_activation.rs:810-827 | In every reachable state at most one task of a peer runs, and all that wait for the peer wait on the same lock object |
| `ActivationTheorems.CapacityBound` | overlay/src/profile_activation.rs:829-840 | Records plus reserved claims never exceed 100 000, although size and counter are read in separate steps; the counter is exactly the reservations not yet given back, so it never underflows |
| `ActivationTheorems.CapacityWithGap` | overlay/src/profile_activation.rs:180-236 | In every state records plus counter exceed the cap by no more than there are tasks between writing a record, or being refused, and giving the reservation back |
| `ActivationTheorems.CapacityAtRest` | overlay/src/profile_activation.rs:180-236 | Where there is no such task the counter equals the reserved claims and records plus counter are within the cap |
| `ActivationOvershoot.CapacityOvershoots` | overlay/src/profile_activation.rs:180-236 | An execution from the empty registry that reaches 100 000 records with the counter at one |
| `ActivationTheorems.GenerationsDiffer` | overlay/src/profile_activation.rs:806-808 | No two peers ever hold the same generation |
| `ActivationTheorems.GenerationsNeverDrop` | overlay/src/profile_activation.rs:180-226 | A peer's committed generations never go back, even across sweeping and re-creation of its record |
| `ActivationTheorems.NewLeaseIsNewer` | overlay/src/profile_activation.rs:495-566 | A claim for a new lease is strictly above every generation the peer ever held |
| `ActivationTheorems.RecordEvolves` | overlay/src/profile_activation.rs:478-520 | Over any stretch of an execution in which a record is retained, its uuid is fixed, its epoch and generation never drop, one epoch keeps one activation id and key, and retirement within an epoch is final |
| `ActivationTheorems.DeadEpochNotVerified` | overlay/src/profile_activation.rs:765-804 | While the record is retained, no verification of an epoch it has retired or left behind succeeds |
| `ActivationTheorems.DeadLeaseStaysDead` | overlay/src/profile_activation.rs:568-686 | Once a generation is superseded or deactivated, no renewal or deactivation naming it is accepted in any later state, also after the record was swept and made anew |
| `ActivationTheorems.V2PeersGrow` | overlay/src/profile_activation.rs:842-855 | The set of peers that ever activated a profile never shrinks and never exceeds its cap |
| `ActivationTheorems.NoDowngrade` | overlay/src/profile_activation.rs:441-475 | A peer that ever held a lease is never again admitted by a registration without one |
| `ActivationLeaseShape.ShapedStep` | overlay/src/profile_activation.rs:269-291 | A step breaks "routed exactly when there is a 32-byte token" if and only if it commits a renewal of a record that lost its route after the renewal began |
| `ActivationLeaseShape.ShapedThroughout` | overlay/src/profile_activation.rs:269-291 | All states of an execution have that shape if and only if none of its steps is such a commit |
| `ActivationLeaseShape.LostRenewalStrands` | overlay/src/profile_activation.rs:269-291 | What such a commit leaves: no well-formed renewal, deactivation or verification can name the record, and registering again is answered with an empty token |
| `ActivationLeaseShape.LostRenewalHappens` | overlay/src/profile_activation.rs:733-763 | A concrete execution from the empty registry that ends with a routed record without a token |
| `ActivationBurst.TableRemembers` | overlay/src/profile_activation.rs:857-903 | With each identity's own clocks in order, the table holds exactly the accepted calls that no own call and no full prune with a clock past their window has dropped |
| `ActivationBurstVerdicts.KeptExactly` | overlay/src/profile_activation.rs:857-903 | A call finds the accepted calls of its window, the oldest missing exactly as far as full prunes by other identities with a clock ahead of its own reach |
| `ActivationBurstVerdicts.WindowSeenIff` | overlay/src/profile_activation.rs:857-903 | The limiter decides on exactly the accepted calls in the window if and only if no such early prune came before |
| `ActivationBurstVerdicts.FullIsLimited` | overlay/src/profile_activation.rs:857-903 | Without an early prune a call is refused for rate exactly when twelve accepted calls are in its window |
| `ActivationBurstVerdicts.WindowBound` | overlay/src/profile_activation.rs:857-903 | Any thirteen accepted calls of one identity span 30 seconds or more, unless the last was overtaken by an early prune |
| `ActivationBurstVerdicts.OrderedNeverEarly` | overlay/src/profile_activation.rs:857-903 | When the clocks of all calls come in order there is no early prune |
| `ActivationBurstRuns.BurstsAreTable` | overlay/src/profile_activation.rs:857-903 | In every execution of the registry the burst table is what the limiter's calls so far make of it |
| `ActivationBurstRuns.RunOwnOrder` | overlay/src/profile_activation.rs:441-475 | In every execution the calls of one identity come in the order of their clocks, because of the peer's lock |
| `ActivationBurstRuns.RunWindowBound` | overlay/src/profile_activation.rs:857-903 | In every execution thirteen accepted fast re-registrations of one identity span 30 seconds or more, unless the last was overtaken |
| `ActivationBurstRuns.RunWindowSeen` | overlay/src/profile_activation.rs:857-903 | In every execution each call sees exactly its window if and only if it was not overtaken |
| `ActivationSlip.LateCallSlipsThrough` | overlay/src/profile_activation.rs:857-903 | An execution from the empty registry with valid requests in which a thirteenth call is accepted within one window |
| `ActivationBurstVerdicts.LimitedOnlyWhenFull` | overlay/src/profile_activation.rs:857-903 | A refusal for rate always means twelve accepted calls within the last 30 seconds |
| `ActivationBurst.TableBound` | overlay/src/profile_activation.rs:857-903 | The identity table never exceeds its cap |
| `ActivationRegistry.Registry.Maintain` | overlay/src/profile_activation.rs:919-936 | Every 256th call sweeps: expires stale routes and drops records past retention, exactly as the protocol's sweep step |
| `ActivationRegistry.Registry.ExpireOwnRoute` | overlay/src/profile_activation.rs:905-917 | Afterwards the peer's route, if any, is within its 45 seconds and its record as it was; no other record changes |
| `ActivationRegistry.Registry.ReserveLeaseCapacity` | overlay/src/profile_activation.rs:829-840 | Succeeds exactly when records plus pending are below the cap, and counts exactly then |
| `ActivationRegistry.Registry.RememberV2Peer` | overlay/src/profile_activation.rs:842-855 | Succeeds exactly for known peers or while there is room, and then the peer is in the set |
| `ActivationRegistry.Registry.DisconnectWebsocketRoutesNow` | overlay/src/profile_activation.rs:733-763 | Gives up with zero when the table is being written; otherwise the loop disconnects exactly the sockets still current when it reaches them and returns how many |
| `ActivationRegistry.Registry.TryBurst` | overlay/src/profile_activation.rs:857-903 | The limiter on its own table does what the limiter of the history theorems does |
| `ActivationRegistry.Registry.PruneEntries` | overlay/src/profile_activation.rs:857-903 | Popping from the front leaves the entries from the first one still inside the window on |
| `ActivationRegistry.Registry.PruneTable` | overlay/src/profile_activation.rs:857-903 | Full pruning prunes each identity and drops the empty ones |
| `ActivationRegistry.Registry.TakeGeneration` | overlay/src/profile_activation.rs:806-808 | Hands out a generation above that of every record there is, and never again the same |
| `ActivationEffects.QueuedExactly` | overlay/src/profile_activation.rs:810-827 | A request queues exactly when it is well-formed and its peer has a lock, the table has room for one, or some lock is idle; otherwise it leaves nothing behind |
| `ActivationEffects.WellFormed` | overlay/src/profile_activation.rs:450-459 | Exactly which registrations, renewals, deactivations and verifications are well-formed, in bytes and numbers |
| `ActivationEffects.PlainRegistration` | overlay/src/profile_activation.rs:470-495 | A registration without an activation is refused exactly to a peer that ever had one; otherwise it gets an untracked claim with a generation of its own |
| `ActivationEffects.ActivatedRegistration` | overlay/src/profile_activation.rs:497-532 | One with an activation is refused exactly when a record is there that belongs to another device, is newer, or has this epoch retired or under another id or key; a live route of the same epoch gets its token and generation again |
| `ActivationEffects.FastRegistration` | overlay/src/profile_activation.rs:520-532 | A fast one passes only where the burst limiter lets it, and otherwise fares like a plain one |
| `ActivationEffects.LimiterStage` | overlay/src/profile_activation.rs:541-543 | Without a reusable lease a fast registration goes on only where the limiter lets it, and its table is what the limiter leaves |
| `ActivationEffects.RememberStage` | overlay/src/profile_activation.rs:842-855 | A peer is refused exactly when it is unknown and the set is full; only one without a record needs a reservation |
| `ActivationEffects.ReserveStages` | overlay/src/profile_activation.rs:829-840 | The reservation is counted at once, and granted exactly when the size read before leaves room beside the others |
| `ActivationEffects.IssueStage` | overlay/src/profile_activation.rs:548-566 | A new lease carries the registration's own identity, the random token and the next generation, recorded as its peer's |
| `ActivationEffects.ClaimCommitted` | overlay/src/profile_activation.rs:180-226 | Committing a claim writes exactly the claim, the route and the current time into the peer's record, unretired, and touches no other record |
| `ActivationEffects.ClaimDropped` | overlay/src/profile_activation.rs:228-236 | Dropping a claim, renewal or deactivation writes nothing, and a reservation is still given back |
| `ActivationEffects.RenewalDecided` | overlay/src/profile_activation.rs:587-625 | A renewal is accepted exactly for the epoch, id, token and generation of the live record; without a live record a plain one is accepted untracked |
| `ActivationEffects.RenewalCommitted` | overlay/src/profile_activation.rs:269-291 | Committing it gives the record the new route and the current time, and nothing else, if it still is that unretired generation |
| `ActivationEffects.DeactivationDecided` | overlay/src/profile_activation.rs:645-686 | A deactivation is accepted exactly for the uuid, epoch, id, token and generation of the live record |
| `ActivationEffects.DeactivationRetires` | overlay/src/profile_activation.rs:312-340 | Committing it leaves the record retired, without route and token and otherwise as it was, exactly when the route was removed and the record still is that lease; else nothing happens |
| `ActivationEffects.DeactivatedStaysOut` | overlay/src/profile_activation.rs:312-340 | In every execution, from a committed deactivation on and while the record is retained, every registration of that or an earlier epoch is refused and no verification of one succeeds |
| `ActivationEffects.DeactivatedStaysDead` | overlay/src/profile_activation.rs:312-340 | And in every later state, retained or not, no renewal or deactivation naming the deactivated generation is accepted |
| `ActivationEffects.VerifiedExactly` | overlay/src/profile_activation.rs:783-804 | A verification succeeds exactly for the uuid, epoch and activation of the live record, with its token among those named |
| `ActivationEffects.TouchRefreshes` | overlay/src/profile_activation.rs:688-705 | A touch moves the date of a live record that holds this very route to now, and changes nothing else |
| `ActivationEffects.DisconnectDarkens` | overlay/src/profile_activation.rs:707-731 | A disconnection takes route and token from a live record that holds this very route, and else does nothing |
| `ActivationEffects.OwnRouteExpires` | overlay/src/profile_activation.rs:905-917 | A request first takes its own peer's route away exactly when that is 45 seconds old by the clock it read |
| `ActivationEffects.SweptRecord` | overlay/src/profile_activation.rs:919-936 | What a sweep makes of each record: dropped after 15 minutes without a route, darkened after 45 seconds without a refresh, else left as it is |
| `ActivationEffects.FirstAccess` | overlay/src/profile_activation.rs:462-468 | A registration counts, sweeps on every 256th count and then looks at its own route; a touch or disconnection goes straight to its record; the others look at their route first |
| `ActivationTimes.OnlyCurrentRoutesCount` | overlay/src/profile_activation.rs:765-804 | In every execution the route that a registration, renewal, deactivation or verification goes by is not 45 seconds old |
| `ActivationTimes.RecordKept` | overlay/src/profile_activation.rs:919-936 | In every execution a record is kept for 15 minutes after its date, whatever happens meanwhile |
| `ActivationTimes.DeactivatedForRetention` | overlay/src/profile_activation.rs:312-340 | So for 15 minutes after a committed deactivation, whatever happens meanwhile, registrations of that or an earlier epoch are refused and none of them verifies |
| `ActivationTimes.LeaseLivesOn` | overlay/src/profile_activation.rs:905-936 | In every execution a live lease keeps route, token and generation for 45 seconds after its date, whatever other peers do, unless its own peer commits or disconnects something or its socket is closed |
| `ActivationTimes.TouchedLivesOn` | overlay/src/profile_activation.rs:688-705 | A touched lease is verified and renewable for 45 seconds more |
| `ActivationTimes.RenewedLivesOn` | overlay/src/profile_activation.rs:269-291 | So is one whose renewal has committed, with the new route |
| `ActivationTimes.RegisteredLivesOn` | overlay/src/profile_activation.rs:180-226 | So is one whose registration has committed, under the claim's token and generation |
| `RelayWire.ParseEncode` | overlay/src/fast_media_relay.rs:631-669 | Parsing undoes encoding for every request header, whatever follows it |
| `RelayWire.EncodeParse` | overlay/src/fast_media_relay.rs:631-669 | Everything that parses is the encoding of a request header |
| `RelayWire.RepliesDoNotParse` | overlay/src/fast_media_relay.rs:631-669 | Reply kinds 2 and 4 never parse as requests |
| `RelayWire.CookieBytesInjective` | overlay/src/fast_media_relay.rs:566-583 | The bytes under the cookie MAC determine address, port, role, session, allocation, nonce and epoch |
| `ReplayWindows.AcceptRefines` | overlay/src/fast_media_relay.rs:821-847 | The 128-bit bitmap makes the decision of the plain set of accepted numbers and goes on representing it |
| `ReplayWindows.WindowIsExact` | overlay/src/fast_media_relay.rs:821-847 | After any arrivals in any order, a number is accepted exactly when it is positive, not yet accepted, and above the maximum or less than 128 below it |
| `ReplayWindows.StaysSpent` | overlay/src/fast_media_relay.rs:821-847 | An accepted number stays refused whatever arrives next |
| `TokenBuckets.AllowPays` | overlay/src/fast_media_relay.rs:909-918 | What a call admits is covered by credit plus inflow since the last instant |
| `TokenBuckets.CreditGrows` | overlay/src/fast_media_relay.rs:909-918 | Credit grows by no more than rate times elapsed time |
| `MediaRelaySafety.TableStep` | overlay/src/fast_media_relay.rs:289-313 | Every datagram and every tick keeps the queue a duplicate-free enumeration of the table, the table in its cap, and the limiters sound |
| `MediaRelaySafety.CleanAdvances` | overlay/src/fast_media_relay.rs:585-609 | Per queue entry inspected an expired allocation moves one place up or is dropped |
| `MediaRelayTheorems.TableAlwaysOk` | overlay/src/fast_media_relay.rs:410-466 | In every state of every run the queue enumerates exactly the allocations, at most max_allocations of them, each with a bound role |
| `MediaRelayTheorems.TermsFixed` | overlay/src/fast_media_relay.rs:421-434 | Session id and grant terms of an allocation never change in its lifetime, and a bound role stays bound |
| `MediaRelayTheorems.BindingsAreProven` | overlay/src/fast_media_relay.rs:339-466 | Every address bound to a role got there by a bind from that address with a fresh cookie and a verified grant for that role, allocation and terms |
| `MediaRelayTheorems.MediaStaysInItsAllocation` | overlay/src/fast_media_relay.rs:474-545 | Media leaves from the address bound to the sending role to the address bound to the opposite role of the same live allocation, with only the outer header removed |
| `MediaRelayTheorems.SequenceForwardedOnce` | overlay/src/fast_media_relay.rs:528-544 | In one lifetime of an allocation, rebinds included, no two forwarded datagrams of a role agree in bytes 46 to 53, the sequence number |
| `MediaRelayTheorems.SentAtMostBurstPlusRate` | overlay/src/fast_media_relay.rs:849-869 | Between any two instants one role sends at most burst plus wire rate times elapsed time, across any number of rebinds |
| `MediaRelayTheorems.ExpiredCannotRevive` | overlay/src/fast_media_relay.rs:767-780 | Past its grants' expiry or 300 seconds of age, an allocation's media is dropped and no bind makes it less past its end; once the grants have expired a bind has no effect at all |
| `MediaRelayLifetimes.ExpiredIsRemoved` | overlay/src/fast_media_relay.rs:585-609 | Past either end it is removed within floor(position/64)+1 ticks whatever arrives meanwhile |
| `MediaRelayLifetimes.AgedIsRemoved` | overlay/src/fast_media_relay.rs:767-780 | For one over 300 seconds old that holds whatever the wall clock does |
| `MediaRelayTheorems.NoAmplification` | overlay/src/fast_media_relay.rs:289-337 | Over any run the bytes sent never exceed the bytes received |
| `MediaRelayIngress.IngressBound` | overlay/src/fast_media_relay.rs:547-564 | Between any two instants the packets and bytes admitted are at most one second of the global rates plus the rates times elapsed time |
| `MediaRelayIngress.SourceBound` | overlay/src/fast_media_relay.rs:547-564 | The same for each source and the per-source rates, however often the source was forgotten and admitted anew |
| `MediaRelayIngress.ForgottenCovered` | overlay/src/fast_media_relay.rs:585-609 | Forgetting a source after a minute gives it no credit it would not have had |
| `MediaRelayIngress.OnlyAdmittedCounts` | overlay/src/fast_media_relay.rs:289-313 | A datagram that is malformed or over a limit gets no answer and leaves allocations and queue as they were |
| `MediaRelayIngress.TrafficPays` | overlay/src/fast_media_relay.rs:871-890 | An admitted datagram pays one packet and its size, a refused one never earns credit |
| `MediaRelayIngress.SourcesBounded` | overlay/src/fast_media_relay.rs:547-564 | The table of sources never exceeds 4096 entries |
| `MediaRelayRebinds.MovesSpaced` | overlay/src/fast_media_relay.rs:436-455 | In every run, twenty-five moves of one role within a lifetime of its allocation span a minute or more |
| `MediaRelayRebinds.TwentyFourAtOnce` | overlay/src/fast_media_relay.rs:789-813 | The window being a fixed one, twelve moves at its end and twelve a millisecond later are all allowed |
| `MediaRelayRebinds.RefusedOnlyWhenFull` | overlay/src/fast_media_relay.rs:789-813 | A move is refused only after twelve allowed ones within the last minute |
| `MediaRelayEngine.ReplayFilter.AcceptSequence` | overlay/src/fast_media_relay.rs:821-847 | The window updated in place decides by the set it stands for and adds to it exactly what it accepts |
| `MediaRelayEngine.TokenBucket.AllowAmount` | overlay/src/fast_media_relay.rs:909-918 | The bucket updated in place pays for what it admits |
| `MediaRelayEngine.Engine.HandleDatagram` | overlay/src/fast_media_relay.rs:289-313 | Every datagram keeps queue, tables and limiters in order, what goes out is no longer than what came in, and state and output are those of the step the run theorems are about |
| `MediaRelayEngine.Engine.CleanupTick` | overlay/src/fast_media_relay.rs:585-609 | The loop over at most 64 queue entries keeps queue and tables in order and leaves the state of the cleanup step |
| `RelayWire.FrameRead` | overlay/src/fast_media_relay.rs:926-937 | Reading a media frame gives back the number it was written with, exactly for the role and session it was written for |
| `RelayWire.FrameWritten` | overlay/src/fast_media_relay.rs:926-937 | Everything that is read as media is a frame written for that role and session with the number in its bytes 14 to 21 |
| `TokenBuckets.CreditRefills` | overlay/src/fast_media_relay.rs:909-918 | Credit refills at the rate up to the capacity, however often it is looked at |
| `TokenBuckets.AllowTakes` | overlay/src/fast_media_relay.rs:909-918 | A call is admitted exactly when the credit covers it and takes exactly what it admits |
| `TokenBuckets.AdmitsExactly` | overlay/src/fast_media_relay.rs:899-918 | After any asks, a bucket that began full admits the next one exactly when, from every earlier ask on, the admitted amounts with it come to at most the capacity plus what has flowed in since |
| `TokenBuckets.WireLimits` | overlay/src/fast_media_relay.rs:854-864 | The rate is 145 % of the granted one, rounded up to whole kbit/s and then to whole bytes a second; the burst is 50 ms of it and at least 256 KiB |
| `MediaRelayForwarding.ForwardedExactly` | overlay/src/fast_media_relay.rs:474-545 | In every run and lifetime, media is passed on exactly when it is a frame of its role and allocation, in time, from the role's address, within the datagram limit and past the relay's own limits, its number is fresh among those the role has used, and the bytes sent since every earlier event stay within burst plus wire rate |
| `MediaRelayForwarding.WindowHolds` | overlay/src/fast_media_relay.rs:821-847 | Throughout a lifetime, across all rebinds, a role's window stands for exactly the numbers of its media that came and were fresh when they came |
| `MediaRelayForwarding.MediaIgnored` | overlay/src/fast_media_relay.rs:474-527 | Any other media datagram changes no allocation and is not sent |
| `MediaRelayAnswers.PassesExactly` | overlay/src/fast_media_relay.rs:547-564 | A datagram passes exactly when the credit of the whole relay covers it and so does its source's, a full second's worth for a new source while sources still fit |
| `MediaRelayAnswers.HelloExactly` | overlay/src/fast_media_relay.rs:315-337 | A hello is answered exactly when it is 56 bytes with zeros where the cookie goes, with its own nonce and the first eight bytes of the MAC, and changes no table |
| `MediaRelayAnswers.BindProvesExactly` | overlay/src/fast_media_relay.rs:339-409 | A bind proves terms exactly when its length field is right, its cookie is of this ten seconds or the last for this very address, role, session, allocation and nonce, and the signed grant is for this role, allocation, relay and port with every field in range; the terms are the grant's |
| `MediaRelayAnswers.BindExactly` | overlay/src/fast_media_relay.rs:410-472 | It is answered exactly when it proves terms that agree with the allocation, or there is room for a new one, and the role is free, at this address already, or may still move; then the role is at this address |
| `MediaRelayAnswers.BindingsAreSigned` | overlay/src/fast_media_relay.rs:339-472 | In every run each bound address itself sent a bind with such a cookie and such a grant, and the allocation's terms are those of the grant |
| `MediaRelayLifetimes.ActivityExactly` | overlay/src/fast_media_relay.rs:456-545 | An allocation's idle time starts anew exactly with the binds answered and the media passed on for it |
| `MediaRelayLifetimes.InTimeIsKept` | overlay/src/fast_media_relay.rs:585-609 | In every run an allocation that is within its grants, 300 seconds, the idle time and, until both roles are bound, the half-bind time at every tick is never dropped |
| `MediaRelayLifetimes.OutOfTimeIsRemoved` | overlay/src/fast_media_relay.rs:585-609 | One that is out of any of them at every tick is dropped within floor(position/64)+1 ticks |
| `MediaRelayLifetimes.SourcesKept` | overlay/src/fast_media_relay.rs:605-609 | A tick forgets a source exactly when it was not heard for over a minute, and changes no other's limits |
| `MediaRelayLifetimes.SourceHeard` | overlay/src/fast_media_relay.rs:547-564 | A datagram that passes is counted against its own source at once, and against no other |
| `GrantStore.OneGrantPerSession` | overlay/src/fast_relay.rs:343-352 | Under the correspondence of the three maps a session has at most one grant |
| `GrantStore.RemoveKeeps` | overlay/src/fast_relay.rs:592-598 | Removing a grant keeps grants, sessions and responses in exact correspondence and frees one place |
| `GrantStore.CleanupKeeps` | overlay/src/fast_relay.rs:551-570 | Expiry keeps the correspondence and retains exactly the current grants |
| `GrantStore.InsertKeeps` | overlay/src/fast_relay.rs:405-440 | Replacing or evicting and then inserting keeps the correspondence and the size bound |
| `GrantStore.RateAccounts` | overlay/src/fast_relay.rs:572-590 | A source is refused exactly when the table remembers 120 signatures of its minute; one signature counts once, for that source alone, and the table keeps to its size |
| `GrantAcceptance.ServeKeeps` | overlay/src/fast_relay.rs:275-449 | Any request or response, after expiry, keeps the three maps in correspondence, every stored pair genuine, and the store within max(1, cap) |
| `GrantAcceptance.StoreAlwaysSound` | overlay/src/fast_relay.rs:343-440 | In every state of every run under policies of at most cap grants all of that holds |
| `GrantAcceptance.AuthorizedIsStored` | overlay/src/fast_relay.rs:353-364 | A successful answer is the stored, unexpired target half for this very request |
| `GrantAcceptance.BothSidesServed` | overlay/src/fast_relay.rs:451-482 | In every run, after a session was authorized, its other side is answered with the other half of the same pair exactly while the grant stands, is current, and policy generation and relay are the same |
| `GrantHandshake.IssuedPairValidates` | overlay/src/fast_media_relay.rs:685-724 | Each half of an issued pair is accepted for its own role exactly while unexpired and not more than 300 s ahead, with the same terms as the other half, and refused for the other role |
| `GrantHandshake.HelloCookieBinds` | overlay/src/fast_media_relay.rs:315-383 | The cookie an endpoint reads from the answer to its hello is good for a bind from the same address in the same or the next epoch |
| `GrantHandshake.PacketProvesTerms` | overlay/src/fast_media_relay.rs:339-409 | The bind datagram an endpoint builds from its half and that cookie parses and proves the pair's terms to the relay |
| `GrantHandshake.PairMeetsAtRelay` | overlay/src/fast_media_relay.rs:410-472 | In every run of the relay the first endpoint of an issued pair to bind opens the allocation, and whatever arrives meanwhile the second takes its role beside it, unless that role was bound elsewhere and has used up its moves |
| `GrantStoreObject.FastRelayState.FindOldest` | overlay/src/fast_relay.rs:600-609 | Finds a grant no other is older than, if there is any |
| `GrantStoreObject.FastRelayState.RemoveOldestGrant` | overlay/src/fast_relay.rs:600-609 | Evicts exactly such a grant |
| `GrantStoreObject.FastRelayState.RemoveOldestRate` | overlay/src/fast_relay.rs:611-620 | Evicts exactly an oldest signing window |
| `GrantStoreObject.FastRelayState.ConsumeSigningRate` | overlay/src/fast_relay.rs:572-590 | Verdict and table are those of the accounted limiter, with an oldest entry evicted when full |
| `GrantStoreObject.FastRelayState.InsertRecord` | overlay/src/fast_relay.rs:405-440 | The store after replacement, eviction and the three insertions is that of the insert step |
| `GrantStoreObject.FastRelayState.AuthorizeRequest` | overlay/src/fast_relay.rs:275-449 | State and answer of the authorization path are those of the authorize step, the victim being an oldest grant |
| `GrantStoreObject.FastRelayState.AuthorizationForRequest` | overlay/src/fast_relay.rs:129-158 | Expiry and authorization together keep the store sound and are one serve step |
| `GrantDecisions.AnsweredExactly` | overlay/src/fast_relay.rs:275-365 | An initiator is answered exactly when it may proceed with the verdict allow over a protected transport, policy, session and relay name are in range, the quality choice if any is of this policy, relay and target, key and clock are at hand, no standing grant has the session for other addresses, and a grant stands for it or can be signed within the source's 120 a minute |
| `GrantDecisions.AnsweredWith` | overlay/src/fast_relay.rs:353-449 | With the target half of the grant that stands, nothing changed, or of a new pair over the request's own session, relay, expiry and limits, which then stands beside all others but the one evicted for room |
| `GrantDecisions.RespondedExactly` | overlay/src/fast_relay.rs:451-482 | The answering side is answered exactly when some standing grant has its session and address under this policy generation and relay, with that grant's controller half |
| `GrantDecisions.RespondedUnexpired` | overlay/src/fast_relay.rs:451-482 | Whatever is on record, only an unexpired grant of this policy generation and relay is handed out |
| `GrantDecisions.BuiltExactly` | overlay/src/fast_relay.rs:485-533 | One grant is built exactly for a session, relay and rate in range, and for media with a 16-byte allocation and a role; every field of it |
| `GrantDecisions.NormalizedExactly` | overlay/src/fast_relay.rs:629-640 | Only an IPv4 address written as an IPv6 one is read as another address, namely that one |
| `GrantDecisions.InsertedExactly` | overlay/src/fast_relay.rs:405-440 | After an insertion stand the new grant and all that stood, unchanged, but for the one evicted when full |
| `EnrollmentResume.WritesResume` | overlay/src/pairing.rs:1782-1871 | With the first k of a list of installs done, the writes already there are accepted, the rest follow in order, and power loss leaves exactly as many more files as there was power for |
| `EnrollmentResume.FinishedRetryResumes` | overlay/src/pairing.rs:678-787 | A retry that finds the marker verifies it and finishes the two removals from wherever they stopped |
| `EnrollmentResume.EnrollResumes` | overlay/src/pairing.rs:536-622 | One attempt from any of the fifteen stages never meets a conflict: it finishes, or advances by exactly its power, or stops undamaged where an absent broker is needed |
| `EnrollmentResume.AttemptsReach` | overlay/src/pairing.rs:536-622 | Any series of attempts, each cut off anywhere, leaves a stage of one and the same plan |
| `EnrollmentResume.InterruptedEnrollmentFinishes` | overlay/src/pairing.rs:536-622 | One attempt with power and broker then finishes in the disk state of an uninterrupted run, with the first written key |
| `EnrollmentResume.MarkerMeansComplete` | overlay/src/pairing.rs:1231-1340 | After any attempts, a present marker means all ten files hold the bundle's content |
| `EnrollmentResume.OtherCodeRefused` | overlay/src/pairing.rs:1391-1403 | From the pending record on, another pairing code is refused and the disk stays as it is |
| `EnrollmentAnyDisk.EnrollPreserves` | overlay/src/pairing.rs:1782-1848 | On any directory whatever, a run changes or drops no file but its own two pending ones |
| `EnrollmentAnyDisk.EnrollSucceedsOnlyComplete` | overlay/src/pairing.rs:997-1054 | On any directory without a marker, success means one whole bundle that passed every check is installed and nothing is pending |
| `EnrollmentDirectory.Directory.WriteEntries` | overlay/src/pairing.rs:1231-1340 | Installs in order and stops at the first conflict or power loss |
| `EnrollmentDirectory.Directory.RelayEnroll` | overlay/src/pairing.rs:536-622 | On any directory the command leaves every file alone but its two pending ones and reports a first enrollment done only with one whole usable bundle installed; from any stage of a plan it ends as the resume theorems say |
| `EnrollmentPreflight.LoadedLines` | overlay/src/pairing.rs:1301-1313 | Loading an exported variable file gives the variables back |
| `EnrollmentStart.FinishedDirectoryStarts` | overlay/src/relay_enrollment.rs:56-207 | An installed directory with the environment loaded from its own export passes every check exactly when the node id has no outer blanks or control characters, every file whose size enrollment leaves open is within 64 KiB, the secret does not occur in the export, and the certificates have not run out |
| `EnrollmentStart.EnrolledRelayStarts` | overlay/src/pairing.rs:536-622 | End to end: after any interrupted attempts the finished enrollment starts exactly when that condition holds |
| `EnrollmentStart.BlankNodeIdCannotStart` | overlay/src/relay_enrollment.rs:142-145 | A bundle with a blank at the end of its node id that enrollment accepts and whose relay never starts |
| `EnrollmentStart.OversizedCaCannotStart` | overlay/src/relay_enrollment.rs:245-266 | The same for an authority certificate text one byte over 64 KiB |
| `EnrollmentDecisions.EnrollExactly` | overlay/src/pairing.rs:536-622 | On any directory whatever and with power enough, the command succeeds exactly when the code is good and, with a marker, the finished enrollment is its own and key, certificate and pending files bear it out, or, without one, its key and record are usable, the broker answers this very claim with a good bundle in time, and none of the ten files is there as another |
| `EnrollmentDecisions.BundleExactly` | overlay/src/pairing.rs:997-1054 | Which bundles are usable, field by field: configuration digest, key and authority certificate valid now and chained, profile, names, capacities, secret and key lengths |
| `EnrollmentDecisions.ClaimExactly` | overlay/src/pairing.rs:840-953 | A bundle is granted exactly when the broker answers the claim bound to this code, key and request, before the code expires, and echoes all of it |
| `EnrollmentDecisions.CodeExactly` | overlay/src/pairing.rs:306-345 | Which pairing codes are usable: an enrollment, a configuration digest, a 32-byte secret, at most an hour to run |
| `EnrollmentDecisions.KeyExactly` | overlay/src/pairing.rs:789-838 | The key an attempt goes by: the pending one if it is private and readable, else, where there is no node key yet, a new one that is written first |
| `EnrollmentDecisions.RecordExactly` | overlay/src/pairing.rs:1391-1403 | The pending record is accepted exactly if it is that of this code, key and request, and written if there is none |
| `EnrollmentDecisions.RetryExactly` | overlay/src/pairing.rs:678-787 | A marker counts as this enrollment finished exactly if it is well-formed and of this code, the node key and a certificate valid now match it, and so does whatever is pending |
| `EnrollmentDecisions.InstalledIs` | overlay/src/pairing.rs:1231-1340 | The ten installed files, content and mode, in terms of bundle, code, key and host |
| `EnrollmentDecisions.JoinExactly` | overlay/src/pairing.rs:1231-1313 | A path is joined with one slash, whether or not the directory ends with one |
| `Texts.TrimExactly` | overlay/src/relay_enrollment.rs:402-411 | Trimming takes blanks off both ends, and all that are there |
| `EnrollmentRefusals.PreflightExactly` | overlay/src/relay_enrollment.rs:56-207 | A relay with a directory named to it starts exactly when that is its own place, all ten files are kept as they must be, marker and configuration are whole and agree, key, certificate and authority prove the node, the host is the one enrolled, and the process was given what the configuration and the exported text say |
| `EnrollmentRefusals.CloneRefused` | overlay/src/relay_enrollment.rs:153-160 | A directory enrolled on one machine never starts on another, whatever the process is given |
| `EnrollmentRefusals.CloneDetected` | overlay/src/relay_enrollment.rs:153-160 | Where the first machine would start, the other answers relay_enrollment_host_clone_detected |
| `EnrollmentRefusals.FileDriftRefused` | overlay/src/relay_enrollment.rs:83-207 | With one file of a starting directory replaced by any other, the relay starts exactly if that one is as well kept and says the same of what is compared; what is not compared is listed file by file |
| `EnrollmentRefusals.MissingFileRefused` | overlay/src/relay_enrollment.rs:91-106 | Without one of the ten files it never starts |
| `EnrollmentRefusals.EnvironmentDriftRefused` | overlay/src/relay_enrollment.rs:161-207 | With any other environment or server key it starts exactly if directory, secret file, endpoint, capacities, draining flag, media port and key say the same |
| `IntrospectionCaches.Cache.Lookup` | overlay/src/connection_auth.rs:429-437 | A hit is the latest stored verdict for the hash, within the positive time and the token's own rest for one that allows, within the negative time for one that denies; the latest verdict of each of the cap-many most recently stored hashes does hit so long |
| `IntrospectionCaches.Cache.Ask` | overlay/src/connection_auth.rs:338-376 | A token out by more than the skew is refused before the cache is asked; otherwise the latest stored verdict answers, a denial before the negative seconds have passed since storing, an allowance before the positive seconds and the token's rest have, and always so for the most recent hashes |
| `IntrospectionCaches.Cache.Learn` | overlay/src/connection_auth.rs:377-406 | Whatever happened since the request missed, its answer allows only for the token's own subject, and is remembered unless no permit was free or it has no time to live |
| `IntrospectionCaches.Cache.Store` | overlay/src/connection_auth.rs:439-482 | A verdict that allows a token not yet out, or that denies, becomes the latest for its hash where the configuration keeps such at all; the size never exceeds the cap |
| `IntrospectionCaches.Cache.FindOldest` | overlay/src/connection_auth.rs:471-478 | Finds the entry stored longest ago |
| `IntrospectionCaches.EvictKeeps` | overlay/src/connection_auth.rs:471-481 | Evicting the oldest of too many entries loses none of the cap-many most recent hashes |
| `IntrospectionCaches.ExpireKeeps` | overlay/src/connection_auth.rs:429-437 | Dropping expired entries loses nothing promised from then on |
| `IntrospectionCaches.OutlivesExactly` | overlay/src/connection_auth.rs:338-468 | A positive verdict is served beyond its token's expiry exactly when the request took longer than the token's life exceeds the cache time by, and was answered before the token was out by more than the skew |
| `IntrospectionCaches.SlowAnswerOutlives` | overlay/src/connection_auth.rs:447-468 | Under the default configuration a cache that is asked, told and asked again allows a token two seconds after its expiry |
| `CanonicalJson.SortedPreservesLookups` | overlay/src/pairing.rs:1509-1526 | Along every path the canonical value has the canonical form of what the value has there |
| `CanonicalJson.SortedDecides` | overlay/src/pairing.rs:1509-1526 | Two values have the same sorted form exactly when they are equal up to the order of object keys |
| `CanonicalJson.SortedIdempotent` | overlay/src/pairing.rs:1509-1526 | Canonicalising twice is canonicalising once |
| `LocalControl.ReceivedExactly` | overlay/src/local_control.rs:125-204 | A payload is received exactly when the stream begins with its frame, it has 1 byte to 1 MiB, and the first read did not run past the frame |
| `LocalControl.FrameRoundTrip` | overlay/src/local_control.rs:355-365 | The frame the writer encodes comes through for every first split; every strict prefix is refused |
| `LocalControl.FramesAlike` | overlay/src/local_control.rs:355-365 | No frame is the beginning of another |
| `LocalControl.Stream.ReadRequest` | overlay/src/local_control.rs:125-159 | For every stream and every way of cutting it the reader meets that description, and leaves what follows the frame unread |
| `LocalControl.Stream.ReadFramed` | overlay/src/local_control.rs:161-205 | Length and payload are taken from read-ahead and stream together, with the five refusals of the format |
| `LocalControl.Stream.ReadBuffered` | overlay/src/local_control.rs:207-228 | Fills the buffer from the read-ahead bytes first and succeeds exactly when enough bytes exist |
| `LocalControl.Stream.ReadExact` | overlay/src/local_control.rs:207-228 | Collects exactly the next bytes over any number of short reads, or fails at the end of the stream |
| `LocalControl.ConstantTimeEq` | overlay/src/local_control.rs:330-339 | The accumulated difference is zero exactly for equal inputs, lengths included |
| `RelayLoad.StepExact` | scripts/apply_overlay.py:1435-1478 | From exact counters no step clamps, the session count stays exact, and the total stays exact exactly when the averages' sum still fits the counter |
| `RelayLoad.CountersExact` | scripts/apply_overlay.py:1419-1478 | In every interleaving whose averages fit, active sessions equal the open guards, total bandwidth equals the sum of their averages, and no subtraction clamps |
| `RelayLoad.SessionsBounded` | scripts/apply_overlay.py:1436-1447 | Open sessions never exceed the largest capacity admissions were made under |
| `RelayLoad.AverageIsOwn` | scripts/apply_overlay.py:1449-1470 | In every interleaving a guard's average is that of its own samples alone |
| `RelayLoad.SmoothedWithin` | scripts/apply_overlay.py:1449-1457 | After an initial run of zeros the average lies between the least and the greatest sample |
| `RelayLoad.LoadCounters.TryNew` | scripts/apply_overlay.py:1436-1447 | Admits exactly when not draining and below capacity |
| `RelayLoad.LoadCounters.UpdateGuard` | scripts/apply_overlay.py:1449-1470 | Moves the total by the change of the guard's average |
| `RelayLoad.LoadCounters.DropGuard` | scripts/apply_overlay.py:1473-1478 | Gives back exactly the guard's bandwidth and one session |
| `RelayLimits.ReplayCache.InsertFresh` | scripts/apply_overlay.py:1107-1131 | A nonce is refused exactly when it is among the last 4096 accepted ones and no older than 30 seconds |
| `RelayLimits.ProbeLimiter.Allow` | scripts/apply_overlay.py:1140-1163 | The verdict is that of the minute's accepted probes under both limits, and exactly an allowed probe is added to them |
| `RelayLimits.ProbeLimiter.GlobalIsSum` | scripts/apply_overlay.py:1140-1163 | In every state the limiter keeps, the global count equals the sum of the per-source counts |
| `RelayLimits.TotalIsAccepted` | scripts/apply_overlay.py:1140-1163 | The per-source counts add up to the number of probes accepted in the minute |
| `RelayLimits.MinuteBound` | scripts/apply_overlay.py:1140-1163 | With a clock that does not run back no minute passes more probes than the global limit, nor more of one source than its limit |
| `RelayLimits.SourcesBounded` | scripts/apply_overlay.py:1140-1163 | The table of sources never exceeds its capacity |
| `IntrospectionCaches.LastsExactly` | overlay/src/connection_auth.rs:439-468 | An entry expires exactly when the positive time or the token's rest, or for a denial the negative time, has passed since it was stored |
| `IntrospectionCaches.JudgedExactly` | overlay/src/connection_auth.rs:387-400 | Only an active reply for the token's own subject allows; which reason each denial carries |
| `CanonicalJson.LeqExactly` | overlay/src/pairing.rs:1509-1526 | Keys are ordered by the first place where they differ, a prefix first |
| `RelayLoad.AverageExactly` | scripts/apply_overlay.py:1449-1457 | The first sample counts whole, later ones a quarter, rounded down, up to the counter's width |
| `RelayLoad.MovedExactly` | scripts/apply_overlay.py:1458-1478 | The total moves by the change of an average, and is zero where that would take more than there is |

## Left out

- Cryptography and library parsers (Ed25519, HMAC, SHA-256, X.509, protobuf, serde, base64, URLs): parameters, as said above; a JSON file stands for the value it holds, its size for a function of that value.
- Counters and metrics that only report, and log lines.
- Integer wrap-around of 64-bit counters (generations, sequence numbers, cache sequence): counters are unbounded naturals, except in `RelayLoad`, where the width is modelled.
- Rounding of `f64` in token buckets: credit is a real number.
- The SHA-256 of the public key in the burst limiter's identity is the key itself.
- MediaRelayTheorems.SequenceForwardedOnce: is per lifetime of an allocation, because a new allocation starts a new window.
- RelayLoad.SmoothedWithin: needs samples below a quarter of the counter's range, because above it the multiplication saturates.
- RelayLimits.ReplayCache.InsertFresh: needs a clock that does not run back, because the front of the queue decides when to stop dropping.
- GrantStore.RateAccounts: counts what the table remembers, because a source whose window was evicted for room starts anew.
- IntrospectionCaches.OutlivesExactly: takes the wall clock and the monotonic clock to run together, because the source compares times read from both.
- EnrollmentStart.FinishedDirectoryStarts: takes a data directory without a line break in its name, because the line-based export cannot carry one.
- GrantHandshake.PairMeetsAtRelay: takes cookies of eight bytes and signed grants of at most 4096, facts about the libraries and the message format.
- Registration and renewal methods on the registry object: the transition system models them step by step, because they interleave with other tasks; the object has the methods that run under one lock.
- Crashes inside one atomic file install, and temporary files: below the step size.
- File type, link count, directory permissions and mount checks of the enrollment directory; file modes and sizes are modelled.
- Error codes of certificate and bundle checks: several causes share one code in `EnrollmentModel` and `EnrollmentPreflight`.
- Environment files are read as plain NAME=VALUE lines without quoting; `RELAY_DATA_DIR` comes from the deployment.
- The exclusive lock taken at the end of the start-up check, and starting without an enrollment directory.
- Bytes of serialized JSON after key sorting.
- JSON and field validation of local control requests after framing, and time-outs.
- Control-agent pairing, adoption and rotation, which replace files under an existing marker.
- Networking, TLS, HTTP routing, JWKS fetching, geo lookup, SQLite, configuration storage and the text patching of the overlay script: plumbing around the modelled logic.
- `allocation_explain.rs` and `config_downgrade.rs`: look-ups and field copies with nothing to relate them to.
