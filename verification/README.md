# Verified models of mlvpn-rs

mlvpn-rs is a VPN daemon that bonds several links into one tunnel. This project models the
parts of it whose correctness is hardest to see from the code and proves what they promise,
for every input, every run or every reachable state. `dafny verify dfyconfig.toml` checks
all of it.

Each component has a specification on values (datatypes, functions, lemmas) about which the
properties are proved. Where the source changes objects or buffers in place there are classes
or array methods as well, and each is proved to take exactly the specified step.

- Forward error correction: `Bytes`, `Gf` (the field GF(256)), `GfTables`, `FecGroup`
  (sender), `FecCodec` (wire format), `FecReceiver` (the receiver as a state machine),
  `FecRecovery`, `FecSafety`, `FecParking`, `FecRuns`, `FecOnce` (nothing is recovered twice),
  `FecTwice`, `FecOpenRuns`, `FecSoundness`, `FecEndToEnd`, `FecCompletion`, `FecVerdict` (every
  answer in plain terms), `FecTracking`, `FecRetention` (how long a payload is kept),
  `FecAccounts` (what becomes of parked groups), `FecPersistence` (whole waits of parked
  groups), `FecRestart` (what a restart leaves behind), `FecLimits` (duplicates), and
  `FecBuffer` (sender and receiver in place). `Common` holds what several modules share.
- Link scheduling: `Swrr` (smooth weighted round robin), `SwrrExclusion`, `Scheduling` (state and steps),
  `RateCap`, `SchedulerRuns`, `SchedulerWeights`, `SchedulerTrackers`, `Penalties`, `Primary`
  (with `PrimaryModes`), `Scheduler` (in place), with `Delivery`, `DeliveryTracking` and
  `Congestion` for the weights.
- Batch sending: `Gso` (planning runs), `BatchSend`, `BatchStats`, `BatchSocket` (the send loops).
- MSS clamping: `Checksum`, `Mss` (with `MssClamp`, in place), `MssPackets` (packets built from
  their fields), `MssFragments`.
- Event handling: `Tickets`, `TicketGaps`, `TicketEvents`, `TicketStore`, `Counters`,
  `CounterEvents`.
- Tunnel MTU: `VersionInfo`, `Mtu`, `MtuPeers` (with `MtuMonitor`, in place).

## Conventions

- Floating-point numbers are real numbers. Clocks are read once per operation. Monotonic
  clocks are monotone along a run, and those of `Tickets` and `TicketStore` are signed, as they
  are on Linux, so that a restored time may lie before the last boot; the wall clock of
  `Counters` may step back. Sequence numbers and counters are unbounded unless a
  width matters: bytes, 16-bit fields, the wrapping subtraction of congestion counters and the
  saturating casts are written out.
- The order in which a hash map is walked is arbitrary. Where it can be observed (which of
  several oldest parked groups is evicted) the choice is an argument, and the class methods
  return it as a ghost value.
- The kernel, the network, the device and the probes appear as arguments or as steps of a run
  that may be chosen freely.
- In a run of the receiver an event restarts the stream when its number lies far enough behind
  the highest one. A restart does not clear the parked groups. The bounds, the index and the
  cache laws (`FecOpenRuns`) hold through any restart. Soundness (`FecSoundness.RunSound`)
  holds through a restart into a stream that no parked group of the old one meets;
  `FecRestart.HeldShareIff` and `FecRestart.MixedRun` say what happens when one does. The law
  that nothing is recovered twice (`FecOnce.NoReRecovery`) holds through every restart that no
  parked group reaches beyond, and `FecTwice.RecoveredTwice` breaks it for every restart below
  the last member of a parked pair.
- Counters are counted from zero when they first appear after the first observation
  (`Counters.FirstReading`); the daemon's links are fixed, so there this does not occur.

## Where the code and its comments differ

The model follows the code.

- `src/fec.rs:443-445` calls duplicate delivery impossible. That holds for recoveries
  (`FecOnce.NoReRecovery`). Direct copies are checked against the two seen generations only,
  so a copy is delivered again exactly when two rotations lie between
  (`FecLimits.CopyDeliveredIff`, `FecLimits.ForgottenCopyDelivered`).
- `src/autoreport.rs:12-14` promises one ticket per event; every escalation of an open event
  submits another one. `Tickets.OneTicketIff` says when there is exactly one, and
  `Tickets.ThreeTickets` shows three.
- `src/control.rs:1152-1155` describes the number returned on success as the warnings that
  were swallowed; it is the length of the streak less one, which is larger when the target
  changed during the streak (`Mtu.SuppressedCount`).
- `src/link.rs:1935-1937` says that each retried attempt is counted; `stats.calls` grows once per
  completed wait, so it is the number of system calls exactly when none had to wait
  (`BatchSend.CallsAreAttempts`).
- `src/mss.rs:32-42` says that everything but a well-formed SYN segment is left alone; an IPv4
  fragment that looks like one is clamped as if it were the whole segment
  (`MssFragments.FragmentsPass`, `MssFragments.ClampedFragment`).

## Model

| member | source | states |
|---|---|---|
| `Gf.MulAdd` | src/fec.rs:14-31 | multiplication by repeated doubling distributes over exclusive-or |
| `Gf.MulComm` | src/fec.rs:70-73 | multiplication is commutative |
| `Gf.MulAssoc` | src/fec.rs:70-73 | multiplication is associative |
| `Gf.PowerAdd` | src/fec.rs:63-68 | powers of the generator multiply by adding exponents, which is what makes log/exp tables work |
| `Gf.OrderIs255` | src/fec.rs:15-19 | no power of the generator below 255 is one |
| `Gf.PowerDistinct` | src/fec.rs:15-19 | the powers `g^i` are pairwise distinct for `i < 255` |
| `Gf.PowerNonZero` | src/fec.rs:15-19 | no power of the generator is zero |
| `Gf.LogExists` | src/fec.rs:27-36 | every non-zero element is a power of the generator below 255 |
| `Gf.LogOfPower` | src/fec.rs:27-36 | logarithm and power are mutually inverse |
| `Gf.MulInv` | src/fec.rs:79-83 | `inv` is a true two-sided inverse of every non-zero element |
| `Gf.MulCancel` | src/fec.rs:14-19 | a non-zero factor can be cancelled: there are no zero divisors |
| `Gf.SolveOne` | src/fec.rs:804-814 | one erasure: dividing the weighted share by the coefficient gives the member back |
| `Gf.SolveTwo` | src/fec.rs:815-831 | two erasures: whatever satisfies both share equations is what the formula computes, so there is at most one solution |
| `Gf.SolveTwoExists` | src/fec.rs:815-831 | and for every pair of shares what the formula computes satisfies both equations, so there is one |
| `GfTables.BuildTables` | src/fec.rs:23-44 | the two loops fill 512 exp and 256 log entries that are exactly the powers and logarithms of the field |
| `GfTables.FillTables` | src/fec.rs:28-36 | the doubling loop visits each non-zero element once, at its exponent |
| `GfTables.DoubleExp` | src/fec.rs:38-42 | the second half of the exp table repeats the first, so a sum of two logarithms needs no reduction |
| `GfTables.MulSlow` | src/fec.rs:63-68 | the table product is the field product, zero operands included |
| `GfTables.Pow2Table` | src/fec.rs:76-78 | the table power is the generator power for every exponent, reduced modulo 255 |
| `GfTables.InvTable` | src/fec.rs:81-84 | the table inverse is the field inverse |
| `GfTables.MulTable` | src/fec.rs:51-61 | every entry `c * 256 + x` of the 64 KiB table is the field product of `c` and `x` |
| `GfTables.InitTables` | src/fec.rs:46-49 | all tables are valid after initialisation |
| `GfTables.MulAcc` | src/fec.rs:86-95 | `dst[i]` gains `coef * src[i]` over the length of `src` and nothing else changes |
| `GfTables.Scale` | src/fec.rs:98-103 | every byte is multiplied by `coef` |
| `GfTables.XorInto` | src/fec.rs:186-188 | plain exclusive-or is accumulation with coefficient one |
| `FecGroup.ShareAppend` | src/fec.rs:182-195 | resizing with zeros and accumulating one more member turns the share of a group into the share of the longer group, members of any lengths |
| `FecGroup.AccumulateMember` | src/fec.rs:182-231 | feeding a frame extends the open group, or exactly at the last member emits the P and Q shares of the whole group with its numbers, lengths and links, and starts afresh |
| `FecGroup.SenderCovers` | src/fec.rs:165-231 | over any feed the emitted groups are consecutive chunks of it, in order, and the rest is the open group |
| `FecBuffer.FecSender.constructor` | src/fec.rs:165-175 | a fresh sender holds an empty group |
| `FecBuffer.FecSender.Accumulate` | src/fec.rs:182-231 | the in-place accumulator takes exactly the step specified for it, table lookups included |
| `FecBuffer.FecSender.Fold` | src/fec.rs:183-195 | in place: both shares gain the frame, resized with zeros first |
| `FecCodec.RoundTrip` | src/protocol.rs:556-610 | every share that fits the field widths decodes to itself, whatever bytes follow |
| `FecCodec.DecodeExact` | src/protocol.rs:571-610 | whatever is accepted is the encoding of the result plus trailing bytes |
| `FecCodec.EncodeParity` | src/protocol.rs:556-569 | the buffer-filling loops produce the specified encoding |
| `FecCodec.DecodeShare` | src/protocol.rs:571-610 | the bounds-checked reading loops return the specified result, errors included |
| `FecRecovery.StrippedColumn` | src/fec.rs:775-800 | removing the known members from a share, genuine or not, leaves it plus, column by column, the sum of the missing ones |
| `FecRecovery.RecoverOne` | src/fec.rs:804-814 | one missing member is restored byte for byte from either share alone, truncated to its own length |
| `FecRecovery.RecoverTwo` | src/fec.rs:815-831 | two missing members are restored byte for byte from both shares, for groups of up to 255 |
| `FecRecovery.JudgeKeepsPromise` | src/fec.rs:708-849 | for genuine shares the verdict (complete, need more, unrecoverable, recovered with which bytes) is exactly the promised one |
| `FecSafety.PayloadsAreSeen` | src/fec.rs:428-430 | every cached payload is in one of the two seen generations |
| `FecSafety.MissingIffUnaccounted` | src/fec.rs:901-932 | a member is classified missing exactly when it was never accounted for |
| `FecSafety.AdmitCache` | src/fec.rs:956-996 | marking and caching a new frame keeps the cache invariant, also when the mark rotates a full generation or the insertion evicts |
| `FecSafety.TickCache` | src/fec.rs:861-893 | expiry followed by a timed rotation never drops a generation that still has cached payloads |
| `FecSafety.TickSeen` | src/fec.rs:861-893 | a tick keeps everything accounted for and `seen_floor <= seen_rotation_high <= highest_seq` |
| `FecSafety.AdmitInv` | src/fec.rs:956-996 | admitting one frame keeps the tracking invariant and accounts for that frame and nothing else |
| `FecSafety.AdmitAllInv` | src/fec.rs:835-848 | the same for all frames an evaluation recovers |
| `FecParking.EvaluateInv` | src/fec.rs:708-849 | an evaluation recovers only frames that were outstanding, each once, and accounts for all of them |
| `FecParking.ParkInv` | src/fec.rs:648-670 | parking, with eviction of an oldest group when 512 are parked, keeps index and groups consistent |
| `FecParking.NoParkedNoIndex` | src/fec.rs:482-488 | the index is empty whenever nothing is parked |
| `FecParking.NoteInv` | src/fec.rs:934-954 | noting a number keeps the invariant; across a peer restart this needs the parking to be empty |
| `FecParking.LateMemberSettles` | src/fec.rs:680-704 | a group whose late member arrived is never parked again |
| `FecParking.RecheckOk` | src/fec.rs:682-704 | re-checking for a late member keeps the invariant and recovers only outstanding frames |
| `FecParking.ExpireParkedInv` | src/fec.rs:875-887 | expiring parked groups keeps index and groups consistent |
| `FecOnce.StepOnce` | src/fec.rs:583-893 | every event from every reachable state keeps the tracking invariant, recovers each frame at most once and only outstanding ones; a restart is assumed to find no parked group that lists a member above its number |
| `FecOnce.RunOnce` | src/fec.rs:428-445 | under that assumption every reachable state accounts for all that was delivered or recovered since the last restart |
| `FecOnce.NoReRecovery` | src/fec.rs:428-445 | under that assumption no frame is recovered that was delivered or recovered before, however many rotations have forgotten it |
| `FecOnce.RunKeeps` | src/fec.rs:901-932 | a member once not missing never becomes missing again until the peer restarts |
| `FecTwice.RecoveredTwice` | src/fec.rs:934-954 | the other half, for pairs: whenever a restart is below the last member of a parked pair, a run exists that recovers that member twice |
| `FecTwice.PairIsAhead` | src/fec.rs:934-954 | such a pair violates the assumption exactly when the restart is below its last member |
| `FecOpenRuns.ReachableState` | src/fec.rs:347-373 | in every state of every run, restarts over parked groups and repeated members included, at most 4096 payloads are cached, `payload_order` lists them once each and oldest first, and each is still in a seen generation |
| `FecOpenRuns.IndexAlways` | src/fec.rs:482-488 | in every state of every run whatever, the index points only at live parked groups that wait for that number, so it is empty when nothing is parked |
| `FecOpenRuns.ParkingBounded` | src/fec.rs:648-670 | in every run in which evictions pick an oldest group, at most 512 groups are parked |
| `FecOpenRuns.StepIndex` | src/fec.rs:583-893 | every event from any state with an exact index keeps it exact, and keeps the bound |
| `FecOpenRuns.StepCache` | src/fec.rs:583-893 | every event through monotone time keeps the cache invariant, from any state |
| `FecOpenRuns.AdmitTwice` | src/fec.rs:835-848 | even when a group lists a member twice and the first mark fills the generation |
| `FecSoundness.StepSound` | src/fec.rs:613-849 | an event of a stream yields only true frames of that stream and keeps the state sound for it: payloads genuine, and every parked group its own or one it never meets |
| `FecSoundness.RestartSound` | src/fec.rs:939-953 | a restart leaves a sound state for every following stream that has no group under the key of a foreign parked group and no frame such a group waits for |
| `FecSoundness.RunSound` | src/fec.rs:583-849 | over whole runs, through restarts into such streams, whatever an event recovers is what its stream sent |
| `FecRestart.AfterRestart` | src/fec.rs:934-954 | the same for one restart, from any state: everything the new stream ever recovers, it sent |
| `FecRestart.OneShareIff` | src/fec.rs:804-814 | whatever the share and the length it claims, one missing member is recovered as sent if and only if the length is right and the share agrees with its stream's own on the member's columns |
| `FecRestart.TwoSharesIff` | src/fec.rs:815-831 | two missing members of one length are recovered as sent if and only if both shares agree with their stream's own on the members' columns |
| `FecRestart.OtherShareIff` | src/fec.rs:815-831 | two missing members of any lengths, one share right: they are recovered as sent if and only if the other share, too, is right on the columns of the longer one |
| `FecRestart.HeldShareIff` | src/fec.rs:613-646 | a share of a stream that meets a parked share of the same members and lengths, two members missing, recovers the stream's frames if and only if the parked share agrees with the stream's own on the columns of the longer member |
| `FecRestart.HeldShareOneIff` | src/fec.rs:613-646 | with one member missing it does if and only if the P share of the two agrees with the stream's own on that member's columns |
| `FecRestart.InconsistentShares` | src/fec.rs:752-773 | shares that differ in members, lengths or width recover nothing |
| `FecRestart.WholeShare` | src/fec.rs:182-195 | a share that agrees on all columns is the stream's own |
| `FecRestart.LateMemberIff` | src/fec.rs:682-704 | a late member that leaves one missing recovers it from whatever share is parked if and only if the share is wide enough, and as sent if and only if, too, its length is right and the share agrees with the stream's own on its columns |
| `FecRestart.RestartMixesStreams` | src/fec.rs:934-954 | so a restart over a parked pair, its two members of any lengths, makes the new stream's own other share recover wrong frames unless the parked share happens to be the new stream's |
| `FecRestart.RestartReached` | src/fec.rs:583-646 | and two events after start-up the receiver is in such a state |
| `FecRestart.MixedRun` | src/fec.rs:583-646 | so from start-up, for every pair of every stream: a share of an older stream with the same lengths, a frame far ahead and a share of the new stream recover the new stream's frames if and only if the older share equals its own |
| `FecEndToEnd.ChunkEncodable` | src/protocol.rs:556-569 | every share the sender emits fits the wire format |
| `FecEndToEnd.EndToEnd` | src/fec.rs:182-849 | for any frames fed to the sender, any group size up to 255 and any loss, duplication, delay or reordering of frames and encoded shares, whatever is recovered was fed under that number, byte for byte |
| `FecCompletion.FirstSharePends` | src/fec.rs:746-750 | a first share that finds two members missing leaves the group pending on exactly those two |
| `FecCompletion.LateMemberCompletes` | src/fec.rs:682-704 | in a state where the group is parked and the member unseen, either missing member delivers itself and recovers whatever is then still missing |
| `FecCompletion.OtherShareCompletes` | src/fec.rs:613-646 | in a state where the group is parked, the other share recovers exactly what is still missing |
| `FecCompletion.ShareOutcome` | src/fec.rs:613-646 | the answer to any genuine share is the promised verdict for the state before any parking |
| `FecCompletion.CompleteStays` | src/fec.rs:725-730 | a group all of whose members are accounted for answers every later share with already complete |
| `FecCompletion.StepWait` | src/fec.rs:648-704 | every event keeps the waiting index complete: each parked group can be found from each member it waits for |
| `FecVerdict.RecoversOne` | src/fec.rs:613-646 | a genuine share, all members but one cached, that one in neither seen generation, above the floor and inside the window: the answer is exactly that frame with its bytes |
| `FecVerdict.RecoversTwo` | src/fec.rs:613-646 | the same with two such members when the other share is held: exactly those two frames |
| `FecVerdict.WaitsForTwo` | src/fec.rs:636-670 | without the other share the group is parked, waiting for exactly those two |
| `FecVerdict.TooManyToCome` | src/fec.rs:731-741 | three such members, or two where one share is all that is sent: nothing is recovered |
| `FecVerdict.PayloadGone` | src/fec.rs:731-741 | one such member and another neither cached nor such: nothing is recovered |
| `FecVerdict.NothingToCome` | src/fec.rs:725-730 | no such member: the group is complete |
| `FecVerdict.NeverCombined` | src/fec.rs:752-773 | shares that disagree on members, lengths or size recover nothing, nor does a share shorter than a missing member, whatever the peer sends |
| `FecVerdict.NeverHanded` | src/fec.rs:583-849 | in every run a frame not delivered or recovered since the last restart is in neither seen generation and not cached |
| `FecVerdict.RunRecoversOne` | src/fec.rs:583-849 | in every run over a stream: all members but one were delivered or recovered and are retained, that one never was; then any share of the group recovers it as sent |
| `FecVerdict.RunRecoversTwo` | src/fec.rs:583-849 | the same for two members when the group's other share is held |
| `FecRetention.TickKeepsIff` | src/fec.rs:861-874 | a tick keeps a cached payload if and only if it is younger than the limit |
| `FecRetention.TickParksIff` | src/fec.rs:875-887 | a tick keeps a parked group if and only if it was parked less than the limit ago |
| `FecRetention.StepPlace` | src/fec.rs:583-893 | one event moves a cached payload back by the number of frames it admits, and keeps it exactly when fewer than 4096 came after it and the event is no tick at its limit |
| `FecRetention.FrameKept` | src/fec.rs:347-373 | in every run a frame delivered or recovered stays cached with its bytes until 4096 later ones, a tick two seconds later, or a restart |
| `FecRetention.FrameDropped` | src/fec.rs:347-373 | and no longer, unless it is handed on again |
| `FecTracking.StepTracking` | src/fec.rs:583-849 | an event other than a tick admits exactly the frames it delivers or recovers, in that order, and changes nothing else but the parking |
| `FecAccounts.StepBalance` | src/fec.rs:583-893 | one event: groups parked plus groups given up change by those newly parked, answered and reported, and by no others |
| `FecAccounts.RunBalance` | src/fec.rs:644-893 | in every run every group ever parked is parked still, was answered, is counted as given up, or was reported so by a tick; never more than 512 are parked |
| `FecAccounts.EvictsIff` | src/fec.rs:648-670 | a share drops another parked group if and only if it parks a new one while 512 are parked and the other is the oldest |
| `FecPersistence.RunStream` | src/fec.rs:446-497 | all of these invariants hold in every state of every run of one stream, and no frame that a parked group waits for has been seen |
| `FecPersistence.StepStays` | src/fec.rs:583-893 | an event that is not the group's own share or awaited member and does not restart, evict or expire it leaves it parked exactly as it was |
| `FecPersistence.RunStays` | src/fec.rs:583-893 | so do runs of such events |
| `FecPersistence.OtherShareRecovers` | src/fec.rs:613-646 | the other share then recovers exactly the two members that were missing when the first one came |
| `FecPersistence.MemberRecovers` | src/fec.rs:682-704 | either of those two members is delivered and recovers exactly the other |
| `FecPersistence.GroupCompletes` | src/fec.rs:613-704 | over whole runs: a group whose first share found two members missing is completed, with exactly those, by its other share or either member, whatever lies between, unless it was evicted or expired, the peer restarted, or a member became Handled: its payload dropped, or fallen behind the floor or the 65536 window while still missing |
| `FecPersistence.GroupStaysComplete` | src/fec.rs:725-730 | and after that, in any run before a restart, every share of the group is answered with already complete |
| `FecLimits.StepAges` | src/fec.rs:583-893 | each rotation, timed or by size, ages a mark by exactly one, and nothing else does |
| `FecLimits.CopyDeliveredIff` | src/fec.rs:583-594 | a copy of a delivered frame is rejected while fewer than two rotations lie since the frame was marked, and with two or more, unless it was marked again, it is delivered |
| `FecLimits.SecondCopyRejected` | src/fec.rs:583-594 | less than one generation after the first copy, with no generation filled up between, a second copy is always rejected |
| `FecLimits.ForgottenCopyDelivered` | src/fec.rs:583-594 | after two quiet generations any copy is delivered again: at-most-once holds for recoveries, not for direct copies |
| `FecBuffer.FecRecoveryBuffer.constructor` | src/fec.rs:533-564 | in place: a new buffer is the initial state |
| `FecBuffer.FecRecoveryBuffer.MemberState` | src/fec.rs:901-932 | in place: the classification is the specified one |
| `FecBuffer.FecRecoveryBuffer.NoteSeq` | src/fec.rs:934-954 | in place: notes a number or resets on a restart, leaving the parking alone as the code does |
| `FecBuffer.FecRecoveryBuffer.RotateSeen` | src/fec.rs:976-981 | in place: rotates generations and floors |
| `FecBuffer.FecRecoveryBuffer.MarkSeen` | src/fec.rs:956-961 | in place: marks, rotating a full generation |
| `FecBuffer.FecRecoveryBuffer.InsertPayload` | src/fec.rs:983-996 | in place: inserts and evicts the oldest beyond 4096 |
| `FecBuffer.FecRecoveryBuffer.Classify` | src/fec.rs:715-723 | in place: lists the missing positions in order and whether any member is handled |
| `FecBuffer.FecRecoveryBuffer.Strip` | src/fec.rs:775-800 | in place: removes known members from both shares with the table loops |
| `FecBuffer.FecRecoveryBuffer.Reconstruct` | src/fec.rs:802-848 | in place: solves for one or two members with the table loops |
| `FecBuffer.FecRecoveryBuffer.AdmitAll` | src/fec.rs:840-847 | in place: marks and caches every recovered frame |
| `FecBuffer.FecRecoveryBuffer.Evaluate` | src/fec.rs:708-849 | in place: takes the specified evaluation step |
| `FecBuffer.FecRecoveryBuffer.DropParked` | src/fec.rs:672-678 | in place: drops a group and its index entries |
| `FecBuffer.FecRecoveryBuffer.OldestParked` | src/fec.rs:649-655 | in place: finds a parked group no other is older than |
| `FecBuffer.FecRecoveryBuffer.Park` | src/fec.rs:648-670 | in place: parks with eviction |
| `FecBuffer.FecRecoveryBuffer.EvictOldest` | src/fec.rs:991-995 | in place: drops the oldest payloads beyond the limit |
| `FecBuffer.FecRecoveryBuffer.MakeRoom` | src/fec.rs:649-658 | in place: evicts an oldest group when 512 are parked |
| `FecBuffer.FecRecoveryBuffer.Index` | src/fec.rs:659-661 | in place: indexes every missing member under the group |
| `FecBuffer.FecRecoveryBuffer.TakeShares` | src/fec.rs:621-631 | in place: takes a group off the parking with the shares it held |
| `FecBuffer.FecRecoveryBuffer.Settle` | src/fec.rs:637-645 | in place: evaluates and parks if a further share may help |
| `FecBuffer.FecRecoveryBuffer.Revisit` | src/fec.rs:686-703 | in place: evaluates a parked group once more |
| `FecBuffer.FecRecoveryBuffer.TryRecover` | src/fec.rs:613-646 | in place: takes the specified step for a share |
| `FecBuffer.FecRecoveryBuffer.RecheckParkedFor` | src/fec.rs:682-704 | in place: takes the specified step for a late member |
| `FecBuffer.FecRecoveryBuffer.ObserveData` | src/fec.rs:583-594 | in place: takes the specified step for a data frame |
| `FecBuffer.FecRecoveryBuffer.TakeLateRecoveries` | src/fec.rs:604-606 | in place: hands over the late recoveries and empties them |
| `FecBuffer.FecRecoveryBuffer.ExpirePayloads` | src/fec.rs:862-873 | in place: expires the old front of the queue |
| `FecBuffer.FecRecoveryBuffer.ExpireParked` | src/fec.rs:875-887 | in place: expires and counts old parked groups |
| `FecBuffer.FecRecoveryBuffer.Tick` | src/fec.rs:861-893 | in place: takes the specified maintenance step |
| `Swrr.PickConserves` | src/scheduler.rs:602-618 | whoever competes and whoever wins, the running weights keep their sum |
| `Swrr.BoundWithoutWinner` | src/scheduler.rs:514-533 | any set of entries that the winner is not in stays within its share of the total weight after a pick |
| `Swrr.PickBoundedBelow` | src/scheduler.rs:514-533 | no running weight falls to within 1/n of minus the total weight |
| `Swrr.Ledger` | src/scheduler.rs:514-533 | a running weight is exactly picks times weight less wins times total |
| `Swrr.Fairness` | src/scheduler.rs:514-533 | after any k picks an entry is at most 1 - 1/n ahead of and at most 1/2 + ... + 1/n behind its proportional share |
| `Swrr.FairnessInPicks` | src/scheduler.rs:514-533 | hence fewer than one pick ahead and at most n - 1 picks behind |
| `Swrr.Periodicity` | src/scheduler.rs:514-533 | with whole weights totalling W the first W picks choose each entry exactly its weight in times and all running weights are zero again |
| `Swrr.RepeatsPeriod` | src/scheduler.rs:514-533 | and from there the sequence of picks repeats for ever |
| `Scheduling.RelativeFactor` | src/scheduler.rs:231-244 | the relative delivery factor lies in [0.001, 1], the clamp never bites, and it is 1 exactly for a link as good as the best |
| `Scheduling.BudgetInBits` | src/scheduler.rs:83-94 | the byte budget of a second is the cap in bits: as many bytes as fit, not one more |
| `Scheduling.UnderCapInBits` | src/scheduler.rs:75-94 | an entry is under its cap if and only if eight times the bytes of its one-second window and the packet are at most the cap times a million |
| `Scheduling.WinnerHasRoom` | src/scheduler.rs:547-618 | if any entry has that room, the winner of a packet has |
| `Scheduling.UpsAreLinks` | src/scheduler.rs:320-325 | the refreshed links are exactly those with a positive score, with that score |
| `RateCap.RollAccounts` | src/scheduler.rs:83-87 | replacing a window that is over keeps the byte accounting |
| `RateCap.RecordDoubles` | src/scheduler.rs:88-94 | recording within budget keeps every second at no more than twice the budget |
| `RateCap.RolledAt` | src/scheduler.rs:555-571 | the first pass brings each capped link's window up to date once, whatever the order |
| `RateCap.CompetingUnderCap` | src/scheduler.rs:555-592 | without the fallback only entries under their cap compete |
| `SchedulerRuns.CapRun` | src/scheduler.rs:54-94 | the window invariant holds along every run without the fallback, through rebuilds, penalties and reweighing |
| `SchedulerRuns.TwiceBudget` | src/scheduler.rs:75-82 | in a run without the fallback, round robin puts at most twice the budget onto a capped link in any half-open second; in bits, at most twice the cap times a million |
| `SchedulerRuns.WindowCounts` | src/scheduler.rs:54-94 | along a run a link's window holds exactly the bytes round robin gave it since the window began |
| `SchedulerWeights.WeightsPositive` | src/scheduler.rs:231-341 | in every reachable state each effective weight is positive and equals base weight times the present congestion and delivery factors |
| `SchedulerWeights.PicksAreRoundRobin` | src/scheduler.rs:547-624 | picks between two rebuilds with nobody excluded are a smooth weighted round robin, through any steps that leave the weights as they are |
| `SchedulerWeights.FairScheduling` | src/scheduler.rs:547-624 | so each entry stays within one pick above and n - 1 below its proportional share until the next rebuild |
| `SchedulerWeights.PeriodicScheduling` | src/scheduler.rs:547-624 | and with whole weights every period gives each entry exactly its weight in packets and restores the table |
| `SwrrExclusion.PickWithinArc` | src/scheduler.rs:555-618 | whatever set of entries competes, a pick keeps the running weights of every s of n entries at or below half the total weight times s(n - s) |
| `SwrrExclusion.Ledger` | src/scheduler.rs:602-618 | a running weight is exactly the weight earned in the picks an entry competed for less the competitors' weight paid for those it won |
| `SwrrExclusion.FairnessWithExclusions` | src/scheduler.rs:555-618 | so with arbitrary exclusions what an entry paid never differs from what it earned by more than half of (n - 1) times the total weight |
| `SchedulerWeights.FairWithExclusions` | src/scheduler.rs:547-624 | and that holds of the scheduler between two rebuilds whatever caps and penalties exclude |
| `SchedulerTrackers.TrackersAre` | src/scheduler.rs:252-308 | in every reachable state a link's trackers are the single-link machines run on that link's own reports |
| `SchedulerTrackers.WeightIs` | src/scheduler.rs:220-250 | in every reachable state an entry's weight is its score times its congestion factor times its delivery factor's share of the largest |
| `SchedulerTrackers.RebuiltIs` | src/scheduler.rs:314-341 | a rebuild makes one entry for each link with a positive score, in link order, with that score, no credit and the configured cap |
| `SchedulerTrackers.ChoiceIs` | src/scheduler.rs:314-326 | in every reachable state the primary is the choice run on the refreshes so far |
| `Penalties.NoPacketWhilePenalized` | src/scheduler.rs:200-219 | until a penalty lapses round robin gives the link no packet while some entry under its cap is unpenalized and delivers at least half as well as the best; a penalized primary still gets its packets |
| `Penalties.PenalizedKeeps` | src/scheduler.rs:213-219 | a further penalty never shortens one |
| `Penalties.CompetesIff` | src/scheduler.rs:547-600 | who competes, in plain terms: everyone if no entry has room; while a penalty is in force and some entry has room, no penalty and half the best delivery, those entries; otherwise all with room |
| `Primary.ChallengerMeans` | src/scheduler.rs:395-405 | a challenger is a best other link and leads by more than a fifth; without one no other link leads by so much |
| `Primary.Hysteresis` | src/scheduler.rs:352-421 | while the primary stays up a refresh moves to another link if and only if that link led it at each of the last max(2, up_threshold) refreshes, this one included |
| `Primary.RunJustified` | src/scheduler.rs:405-420 | the candidate's count is always the length of an unbroken streak against the current primary |
| `Primary.Failover` | src/scheduler.rs:378-393 | a primary that is gone is replaced at once by a highest-scoring link, or by none if nothing is up |
| `Primary.PrimaryIsUp` | src/scheduler.rs:352-421 | in every mode the primary is a link that is up |
| `PrimaryModes.OtherModes` | src/scheduler.rs:352-376 | following the peer, its choice is taken exactly when that link is up; in neither mode there is no primary |
| `PrimaryModes.BestIsLast` | src/scheduler.rs:384-399 | among equal scores the later link wins |
| `Scheduler.Scheduler.constructor` | src/scheduler.rs:160-171 | in place: a new scheduler is empty |
| `Scheduler.Scheduler.TotalWeight` | src/scheduler.rs:602-605 | in place: the loop sums the weights of the eligible entries |
| `Scheduler.Scheduler.Advance` | src/scheduler.rs:606-608 | in place: exactly the eligible entries advance by their weight |
| `Scheduler.Scheduler.LargestCurrent` | src/scheduler.rs:609-616 | in place: the last eligible entry with the largest running weight is found |
| `Scheduler.Scheduler.PickAmong` | src/scheduler.rs:602-618 | in place: one smooth weighted round robin pick among the eligible |
| `Scheduler.Scheduler.SwrrPick` | src/scheduler.rs:514-533 | in place: the same among all entries |
| `Scheduler.Scheduler.CheckCaps` | src/scheduler.rs:555-571 | in place: the eligible positions are exactly those under their cap, and the windows are brought up to date |
| `Scheduler.Scheduler.DropLapsed` | src/scheduler.rs:573-575 | in place: exactly the lapsed penalties are dropped |
| `Scheduler.Scheduler.Unpenalized` | src/scheduler.rs:576-592 | in place: exactly the unpenalized, well-delivering positions remain |
| `Scheduler.Scheduler.Eligible` | src/scheduler.rs:555-592 | in place: the positions that compete are the specified ones |
| `Scheduler.Scheduler.SwrrPickUnderCap` | src/scheduler.rs:547-624 | in place: takes the specified pick step, fallback and byte recording included |
| `Scheduler.Scheduler.SelectFast` | src/scheduler.rs:501-512 | in place: the primary, else a pick, else nothing |
| `Scheduler.Scheduler.Select` | src/scheduler.rs:446-472 | in place: the same, and the least bad link when nothing is up: fewest misses, then shortest round trip, first among equals |
| `Scheduler.Scheduler.Penalize` | src/scheduler.rs:213-219 | in place: extends an existing penalty or adds one |
| `Scheduler.Scheduler.NoteQueueFull` | src/scheduler.rs:200-202 | in place: a penalty of 200 ms |
| `Scheduler.Scheduler.NoteSendFailed` | src/scheduler.rs:209-211 | in place: a penalty of 500 ms |
| `Scheduler.Scheduler.RefreshFromScores` | src/scheduler.rs:352-421 | in place: takes the specified primary-selection step |
| `Scheduler.Scheduler.Refresh` | src/scheduler.rs:314-341 | in place: rebuilds the table from the scores and updates the primary |
| `Scheduler.Scheduler.Reweigh` | src/scheduler.rs:275-278 | in place: every entry's weight is recomputed from the present factors |
| `Scheduler.Scheduler.UpdateDelivery` | src/scheduler.rs:256-279 | in place: steps every delivery tracker with a sample and reweighs |
| `Scheduler.Scheduler.UpdateCongestion` | src/scheduler.rs:287-307 | in place: steps every congestion tracker and reweighs |
| `Delivery.ObserveInv` | src/delivery.rs:170-253 | every observation keeps the factor in [0.001, 1], equal to 1 exactly in phase Normal, and the hold between 5 and 60 seconds |
| `Delivery.RunInv` | src/delivery.rs:170-213 | so does every run on a monotone clock |
| `Delivery.RiseAfterHold` | src/delivery.rs:176-203 | the factor rises only once the current hold-down is over |
| `Delivery.CutsAreSpaced` | src/delivery.rs:215-219 | between any two cuts at least three fresh windows arrive that cut nothing |
| `Delivery.NoEarlyRise` | src/delivery.rs:241-252 | along a run the factor never rises within the hold-down any earlier cut started |
| `Delivery.CutIff` | src/delivery.rs:215-239 | an observation cuts if and only if it is a new window outside the settling period, at least 0.25 was offered, less than 85 % and at least 0.1 less arrived, and it is the second such window in a row or below 30 % |
| `Delivery.CutIs` | src/delivery.rs:241-253 | a cut takes the factor times the delivered share times 0.9, not below 0.001, and holds for the present hold, doubled up to a minute after a relapse |
| `Delivery.UncutIs` | src/delivery.rs:170-204 | otherwise the factor rises by exactly a tenth a second, up to 1, past hold-down and settling after two clean windows or without a measurement, and else stays |
| `Delivery.HoldIs` | src/delivery.rs:194-212 | the hold returns to five seconds exactly after a minute at full factor |
| `DeliveryTracking.DeliveryTracker.constructor` | src/delivery.rs:143-157 | in place: starts at factor 1 in phase Normal |
| `DeliveryTracking.DeliveryTracker.Observe` | src/delivery.rs:170-213 | in place: takes the specified step and keeps the invariant |
| `DeliveryTracking.DeliveryTracker.Judge` | src/delivery.rs:180-192 | in place: judges a fresh window, or clears the bad count without a sample |
| `DeliveryTracking.DeliveryTracker.Grow` | src/delivery.rs:194-203 | in place: grows while recovering |
| `DeliveryTracking.DeliveryTracker.EvaluateWindow` | src/delivery.rs:215-239 | in place: takes the specified step |
| `DeliveryTracking.DeliveryTracker.Cut` | src/delivery.rs:241-252 | in place: takes the specified step |
| `DeliveryTracking.ReportWindow.Observe` | src/delivery.rs:100-125 | a new report yields a sample exactly when the window is usable, and the sample measures exactly the bytes between the two reports; a repeated report repeats the last answer |
| `DeliveryTracking.ReportWindow.Reset` | src/delivery.rs:93-96 | forgets both reports |
| `Congestion.TargetAtMost` | src/congestion.rs:39-59 | the delay target lies in [0.1, 1] and respects its anchors |
| `Congestion.TargetFalls` | src/congestion.rs:39-59 | more queue delay never earns a larger factor |
| `Congestion.UpdateBounds` | src/congestion.rs:154-195 | an update ends at or under what delay and loss events allow, and rises only outside the hold-down |
| `Congestion.RunInv` | src/congestion.rs:154-195 | in every reachable state the factor lies in [0.1, 1] |
| `Congestion.NoEarlyRise` | src/congestion.rs:28-29 | after any drop the factor does not rise for a whole second |
| `Congestion.GradualRecovery` | src/congestion.rs:26-27 | over any stretch of a run the factor gains at most 0.15 per second of judged time |
| `Congestion.DelayTargetIs` | src/congestion.rs:39-59 | the delay target lies exactly on the straight lines between its anchors |
| `Congestion.MeanSurvivesWrap` | src/congestion.rs:109-113 | the mean of a window is exact although the 64-bit counters wrap around |
| `Congestion.TargetAllows` | src/congestion.rs:165-184 | the target is the least of what the delay, a full queue and a failed send allow |
| `Congestion.UpdateIs` | src/congestion.rs:154-195 | a judged window sets the factor to the target when lower, keeps it within a second of a drop, and else raises it by exactly 0.15 a second up to the target |
| `Congestion.NotJudged` | src/congestion.rs:154-163 | the first reading is only a baseline, and a window under 50 ms changes nothing |
| `CongestionTracking.CongestionTracker.Update` | src/congestion.rs:154-195 | in place: takes the specified step and keeps the invariant |
| `Gso.ExtendedIsLongest` | src/link.rs:1971-1986 | the inner loop finds the longest valid run from its start |
| `Gso.PlanIsPlan` | src/link.rs:1967-1991 | the plan consists of consecutive valid runs that cover all datagrams in order |
| `Gso.SuffixValid` | src/link.rs:1964-1966 | what is left of a valid run when it starts later is valid |
| `Gso.FewestRuns` | src/link.rs:1964-1991 | no order-preserving plan of valid runs has fewer runs |
| `Gso.RunLength` | src/link.rs:1971-1986 | the inner loop computes the longest run |
| `Gso.PlanRuns` | src/link.rs:1964-1991 | the planner's result is a valid plan, and no other valid plan has fewer runs |
| `BatchSend.PlainCounts` | src/link.rs:2149-2182 | plain sending ends with one outcome per datagram and at most as many calls |
| `BatchSend.GsoCounts` | src/link.rs:2244-2295 | sending with coalescing ends with one outcome per datagram and at most as many calls, plus one if a coalesced message was rejected, for every behaviour of the kernel |
| `BatchSend.ThreeCallsForTwo` | src/link.rs:2244-2295 | the extra call happens: two datagrams can take three calls |
| `BatchSend.OutcomeHasItsCall` | src/link.rs:2244-2295 | every datagram's outcome is the answer to exactly one of the calls the batch made: one that took it, or one that offered it first, not coalesced, and was rejected |
| `BatchSend.RejectionLeavesPlainTries` | src/link.rs:2276-2290 | after a rejected coalesced message every datagram not yet settled is settled by a later uncoalesced call |
| `BatchSend.OffloadCostsNothing` | src/link.rs:2240-2243 | a kernel that rejects only coalesced messages never costs a packet |
| `BatchSend.StatsAreSent` | src/link.rs:2268-2275 | coalesced runs hold at least two datagrams each, all of them sent |
| `BatchSend.CallsAreAttempts` | src/link.rs:1933-1938 | the calls counted are the system calls issued if and only if none of them had to wait for the socket; otherwise they are fewer |
| `BatchStats.PartialIs` | src/link.rs:2149-2181 | the partial calls counted are exactly those in which the kernel took some of the messages only |
| `BatchStats.OffersIs` | src/link.rs:2159-2164 | each call offers all datagrams left, but at most 64 |
| `BatchSocket.UdpSocket.RawSendmmsg` | src/link.rs:1996-2028 | models one call: the accepted prefix appears on the wire |
| `BatchSocket.UdpSocket.RawSendmmsgGso` | src/link.rs:2184-2238 | models one coalesced call: the datagrams of the accepted runs appear on the wire |
| `BatchSocket.UdpSocket.Attempt` | src/link.rs:2161-2165 | waits until the kernel answers, issuing one system call more per wait |
| `BatchSocket.UdpSocket.SendFrom` | src/link.rs:2160-2165 | offers the datagrams from a position on in one call |
| `BatchSocket.UdpSocket.SendmmsgAll` | src/link.rs:2149-2182 | one outcome per datagram, exactly the good ones on the wire once each and in order, the calls made are exactly the specified ones, statistics as specified |
| `BatchSocket.UdpSocket.SendmmsgGsoAll` | src/link.rs:2244-2295 | the same with coalescing and fallback |
| `BatchSocket.CountRuns` | src/link.rs:2268-2275 | the loop counts coalesced runs, their datagrams and all datagrams sent |
| `Checksum.FoldedMod` | src/mss.rs:244-246 | folding keeps the sum modulo 65535 and whether it is zero |
| `Checksum.VerifiesIff` | src/mss.rs:227-234 | data verifies if and only if its word sum is a positive multiple of 65535 |
| `Checksum.StoredVerifies` | src/mss.rs:230-234 | a checksum computed over a zeroed field makes the whole verify once stored there |
| `Checksum.SumFits` | src/mss.rs:235-243 | for the largest packet with pseudo-header the 32-bit accumulator never overflows |
| `Checksum.Compute` | src/mss.rs:235-248 | the word loop, the odd byte and the folding loop compute the Internet checksum |
| `Mss.ResummedVerifies` | src/mss.rs:250-284 | the recomputed checksum verifies over segment and pseudo-header (section 3.1 of RFC 793, section 8.1 of RFC 8200) |
| `Mss.ClampCorrect` | src/mss.rs:58-156 | a packet is untouched, or differs only in the option's value and the checksum, announces the MTU less both header lengths, which is less than before, and verifies over what follows its IP header |
| `MssFragments.FragmentsPass` | src/mss.rs:69-109 | whether and where an IPv4 packet is clamped does not depend on its fragment fields |
| `MssFragments.ClampedFragment` | src/mss.rs:69-109 | so a first fragment is clamped like a packet, and the checksum of its datagram is right afterwards if and only if length and words of the rest add up to a multiple of 65535 |
| `MssFragments.BrokenFragment` | src/mss.rs:69-109 | it is wrong, for instance, when the rest is eight zero bytes |
| `MssPackets.ClampsBuild` | src/mss.rs:58-159 | a packet built from any fields, IPv4 or IPv6: TCP with SYN set and an MSS above the MTU less both headers becomes the same build with exactly that MSS and a fresh checksum, any other is untouched |
| `MssPackets.SealedVerifies` | src/mss.rs:254-286 | the fresh checksum verifies over the pseudo-header written from the fields |
| `MssPackets.ChangesIff` | src/mss.rs:32-67 | of all byte strings exactly those builds change |
| `Mss.ClampIdempotent` | src/mss.rs:58-156 | clamping twice is clamping once |
| `Mss.FindsFirst` | src/mss.rs:187-225 | any well-formed options are skipped and the MSS option behind them is found |
| `Mss.FoundIsFirst` | src/mss.rs:187-225 | and what is found is an MSS option behind well-formed options without one |
| `MssClamp.ClampIfTcpSyn` | src/mss.rs:58-67 | in place: the packet becomes the specified one |
| `MssClamp.ClampIpv4` | src/mss.rs:69-109 | in place: the same for IPv4 |
| `MssClamp.ClampIpv6` | src/mss.rs:111-156 | in place: the same for IPv6 |
| `MssClamp.ClampSegment` | src/mss.rs:179-225 | in place: rewrites the option exactly when the packet is to be clamped |
| `MssClamp.FindMss` | src/mss.rs:183-225 | the option walk of a SYN returns the first MSS option or nothing |
| `MssClamp.TcpChecksumV4` | src/mss.rs:250-268 | checksum over the IPv4 pseudo-header and the segment with its field zeroed |
| `MssClamp.TcpChecksumV6` | src/mss.rs:270-284 | checksum over the IPv6 pseudo-header and the segment with its field zeroed |
| `Tickets.OpeningsAreSpaced` | src/autoreport.rs:428-446 | every submitted opening comes at least 1800 s after every earlier ticket of the link |
| `Tickets.DegradedAreSpaced` | src/autoreport.rs:431-446 | submitted Degraded openings are at least the configured gap apart |
| `Tickets.TicketsPerEvent` | src/autoreport.rs:409-421 | an event yields at most three tickets, of strictly rising class |
| `Tickets.TicketCount` | src/autoreport.rs:409-446 | their number is one for a submitted opening plus one for each observation stronger than the event was until then |
| `Tickets.OneTicketIff` | src/autoreport.rs:12-14 | so an event yields exactly one ticket if and only if its opening is submitted and it never worsens, or it is not and it worsens once |
| `Tickets.ThreeTickets` | src/autoreport.rs:409-421 | a new link that degrades, then flaps, then goes down files three tickets for one event |
| `Tickets.ThreeTicketsHappen` | src/autoreport.rs:409-421 | and such a run exists |
| `Tickets.DegradedIsConfirmed` | src/autoreport.rs:362-378 | a Degraded event opens only after 30 s of observations that were all hot |
| `Tickets.EndsAfterCalm` | src/autoreport.rs:386-408 | an event ends only after the configured time of observations that were all calm |
| `TicketGaps.OpeningIff` | src/autoreport.rs:424-461 | in every run an opening is submitted if and only if it joins no other link's event, every earlier ticket or joined opening lies 1800 s back and, for a degradation, every earlier counted one the configured gap |
| `TicketEvents.ReadsAs` | src/autoreport.rs:200-232 | the four conditions in plain numbers: down too long, downs too many, loss in hundredths of the probes |
| `TicketEvents.ActiveIs` | src/autoreport.rs:362-378 | the class active at an observation is a function of the observations alone: out, else flapping, else hot without a break for 30 s |
| `TicketEvents.OpensIff` | src/autoreport.rs:424-461 | without an event one opens exactly when a class is active, with that class |
| `TicketEvents.EndsIff` | src/autoreport.rs:386-408 | an event ends exactly when all observations since its present calm began were calm and that is `clear` ago |
| `TicketEvents.TroubleIff` | src/autoreport.rs:409-475 | an event in trouble escalates with a ticket exactly on a stronger class, is dumped again exactly after the cooldown, and is else quiet |
| `TicketEvents.PctIs` | src/autoreport.rs:380-384 | the loss entered is the exact percentage, an outage counting as all |
| `TicketEvents.PeakOfEvent` | src/autoreport.rs:386-388 | the peak of an event is the largest loss observed since it opened |
| `TicketEvents.SuppressedIs` | src/autoreport.rs:432-447 | the suppressed count of a ticket is the number of degradations not reported since the last one that was |
| `TicketEvents.ReportIs` | src/autoreport.rs:477-493 | a report carries the identity given at the opening, the present class, the age, the peak and the previous event |
| `TicketEvents.EndIs` | src/autoreport.rs:388-406 | the end is reported with identity, class, duration and peak, and is what is told as the previous event |
| `TicketEvents.DirtyIff` | src/autoreport.rs:352-461 | the saved state is marked stale exactly on a ticket, a joined opening or an end, and only then changes |
| `TicketStore.RetainedIff` | src/autoreport.rs:524-537 | a saved ticket time survives a restart or a reboot if and only if its age in whole seconds is below the gap, which is so for every ticket a second younger and for none two seconds older |
| `TicketStore.RestoreShift` | src/autoreport.rs:499-537 | with a wall clock that does not run back, saving and restoring in whole seconds shifts a retained time by less than two seconds, also when the monotonic clock started anew between |
| `TicketStore.ForgottenIsOld` | src/autoreport.rs:528-537 | a ticket is forgotten only when it is as old as the gap, give or take a second |
| `TicketStore.RestartIsSpaced` | src/autoreport.rs:524-537 | across a restart of the daemon or a reboot of the host a submitted opening still comes more than 1799 s after every ticket before it |
| `TicketStore.DegradedRestartIsSpaced` | src/autoreport.rs:524-540 | the same for Degraded openings and their configured gap |
| `TicketStore.PrevShift` | src/autoreport.rs:509-556 | class and peak of the previous event survive, its times up to the rounding |
| `TicketStore.LabelRoundTrip` | src/autoreport.rs:336-340 | class labels are read back exactly |
| `TicketStore.RestartedTrack` | src/autoreport.rs:495-537 | what is restored for a link is its saved last ticket, and its last Degraded ticket, if still recent |
| `TicketStore.ObserveTrack` | src/autoreport.rs:352-492 | one evaluation, step by step, is the specified one |
| `TicketStore.OpenEvent` | src/autoreport.rs:424-461 | opening an event, with its rate limits, is the specified step |
| `TicketStore.EventTracker.Observe` | src/autoreport.rs:352-462 | in place: only the observed link's track changes, by the specified step |
| `TicketStore.EventTracker.TakeDirtyState` | src/autoreport.rs:495-522 | in place: returns what is to be saved once after each change |
| `TicketStore.EventTracker.Restore` | src/autoreport.rs:527-557 | in place: every link gets exactly its retained times, in whatever order the maps are walked |
| `Counters.Conservation` | src/events.rs:435-461 | reported plus discarded plus pending amounts equal all counter increases since the baseline |
| `Counters.FirstReading` | src/events.rs:236-247 | a counter's first reading is only its baseline if and only if it comes with the very first observation or is zero; a later first reading is pending in full |
| `Counters.NothingDiscarded` | src/events.rs:459-461 | without a minimum nothing is discarded |
| `Counters.EventsAreSpaced` | src/events.rs:441-457 | two flushes of one key are at least 2000 ms apart, even when the clock steps back |
| `Counters.PendingIsRecent` | src/events.rs:441-457 | what stays pending waits for a throttle that has not run out |
| `Counters.FlushIs` | src/events.rs:441-507 | exactly what is said: nothing of no new increases or within two seconds of the last flush, else all of them, reported if at least the minimum and discarded if fewer |
| `CounterEvents.EventDetector.AddDelta` | src/events.rs:435-439 | in place: adds a positive increase |
| `CounterEvents.EventDetector.ObserveLink` | src/events.rs:403-433 | in place: collects the four counters of a link |
| `CounterEvents.EventDetector.ObserveLinks` | src/events.rs:241-247 | in place: collects the counters of every link in the observation |
| `CounterEvents.EventDetector.FlushCounters` | src/events.rs:441-507 | in place: reports exactly the due amounts worth reporting, sorted by key |
| `CounterEvents.EventDetector.Observe` | src/events.rs:239-300 | in place: each key's counter takes exactly one step, and the output holds exactly the reports, sorted by key |
| `VersionInfo.RoundTrip` | src/protocol.rs:471-532 | a version frame decodes to itself, whatever a newer peer appends |
| `VersionInfo.DecodeExact` | src/protocol.rs:494-532 | a decoded frame encodes back to the bytes used, zeros elsewhere |
| `VersionInfo.ShortFrame` | src/protocol.rs:484-532 | a frame cut short keeps the version and as much of the link name as it holds, padded with zeros, and a number that is cut off reads as unknown |
| `VersionInfo.EncodeInto` | src/protocol.rs:471-482 | the copied slices make up the encoding |
| `Mtu.EffectiveFits` | src/control.rs:1009-1106 | a computed MTU above the floor leaves room for parity and outer headers on every link it may be sent on |
| `Mtu.EffectiveBounded` | src/control.rs:1009-1106 | it is at least the floor, a 16-bit value, and at most the configured ceiling or the floor |
| `Mtu.EffectiveIsBest` | src/control.rs:1009-1106 | with a reading to go by (the primary's, else the least) nothing above the MTU fits that reading with parity room and 112 bytes of headers, 16 bits and the ceiling, and the MTU does unless it is the least allowed; without one it is the configured MTU or 1400 less the parity room |
| `Mtu.BestIsUnique` | src/control.rs:1009-1106 | only one value is that |
| `Mtu.SuppressedCount` | src/control.rs:1152-1162 | the number reported as suppressed equals the failures not logged if and only if the streak had one target; otherwise it is larger |
| `Mtu.OvercountedSuppression` | src/control.rs:1142-1162 | two failures at different targets are both logged, and one is still reported as suppressed |
| `MtuPeers.NeverBelowFloor` | src/control.rs:921-950 | in every reachable state the announced and the used MTU are at least the floor |
| `MtuPeers.HeardIsCapability` | src/protocol.rs:371-381 | what a side has heard is always something the other computed from its own links, never a negotiated value |
| `MtuPeers.LiveAfterTick` | src/control.rs:1220-1249 | a side that last ticked knowing the peer uses the smaller capability, but not less than its floor |
| `MtuPeers.LiveAlone` | src/control.rs:1220-1249 | a side that has heard nothing, or an empty announcement, uses its capability |
| `MtuPeers.CapabilityIsBest` | src/control.rs:1211-1226 | along every run a side's capability is the best MTU for the readings of its last tick |
| `MtuPeers.AnnouncedIsHeard` | src/protocol.rs:471-530 | an announcement that arrives tells the peer exactly the sender's capability |
| `MtuPeers.Converges` | src/control.rs:905-935 | once each side's last tick knew the other's present capability, they agree exactly when the floors are equal or the smaller capability reaches both, then on the smaller; each capability is the best MTU for that side's last readings |
| `MtuPeers.AgreedIsLargest` | src/control.rs:929-935 | with equal floors the agreed MTU is the largest that fits both sides' links, or the floor |
| `MtuMonitor.ResizeFailureLatch.RecordFailure` | src/control.rs:1143-1150 | in place: logs the first failure of a streak and every change of target |
| `MtuMonitor.ResizeFailureLatch.RecordSuccess` | src/control.rs:1152-1162 | in place: clears the streak and reports its length less one |
| `MtuMonitor.Monitor.Tick` | src/control.rs:1213-1261 | in place: publishes the capability, resizes only when needed, and keeps the old MTU when the device refuses |

## Left out

- Sockets, address resolution, reconnecting, `recvmmsg`, ioctls, and how long the send calls wait for the socket: input and output.
- WireGuard sessions and keys, the control socket, configuration parsing, privileges, firewall, diagnostics text and the terminal interface: plumbing.
- The reorder buffer and dispatcher in `src/tunnel.rs`: not part of this model.
- Rounding, infinities and NaN of floating-point numbers: weights, scores, factors and rates are exact reals.
- `monitor::score`: a link's score is an arbitrary real, positive when the link is up.
- `choose_parity_link`, `parity_frame_overhead_bytes` and the log and event rings: one-branch facts.
- Overflow of 64-bit sequence numbers near their maximum, where `seq + 65536` would overflow in `member_state`.
- The clock readings inside `mark_seen`, `insert_payload` and `park`: each event has one reading for all of them.
- Link up/down, congestion, loss, handshake and MTU-change events of `src/events.rs`: transitions of one flag each; only the counter-driven kinds are modelled.
- `ProbeWindow` and `DownTransitions` of `src/autoreport.rs`: their counts are arbitrary inputs of an observation.
- The text of event ids and messages: an id is the pair of link name and opening time.
- The atomically published copy of the primary and the counters published for diagnostics.
- UTF-8 truncation of version and link names: the fields are 16 arbitrary bytes.
- GfTables.InvTable: requires a non-zero argument, as the source's debug assertion does.
- FecGroup.AccumulateMember: requires frames shorter than 65536 bytes and fewer than 255 open members, which the tunnel MTU and the 8-bit group size guarantee in the source.
- SchedulerRuns.TwiceBudget: covers runs in which the every-link-over-cap fallback is not taken; the fallback deliberately ignores caps.
- SchedulerWeights.FairScheduling: covers stretches without an exclusion; with exclusions the coarser bound of `SchedulerWeights.FairWithExclusions` is proved. Neither crosses a rebuild or a change of weights.
- FecOnce.NoReRecovery: assumes that no parked group reaches beyond a restart; that the assumption is needed is proved for pairs only.
- FecPersistence.GroupCompletes: covers runs of one stream whose restarts find nothing parked, because a restart forgets which members of a parked group are at hand, and the group then no longer waits for just the two it lists.
- FecVerdict.RunRecoversOne: covers runs over one stream, as its members are compared with the frames that stream sent.
- TicketStore.RestartIsSpaced: assumes that the wall clock does not run back between filing, saving and restoring.
- CounterEvents.EventDetector.Observe: keys of kinds that never occur together with their index are not mentioned.
