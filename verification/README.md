# Admission Fabric: a verified model

Admission Fabric decides whether an inference request may use accelerator capacity. A request is
evaluated against policy, capability, snapshot, quota, deadline and capacity; an admitted one holds a
provisional reservation until it is committed, cancelled, released or expires. Capacity is reported by
agents under a coordinator that fences lost agents by raising an epoch. The engine's state is saved in a
checksummed file.

This project models that behaviour in Dafny and proves what the parts promise together.

| part | specification (values) | as it runs (objects, loops) |
|---|---|---|
| resource vectors | `Resources` | `Resources` |
| reservation ledger | `Ledger`, `LedgerRuns`, `LedgerExactly` | `ReservationManager` |
| policy history | `Policies` | `Policies` |
| admission engine | `Engine`, `EngineRuns`, `EngineExactly`, `Admission`, `Commitments`, `Hazards`, `Ceilings` | `AdmissionFabric` |
| prediction | `Profiles`, `Predictor`, `Estimates` | `Predictor` |
| coordinator | `Authority` | `Coordinator` |
| byte formats | `Grammar`, `Fields`, `Codec`, `Layouts` | `Wire`, `Coders` |
| checksum and frame | `Crc`, `CrcStandard`, `Frame` | `Crc`, `Frame` |
| durable state | `Persistence`, `Recovery`, `Restarts` | `StateStore` |
| engine and predictor together | `Service` | |

Every object is proved to do what the value model says, and the theorems are about the value model:
over every input, every state that satisfies the invariant, or every run of operations in any order.
`Words`, `Ordering`, `Doubles`, `Texts` and `Records` hold what the parts share. `dafny verify
dfyconfig.toml` checks the whole project.

Conventions: machine words are natural numbers with their bounds, and wrapping or saturation is written
out. A double is its 64 bits; where it is computed with, it is the real number it stands for. The clock,
explanation texts, predictions (save in `Service`) and the starvation verdict of the fairness controller are arguments.

## Where the code departs from what it says

The model follows the code. These departures are stated as lemmas.

- A deferred request can be evaluated again and get a reservation while it stays deferred, and an active
  one loses its link to its reservation (`Hazards.DeferredReservationStrands`,
  `Hazards.ActiveReservationStrands`; reachable by `Hazards.HazardReachable` and
  `Hazards.ActiveHazardReachable`). `Hazards.LinkSurvivesExactly` says exactly when.
- A state that holds any closed reservation can be saved but not restored (`Recovery.RestoreOfSave`,
  `Restarts.ReleaseBlocksRecovery`).
- The ceiling can sink below what is held, through a new total (`LedgerRuns.CeilingCanShrink`) and through
  a policy override for another request (`Ceilings.OverrideSinksCeiling`). `LedgerRuns.ApplyWithin` and
  `Ceilings.CeilingKeptExactly` say exactly when.
- Recovery does not advance the policy counter, so recovered generations can be overwritten
  (`Policies.ImmutableExactly`, `Policies.RecoveredGenerationLost`). It makes the largest generation the
  latest, which need not be the one in force: two restarts revert an installation
  (`Restarts.RestartKeepsPolicyExactly`, `Restarts.RestartsRevertPolicy`).
- The loss of a superseded connection fences its successor (`Authority.LossHitsSuccessorExactly`,
  `Authority.SupersededLoss`).
- When no agent qualifies, a comment in coordinator.cpp says that the engine defers; a request that names
  a backend is rejected for capability instead, and one that names none is rejected as stale if the clock
  moves on far enough in between (`Authority.NoAgentDefersExactly`).
- Footprint sums wrap after saturating products (`Predictor.WrapsExactly`, `Service.WrapUnderstates`).
- The checksum of the empty input is 0xFFFFFFFF, not the standard's 0 (`Crc.EmptyIsTheOnlyException`).

## Model

| member | source | states |
|---|---|---|
| `Resources.TryAdd` | include/admission_fabric/resource.hpp:147-154 | The sum is returned exactly when no dimension exceeds 2^64-1, and then every dimension is summed |
| `Resources.TrySub` | include/admission_fabric/resource.hpp:156-163 | The difference is returned exactly when no dimension goes below zero, and then every dimension is subtracted |
| `Crc.FillTable` | src/core/serialize.cpp:6-18 | Entry i of the filled table is the register after the eight bits of octet i were fed bit by bit into a zero register |
| `Crc.ComputeCrc32` | src/core/serialize.cpp:21-27 | The table-driven loop returns the bit-serial reflected CRC-32 of IEEE Std 802.3, section 3.2.9, on every non-empty input, and 0xFFFFFFFF on the empty one |
| `Crc.TableStep` | src/core/serialize.cpp:25 | One table look-up and shift by eight equals feeding the eight bits of an octet one at a time |
| `Crc.EmptyIsTheOnlyException` | src/core/serialize.cpp:21-27 | The returned word is the standard's CRC if and only if the input is not empty |
| `Crc.ShiftsLinear` | src/core/serialize.cpp:11 | The bit step, repeated any number of times, is linear under exclusive or |
| `Crc.ShiftInjective` | src/core/serialize.cpp:11 | The bit step maps no two register values to the same one |
| `Crc.BurstDetected` | src/core/serialize.cpp:9-26 | From any register, two different bit strings of the same length, at most 32, between the same neighbours leave different registers |
| `Crc.Crc32DetectsBurst` | src/core/serialize.cpp:21-27 | Two buffers that differ only inside a window of at most four bytes have different checksums |
| `Crc.SameCrcSameWindow` | src/core/serialize.cpp:21-27 | Conversely, if the checksums of two such buffers agree, so do the windows |
| `CrcStandard.KnownAnswer` | src/core/serialize.cpp:6-27 | The nine octets of the text 123456789 have the checksum 0xCBF43926 |
| `CrcStandard.Generator` | src/core/serialize.cpp:11 | The coefficient of x^k, for k below 32, in the generator of IEEE Std 802.3, section 3.2.9, is bit 31-k of the constant: it is set exactly for k = 0, 1, 2, 4, 5, 7, 8, 10, 11, 12, 16, 22, 23, 26 |
| `CrcStandard.FeedReads` | src/core/serialize.cpp:11 | The step on 32-bit machine words, a shift and an exclusive or with 0xEDB88320, is the step of the register bit by bit |
| `Frame.AcceptsExactlyFrames` | include/admission_fabric/serialize.hpp:60-69 | A buffer parses to payload p if and only if it is the frame of p and the length of p fits 32 bits |
| `Frame.BurstRejected` | include/admission_fabric/serialize.hpp:152-163 | Every different buffer of the same length that differs from a frame only inside four consecutive bytes, in payload or trailer or across both, is rejected |
| `Frame.SamePayload` | include/admission_fabric/serialize.hpp:152-163 | Two frames of equally long payloads that agree outside four consecutive bytes carry the same payload |
| `Frame.RefusedExactly` | include/admission_fabric/serialize.hpp:152-163 | Every refusal is for the first cause that applies, in terms of the sixteen last bytes: too short, magic, version, length, checksum |
| `Frame.TrailerShape` | include/admission_fabric/serialize.hpp:60-69 | The trailer is magic, version, length and checksum, four octets each, low octet first |
| `Frame.BuildFrame` | include/admission_fabric/serialize.hpp:60-69 | The built buffer is the payload followed by magic, version, length and checksum, little-endian |
| `Frame.Parse` | include/admission_fabric/serialize.hpp:152-163 | The parser returns the payload, or the first of the five objections in the order of the checks |
| `Wire.ByteWriter.U32` | include/admission_fabric/serialize.hpp:31 | Four bytes, least significant first, are put behind what was written before, and nothing else changes |
| `Wire.ByteWriter.U64` | include/admission_fabric/serialize.hpp:32 | Eight bytes, least significant first, are put behind what was written before |
| `Wire.ByteWriter.Text` | include/admission_fabric/serialize.hpp:40-43 | The 32-bit length and the bytes of a string are put behind what was written before |
| `Wire.ByteWriter.Texts` | include/admission_fabric/serialize.hpp:50-53 | The 32-bit count and every string in order are put behind what was written before |
| `Wire.ByteReader.U32` | include/admission_fabric/serialize.hpp:89 | Reads the word whose bytes come least significant first; fails exactly if the reader had failed or fewer than four bytes remain |
| `Wire.ByteReader.U64` | include/admission_fabric/serialize.hpp:90 | Reads the word whose bytes come least significant first; fails exactly if the reader had failed or fewer than eight bytes remain |
| `Wire.ByteReader.Text` | include/admission_fabric/serialize.hpp:104-112 | Reads a string of at most 64 MiB and stands behind it; otherwise the sticky flag is set |
| `Wire.ByteReader.Texts` | include/admission_fabric/serialize.hpp:125-136 | Reads at most 2^20 strings and stands behind them; otherwise the sticky flag is set |
| `Grammar.TextRoundTrip` | include/admission_fabric/serialize.hpp:104-112 | A string of at most 64 MiB is read back with exactly what followed it |
| `Grammar.ListRoundTrip` | include/admission_fabric/serialize.hpp:125-136 | A list within its bound, of elements that round-trip, is read back with exactly what followed it |
| `Grammar.EachLocal` | include/admission_fabric/serialize.hpp:125-136 | A counted list that was read successfully is read the same when bytes are appended behind it, and leaves them unread |
| `Codec.CutFails` | include/admission_fabric/serialize.hpp:175-179 | A parse that bytes appended behind do not disturb, and that reads an encoding to its end, fails on every strict prefix of it |
| `Codec.DescriptorRoundTrip` | src/core/codec.cpp:80-107 | Decoding an encoded descriptor followed by any bytes gives its encoded fields and stops exactly at those bytes |
| `Codec.DescriptorTruncated` | src/core/codec.cpp:80-107 | No strict prefix of an encoded descriptor is decoded |
| `Coders.EncodeDescriptor` | src/core/codec.cpp:46-79 | The writing calls put exactly that encoding behind what was written before |
| `Coders.DecodeDescriptor` | src/core/codec.cpp:80-107 | The reading calls return a record exactly if the format parses, although reads go on after a failure, and then stand behind it |
| `Codec.SnapshotRoundTrip` | src/core/codec.cpp:130-149 | Decoding an encoded snapshot followed by any bytes gives its encoded fields and stops exactly at those bytes |
| `Codec.SnapshotTruncated` | src/core/codec.cpp:130-149 | No strict prefix of an encoded snapshot is decoded |
| `Coders.EncodeSnapshot` | src/core/codec.cpp:109-128 | The writing calls put exactly that encoding behind what was written before |
| `Coders.DecodeSnapshot` | src/core/codec.cpp:130-149 | The reading calls return a record exactly if the format parses, although reads go on after a failure, and then stand behind it |
| `Codec.ReservationRoundTrip` | src/core/codec.cpp:166-179 | Decoding an encoded reservation followed by any bytes gives its encoded fields and stops exactly at those bytes |
| `Codec.ReservationTruncated` | src/core/codec.cpp:166-179 | No strict prefix of an encoded reservation is decoded |
| `Coders.EncodeReservation` | src/core/codec.cpp:151-164 | The writing calls put exactly that encoding behind what was written before |
| `Coders.DecodeReservation` | src/core/codec.cpp:166-179 | The reading calls return a record exactly if the format parses, although reads go on after a failure, and then stand behind it |
| `Codec.OverrideRoundTrip` | src/core/codec.cpp:241-252 | Decoding an encoded override followed by any bytes gives its encoded fields and stops exactly at those bytes |
| `Codec.OverrideTruncated` | src/core/codec.cpp:241-252 | No strict prefix of an encoded override is decoded |
| `Coders.EncodeOverride` | src/core/codec.cpp:204-213 | The writing calls put exactly that encoding behind what was written before |
| `Coders.DecodeOverride` | src/core/codec.cpp:241-252 | The reading calls return a record exactly if the format parses, although reads go on after a failure, and then stand behind it |
| `Codec.PolicyRoundTrip` | src/core/codec.cpp:217-254 | Decoding an encoded policy followed by any bytes gives its encoded fields and stops exactly at those bytes |
| `Codec.PolicyTruncated` | src/core/codec.cpp:217-254 | No strict prefix of an encoded policy is decoded |
| `Coders.EncodePolicy` | src/core/codec.cpp:181-215 | The writing calls put exactly that encoding behind what was written before |
| `Coders.DecodePolicy` | src/core/codec.cpp:217-254 | The reading calls return a record exactly if the format parses, although reads go on after a failure, and then stand behind it |
| `Codec.QuotaRoundTrip` | src/core/codec.cpp:272-285 | Decoding an encoded quota followed by any bytes gives its encoded fields and stops exactly at those bytes |
| `Codec.QuotaTruncated` | src/core/codec.cpp:272-285 | No strict prefix of an encoded quota is decoded |
| `Coders.EncodeQuota` | src/core/codec.cpp:256-270 | The writing calls put exactly that encoding behind what was written before |
| `Coders.DecodeQuota` | src/core/codec.cpp:272-285 | The reading calls return a record exactly if the format parses, although reads go on after a failure, and then stand behind it |
| `Codec.ObservationRoundTrip` | src/core/codec.cpp:310-326 | Decoding an encoded observation followed by any bytes gives its encoded fields and stops exactly at those bytes |
| `Codec.ObservationTruncated` | src/core/codec.cpp:310-326 | No strict prefix of an encoded observation is decoded |
| `Coders.EncodeObservation` | src/core/codec.cpp:287-308 | The writing calls put exactly that encoding behind what was written before |
| `Coders.DecodeObservation` | src/core/codec.cpp:310-326 | The reading calls return a record exactly if the format parses, although reads go on after a failure, and then stand behind it |
| `Codec.DecisionRoundTrip` | src/core/codec.cpp:350-371 | Decoding an encoded decision followed by any bytes gives its encoded fields and stops exactly at those bytes |
| `Codec.DecisionTruncated` | src/core/codec.cpp:350-371 | No strict prefix of an encoded decision is decoded |
| `Coders.EncodeDecision` | src/core/codec.cpp:328-348 | The writing calls put exactly that encoding behind what was written before |
| `Coders.DecodeDecision` | src/core/codec.cpp:350-371 | The reading calls return a record exactly if the format parses, although reads go on after a failure, and then stand behind it |
| `Codec.ProfileRoundTrip` | src/core/codec.cpp:400-424 | Decoding an encoded profile followed by any bytes gives its encoded fields and stops exactly at those bytes |
| `Codec.ProfileTruncated` | src/core/codec.cpp:400-424 | No strict prefix of an encoded profile is decoded |
| `Coders.EncodeProfile` | src/core/codec.cpp:373-398 | The writing calls put exactly that encoding behind what was written before |
| `Coders.DecodeProfile` | src/core/codec.cpp:400-424 | The reading calls return a record exactly if the format parses, although reads go on after a failure, and then stand behind it |
| `Layouts.LittleEndian` | include/admission_fabric/serialize.hpp:31-32 | A word is written as its octets, each spelled out as a quotient modulo 256, the low one first |
| `Layouts.NumbersLaid` | include/admission_fabric/serialize.hpp:29-43 | A number is its octets, a negative one its two's complement, a flag one or zero, a text its length in four octets and its bytes |
| `Layouts.VectorLaid` | src/core/codec.cpp:18-20 | A resource vector is twelve words of eight octets, in the order of the dimensions |
| `Layouts.OptionLaid` | src/core/codec.cpp:8-10 | An absent option is a zero octet, a present one a one and the value |
| `Layouts.ListLaid` | include/admission_fabric/serialize.hpp:50-53 | A list is its length in four octets and its elements in order |
| `Layouts.DescriptorLaid` | src/core/codec.cpp:46-79 | The bytes of a descriptor are those of its fields, end to end, in the order of the source |
| `Layouts.SnapshotLaid` | src/core/codec.cpp:109-128 | The bytes of a snapshot are those of its fields, end to end, in the order of the source |
| `Layouts.ReservationLaid` | src/core/codec.cpp:151-164 | The bytes of a reservation are those of its fields, end to end, in the order of the source |
| `Layouts.OverrideLaid` | src/core/codec.cpp:204-213 | The bytes of a override are those of its fields, end to end, in the order of the source |
| `Layouts.PolicyLaid` | src/core/codec.cpp:181-215 | The bytes of a policy are those of its fields, end to end, in the order of the source |
| `Layouts.QuotaLaid` | src/core/codec.cpp:256-270 | The bytes of a quota are those of its fields, end to end, in the order of the source |
| `Layouts.ObservationLaid` | src/core/codec.cpp:287-308 | The bytes of a observation are those of its fields, end to end, in the order of the source |
| `Layouts.DecisionLaid` | src/core/codec.cpp:328-348 | The bytes of a decision are those of its fields, end to end, in the order of the source |
| `Layouts.ProfileLaid` | src/core/codec.cpp:373-398 | The bytes of a profile are those of its fields, end to end, in the order of the source |
| `Layouts.EntryLaid` | src/core/engine.cpp:494-505 | The bytes of a saved request are its id, its lifecycle, its descriptor and its decision if there is one |
| `Layouts.ImageLaid` | src/core/engine.cpp:475-516 | The bytes of a saved state are policies, profiles, reservations, the reserved and the used vector, overcommit mode and allowance, requests, quota, both counters, and the snapshot if there is one |
| `Layouts.CodesLaid` | src/core/engine.cpp:496 | The octet of every lifecycle and of every reservation status |
| `Layouts.CountBounds` | src/core/engine.cpp:518-580 | More texts, reservations or requests than 2^20, overrides than 2^16, policies than 128, profiles than 256 are refused before any is read |
| `Layouts.TextBound` | include/admission_fabric/serialize.hpp:104-112 | A text is refused exactly if it is longer than 64 MiB or than what follows its length |
| `Layouts.FlagRead` | include/admission_fabric/serialize.hpp:94 | Any octet but zero reads as a set flag |
| `Codec.OverridesRoundTrip` | src/core/codec.cpp:239-253 | A nested list of at most 2^16 overrides is read back with exactly what followed it |
| `Coders.DecodeOverrides` | src/core/codec.cpp:239-253 | The loop over overrides returns the list exactly if count and all elements parse |
| `Ledger.ReserveSound` | include/admission_fabric/reservation.hpp:130-165 | Reserving keeps both vectors equal to the sums over the table and their sum within 64 bits |
| `Ledger.CommitSound` | include/admission_fabric/reservation.hpp:169-196 | So does committing, expired reservations included |
| `Ledger.RollbackSound` | include/admission_fabric/reservation.hpp:199-214 | So does rolling back |
| `Ledger.ReleaseSound` | include/admission_fabric/reservation.hpp:219-242 | So does releasing, whatever the status |
| `Ledger.SweepSound` | include/admission_fabric/reservation.hpp:245-256 | A sweep keeps the sums and expires exactly the provisional entries past their time |
| `Ledger.TableDetermines` | include/admission_fabric/reservation.hpp:293-308 | Two ledgers whose vectors are the sums over the same table have the same vectors |
| `LedgerRuns.RunSound` | include/admission_fabric/reservation.hpp:130-256 | After every sequence of operations and reconfigurations from empty, the reserved vector is the sum over Reserved entries, the used vector the sum over Committed ones, and they add up to at most 2^64-1 in every dimension |
| `LedgerRuns.NoArithmeticError` | include/admission_fabric/reservation.hpp:185-191 | In such a state the underflow and overflow branches of commit, rollback, release and both expiry paths are never taken |
| `LedgerRuns.ApplyWithin` | include/admission_fabric/reservation.hpp:139-151 | A step keeps reserved plus used within the ceiling if and only if it is no reconfiguration or the ceiling that it sets covers what is held before it |
| `LedgerRuns.RunWithin` | include/admission_fabric/reservation.hpp:139-151 | Throughout a run, held capacity stays within the ceiling if and only if every reconfiguration in it sets a ceiling that covers what is held at that moment |
| `LedgerRuns.NeverLoweredWithin` | include/admission_fabric/reservation.hpp:81-98 | In particular, a run in which no step lowers a ceiling keeps held capacity within it throughout |
| `LedgerRuns.CeilingCanShrink` | include/admission_fabric/reservation.hpp:65 | A run of three steps in which the total sinks below what is held |
| `Ceilings.CeilingKeptExactly` | src/core/engine.cpp:219-221 | An operation of the engine keeps held capacity within the ceiling if and only if the ceiling covers what is held under the capacity and the overcommit terms that it sets; an evaluation sets those of the policy in force for its request, whatever the outcome |
| `Ceilings.RunKeptExactly` | src/core/engine.cpp:15-32 | Throughout a run of the engine, held capacity stays within the ceiling if and only if every operation in it sets such a ceiling |
| `Ceilings.OverrideSinksCeiling` | src/core/engine.cpp:218-221 | A run from the start in which the evaluation of one request, through a policy override, sinks the ceiling below what another holds |
| `LedgerRuns.AtMostOnce` | include/admission_fabric/reservation.hpp:169-256 | In every run a reservation enters the used vector at most once, gives its demand back at most once, and once closed is never live again |
| `LedgerRuns.Conservation` | include/admission_fabric/reservation.hpp:130-256 | In every run and dimension, all demand ever granted is reserved, used, or was given back |
| `LedgerRuns.Drain` | include/admission_fabric/reservation.hpp:219-242 | Releasing every reservation, in any order and with repetitions, brings both vectors to zero |
| `LedgerRuns.SweepsCommute` | include/admission_fabric/reservation.hpp:245-256 | A sweep followed by a later sweep ends in the same state as the later sweep alone |
| `LedgerRuns.LateCommitIsSwept` | include/admission_fabric/reservation.hpp:179-183 | A late commit followed by a sweep at the same time ends in the state of the sweep alone |
| `LedgerRuns.ReserveAccepts` | include/admission_fabric/reservation.hpp:130-165 | What fits the availability is reserved if and only if the id is free, something is asked for, and held capacity is within the ceiling |
| `LedgerExactly.CeilingExactly` | include/admission_fabric/reservation.hpp:81-88 | The ceiling of a dimension is 2^62-1 if its total is zero, else the total and, where overcommit is on, the allowance, up to 2^64-1 |
| `LedgerExactly.ReserveExactly` | include/admission_fabric/reservation.hpp:130-165 | A reservation is made if and only if its id is new, something is asked for, and it fits under the ceiling on top of all that is held; it then expires its lifetime after now, and every field, both vectors and the serial are stated; each refusal has its own cause and changes nothing |
| `LedgerExactly.CommitExactly` | include/admission_fabric/reservation.hpp:169-196 | A commit succeeds if and only if the reservation is provisional and now is not past its expiry; the demand moves from reserved to used; a late one expires the entry and gives the demand back; every other refusal has its cause and changes nothing |
| `LedgerExactly.RollbackExactly` | include/admission_fabric/reservation.hpp:199-214 | A rollback succeeds exactly on a reservation that is provisional, rolled back or released, and gives back exactly what is provisional |
| `LedgerExactly.ReleaseExactly` | include/admission_fabric/reservation.hpp:219-242 | A release succeeds exactly on a known reservation, and gives back what it holds in the vector that holds it |
| `LedgerExactly.SweepExactly` | include/admission_fabric/reservation.hpp:245-256 | A sweep expires exactly the provisional entries whose expiry lies before now |
| `LedgerExactly.LifetimeExactly` | include/admission_fabric/reservation.hpp:153-196 | After a reservation at now with a lifetime, and any run that leaves it alone and sweeps no later than its end, a commit at t succeeds if and only if t is at most now plus the lifetime, and a sweep at t expires it if and only if t is later |
| `ReservationManager.Manager.ComputeAvailability` | include/admission_fabric/reservation.hpp:119-126 | The loop computes, in every dimension, the ceiling less what is held, saturating at zero |
| `ReservationManager.Manager.Reserve` | include/admission_fabric/reservation.hpp:130-165 | The new state and code are those of the ledger's reserve; nothing changes on refusal |
| `ReservationManager.Manager.Commit` | include/admission_fabric/reservation.hpp:169-196 | The new state and code are those of the ledger's commit |
| `ReservationManager.Manager.Rollback` | include/admission_fabric/reservation.hpp:199-214 | The new state and code are those of the ledger's rollback |
| `ReservationManager.Manager.Release` | include/admission_fabric/reservation.hpp:219-242 | The new state and code are those of the ledger's release |
| `ReservationManager.Manager.ExpireStale` | include/admission_fabric/reservation.hpp:245-256 | The loop over the table ends in the state of the ledger's sweep |
| `ReservationManager.Manager.VerifyAccounting` | include/admission_fabric/reservation.hpp:293-308 | Returns true if and only if both vectors are the sums over the table and their saturated sum is within the ceiling |
| `ReservationManager.Manager.Restore` | include/admission_fabric/reservation.hpp:269-289 | Succeeds if and only if ids are distinct, closed rows carry no demand and the vectors are the sums by status; then replaces table and vectors, otherwise changes nothing |
| `ReservationManager.TableOfRows` | include/admission_fabric/reservation.hpp:283-285 | The rebuilt table holds exactly the given rows |
| `Policies.InstallFiled` | include/admission_fabric/policy.hpp:113-125 | Every installation, wrapping or not, keeps at most 128 valid policies, each under its own generation, with the latest among them |
| `Policies.InstallOrderly` | include/admission_fabric/policy.hpp:113-125 | Below wrap-around an installation keeps the history ordered and unchanged, and a successful one strictly raises the latest generation and makes the given policy the latest |
| `Policies.HistoryImmutable` | include/admission_fabric/policy.hpp:113-149 | Over every run of installations below wrap-around no generation changes, at most 128 exist, and the latest never falls |
| `Policies.ImmutableExactly` | include/admission_fabric/policy.hpp:113-137 | No run of installations that uses each counter value once can change a retained generation if and only if every retained generation is below the counter |
| `Policies.MixedRunRetains` | include/admission_fabric/policy.hpp:113-137 | A run that mixes both kinds of installation changes no retained generation, if each explicit generation is below the counter at that step and the counter does not wrap before the last |
| `Policies.LatestReturnsExactly` | include/admission_fabric/policy.hpp:128-137 | A recovery leaves the policy in force as it is if and only if no retained generation is larger than the latest |
| `Policies.RecoveredGenerationLost` | include/admission_fabric/policy.hpp:113-137 | The first installation after a recovery is generation one; exactly if a larger generation is retained the latest falls and the next recovery puts the old policy back in force; a retained generation one is lost exactly if it differs |
| `Policies.RecoveriesRevert` | include/admission_fabric/policy.hpp:113-137 | Two policies, a recovery, a third policy, a recovery: the second policy is in force again |
| `Policies.MatchesExactly` | include/admission_fabric/policy.hpp:178-192 | An override applies to a request if and only if its key is model=, tenant=, backend= or class= followed by the request's own model id, tenant id, backend or class |
| `Policies.KeyKinds` | include/admission_fabric/policy.hpp:178-192 | For each kind of key: it matches if and only if the id or text behind it is that of the request |
| `Policies.EffectiveSettings` | include/admission_fabric/policy.hpp:152-165 | Each of the seven settings of the effective policy is what the last override says of it that names the request's model, tenant, backend or class and speaks of the setting, and otherwise what the base says; nothing else differs |
| `Policies.InstallExactly` | include/admission_fabric/policy.hpp:87-125 | A policy is installed if and only if its ratios, confidences, allowance, ages, lifetimes and deferrals are in range and fewer than 128 generations, or its own, are held; the new history is stated in full |
| `Policies.InstallAtExactly` | include/admission_fabric/policy.hpp:128-137 | Under a given generation it is installed if and only if it is acceptable and the generation is free; the latest is then the larger of the two |
| `Policies.LatestExactly` | include/admission_fabric/policy.hpp:139-149 | The policy in force is the one of the latest generation, and there is none exactly before the first installation |
| `Doubles.ValueExactly` | include/admission_fabric/policy.hpp:88-106 | A stored double stands for the number of the binary64 format of IEEE Std 754-2008, section 3.4, normal, subnormal, infinite or none |
| `Texts.DecimalReads` | include/admission_fabric/policy.hpp:179-183 | The numeral of an id reads as that id and has no zero in front |
| `Policies.EffectiveKeeps` | include/admission_fabric/policy.hpp:152-165 | For a valid base the effective headroom ratio stays in [0,1), and lifetime, absolute margin and fairness window stay those of the base |
| `Policies.ComputeEffective` | include/admission_fabric/policy.hpp:152-165 | The loop over overrides computes the effective policy |
| `Policies.PolicyEngine.InstallPolicy` | include/admission_fabric/policy.hpp:113-125 | The new history and code are those of an installation, the consumed counter value included |
| `Policies.PolicyEngine.InstallAtGeneration` | include/admission_fabric/policy.hpp:128-137 | The new history and code are those of an installation under a given generation, which leaves the counter alone |
| `Policies.PolicyEngine.NextGeneration` | include/admission_fabric/policy.hpp:172-176 | Returns the counter and advances it, restarting at one |
| `EngineRuns.EvaluateEffect` | src/core/engine.cpp:167-400 | An evaluation changes one record, stores the decision in it, moves only an unsettled lifecycle, and adds one Reserved entry exactly if it admits |
| `Hazards.LinkSurvivesExactly` | src/core/engine.cpp:171-206 | An evaluation keeps requests and reservations linked if and only if it re-evaluates neither a deferred request that is admissible in the state before it, nor an active request whose reservation is live |
| `EngineRuns.CommitLinks` | src/core/engine.cpp:402-417 | A commit, whatever its outcome, keeps them linked |
| `EngineRuns.ReleaseLinks` | src/core/engine.cpp:419-431 | So does a release |
| `EngineRuns.CancelLinks` | src/core/engine.cpp:433-453 | So does a cancellation |
| `EngineRuns.RunLinks` | src/core/engine.cpp:167-453 | So does every run without such an evaluation |
| `EngineRuns.OnceLinked` | src/core/engine.cpp:167-453 | So does every run from the start in which each request id is evaluated at most once |
| `Restarts.OnceLinked` | src/core/engine.cpp:167-612 | So does every such run with restarts from the saved state in between |
| `EngineRuns.LinkedSums` | src/core/engine.cpp:167-453 | While linked, there are as many committed reservations as admitted requests and as many provisional ones as requests that hold them, and the used and reserved vectors are what the decisions on these requests demand, added up |
| `EngineRuns.UsedIsAdmitted` | src/core/engine.cpp:167-453 | So it is over every run from the start in which each request id is evaluated at most once: capacity is in use exactly for admitted requests, and reserved exactly for those that wait |
| `EngineRuns.NothingStranded` | src/core/engine.cpp:402-453 | While linked, every provisional reservation can be committed before its expiry and rolled back through the request that names it, and every committed one released |
| `Admission.AdmitsExactly` | src/core/engine.cpp:167-400 | An evaluation admits if and only if the request is well-formed and new, a policy is installed, capability, snapshot, quota, time and fairness allow it, what is held, the margin and the demand fit under the ceiling in every dimension asked for, held capacity is within the ceiling, the next reservation id is free and something is asked for |
| `Admission.AdmittedExactly` | src/core/engine.cpp:319-382 | Behind the gates, the reservation is refused only for a taken id, an all-zero demand, or a ceiling below what is held |
| `Admission.MarginStaysFree` | src/core/engine.cpp:319-330 | After an admission every dimension it draws on still has free the safety margin: the integer n with n <= a*r < n+1, for the availability a before and the real number r that the stored ratio stands for, and the absolute margin, up to 2^64-1 |
| `Engine.KeptExactly` | src/core/engine.cpp:320-328 | The computed margin is that number, and no other is |
| `Admission.RatioOfValid` | include/admission_fabric/policy.hpp:88 | For every policy that passed validation, under any of its overrides, r is the stored double's value, at least zero and below one |
| `Admission.RefusalKeepsLedger` | src/core/engine.cpp:374-382 | Any other outcome leaves table, vectors and total as they were; and no other record ever changes |
| `Admission.MarginGrowsSlowly` | src/core/engine.cpp:320-329 | What remains of an availability after the margin, a fraction rounded down plus an absolute part, never shrinks when more is available |
| `Admission.AdmissionMonotone` | src/core/engine.cpp:319-400 | A request that is admitted is admitted with the same decision when constrained totals are larger |
| `EngineExactly.ReasonExactly` | src/core/engine.cpp:167-397 | The reason of every decision: malformed or past evaluation, no policy, then the first of capability, staleness, unknown capacity, token budget, quota, deadline, class; then admitted with or without risk if and only if admissible, and deferred for capacity otherwise |
| `EngineExactly.ProperExactly` | include/admission_fabric/descriptor.hpp:122-148 | A request is well-formed exactly if its seven identities are set and its tokens, priority, deadline, objective and lifetime are in range |
| `EngineExactly.QueueTable` | src/core/engine.cpp:135-141 | The predicted queue is 0, 5, 20, 80 or 200 milliseconds, by pressure |
| `EngineExactly.SloExactly` | src/core/engine.cpp:129-165 | Infeasible, undecided and risky, in terms of the deadline, what is predicted and the latency class |
| `EngineExactly.DecisionExactly` | src/core/engine.cpp:49-66 | All fields of every decision: identities, generations, times, outcome by reason, demand, and the grant of an admission |
| `EngineExactly.RecordExactly` | src/core/engine.cpp:76-94 | The record that an evaluation leaves: its decision, its descriptor, and a lifecycle that follows the outcome unless it had settled; no other record changes |
| `EngineExactly.EvaluateFrame` | src/core/engine.cpp:167-400 | History, snapshot and quota stay; the two counters advance exactly as stated; and the ledger is under the terms of the policy in force |
| `EngineExactly.AdmissionReserves` | src/core/engine.cpp:370-382 | An admission reserves the demand for the tenant under the next id, from now for the reservation lifetime of the policy in force, under its terms |
| `EngineExactly.StartExactly` | src/core/engine.cpp:13 | Nothing is known, held or decided at the start, and every counter stands at one |
| `Commitments.CommitsExactly` | src/core/engine.cpp:402-417 | A commit succeeds if and only if the decision on the request has this generation and grants a reservation that is provisional and not past its expiry; the state after it is stated |
| `Commitments.CommitRefusals` | src/core/engine.cpp:402-417 | Every refusal of a commit has its own cause, and only a late one changes anything |
| `Commitments.ReleasesExactly` | src/core/engine.cpp:419-431 | A release succeeds exactly on a known reservation; what it held returns, and exactly the reserved and admitted requests that name it become released |
| `Commitments.CancelsExactly` | src/core/engine.cpp:433-453 | A request is cancelled exactly until it is admitted or at an end; only from Reserved, and only a provisional reservation, is rolled back |
| `Commitments.InstallBinds` | src/core/engine.cpp:15-24 | A successful installation, and no other, puts the ledger under the terms of the policy just installed |
| `Commitments.CommittableUntil` | src/core/engine.cpp:370-417 | An admitted request can be committed under its generation until exactly the time of its evaluation plus the reservation lifetime of the policy in force for it, over every run of operations on other requests and reservations in between |
| `Hazards.DeferredReservationStrands` | src/core/engine.cpp:171-206 | A deferred request that is evaluated again and admitted stays Deferred; cancelling it rolls nothing back; a commit still turns the cancelled request into an admitted one; and one more evaluation leaves its reservation named by no request |
| `Hazards.ActiveReservationStrands` | src/core/engine.cpp:183-201 | A request that waits for its commit and is evaluated again can be cancelled without rolling anything back, cannot be committed, and its reservation, still held, is named by no request |
| `Hazards.HazardReachable` | src/core/engine.cpp:258-267 | A run from the start, evaluating before the first snapshot, reaches a deferred request that would now be admitted |
| `Hazards.ActiveHazardReachable` | src/core/engine.cpp:193-201 | A run from the start admits a request, evaluates it again and cancels it, and ends with a reservation that is held and named by no request |
| `AdmissionFabric.Fabric.Evaluate` | src/core/engine.cpp:167-400 | The new state and the decision are those of the value model, gates, records, counters and ledger included |
| `AdmissionFabric.Fabric.CheckGates` | src/core/engine.cpp:228-368 | The gates in the order of the source stop for the reason of the value model, or not at all |
| `AdmissionFabric.Fabric.ClassifyQuota` | src/core/engine.cpp:107-127 | The token budget is rejected before a short resource dimension defers, and an absent quota admits |
| `AdmissionFabric.Fabric.ComputeHeadroom` | src/core/engine.cpp:321-330 | The loop subtracts the margin from the availability in every dimension |
| `AdmissionFabric.Fabric.CountPendingSmall` | src/core/engine.cpp:333-336 | The loop counts the deferred requests of fewer than 512 expected output tokens |
| `AdmissionFabric.Fabric.Move` | src/core/engine.cpp:76-94 | Creates the record in state `from` if need be, and moves it exactly if it is in state `from` |
| `AdmissionFabric.Fabric.Record` | src/core/engine.cpp:170-179 | Stores the decision and then attempts both transitions, whatever comes of them |
| `AdmissionFabric.Fabric.CommitAdmission` | src/core/engine.cpp:402-417 | The new state and code are those of the value model; the lifecycle is not checked |
| `AdmissionFabric.Fabric.ReleaseReservation` | src/core/engine.cpp:419-431 | After a successful release the loop marks every active request that names the reservation as released |
| `AdmissionFabric.Fabric.CancelRequest` | src/core/engine.cpp:433-453 | Only a Reserved request rolls its reservation back; Admitted and terminal ones are refused |
| `AdmissionFabric.Fabric.InstallPolicy` | src/core/engine.cpp:15-24 | Installs and binds the ledger to the terms of the latest policy |
| `AdmissionFabric.Fabric.SetSnapshot` | src/core/engine.cpp:28-32 | Stores the snapshot and sets the ledger's total |
| `Persistence.ImageRoundTrip` | src/core/engine.cpp:475-516 | A saved state within the decoder's bounds, followed by any bytes, is read back field by field up to those bytes |
| `Persistence.ImageTruncated` | src/core/engine.cpp:518-612 | No strict prefix of a saved state can be read |
| `Recovery.HistoryReturns` | src/core/engine.cpp:523-532 | All policies return under their generations, of a history that was recovered before or not; the largest generation becomes the latest, and the counter starts over |
| `Recovery.ProfilesReturn` | src/core/engine.cpp:533-541 | All profiles return under their keys, renumbered; nothing learned returns |
| `Recovery.RowsReturn` | src/core/engine.cpp:542-563 | The rows of a ledger that keeps its invariant are accepted if and only if none is closed, and give its table back |
| `Recovery.RestoreOfSave` | src/core/engine.cpp:475-612 | A fresh engine that reads what another saved, recovered before or not, succeeds if and only if no reservation is Released, Expired or RolledBack; it then consumes every byte and has the same policies, profiles, reservations, sums, requests, quota, counters and snapshot |
| `Recovery.SavedExactly` | src/core/engine.cpp:475-516 | What is saved: every policy, profile, reservation and request once, the vectors and overcommit terms, quota, counters, and the snapshot if one was set |
| `Recovery.RecoveredExactly` | src/core/engine.cpp:518-612 | What a recovered engine has: the policy of the largest generation in force and the ledger under its terms; everything else as saved, with the policy counter and the reservation serial at one |
| `Recovery.InstallEachExactly` | src/core/engine.cpp:523-532 | Any list of policies goes back if and only if each is acceptable and no two share a generation |
| `Recovery.RebuildExactly` | src/core/engine.cpp:518-612 | Any state that parses is accepted by a fresh engine if and only if its policies are acceptable and of distinct generations, its reservations have distinct ids, closed ones ask for nothing, the vectors are the sums, and its requests have distinct ids |
| `Restarts.ReachableRestores` | src/core/engine.cpp:475-612 | The same for every state that runs of the engine and of its predictor reach, with restarts at any point and in any number |
| `Restarts.RestartLinks` | src/core/engine.cpp:518-612 | A restart never breaks the link between requests and reservations |
| `Restarts.RestartKeepsPolicyExactly` | src/core/engine.cpp:523-532 | Over every run with restarts, a further restart leaves the policy in force as it is if and only if no retained generation is larger than the latest |
| `Restarts.RestartsRevertPolicy` | src/core/engine.cpp:523-532 | Two policies are installed, the process restarts, a third is installed and in force; after the next restart the second one is in force |
| `Restarts.ReleaseBlocksRecovery` | include/admission_fabric/reservation.hpp:278 | Releasing a known reservation never fails and leaves a state that can be saved but not read back |
| `StateStore.FileLoads` | src/core/persistence.cpp:11-31 | The framed state loads into a fresh engine if and only if no reservation is closed, and gives the recovered engine, the same profiles up to their generation, and nothing learned |
| `StateStore.LoadExactly` | src/core/persistence.cpp:19-31 | A file loads if and only if it is the frame of a payload that is a saved state up to its last byte and can be rebuilt |
| `StateStore.BuildPayload` | src/core/persistence.cpp:11-17 | The file is the frame of the saved state |
| `StateStore.ApplyPayload` | src/core/persistence.cpp:19-31 | Succeeds exactly if frame and state are accepted and no byte trails the state; then engine and predictor are those of the value model |
| `StateStore.DamagedFileRefused` | src/core/persistence.cpp:19-31 | A file damaged inside four consecutive bytes is never loaded, into whatever engine |
| `StateStore.SaveState` | src/core/engine.cpp:475-516 | The loops write exactly the saved state, maps in key order |
| `StateStore.RestoreState` | src/core/engine.cpp:518-612 | Interleaved reading and installing succeeds exactly if the whole state parses and every part is accepted; on success engine, predictor and reading position are those of the value model |
| `StateStore.RestorePolicies` | src/core/engine.cpp:523-532 | The loop installs every policy under its own generation, and stops at the first that is refused |
| `StateStore.RestoreProfiles` | src/core/engine.cpp:533-541 | The loop registers every profile and ignores refusals |
| `StateStore.RestoreRequests` | src/core/engine.cpp:565-589 | The loop rebuilds the requests and stops at the first repeated id |
| `Authority.RunCoherent` | src/core/coordinator.cpp:61-71 | In every interleaving from the opening, each entry is a connection of its agent, each stored snapshot is the initial one or carries its connection's agent and boot identity, and the accepted generation is the snapshot's |
| `Authority.UpdateAcceptedExactly` | src/core/coordinator.cpp:103-124 | After every run from the opening, an update with the current epoch and the connection's own identities is accepted if and only if no generation but zero was accepted on the connection before or this one is larger than the last |
| `Authority.UpdateExactly` | src/core/coordinator.cpp:103-124 | The answer to any update is that of the first check it fails; an accepted one stores the snapshot sent and changes no other connection, entry or epoch |
| `Authority.RegisterExactly` | src/core/coordinator.cpp:60-75 | A registration is refused exactly while the entry is live under another boot identity; otherwise the new connection is live, has nothing accepted and takes over the entry, and nothing else changes |
| `Authority.LoseExactly` | src/core/coordinator.cpp:241-251 | A loss kills exactly the live connection that the entry of its agent points at, advances the epoch, and changes nothing else |
| `Authority.FreeExactly` | include/admission_fabric/resource.hpp:287-290 | What is free is total less used less reserved accelerator memory, or nothing |
| `Authority.QualifiesExactly` | src/core/coordinator.cpp:225-239 | An agent qualifies exactly if it is live and its snapshot has the tokens of the backend and data type that the request names |
| `Authority.ServedExactly` | src/core/coordinator.cpp:143-154 | A request is evaluated on the chosen snapshot, whose total becomes the capacity, or on an empty one of the current epoch and time |
| `Authority.RunFollows` | src/core/coordinator.cpp:82-129 | In every interleaving the epoch and the accepted generations never fall, identities never change, and a dead connection stays dead |
| `Authority.FenceRaisesExactly` | src/core/coordinator.cpp:241-255 | A step raises the epoch if and only if it fences a live entry below the largest epoch |
| `Authority.NoStaleAuthority` | src/core/coordinator.cpp:103-121 | No update stamped with an epoch handed out before a fence is accepted after it, on any connection, in any run, unless the epoch was at its largest value |
| `Authority.SaturatedEpochKeepsAuthority` | include/admission_fabric/id.hpp:37-42 | At the largest epoch a fence changes no answer to an update stamped with it |
| `Authority.GenerationsIncrease` | src/core/coordinator.cpp:114-120 | Once a non-zero generation was accepted on a connection, whatever is accepted on it later has a larger one |
| `Authority.BootChangesOnlyAfterFence` | src/core/coordinator.cpp:61-71 | In every run without a fence of a live agent, the agent stays live under the same boot identity |
| `Authority.LossHitsSuccessorExactly` | src/core/coordinator.cpp:241-249 | The loss of a connection kills another one if and only if the agent's entry has gone over to another connection, which is live |
| `Authority.SupersededLoss` | src/core/coordinator.cpp:64-71 | An agent that reconnects under its boot identity is fenced by the loss of the connection it left, and that connection never becomes live again |
| `Authority.ChoiceUnique` | src/core/coordinator.cpp:225-239 | At most one agent is the choice |
| `Authority.ChosenIsCapableExactly` | src/core/coordinator.cpp:230-234 | A chosen snapshot passes the engine's capability gate if and only if no backend or no quantization is named, or the quantization is covered |
| `Authority.NoAgentDefersExactly` | src/core/coordinator.cpp:143-154 | When no agent qualifies, a request past validation is deferred if and only if it names no backend and the clock has not outrun the tolerated age of the empty snapshot; one that names a backend is rejected for capability, any other as stale |
| `Coordinator.Coordinator.RegisterAgent` | src/core/coordinator.cpp:58-74 | A new connection takes the entry and is told the epoch, unless a live entry claims another boot identity |
| `Coordinator.Coordinator.HandleUpdate` | src/core/coordinator.cpp:93-123 | Epoch, identities and generation are checked in this order, and only an accepted update changes its connection |
| `Coordinator.Coordinator.OnAgentLoss` | src/core/coordinator.cpp:241-255 | The live entry of the lost connection's agent is fenced, whichever connection it is, and the epoch advances |
| `Coordinator.Coordinator.ChooseSnapshot` | src/core/coordinator.cpp:225-239 | Returns the live agent covering backend and dtype with most free accelerator memory, of lowest id among equals, and none if and only if none qualifies |
| `Profiles.PrefixIdentifies` | include/admission_fabric/prediction.hpp:324-354 | A key starts with the prefix of a model and revision if and only if these are its own |
| `Profiles.ContinuationsContiguous` | include/admission_fabric/prediction.hpp:345-346 | In the order of texts whatever lies between a prefix and a continuation of it continues it too |
| `Profiles.FindPrefixExactly` | include/admission_fabric/prediction.hpp:345-346 | The lower-bound search finds a key if and only if some key continues the prefix, and then the least of them |
| `Profiles.SearchExactly` | include/admission_fabric/prediction.hpp:343-365 | It finds an entry if and only if a profile of this model and revision is registered, and then the one of least key |
| `Profiles.ResolutionsAgree` | include/admission_fabric/prediction.hpp:343-365 | Resolution by key and resolution by profile always select the same entry, of the descriptor's own model and revision |
| `Predictor.EvidenceCounts` | include/admission_fabric/prediction.hpp:255-261 | In every run the evidence for a key is the number of valid observations that resolved to it, up to 4096 |
| `Predictor.AverageWithin` | include/admission_fabric/prediction.hpp:275-278 | The moving average never leaves the range of the samples it was made of |
| `Predictor.EffectiveRateBounded` | include/admission_fabric/prediction.hpp:433-437 | After any history the effective decode rate is between a fifth of the profile's rate and five times it |
| `Predictor.RunCataloged` | include/admission_fabric/prediction.hpp:133-142 | Over every run at most 256 profiles are held, each under its own key |
| `Predictor.WrapsExactly` | include/admission_fabric/prediction.hpp:62-67 | Base and peak equal the true sums if and only if these fit a word, and otherwise fall short of them |
| `Service.WrapUnderstates` | include/admission_fabric/prediction.hpp:368-372 | For a registered profile, a well-formed request of two tokens is predicted to need no accelerator memory, where one of one token needs half the address space and a byte: a saturated product and one more byte wrap |
| `Service.HeldCoversParts` | include/admission_fabric/prediction.hpp:232-239 | Over every run of engine and predictor, restarts included, in which the demands are predicted and no prediction wraps, the accelerator memory reserved, and that in use, covers the cache growth and tensor state reserved, and in use, with it |
| `Predictor.LongerNeedsMore` | include/admission_fabric/prediction.hpp:158-170 | A longer request never gets a smaller unadjusted peak, as long as the sums of the longer one do not wrap |
| `Predictor.DemandCoversParts` | include/admission_fabric/prediction.hpp:232-252 | Unless its sums wrap, the accelerator memory asked for covers cache growth plus tensor state, and what is needed throughout |
| `Predictor.ColdStartDemand` | include/admission_fabric/prediction.hpp:177-193 | Without a profile nothing saturates or wraps: the peak is 320 MiB and 16 bytes a token, with fifteen and eight percent on top, and the demand is never all-zero |
| `Predictor.MultiplySaturates` | include/admission_fabric/prediction.hpp:368-372 | The checked product is the true product cut off at 2^64-1 |
| `Predictor.RescaledComponent` | include/admission_fabric/prediction.hpp:373-378 | An adjusted component is at least four fifths of the old one, and at most the double if and only if the product by thousandths fits a word or the component is at least 2^63 |
| `Predictor.AdjustmentBounded` | include/admission_fabric/prediction.hpp:413-431 | After every history, an adjustment in which no product saturates changes each variable part by a factor between four fifths and two, keeps the fixed parts, and leaves a peak, which no sum wraps, of at most 2.3 times the unadjusted base; without evidence it changes nothing |
| `Predictor.WorkloadPredictor.RegisterProfile` | include/admission_fabric/prediction.hpp:133-142 | Registers or replaces under the next generation, and refuses exactly a new key in a full catalog; the marks in `seen_` always agree with the catalog |
| `Predictor.WorkloadPredictor.ObserveCompletion` | include/admission_fabric/prediction.hpp:255-282 | The new state is that of the value model; malformed observations change nothing |
| `Predictor.WorkloadPredictor.ApplyLearnedAdjustment` | include/admission_fabric/prediction.hpp:413-431 | The rewritten footprint is that of the value model, margins recomputed after the parts |
| `Estimates.SumsExactly` | include/admission_fabric/prediction.hpp:62-70 | The three sums over a footprint are the true sums modulo 2^64 |
| `Estimates.PortionExactly` | include/admission_fabric/prediction.hpp:373-378 | A portion is the base times the thousandths of the ratio, over a thousand, rounded down, or 2^64-1 if the product exceeds a word |
| `Estimates.ProfileFootprint` | include/admission_fabric/prediction.hpp:158-170 | Every part of the footprint that a profile predicts, in terms of its fields and the tokens of the request |
| `Estimates.GenericFootprint` | include/admission_fabric/prediction.hpp:183-191 | Every part of the generic footprint, without saturation |
| `Estimates.AdjustedExactly` | include/admission_fabric/prediction.hpp:413-431 | The adjustment moves cache, tensor state and staging by the observed over the predicted peak, kept between 0.8 and 2, and makes the margins ten and five percent of the new sum |
| `Estimates.DemandExactly` | include/admission_fabric/prediction.hpp:232-252 | All twelve dimensions of a demand |
| `Estimates.PredictionExactly` | include/admission_fabric/prediction.hpp:343-366 | Which profile a demand is predicted from: the one under the request's key, else the one of least key of its model and revision, and the generic estimate if there is none or it names no backend |
| `Estimates.KeyKnown` | include/admission_fabric/prediction.hpp:324-335 | The text of a key and of its prefix, for every backend, data type and quantization |
| `Estimates.PlausibleExactly` | include/admission_fabric/observation.hpp:45-59 | An observation is valid exactly if it has identities and a backend and, if completed, no absurd number |
| `Estimates.SampleExactly` | include/admission_fabric/prediction.hpp:268-279 | A sample is the observed tokens a second over the profile's rate, kept between 0.2 and 5 |
| `Estimates.ObserveExactly` | include/admission_fabric/prediction.hpp:255-283 | Everything that an observation changes: evidence, the last values, the largest peak, and the average, which moves two fifths of the way to the sample |
| `Estimates.ObservedKeyExactly` | include/admission_fabric/prediction.hpp:343-348 | Which key an observation counts for |
| `Estimates.RateExactly` | include/admission_fabric/prediction.hpp:433-437 | The effective rate is the profile's, times the average once there is one |
| `Estimates.RegistersExactly` | include/admission_fabric/prediction.hpp:133-142 | A profile is taken unless its key is new and 256 are registered, and has the next generation |

## Left out

- Sockets, message headers, threads and the mutex of the coordinator: each handler body is one atomic step, and a connection is known by its number.
- File writing, renaming and reading in persistence.cpp: only the frame and the rule against trailing bytes are modelled.
- Explanation strings, metrics, deferral hints, the non-encoded parts of a decision, and the created and updated times of a request: nothing the engine decides depends on them.
- Rounding of doubles in the margin, the ratio to the deadline, the fairness fraction, the decode average and the thousandths of a ratio: these are exact reals.
- The exponential confidence formulas, predicted durations and their conversion to nanoseconds: confidence and times are arguments of an evaluation.
- Fairness bookkeeping: the engine reads the controller and never feeds it, so its verdict on starvation is an argument.
- `ResourceAccount` in resource.hpp: its checked arithmetic is that of the ledger, with fewer states.
- The CPU and CUDA backends, the agent, the command line, benchmarks and examples.
- Overflow of signed time arithmetic: times are unbounded integers, and the formats state which of them fit 64 bits.
- StateStore.RestoreState: says nothing of the engine after a failed restore, which the source leaves partly overwritten.
- Authority.NoStaleAuthority: excludes a fence at the largest epoch, where `Authority.SaturatedEpochKeepsAuthority` shows that stamps survive.
- Recovery.RestoreOfSave: does not restore the latest policy generation, the policy counter, the generation counter of the ledger, profile generations or learned state, because they are not saved; a target that is not fresh is covered by `StateStore.RestoreState` only.
- Restarts.ReachableRestores: a restart that is refused, or whose state is beyond the decoder's counts and lengths, is no step of a run.
- Predictor.AdjustmentBounded: says nothing of an adjustment in which a product saturates; `Predictor.RescaledComponent` and `Predictor.WrapsExactly` say what happens to its parts and sums.
- Coders.DecodeOverrides: an override list is returned as a value; that a failed decode leaves a half-filled record behind is not modelled, for this and every other decoder.
