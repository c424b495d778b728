# LibreAgent: a verified model of the agent's core

LibreAgent is a smart-card middleware agent. This project models, in Dafny, the parts of it whose correctness
depends on state, order or arithmetic, and proves what the code and its documentation promise about them:

- **Trust anchors** (`Csca*`, `AnchorStateFile`, `Ldif*`, `Base64`, `Der`, `Text`). Importing a file of CSCA master
  lists into the anchor store: which publishers are followed, replay and rotation rules, the stored state file, the
  LDIF and Base64 forms a file of lists arrives in, and the DER the module cuts certificates and EC points with.
- **PKCS#11 module** (`SessionState`, `SessionTable`, `ModuleRuns`). Slots, sessions, logins, handles and derived keys,
  and the calls of many threads that interleave while one of them is inside the agent.
- **Agent operations** (`PromptGate`, `PromptRuns`, `Watchdog`, `RateLimit`, `PinDeposit`, `CryptoFlow`, `LeaseTable`,
  `CardHolder`). The per-card prompt queue, the operation watchdog, the rate limiter, the life of a PIN through a
  raw-crypto run, login leases, and the session holder of a reader.
- **Wire** (`Frames`, `Floats`, `CborFormat`, `Cbor`, `CborLaws`). Frame reassembly with descriptors, and the canonical
  CBOR codec of section 4.2 of RFC 8949, with floats shortened by value.
- **Presence** (`ReaderLabels`, `Presence`, `PresenceRuns`, `PresenceObjects`). Reader labels, and the chain
  monitor, model, registry, observers and card-key tracker.

Classes and loops of the program are classes and loops here, each proved equal to a function on values; the laws are
lemmas about those functions. A protocol between threads is a state machine: a step is one stretch of code under its
lock, a step has an effect only where it is enabled, and `EveryRunIsSound` in each module carries its invariant over
every finite run from the start (`Runs` has the machinery). Clocks, randomness, the card, the certificate library and the agent at the other end
of a socket are parameters, and the laws hold for all of their answers, but for three things taken from their own
interfaces: a verification pinned to a fingerprint that succeeds answers for that signer (`CscaLaws`); the dates it
gives fit 64 bits (`CscaStore`); a card that reports success took the PIN it was shown, and one that reports a failed
PIN did not (`PinDeposit`).

`dafny verify dfyconfig.toml` checks the whole project.

## Promises that hold only under a condition

- While a hold is wanted a reader is said never to be without a connection
  (`include/LibreSCRS/Agent/operations/CardSessionHolder.h:132-133`). `HoldIsKeptExactly` gives the two cases in which
  a sweep leaves it without one: there was none and the clock threw or the factory did not open one, or an idle session
  with a live secure channel was closed. `LiveChannelLosesTheHold` is a run that ends in the second.
- A new login does not start a new lease while an expired entry is still in the table: its origin stays. The lease is
  answered exactly under the condition of `LoginYieldsLeaseExactly`; `StaleEntryOutlivesLogin` is an instance.
- A refused PIN ends the lease, unless the agent is shutting down (`RefusedPinEndsTheLease`,
  `ShutdownSkipsTheRevoke`).
- A PIN the card refused can be presented again if the plugin's erase was lost in an exception, which the code
  swallows. `RefusedPinsAreNotRepeated` excludes just those entries and `LostEraseRepeatsRefusedPin` shows one.
- The frame reassembler judges a header only when all eight bytes are there, so what it keeps need not be the start of
  any frame it would accept. `FillsUp` and `PrefixFits` together say exactly when it is.
- An anchor state written to disk reads back exactly when its publisher and refusal records do not outnumber the lists
  offered (`StateReadsBack`). What an import writes meets that for every file of fewer than 2^32 lists, beyond which
  the 32-bit count wraps (`ImportedStateReadsBack`).
- An import moves the newest date of a store forward exactly when the file has a list that is admitted by itself and is
  dated after it (`NewestDateMovesExactly`). That is so whenever the publisher holding the date stays or a new one
  comes in (`NewestDateMovesForward`); a file that carries only an older publisher of the store sets the newest date
  back (`DroppedNewestIsForgotten`).
- The EC point attribute is DER exactly for points of fewer than 65536 octets (`PointOctetStringIsDer`): the code
  writes at most two length octets.
- At most the maximum of attempts in any interval of the window's length holds while times reach the rate limiter in
  order. The clock is read before the lock is taken (`src/operations/RateLimiter.cpp:15-16`), so they need not:
  `WindowBound` says what is left of the interval when attempts are late by at most d, and
  `LateAttemptExceedsTheWindow` shows three grants in a window of two.

## Model

| member | source | states |
|---|---|---|
| `CscaLaws.OrderIndependence` | src/trust/CscaAnchorImport.cpp:668-947 | permuting the lists of a file leaves acceptance, the recorded publishers, the anchors, the counts and the refusals (as a multiset) unchanged |
| `CscaLaws.DecisionPermutes` | src/trust/CscaAnchorImport.cpp:801-907 | the same before anything is stored: survivors and refusals are permuted, records and anchors keep their elements |
| `CscaLaws.CarriedAnchorsDecideNothing` | src/trust/CscaAnchorImport.cpp:676-681 | two verifiers that differ only in the anchors the lists carry accept and refuse the same lists: nothing a file carries vouches for its own signers |
| `CscaLaws.JudgeAdmits` | src/trust/CscaAnchorImport.cpp:729-798 | an admitted list is strictly newer than its publisher's dated record, and one of an unknown publisher chains to an anchor held before the import |
| `CscaLaws.SurvivorOrigin` | src/trust/CscaAnchorImport.cpp:807-873 | every surviving list was offered, was admitted by itself, and is not barred by a displaced publisher's date |
| `CscaLaws.DroppedWasDisplaced` | src/trust/CscaAnchorImport.cpp:835-852 | a dated publisher without a surviving list counts towards the displaced date |
| `CscaLaws.KnownPublisherMovesForward` | src/trust/CscaAnchorImport.cpp:729-739 | a publisher recorded with a date is in the next state only with a strictly later one |
| `CscaLaws.NewPublisherIsVouchedFor` | src/trust/CscaAnchorImport.cpp:778-793 | a publisher new to a non-empty store chains to anchors held before, and is dated after every dated record the import drops |
| `CscaLaws.NewestDateMovesExactly` | src/trust/CscaAnchorImport.cpp:835-893 | the newest date of a store moves strictly forward if and only if some offered list is admitted by itself and is dated after it |
| `CscaLaws.NewestDateMovesForward` | src/trust/CscaAnchorImport.cpp:835-893 | the newest date of a store moves strictly forward if its publisher stays or a new publisher comes in |
| `CscaLaws.SingleDatedStoreMovesForward` | src/trust/CscaAnchorImport.cpp:835-893 | a store holding one dated publisher gains a strictly newer date with every accepted import |
| `CscaLaws.DroppedNewestIsForgotten` | src/trust/CscaAnchorImport.cpp:835-936 | with two dated publishers, a file of the older one alone is accepted and every date left is older than the newest before |
| `CscaLaws.EveryListAccountedFor` | src/trust/CscaAnchorImport.cpp:803-907 | every offered list either survives or is refused with a reason, so records and refusals never outnumber the lists |
| `CscaLaws.StoredAnchorsAreTheUnion` | src/trust/CscaAnchorImport.cpp:902-906 | the stored anchors are exactly those of the surviving lists, each once |
| `CscaImport.RosterMeaning` | src/trust/CscaAnchorImport.cpp:878-893 | one record per publisher of a surviving list, dated with the newest date among its lists |
| `CscaStore.TryPins` | src/trust/CscaAnchorImport.cpp:770-776 | the loop gives the first verification that a recorded fingerprint pins |
| `CscaStore.JudgeList` | src/trust/CscaAnchorImport.cpp:744-798 | one list: verified, matched to a publisher the store follows, measured against that publisher's record |
| `CscaStore.PassOne` | src/trust/CscaAnchorImport.cpp:803-817 | the first pass admits or refuses each list by itself, in order |
| `CscaStore.FindDisplaced` | src/trust/CscaAnchorImport.cpp:835-852 | the newest date among recorded publishers without an admitted list |
| `CscaStore.EnterSigner` | src/trust/CscaAnchorImport.cpp:878-893 | a publisher's record is made once and keeps the later date |
| `CscaStore.AddAnchors` | src/trust/CscaAnchorImport.cpp:902-906 | the set of anchors seen and the list of anchors kept stay the same collection |
| `CscaStore.PassTwo` | src/trust/CscaAnchorImport.cpp:858-907 | the second pass computes the records, the anchors and the refusals of the lists that survive the displaced date |
| `CscaStore.MasterListsIn` | src/trust/CscaAnchorImport.cpp:653-666 | a signed object is one list, anything else is read as an LDIF export |
| `CscaStore.AnchorCache.State` | src/trust/CscaAnchorImport.cpp:418-546 | the state a store answers with, from its file |
| `CscaStore.AnchorCache.Replace` | src/trust/CscaAnchorImport.cpp:590-650 | both contents are replaced, or which of them a failure at each of its three points leaves |
| `CscaStore.AnchorCache.ImportMasterList` | src/trust/CscaAnchorImport.cpp:668-947 | an import is judged against the anchors held before it; a refusal changes nothing, an acceptance stores its state and anchors, a failed write is reported |
| `CscaStore.ImportedStateIsStorable` | src/trust/CscaAnchorImport.cpp:928-936 | every accepted state can be written, given 64-bit dates |
| `CscaStore.CountsCarryTheRecords` | src/trust/CscaAnchorImport.cpp:928-936 | an accepted state has no more records than the file had lists, and says how many lists there were, modulo 2^32 |
| `CscaStore.ImportedStateReadsBack` | src/trust/CscaAnchorImport.cpp:418-546 | the state an import writes is the state the store answers with next, if and only if the 32-bit count of the lists covers its records; below 2^32 lists it always does |
| `AnchorStateFile.ReadState` | src/trust/CscaAnchorImport.cpp:418-546 | the line-by-line loop computes the parse of the whole text |
| `AnchorStateFile.StateReadsBack` | src/trust/CscaAnchorImport.cpp:418-650 | a written state reads back unchanged if and only if its records do not outnumber the lists offered; otherwise nothing is established |
| `AnchorStateFile.MangledDateEstablishesNothing` | src/trust/CscaAnchorImport.cpp:418-546 | a publisher line with an unreadable date, anywhere in the file, leaves no state at all |
| `Text.WholeIntegerReadsBack` | src/trust/CscaAnchorImport.cpp:95-113 | every 64-bit integer reads back from its decimal form |
| `Text.HexReadsBack` | src/trust/CscaAnchorImport.cpp:329-352 | every fingerprint reads back from its hex form |
| `Base64.DecodeQuad` | src/trust/CscaAnchorImport.cpp:166-232 | one group of four characters, with its padding rules, decodes as specified |
| `Base64.DecodeBase64` | src/trust/CscaAnchorImport.cpp:166-232 | the loop decodes the whole value or refuses it |
| `Base64.EncodingReadsBack` | src/trust/CscaAnchorImport.cpp:166-232 | every non-empty value is recovered from its RFC 4648 encoding |
| `Ldif.SignedObjectsInLdif` | src/trust/CscaAnchorImport.cpp:234-327 | the one-pass loop, which unfolds and reads at once, equals unfolding all lines and reading each |
| `LdifExport.ExportIsRecovered` | src/trust/CscaAnchorImport.cpp:234-327 | from every folded LDIF export whose first entry is a dn, exactly the embedded signed objects are recovered, byte for byte and in order |
| `Der.ReadDerLength` | src/util/DerLength.h:44-69 | the accumulating loop computes the length a definite-length header spells, or refuses |
| `Der.SpelledLengthIsRead` | src/util/DerLength.h:44-69 | every spelling of a length, short or long with leading zeros, is read as that length |
| `Der.ElementIsCut` | src/pkcs11/Module.cpp:876-887 | an element is cut off if and only if one stands at the front, and nothing is lost or invented |
| `Der.CertificateFieldIsExact` | src/pkcs11/Module.cpp:889-931 | a subject, issuer or serial is found if and only if the bytes are a certificate that has it |
| `Der.PointOctetStringIsDer` | src/pkcs11/EcEncoding.cpp:14-64 | the EC point attribute is a DER octet string of the uncompressed point if and only if the coordinates have one length and the point has fewer than 65536 octets |
| `Der.PeerPointIsExact` | src/pkcs11/EcEncoding.cpp:66-92 | a peer's point is recovered from its raw and its octet-string form and from nothing else |
| `PromptGate.DropTicket` | src/operations/PromptSerializer.cpp:74-78 | the search-and-erase loop removes the ticket's first occurrence only |
| `PromptGate.PromptSerializer.Enqueue` | src/operations/PromptSerializer.cpp:45-47 | a fresh ticket goes to the back of its card's queue |
| `PromptGate.PromptSerializer.CanEnter` | src/operations/PromptSerializer.cpp:56-63 | a waiter may enter exactly when its gate is free and it is at the head |
| `PromptGate.PromptSerializer.GiveUp` | src/operations/PromptSerializer.cpp:71-83 | a cancelled waiter leaves the queue wherever it stands, and an idle gate is dropped |
| `PromptGate.PromptSerializer.Take` | src/operations/PromptSerializer.cpp:89-91 | the head leaves the queue and the slot is held |
| `PromptGate.PromptSerializer.Release` | src/operations/PromptSerializer.cpp:95-108 | the slot is free, the queue as it was, and an idle gate is dropped |
| `PromptGate.PromptSerializer.HasPendingPrompt` | src/operations/PromptSerializer.cpp:110-117 | answers whether any card is held or waited for |
| `PromptRuns.StepKeeps` | src/operations/PromptSerializer.cpp:9-108 | every step of acquire, release, cancellation and wake-up keeps the protocol's invariant |
| `PromptRuns.EveryRunIsSound` | src/operations/PromptSerializer.cpp:9-108 | the invariant holds after every interleaving of any number of threads |
| `PromptRuns.OneHolderPerCard` | src/operations/PromptSerializer.cpp:9-108 | in every run, at most one thread holds a card's prompt slot |
| `PromptRuns.GatesAreUsed` | src/operations/PromptSerializer.cpp:46-105 | in every run, a card has a gate in the map if and only if somebody holds it or waits for it, so the map cannot grow without bound |
| `PromptRuns.NobodySleepsPastItsTurn` | src/operations/PromptSerializer.cpp:11-33 | no lost wake-up in any run: a parked thread whose wait is over was cancelled and its callback is still to come |
| `PromptRuns.FirstComeFirstServed` | src/operations/PromptSerializer.cpp:37-65 | in every run, before a ticket is admitted to a card, every earlier ticket for it was admitted or given back |
| `PromptRuns.OnlyCancelledGiveBack` | src/operations/PromptSerializer.cpp:67-86 | a ticket is given back only by its own thread, cancelled |
| `PromptRuns.FreeCardMovesOn` | src/operations/PromptSerializer.cpp:65-108 | a free card with waiters never wedges: every run that reaches one goes on with a step of its head, or of the thread about to leave the wait |
| `SessionState.HandlesName` | src/pkcs11/SessionState.cpp:166-170 | a handle names its slot and object and is no derived key's handle if and only if slot and index fit the two halves |
| `SessionState.HandlesResolve` | src/pkcs11/SessionState.cpp:172-183 | a handle resolves to its object in its own slot and to nothing in any other |
| `SessionState.OpenSessionKeeps` | src/pkcs11/SessionState.cpp:78-86 | opening keeps the state sound |
| `SessionState.CloseSessionKeeps` | src/pkcs11/SessionState.cpp:94-106 | closing takes the session's keys, and the login with the last session, so the state stays sound |
| `SessionState.CloseAllSessionsKeeps` | src/pkcs11/SessionState.cpp:108-117 | no session, login or key of the slot is left |
| `SessionState.SetLoggedInKeeps` | src/pkcs11/SessionState.cpp:133-139 | a login on a slot with sessions keeps the state sound |
| `SessionState.AddDerivedKeyKeeps` | src/pkcs11/SessionState.cpp:269-274 | a derived key gets a handle no key has |
| `SessionState.SetModelKeeps` | src/pkcs11/SessionState.cpp:24-57 | a new model extends the numbering of readers and leaves no key without its token |
| `SessionState.LoginSurvivesWithItsToken` | src/pkcs11/SessionState.cpp:24-57 | a login survives a refresh if and only if its slot, where known, shows the same named token before and after |
| `SessionState.SlotIdsStayWithTheirReader` | src/pkcs11/SessionState.cpp:24-57 | a reader's slot number finds that reader, and no other, after every refresh; with a reader listed twice, its last entry |
| `SessionTable.Table.SlotHasSessions` | src/pkcs11/SessionState.cpp:119-125 | the scan answers whether a session of the slot is open |
| `SessionTable.Table.EndLogin` | src/pkcs11/SessionState.cpp:141-146 | login, last check and the keys of the slot go together |
| `SessionTable.Table.OpenSession` | src/pkcs11/SessionState.cpp:78-86 | the new handle and the new table |
| `SessionTable.Table.CloseSession` | src/pkcs11/SessionState.cpp:94-106 | whether the handle was known, and the new table |
| `SessionTable.Table.CloseAllSessions` | src/pkcs11/SessionState.cpp:108-117 | the erasing loop removes exactly the slot's sessions and ends its login |
| `SessionTable.Table.NumberSlots` | src/pkcs11/SessionState.cpp:35-47 | the numbering loop equals numbering the readers of the model in turn |
| `SessionTable.Table.EndLoginsOfTokensLeft` | src/pkcs11/SessionState.cpp:49-56 | the loop ends the logins of exactly the tokens that left |
| `SessionTable.Table.SetModel` | src/pkcs11/SessionState.cpp:24-57 | the published model, numbering and logins, and a sound state |
| `SessionTable.Table.SetLoggedIn` | src/pkcs11/SessionState.cpp:133-139 | the login, its generation and the time it was checked |
| `SessionTable.Table.AddDerivedKey` | src/pkcs11/SessionState.cpp:269-274 | the key's handle and the new table |
| `ModuleRuns.StepKeeps` | src/pkcs11/Module.cpp:84-175 | every step of every modelled call, with the lock dropped around the agent, keeps the module's invariant |
| `ModuleRuns.EveryRunIsSound` | src/pkcs11/Module.cpp:325-855 | the invariant holds after every interleaving of calls, refreshes, logins, lapses and finalizes |
| `ModuleRuns.KeysOutliveNothing` | src/pkcs11/Module.cpp:1936-2051 | whenever a derived key exists, its creator session is open, its slot logged in and its own token in the slot |
| `ModuleRuns.LateAnswerSparesNewerLogin` | src/pkcs11/Module.cpp:637-696 | in every run, a late answer to whether a login is active ends only a login granted before the question |
| `ModuleRuns.FlagMeansOneGuard` | src/pkcs11/Module.cpp:95-138 | in every run, an open session is flagged busy if and only if exactly one call holds its guard |
| `ModuleRuns.LaterSnapshotStands` | src/pkcs11/Module.cpp:142-175 | in every run, a refresh that started earlier does not replace the model of one that started later |
| `ModuleRuns.PublishedTicketsIncrease` | src/pkcs11/Module.cpp:156-175 | the tickets of the models published in a run strictly increase |
| `ModuleRuns.FinalizeFindsNobodyInside` | src/pkcs11/Module.cpp:325-347 | in every run, the library is destroyed only when no call is inside the agent |
| `ModuleRuns.StepKeepsCount` | src/pkcs11/Module.cpp:101-126 | the in-flight count is the number of calls inside the agent after every step |
| `Frames.WordReadsBack` | src/wire/FrameReassembler.cpp:18-22 | every 32-bit number reads back from its little-endian form |
| `Frames.WordWritesBack` | src/wire/FrameReassembler.cpp:18-22 | four bytes are determined by the number they spell |
| `Frames.ExtractConserves` | src/wire/FrameReassembler.cpp:92-135 | the frames cut, written out again, and the rest are the buffer; likewise for descriptors; every frame is within the limits |
| `Frames.DrainConserves` | src/wire/FrameReassembler.cpp:33-90 | no descriptor read is lost on any path, and no byte unless it ends in an error |
| `Frames.PumpConserves` | src/wire/FrameReassembler.cpp:33-135 | one call: what it delivers and keeps is what it had and read, in order |
| `Frames.RunsConserve` | src/wire/FrameReassembler.cpp:33-135 | the same over every sequence of calls |
| `Frames.OneReading` | src/wire/FrameReassembler.cpp:92-135 | a stream of bytes and descriptors divides into frames in one way only |
| `Frames.SplitsDoNotMatter` | src/wire/FrameReassembler.cpp:33-135 | two error-free runs that received the same bytes and descriptors, however split into reads, delivered the same frames and keep the same rest |
| `Frames.FillsUp` | src/wire/FrameReassembler.cpp:92-135 | a residue whose known header bytes still fit the limits is the start of an acceptable frame |
| `Frames.PrefixFits` | src/wire/FrameReassembler.cpp:92-135 | and only such a residue is |
| `Frames.PartialHeaderIsNotJudged` | src/wire/FrameReassembler.cpp:92-135 | four bytes of an oversize length are kept without an error although no acceptable frame starts with them |
| `FrameReassembler.Reassembler.PopFds` | src/wire/FrameReassembler.cpp:92-135 | a frame takes its descriptors off the front of the queue |
| `FrameReassembler.Reassembler.Extract` | src/wire/FrameReassembler.cpp:92-135 | the in-place loop cuts every whole frame and erases what it consumed, also when a violation ends it |
| `FrameReassembler.Reassembler.Drain` | src/wire/FrameReassembler.cpp:33-90 | reads are taken until one blocks, ends, fails or overflows |
| `FrameReassembler.Reassembler.Pump` | src/wire/FrameReassembler.cpp:33-90 | one call, with its frames, its status and the new buffer |
| `Floats.NarrowWidens` | src/wire/Cbor.cpp:103-127 | a double that narrows to a shorter format widens back to itself |
| `Floats.WidenNarrows` | src/wire/Cbor.cpp:103-127 | a short float widened narrows back to itself |
| `Floats.WideningKeepsValue` | src/wire/Cbor.cpp:103-127 | widening keeps the numeric value, subnormals included |
| `Floats.OneDoublePerValue` | src/wire/Cbor.cpp:103-127 | a finite double is determined by its sign and value |
| `Floats.NarrowingIsByValue` | src/wire/Cbor.cpp:103-127 | a double narrows to a short float if and only if the two have one sign and value |
| `Floats.ShortcutIsShortest` | src/wire/Cbor.cpp:103-127 | the range shortcut never changes the form the shortest-float rule picks |
| `Floats.ForcedWideIsNoSingle` | src/wire/Cbor.cpp:103-127 | binary64 is forced only where no binary32 has the value |
| `Floats.ForcedSingleIsNoHalf` | src/wire/Cbor.cpp:103-127 | binary32 is forced only where it has the value and no binary16 does |
| `Floats.FloatsReadBack` | src/wire/Cbor.cpp:103-127 | every double, infinities, zeros and NaNs included, is recovered from the form it is sent in |
| `CborFormat.HeadReadsBack` | src/wire/Cbor.cpp:129-185 | every item head reads back as its type and shortest argument |
| `CborFormat.DoubleNumberReadsBack` | src/wire/Cbor.cpp:103-127 | a double's fields and its 64-bit pattern determine each other |
| `CborFormat.SingleNumberReadsBack` | src/wire/Cbor.cpp:103-127 | likewise for binary32 |
| `CborFormat.HalfNumberReadsBack` | src/wire/Cbor.cpp:103-127 | likewise for binary16 |
| `CborLaws.ValueReads` | src/wire/Cbor.cpp:187-272 | the reader gives an encoded value and what follows it when the value is within the depth and item limits, and otherwise the error of the limit broken first in reading order |
| `CborLaws.DecodesExactly` | src/wire/Cbor.cpp:366-395 | bytes decode to a value if and only if they are its encoding and it is within the limits |
| `CborLaws.RefusalNamesTheLimit` | src/wire/Cbor.cpp:187-272 | a value over the limits is refused with TooDeep or TooManyItems, only for a limit it breaks, and for the first one read |
| `CborLaws.EncodingIsInjective` | src/wire/Cbor.cpp:344-364 | distinct values have distinct encodings |
| `CborLaws.AcceptedIsCanonical` | src/wire/Cbor.cpp:366-395 | whatever is accepted is well formed, has its map keys in order and once each, and was in its one encoding |
| `CborLaws.InsertedInOrder` | src/wire/Cbor.cpp:187-272 | a map filled in any order is in key order |
| `CborLaws.KeyOrderIsBytewise` | include/LibreSCRS/Agent/wire/Cbor.h:36-50 | the codec's key order is the bytewise order of the encoded keys, for keys of every length |
| `Watchdog.StepKeeps` | src/operations/OperationBase.cpp:136-323 | every step of the worker, the timers and the cancelling threads keeps the invariant |
| `Watchdog.EveryRunIsSound` | src/operations/OperationBase.cpp:136-323 | the invariant holds after every interleaving |
| `Watchdog.OneTerminalState` | src/operations/OperationBase.cpp:256-308 | at most one terminal state is published, and exactly one once finish has returned |
| `Watchdog.TimeoutIsReportedAsTimeout` | src/operations/OperationBase.cpp:256-323 | what is published is the timeout if and only if the watchdog latched before the verdict was read, whoever publishes it; a cancel tripped by a timer is always latched first |
| `Watchdog.WokenWorkReportsTimeout` | src/operations/OperationBase.cpp:256-323 | in every run, work woken by the watchdog's cancel reports the timeout |
| `Watchdog.OneLiveTimer` | src/operations/OperationBase.cpp:182-254 | at most one timer is live, none while consent is awaited or after quiescing |
| `Watchdog.QuietLastsUntilMachinePhase` | src/operations/OperationBase.cpp:136-170 | in every run, a quiesced operation stays quiet until the next machine phase |
| `Watchdog.JoinIsNotStuck` | src/operations/OperationBase.cpp:232-254 | a worker that joins its timer is never deadlocked with it: some other thread's step is enabled |
| `RateLimit.SweepIsUnobservable` | src/operations/RateLimiter.cpp:13-59 | with times in order, every answer is the one a limiter that never forgets a caller would give |
| `RateLimit.CallersAreIndependent` | src/operations/RateLimiter.cpp:13-59 | with times in order, an answer depends on the caller's own attempts alone |
| `RateLimit.WindowBound` | src/operations/RateLimiter.cpp:13-59 | when attempts reach the table late by at most d, no closed interval of the window's length less 2d, wherever it starts, holds more than the maximum of allowed attempts; with times in order, none of the window's length |
| `RateLimit.LateAttemptExceedsTheWindow` | src/operations/RateLimiter.cpp:13-59 | one attempt late by one unit of time makes three grants in a window of two |
| `RateLimiter.BackoffFor` | src/operations/RateLimiter.cpp:13-59 | the doubling loop computes the capped backoff of a level |
| `RateLimiter.Aged` | src/operations/RateLimiter.cpp:13-59 | the pop-front loop keeps exactly the attempts still in the window |
| `RateLimiter.Limiter.Sweep` | src/operations/RateLimiter.cpp:13-59 | the erasing loop forgets exactly the idle callers other than the one that asks |
| `RateLimiter.Limiter.Allow` | src/operations/RateLimiter.cpp:13-59 | the answer, and the caller's new entry |
| `PinDeposit.DepositedPinsWereAccepted` | src/operations/LmRawCrypto.cpp:77-135 | over every run of operations, a PIN left in a plugin was accepted by the card for an ordinary key, unless its erase was lost |
| `PinDeposit.RefusedPinsAreNotRepeated` | src/operations/LmRawCrypto.cpp:95-135 | an entry of the PIN that the card refused, or a marked key used, is not presented again, unless its erase was lost |
| `PinDeposit.PinSurvivesExactly` | src/operations/LmRawCrypto.cpp:107-135 | a PIN is still deposited after an operation if and only if it was during it and the operation keeps it or its erase was lost |
| `PinDeposit.LostEraseRepeatsRefusedPin` | src/operations/LmRawCrypto.cpp:77-93 | a run in which a lost erase presents a refused PIN twice, for every PIN |
| `PinDeposit.Plugins.ErasePin` | src/operations/LmRawCrypto.cpp:77-93 | the plugin's deposit is gone unless the erase was lost |
| `PinDeposit.Plugins.UnderTheOperationsPin` | src/operations/LmRawCrypto.cpp:107-135 | deposits and status after one raw operation, exceptions included |
| `PinDeposit.Plugins.EraseDepositedPin` | src/operations/LmRawCrypto.cpp:158-166 | after a PIN change every candidate plugin forgets the old PIN |
| `CryptoFlow.ObtainPin` | src/operations/RawCryptoFlow.cpp:99-350 | a re-prompt is charged before it is raised, and what ends the run when no PIN comes of it |
| `CryptoFlow.RunOp` | src/operations/RawCryptoFlow.cpp:99-350 | the outcome and the trace of effects of a whole run |
| `CryptoFlow.UseTheKey` | src/operations/RawCryptoFlow.cpp:99-350 | the run from the first use of the key on |
| `CryptoFlow.RetryWithPin` | src/operations/RawCryptoFlow.cpp:99-350 | the retry of a warm run whose login the card has forgotten |
| `CryptoFlow.OnePaidPrompt` | src/operations/RawCryptoFlow.cpp:99-350 | a run raises at most one prompt, and a granted charge comes right before it |
| `CryptoFlow.PinIsHandedOnce` | src/operations/RawCryptoFlow.cpp:99-350 | at most one use of the key gets a PIN, the one just typed; a use without one happens on a verified lease |
| `CryptoFlow.RefusedPreflightDoesNothing` | src/operations/RawCryptoFlow.cpp:99-350 | after a refused preflight there is no prompt, no use of the key, and the lease's flag is left alone |
| `CryptoFlow.ArmedByOrdinarySuccess` | src/operations/RawCryptoFlow.cpp:99-350 | the lease is marked verified only at the end of a successful run that gave a PIN to an ordinary key |
| `CryptoFlow.MarkedKeyLeavesTheFlag` | src/operations/RawCryptoFlow.cpp:99-350 | a key that wants its PIN every time neither arms nor clears the flag |
| `LeaseTable.VerifiedMeansOrdinarySuccess` | src/pkcs11/LeaseManager.cpp:58-81 | over every history, a verified lease goes back to a successful run with an ordinary key and a PIN, with nothing since that resets it |
| `LeaseTable.LeaseHistory` | src/pkcs11/LeaseManager.cpp:18-56 | a lease's origin is a login, its last use that login or a later touch |
| `LeaseTable.LetThroughWithinBounds` | src/pkcs11/LeaseManager.cpp:7-56 | an operation is let through only on a login younger than the cap and a use within the idle timeout |
| `LeaseTable.LoginYieldsLeaseExactly` | src/pkcs11/LeaseManager.cpp:18-28 | a login is followed by an active lease if and only if the idle timeout is positive and no entry past its cap is in the way |
| `LeaseTable.StaleEntryOutlivesLogin` | src/pkcs11/LeaseManager.cpp:18-28 | a second login at the cap is not answered as active |
| `LeaseTable.RefusedPinEndsTheLease` | src/pkcs11/Pkcs11Broker.cpp:196-304 | after a refused PIN nothing is let through on the lease until the next login, whatever else happens |
| `LeaseTable.ShutdownSkipsTheRevoke` | src/pkcs11/Pkcs11Broker.cpp:276-294 | a lease outlives the refusal when the agent is shutting down |
| `LeaseTable.RunKeepsToItsLease` | src/pkcs11/Pkcs11Broker.cpp:233-302 | however its callbacks are interleaved with grants, revokes and other runs, a run leaves every other lease as it would be without it |
| `LeaseTable.MarkedKeyRunKeepsTheFlag` | src/pkcs11/Pkcs11Broker.cpp:196-304 | however interleaved, a run with a marked key leaves the whole table as it would be without it, unless its PIN is refused |
| `LeaseTable.MarkedKeyNeverArms` | src/pkcs11/Pkcs11Broker.cpp:233-302 | however interleaved, and refused or not, such a run never arms its lease: a verified one was armed by another run, which succeeded with an ordinary key |
| `LeaseTable.LeaseManager.Grant` | src/pkcs11/LeaseManager.cpp:18-28 | the lease of a login, an old entry keeping its origin |
| `LeaseTable.LeaseManager.IsActive` | src/pkcs11/LeaseManager.cpp:30-42 | the answer, and that an expired lease is removed by asking |
| `LeaseTable.LeaseManager.Touch` | src/pkcs11/LeaseManager.cpp:44-56 | the answer, and the last use moved to now |
| `LeaseTable.LeaseManager.MarkPinVerified` | src/pkcs11/LeaseManager.cpp:65-72 | the flag is set on a lease that exists, no other changes |
| `LeaseTable.LeaseManager.ClearPinVerified` | src/pkcs11/LeaseManager.cpp:74-81 | the flag is cleared on a lease that exists, no other changes |
| `LeaseTable.LeaseManager.RevokeCard` | src/pkcs11/LeaseManager.cpp:89-95 | the erasing loop removes exactly the card's leases |
| `LeaseTable.LeaseManager.RevokeCaller` | src/pkcs11/LeaseManager.cpp:97-103 | the erasing loop removes exactly the caller's leases |
| `LeaseTable.LeaseManager.EndRun` | src/pkcs11/Pkcs11Broker.cpp:263-303 | a refused PIN revokes the lease unless the agent is shutting down, any other end leaves the table alone |
| `LeaseTable.LeaseManager.RunCrypto` | src/pkcs11/Pkcs11Broker.cpp:196-304 | an operation runs if and only if its lease is active, and with nothing in between does to the table what its callbacks and its end do in order |
| `CardHolder.StepKeeps` | src/operations/CardSessionHolder.cpp:18-206 | every operation keeps the holder sound, whatever its seams throw |
| `CardHolder.EveryRunIsSound` | src/operations/CardSessionHolder.cpp:18-206 | over every run at most one connection to the reader is live, and it is the session's or the hold's |
| `CardHolder.SweepEndsExactlyTheIdle` | src/operations/CardSessionHolder.cpp:182-206 | after any run, a sweep ends a session if and only if the last successful acquire of the run is at least the idle time ago, and otherwise changes nothing |
| `CardHolder.StampIsLastAcquire` | src/operations/CardSessionHolder.cpp:18-46 | over every run, the time a sweep measures from is the clock of the last acquire that answered with a session, whether acquire, memo or resolution made it |
| `CardHolder.HoldIsKeptExactly` | src/operations/CardSessionHolder.cpp:162-206 | for every clock and factory, a sweep with a hold wanted leaves the reader unconnected if and only if there was no connection and none could be opened, or an idle session with a live secure channel was closed |
| `CardHolder.LiveChannelLosesTheHold` | src/operations/CardSessionHolder.cpp:162-206 | a run of acquire, channel and sweep that leaves the reader unconnected although a hold is wanted |
| `CardHolder.CardSessionHolder.Acquire` | src/operations/CardSessionHolder.cpp:18-46 | the session answered and the new holder, on a warm, a held and a cold reader and on each failure |
| `CardHolder.CardSessionHolder.EraseCredentials` | src/operations/CardSessionHolder.cpp:48-68 | credentials of the session with every candidate are erased, and candidates and memo forgotten |
| `CardHolder.CardSessionHolder.Invalidate` | src/operations/CardSessionHolder.cpp:70-75 | session, candidates and memo are forgotten |
| `CardHolder.CardSessionHolder.AcquireHold` | src/operations/CardSessionHolder.cpp:137-155 | a hold is opened only where nothing is live |
| `CardHolder.CardSessionHolder.Demote` | src/operations/CardSessionHolder.cpp:162-180 | a session becomes a hold on the same connection, unless its secure channel is live |
| `CardHolder.CardSessionHolder.Sweep` | src/operations/CardSessionHolder.cpp:182-206 | the new holder, for a working and a throwing clock |
| `ReaderLabels.FirstFreeIsFree` | src/value/ReaderLabels.cpp:275-277 | numbering ends with the first free label and passes over taken ones only |
| `ReaderLabels.LabelsTellReadersApart` | src/value/ReaderLabels.cpp:210-283 | two readers have the same label if and only if they are one name listed twice |
| `ReaderLabels.FreeLabel` | src/value/ReaderLabels.cpp:267-278 | the disambiguation loop ends, and finds that label |
| `ReaderLabels.Disambiguate` | src/value/ReaderLabels.cpp:251-281 | the loop settles a label for each colliding name once |
| `ReaderLabels.ReaderIdentities` | src/value/ReaderLabels.cpp:210-283 | the labels of a whole roster |
| `Presence.RelabelsAreSeen` | src/presence/ObjectRegistry.cpp:18-54 | the relabel notes bring a copy with old labels up to date, reader by reader |
| `Presence.NewReaderIsSeen` | src/presence/ObjectRegistry.cpp:56-74 | an observer that heard of a new reader and the relabels it caused has the registry |
| `Presence.LostReaderIsSeen` | src/presence/ObjectRegistry.cpp:87-106 | and so for a reader that left |
| `PresenceRuns.DispatchKeeps` | src/presence/MonitorBridge.cpp:43-74 | every monitor event keeps model, registry, notes and tracker in agreement |
| `PresenceRuns.EveryRunIsSound` | src/presence/MonitorBridge.cpp:43-74 | over every sequence of events, also ill-ordered and repeated ones |
| `PresenceRuns.ThreeNamesOneCard` | src/presence/PresenceModel.cpp:31-128 | model, registry and tracker name the same card for every reader |
| `PresenceRuns.ObserverHoldsACopy` | src/presence/ObjectRegistry.cpp:18-125 | an observer that applies the notes and nothing else holds an exact copy of the registry |
| `PresenceRuns.EachCardIsReportedOnce` | src/presence/CardKeyTracker.cpp:13-49 | each card id is reported removed exactly once, never while it is seated and always once it is not |
| `PresenceRuns.RegisteredReadersDiffer` | src/presence/ObjectRegistry.cpp:18-36 | no two registered readers share a label, whatever the names are made of |
| `PresenceObjects.ObjectRegistry.Relabel` | src/presence/ObjectRegistry.cpp:18-36 | the new labels, and the ids of exactly the readers whose label changed |
| `PresenceObjects.ObjectRegistry.AnnounceRelabels` | src/presence/ObjectRegistry.cpp:38-54 | one note per changed reader still there, the newcomer excepted |
| `PresenceObjects.ObjectRegistry.AddReader` | src/presence/ObjectRegistry.cpp:56-74 | the registry and the notes after a reader came; a known id is refused |
| `PresenceObjects.ObjectRegistry.AddCard` | src/presence/ObjectRegistry.cpp:76-85 | the registry and the notes after a card came; a known id is refused |
| `PresenceObjects.ObjectRegistry.Remove` | src/presence/ObjectRegistry.cpp:87-106 | the reader, or else the card, of that id is removed and noted |
| `PresenceObjects.ObjectRegistry.Update` | src/presence/ObjectRegistry.cpp:108-125 | the reader's card is set and noted; an unknown id changes nothing |
| `PresenceObjects.PresenceModel.OnReaderAdded` | src/presence/PresenceModel.cpp:31-42 | the model after a reader came |
| `PresenceObjects.PresenceModel.OnReaderRemoved` | src/presence/PresenceModel.cpp:44-54 | the model after a reader left, its card first |
| `PresenceObjects.PresenceModel.OnCardInserted` | src/presence/PresenceModel.cpp:56-112 | the model after a card came, a card still seated leaving first |
| `PresenceObjects.PresenceModel.OnCardRemoved` | src/presence/PresenceModel.cpp:114-128 | the model after a card left |
| `PresenceObjects.CardKeyTracker.OnCardInserted` | src/presence/CardKeyTracker.cpp:13-28 | a key still held for the reader is reported before the new one replaces it |
| `PresenceObjects.CardKeyTracker.OnCardRemoved` | src/presence/CardKeyTracker.cpp:30-41 | the reader's key is reported and forgotten |
| `PresenceObjects.MonitorBridge.Dispatch` | src/presence/MonitorBridge.cpp:43-74 | model first, then tracker, which is told the id the model minted |

## Left out

- Sockets, D-Bus, files, OpenSSL, PC/SC, plugins and the card itself: parameters of the model, or absent.
- QCBOR's own decoder: its cap on nesting, tags, the error chosen for a tagged or indefinite-length item, and the payloads NaNs are decoded with. `AcceptedIsCanonical` speaks of values without a NaN.
- Splitting a PC/SC reader name into base, serial and model: a parameter, for which `LabelsTellReadersApart` holds whatever it does.
- Crash atomicity of the anchor store: a failure leaves what `AnchorCache.Replace` says, a power loss in the middle is not modelled, nor the naming of anchor files past a million.
- The newest date of the store over many imports: each import replaces the store and a dropped publisher's date is forgotten with it.
- Attribute templates, object search, mechanism tables, certificate cache and the multi-part cursors of PKCS#11 sessions: easy members.
- The operations themselves, their launcher and manager, the credential cache, configuration, and the error-code switches between layers: easy members.
- Capability resolution and card types in presence, and observers that call back into the registry.
- Wrap-around of 64-bit counters (session and derived-key handles, tickets, object ids).
- Memory ordering: the steps of a run are sequentially consistent.
- The watchdog and the module's calls are step machines, not objects: their state lives in thread stacks and atomics. Destruction of an operation with a live timer is not modelled.
- PromptGate.PromptSerializer.Enqueue: the wait between drawing a ticket and entering is in `PromptRuns`, not in the method.
- LeaseTable.LeaseManager.RunCrypto: the method is one step; lease changes between a run's callbacks are in the histories of `RunKeepsToItsLease`, `MarkedKeyRunKeepsTheFlag` and `MarkedKeyNeverArms`.
- RateLimit.SweepIsUnobservable: assumes that times do not run backwards at the table, which the code does not ensure between threads, and a maximum of at least one.
- RateLimit.CallersAreIndependent: under the same assumption.
