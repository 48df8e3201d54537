# Verified models of GNUnet components

This project models parts of GNUnet in Dafny and proves properties of them that hold for every
input and every run.  `dafny verify dfyconfig.toml` checks all of it.

| file | component |
|---|---|
| `ChkTree.dfy` | the content-hash-key tree that `contrib/gnunet-chk.py` computes for a file |
| `Base32.dfy` | the base-32 encoders of that script and of the library, and the library's decoder |
| `SchedulingClient.dfy` | the client library of the ATS scheduling interface: its table of session slots |
| `AddressService.dfy` | the ATS service's address store and its scheduling client |
| `SlotProtocol.dfy` | client, service and the channels between them: which slot numbers mean what, in every run |
| `Arm.dfy` | the ARM supervisor as a state machine: processes, restarts, requests, shutdown |
| `ArmEffects.dfy` | what each event of the supervisor answers and does to each service |
| `ArmService.dfy` | the supervisor's event handlers as they update its state |
| `ArmList.dfy` | the LIST reply of the supervisor and its parser in the client library |
| `Preferences.dfy` | ATS preference values: scores per client, normalised shares, totals per peer, aging |
| `Normalization.dfy` | normalisation of address properties over the range of all addresses |
| `Reservations.dfy` | bandwidth reservations between a performance client and the ATS service |
| `ReservationCosts.dfy` | what a reservation costs that the user cancelled |
| `ReservationEffects.dfy` | what each event of that protocol grants, tells and asks for |
| `ReservationEnds.dfy` | the two ends of that protocol as they update their state |
| `Common.dfy` | shared value types |

Code that updates state in place is a class whose methods are proved to take the step that a
function of the old state describes.  Properties of whole runs are proved of the state machine
made of these functions: each event keeps an invariant, so every reachable state has it.  What an
event answers, grants or tells is stated besides, of the state before and after it, without the
functions that compute it.

## How the pieces are modelled

* **Hash tree.**  Hashing and encryption are a function `seal` from a block to its key and query.
  `Tree` and `Root` define the tree recursively from the bytes of the file; `ComputeRootChk` is
  the script's single loop over an array of slots per level.
* **Base 32.**  Both encoders share one loop.  The library's accumulator is a 32-bit word, the
  script's a number without bound; both are proved to write the digits of the padded bit string.
* **Session slots.**  A slot number is allocated by the client, announced with ADD, and free again
  after the service answered DESTROYED with RELEASE.  Connections may fail and be replaced at any
  time; the service may still hold messages of an old connection, and the client may still read
  what the service wrote before it dropped one.
* **Supervisor.**  Whether a process starts, and how a child died, are inputs; the clock is state.
  `owed` and `crashes` are history: a crash whose restart has not been carried out, and the number
  of crashes.  `aborted` records a failed assertion, `asked`, `log` and `dropped` the requests.
* **Preferences, normalisation.**  Floating-point values are reals.  A division by zero in
  `recalculate_relative_preferences` clears `numeric`; after it the code's values are not numbers
  and the relative values of the model do not stand for them.
* **Reservations.**  The bandwidth tracker is not modelled: whether it makes a request wait is an
  input.  The user's reservations are numbered, and what the service granted and where it went is
  recorded in logs.  A connection that the client gave up may still hold requests, which the
  service may serve until it notices.

## Where the code differs from what it promises

The models follow the code.  In each of these cases the exact condition is proved and, where it
does not name the failing inputs itself, an input or a run that fails is given.

* The script's root computation asks for `CHK_PER_INODE == off` (`contrib/gnunet-chk.py:329`),
  which a slot number never reaches.  For files of up to 2 GiB, whose tree has at most two levels
  of index blocks, it returns the root of the tree; for every larger file it fails on a missing
  entry (`ChkTree.ComputeRootChk`).
* The script's encoder is documented as the library's, but uses another alphabet.  The library
  reads its text back exactly when all digits are below 18 (`Base32.ScriptTextDecodes`), and not
  for the byte 255 (`Base32.ScriptTextMisread`).
* A record that is being destroyed keeps its slot for good exactly when neither its DESTROYED nor
  its RELEASE is under way on the client's connection, as after a lost connection
  (`SlotProtocol.StuckIffNeverFreed`, `SlotProtocol.StuckIsReachable`).  An empty slot is never
  used again exactly when it lies below the allocation offset (`SlotProtocol.LostIffBelowOffset`,
  `SlotProtocol.LostSlotIsReachable`), and the table grows exactly when no slot from the offset on
  is empty (`SchedulingClient.GrowsDespiteFreeSlots`).
* The allocation offset is static.  With the offset that an earlier handle left, the number handed
  out lies in the table exactly when the offset does, or is a multiple of the table's size, or no
  slot from its remainder on is empty (`SchedulingClient.SlotInBounds`); a new handle that
  inherits the offset 5 gets the number 5 for a table of four
  (`SchedulingClient.InheritedOffset`).
* A suggestion for an inbound address that is in use without a session runs into an error branch.
  As long as inbound addresses come with their sessions, some run leads there exactly when there
  is such an address already (`SlotProtocol.FaultsIffBare`,
  `SlotProtocol.BareSuggestionIsReachable`); no other message runs into one
  (`SlotProtocol.NoRunFaults`).
* `delayed_restart_task` says that it also serves services whose last restart failed.  After a
  failed restart a service is left alone exactly when no other stopped service waits
  (`Arm.FailedRestartAbandons`); after a failed start for a connection or a START, exactly when no
  timer is set or the service never ran (`Arm.FailedStartAbandons`); and after a failed start at
  boot always (`Arm.FailedBootAbandons`).  That lasts until a START succeeds or the supervisor
  shuts down or, for a service that ran before, another service crashes (`Arm.AbandonedInRun`,
  `Arm.NeverStartedInRun`, `Arm.AbandonedIsReachable`).
* The message of a LIST reply has a 16-bit size that is computed without a check; the texts fit
  exactly when header and texts stay below 64 kB (`ArmList.HandleList`).
* An update of a preference divides by the sum of the client's scores of that kind.  Without
  negative scores that is a division by zero exactly when all of them are zero, as for a first
  score of zero (`Preferences.DividesByZeroIff`, `Preferences.FirstScoreOfZero`).
* The totals given to the solver are the sums over the clients until a client disconnects; a
  disconnect keeps them exactly when the client gave nothing to peers that it shared
  (`Preferences.DisconnectAgrees`, `Preferences.DisconnectLeavesStaleTotal`).  Relative values
  stay shares under aging exactly when it cuts no positive value or all
  (`Preferences.AgingKeepsShares`, `Preferences.AgingLosesShares`).
* Norms are documented to lie between 1 and 2 (`src/ats/gnunet-service-ats_addresses.h:247`).
  They do exactly when the average lies in the range of the current values
  (`Normalization.NormInRange`, `Normalization.NormOutOfRange`).
* A cancelled reservation is meant to cost nothing.  Once neither it nor its undo is on its way,
  that is so exactly when nothing was granted, or it was made with a callback and for a positive
  amount, its grant was not lost with a connection, and its undo was not left unserved
  (`ReservationCosts.CancelledCostNothing`).  `ReservationCosts.SilentCosts`,
  `ReservationCosts.LostGrantCosts` and `ReservationCosts.UnservedUndoCosts` are a run for each of
  the three.

Two remarks without a theorem: the average of the outbound utilisation is fed with the inbound
one (`src/ats/gnunet-service-ats_normalization.c:246`), and the comment on `undo` in the
reservation context says it is set on cancellation while it is set when the reservation is made.

## Model

| member | source | states |
|---|---|---|
| ChkTree.IBlockSizeIsLastSlotPlusOne | contrib/gnunet-chk.py:229-269 | the number of entries of an index block is one more than the slot of its last child, computed by the other function |
| ChkTree.ComputeTreeSize | contrib/gnunet-chk.py:214-226 | the loop computes the payload of a block of each level |
| ChkTree.ComputeDepth | contrib/gnunet-chk.py:199-211 | the result is the least number of levels whose tree covers the file |
| ChkTree.ChildrenAreSpans | contrib/gnunet-chk.py:272-332 | the children of a block of the recursive tree are the blocks of the level below, in order, only the last perhaps partial |
| ChkTree.TreeSealsEntries | contrib/gnunet-chk.py:299-325 | the CHK of an index block is the seal of the one text whose entries of 128 bytes are, in order, key and query of the blocks below it; that of a data block is the seal of its bytes |
| ChkTree.TreeHasEntries | contrib/gnunet-chk.py:299-307 | there is such a text for every index block, and it is among the texts sealed |
| ChkTree.LevelSizes | contrib/gnunet-chk.py:214-226 | a data block has 32 KiB, and index blocks of the next levels have 8 MiB and 2 GiB of the file below them |
| ChkTree.NodeFromChildren | contrib/gnunet-chk.py:299-307 | sealing the entries of consecutive blocks gives the block above them |
| ChkTree.DataStep | contrib/gnunet-chk.py:294-325 | sealing a data block keeps every level of the slot array in step with the tree |
| ChkTree.ClimbStep | contrib/gnunet-chk.py:299-332 | sealing an index block keeps every level in step |
| ChkTree.Descend | contrib/gnunet-chk.py:328-332 | going back to reading after an index block keeps every level in step |
| ChkTree.Advance | contrib/gnunet-chk.py:284-332 | one round of the loop keeps every level in step and moves to the next block in post-order |
| ChkTree.TopReached | contrib/gnunet-chk.py:285-293 | when the loop has climbed past the last level, the slot it reads holds the root of the tree |
| ChkTree.EmptyFirstSlot | contrib/gnunet-chk.py:329 | with the test as written, the root's index block of a file of more than three levels has an empty slot |
| ChkTree.NoEmptySlot | contrib/gnunet-chk.py:299-307 | while the levels are in step no slot of a finished index block is empty |
| ChkTree.Gather | contrib/gnunet-chk.py:299-307 | concatenates the slots, each as 64 bytes of its key and then 64 of its query, or fails exactly when one of them is empty |
| ChkTree.NextBlock | contrib/gnunet-chk.py:294-311 | the plain text of the next block is the file's bytes, or key and query of each slot of the level below in order |
| ChkTree.ComputeRootChk | contrib/gnunet-chk.py:272-332 | the loop returns the root of the recursive tree and the size, for files that fit two levels of index blocks and, with the test as meant, for all files; otherwise it fails |
| ChkTree.JoinInjective | contrib/gnunet-chk.py:299-307 | the text of an index block determines its entries |
| ChkTree.TreeInjective | contrib/gnunet-chk.py:272-332 | equal blocks of one level have equal content unless two sealed texts collide |
| ChkTree.RootBindsContent | contrib/gnunet-chk.py:272-332 | two files of one size with one root are equal unless two of their blocks collide |
| Base32.EncodeLoop | contrib/gnunet-chk.py:60-78 | the loop writes the 5-bit digits of the zero-padded bit string, with an accumulator of 32 bits or without bound |
| Base32.DigitsAreNumber | contrib/gnunet-chk.py:60-78 | the digits write in base 32 the number that the bytes write in base 256, shifted left by the padding |
| Base32.EncodeDataToString | contrib/gnunet-chk.py:49-78 | the text spells those digits in the extended-hex alphabet, character by character |
| Base32.DataToString | src/util/strings.c:894-945 | the text spells those digits in Crockford's alphabet; fails exactly when the buffer is too small |
| Base32.GetValue | src/util/strings.c:835-879 | the value of a character is a digit below 32, or none |
| Base32.DecoderReads | src/util/strings.c:835-879 | the decoder reads every character of the alphabet as its digit, letters of either case alike, O as 0, I and L as 1, U as V, and nothing else |
| Base32.DecodeDigit | src/util/strings.c:1036-1045 | one round of the decoder, from the end of the text |
| Base32.DecodeLoop | src/util/strings.c:1029-1050 | the loop fills the buffer with the bytes whose bits the text starts with, or fails exactly on an invalid character |
| Base32.StringToData | src/util/strings.c:991-1051 | succeeds exactly on texts of the right length with valid characters only, with the bytes that the text encodes |
| Base32.DecodingIsUnique | src/util/strings.c:991-1051 | a text decodes to at most one byte string |
| Base32.OctetsInjective | src/util/strings.c:894-945 | the bits determine the bytes |
| Base32.LibraryRoundTrip | src/util/strings.c:894-1051 | what the library encodes it decodes to the same bytes |
| Base32.ScriptTextDecodes | contrib/gnunet-chk.py:49-78 | the library reads the script's text back exactly when every digit is below 18 |
| Base32.ScriptTextMisread | contrib/gnunet-chk.py:49-78 | the byte 255, for which it does not |
| Base32.ScriptRoundTrip | contrib/gnunet-chk.py:49-78 | the text has one character for each five bits begun, and a decoder for the script's alphabet recovers every byte string |
| Base32.HighExtendedHex | contrib/gnunet-chk.py:49-78 | from digit 18 on the library takes the script's character for a smaller digit |
| SchedulingClient.AllocationOk | src/ats/ats_api_scheduling.c:250-273 | a slot handed out is non-zero, in bounds and empty, and no other slot changes |
| SchedulingClient.OffsetNeverGoesBack | src/ats/ats_api_scheduling.c:250-273 | handing out a slot never lowers the static offset |
| SchedulingClient.GrowsDespiteFreeSlots | src/ats/ats_api_scheduling.c:250-273 | the table doubles exactly when no slot from the offset on is empty |
| SchedulingClient.SlotInBounds | src/ats/ats_api_scheduling.c:250-273 | whatever the static offset, the number handed out lies in the table exactly when the offset does, or is a multiple of the size, or no slot from its remainder on is empty |
| SchedulingClient.InheritedOffset | src/ats/ats_api_scheduling.c:250-273 | the offset 5 gives the number 5 for an empty table of four |
| SchedulingClient.OwnOffset | src/ats/ats_api_scheduling.c:250-273 | an offset within the table leads to the first empty slot from it on, or to doubling the table |
| SchedulingClient.FoundFirst | src/ats/ats_api_scheduling.c:285-308 | the record that find_session_id finds is the first that matches |
| SchedulingClient.RefusedIff | src/ats/ats_api_scheduling.c:641-689 | an address is refused exactly when it does not fit or a record in use has it, with the same session or with none |
| SchedulingClient.SuggestionTaken | src/ats/ats_api_scheduling.c:374-439 | by the record that slot and peer name: whether the callback is told of it with its session and the bandwidths of the message, out and in, or of a disconnect, or nothing |
| SchedulingClient.GreetingAnnounces | src/ats/ats_api_scheduling.c:516-561 | a new connection starts with START and an ADD for every record and no other, in table order |
| SchedulingClient.SchedulingHandle.constructor | src/ats/ats_api_scheduling.c:573-588 | a new handle has an empty table of four slots and the static offset as it was; the first number it hands out lies in the table exactly when that offset is below four or a multiple of four |
| SchedulingClient.SchedulingHandle.FindEmptySessionSlot | src/ats/ats_api_scheduling.c:250-273 | the loop with its wrap-around, from any offset, stops at the first empty slot, returns the offset as it is, or doubles the table |
| SchedulingClient.SchedulingHandle.FindSessionId | src/ats/ats_api_scheduling.c:285-308 | the loop finds the first matching record, or none |
| SchedulingClient.SchedulingHandle.AddressAdd | src/ats/ats_api_scheduling.c:641-689 | new table and message sent, for accepted and refused addresses |
| SchedulingClient.SchedulingHandle.AddressAddSession | src/ats/ats_api_scheduling.c:699-704 | only the session of the record changes |
| SchedulingClient.SchedulingHandle.AddressUpdate | src/ats/ats_api_scheduling.c:747-771 | the record's properties change and an UPDATE is sent if connected |
| SchedulingClient.SchedulingHandle.AddressDestroy | src/ats/ats_api_scheduling.c:780-801 | the record is marked dying and a DESTROYED is sent if connected |
| SchedulingClient.SchedulingHandle.AddressDelSession | src/ats/ats_api_scheduling.c:719-732 | the record is left without a session, whether or not it had one, and an inbound address dies with it |
| SchedulingClient.SchedulingHandle.ReleaseSession | src/ats/ats_api_scheduling.c:319-343 | all four cases: empties the slot of a record without a session, tears the connection down for one with a session or a number behind the table, dereferences a null record |
| SchedulingClient.SchedulingHandle.HandleSuggestion | src/ats/ats_api_scheduling.c:374-439 | the same of the handler: which suggestions tear the connection down or are refused, and what the callback is told |
| SchedulingClient.SchedulingHandle.Reconnect | src/ats/ats_api_scheduling.c:516-561 | START and then an ADD for every record, in table order |
| AddressService.AddressStore.AddClient | src/ats/gnunet-service-ats_scheduling.c:45-55 | a second scheduling client is refused |
| AddressService.AddressStore.RemoveClient | src/ats/gnunet-service-ats_scheduling.c:65-71 | when the scheduling client goes, all addresses go |
| AddressService.AddressStore.DestroyAll | src/ats/gnunet-service-ats_addresses.c:385-397 | the iteration leaves no address |
| AddressService.AddressStore.HandleMessage | src/ats/gnunet-service-ats_scheduling.c:120-203 | the store after ADD, UPDATE and DESTROYED, when they run into an error branch, and that a RELEASE is sent for every DESTROYED |
| SlotProtocol.UsedUntilDestroyed | src/ats/gnunet-service-ats_addresses.c:324-342 | an address stays known until a DESTROYED for it is handled |
| SlotProtocol.FreeSlotUnreferenced | src/ats/ats_api_scheduling.c:319-343 | a number whose slot is empty is unknown to the service and to both channels |
| SlotProtocol.AddKeepsLink | src/ats/ats_api_scheduling.c:641-689 | filling an empty slot and announcing it keeps client, channels and service in step |
| SlotProtocol.SilentChangeKeepsLink | src/ats/ats_api_scheduling.c:699-704 | so does a change the service is not told of |
| SlotProtocol.ChangeKeepsLink | src/ats/ats_api_scheduling.c:747-801 | so do UPDATE and DESTROYED |
| SlotProtocol.HandleKeepsLink | src/ats/gnunet-service-ats_scheduling.c:120-203 | so does handling the oldest message at the service |
| SlotProtocol.ReleaseIsLast | src/ats/gnunet-service-ats_scheduling.c:183-203 | while the service has an address its release is not under way |
| SlotProtocol.SuggestKeepsLink | src/ats/gnunet-service-ats_scheduling.c:84-111 | so does a suggestion for an address the service has |
| SlotProtocol.TakeSuggestionKeepsLink | src/ats/ats_api_scheduling.c:374-439 | so does its arrival |
| SlotProtocol.TakeReleaseKeepsLink | src/ats/ats_api_scheduling.c:319-363 | so does the arrival of a release |
| SlotProtocol.GreetingLinks | src/ats/ats_api_scheduling.c:516-561 | the announcements over a new connection put an empty service in step |
| SlotProtocol.LinkedLeft | src/ats/ats_api_scheduling.c:319-439 | what is left to read when the service drops a connection finds its records, dying ones for releases |
| SlotProtocol.TakeLeft | src/ats/ats_api_scheduling.c:319-439 | so does the rest once the client has taken the first of these messages |
| SlotProtocol.NextKeepsInv | src/ats/ats_api_scheduling.c:181-801 | every step keeps the invariant, and a message runs into an error branch exactly when it suggests an inbound address that is in use without a session |
| SlotProtocol.RunKeepsInv | src/ats/ats_api_scheduling.c:181-801 | every run keeps the invariant |
| SlotProtocol.NoRunFaults | src/ats/gnunet-service-ats_addresses.c:212-342 | in no run is there a second ADD for an address, an UPDATE or DESTROYED for an unknown one, a RELEASE for a record that is not dying, or a null record, and the client gives up no connection by itself; the one error branch left is that of an inbound address in use without a session |
| SlotProtocol.FaultsIffBare | src/ats/ats_api_scheduling.c:420-426 | from any reachable state, by runs in which inbound addresses are added with sessions, that branch can be reached exactly when such an address is there already |
| SlotProtocol.SessionsPreventFaults | src/ats/ats_api_scheduling.c:420-426 | in no run from the start in which inbound addresses are added with sessions does a message run into an error branch |
| SlotProtocol.BareSuggestionIsReachable | src/ats/ats_api_scheduling.c:420-426 | a run from the start into that branch |
| SlotProtocol.TableSoundInEveryRun | src/ats/ats_api_scheduling.c:250-273 | in every run slot 0 is empty, every record is in the slot it names, and the next number is in bounds, non-zero and free |
| SlotProtocol.NoRunReassigns | src/ats/ats_api_scheduling.c:250-273 | the number given to an ADD is not in use at a service that listens to the client, nor under way in either direction, also when the service has dropped the connection |
| SlotProtocol.StaleConnectionRevivesNumber | src/ats/ats_api_scheduling.c:516-561 | a run in which a connection given up long ago brings a released number back to a service that does not listen to the client |
| SlotProtocol.SuggestionsResolve | src/ats/ats_api_scheduling.c:374-439 | a suggestion that arrives resolves to the record of its peer in the slot it names |
| SlotProtocol.StaysInLine | src/ats/ats_api_scheduling.c:319-439 | a message to the client is read, unchanged, after exactly those before it, whatever else happens on that connection |
| SlotProtocol.SuggestionReachesCallback | src/ats/ats_api_scheduling.c:374-439 | what the service suggests for an address is what the callback is told when it arrives: the record of that peer and slot, its session, and the bandwidths, unless the record is dying or an inbound one without a session |
| SlotProtocol.AddMakesRecord | src/ats/ats_api_scheduling.c:641-689 | an accepted address becomes a record in the free slot, with its session and properties, and nothing else changes; a refused one changes nothing |
| SlotProtocol.CallsChangeRecords | src/ats/ats_api_scheduling.c:699-801 | what the other calls change in the one record they are for |
| SlotProtocol.OthersKeepRecords | src/ats/ats_api_scheduling.c:319-343 | a RELEASE empties its slot, and no other event touches a record |
| SlotProtocol.QuietServiceMirrorsClient | src/ats/gnunet-service-ats_addresses.c:212-342 | once both channels are empty the service has exactly the client's records, up to date |
| SlotProtocol.DownMakesStuck | src/ats/ats_api_scheduling.c:181-196 | losing the connection before the release leaves a dying record without one |
| SlotProtocol.StuckForGood | src/ats/ats_api_scheduling.c:319-363 | no step ever frees such a record |
| SlotProtocol.StuckInEveryRun | src/ats/ats_api_scheduling.c:319-363 | nor does any run |
| SlotProtocol.FreedBySomeRun | src/ats/ats_api_scheduling.c:319-363 | a dying record whose DESTROYED or RELEASE is under way is freed by some run |
| SlotProtocol.StuckIffNeverFreed | src/ats/ats_api_scheduling.c:319-363 | a dying record keeps its slot in every run exactly when neither is under way |
| SlotProtocol.StuckIsReachable | src/ats/ats_api_scheduling.c:181-196 | a run from the start to such a record |
| SlotProtocol.EmptyBelowOffsetForGood | src/ats/ats_api_scheduling.c:250-273 | in every run the offset does not decrease and an empty slot below it stays empty |
| SlotProtocol.FilledBySomeRun | src/ats/ats_api_scheduling.c:250-273 | adding fresh addresses fills every empty slot from the offset on |
| SlotProtocol.LostIffBelowOffset | src/ats/ats_api_scheduling.c:250-273 | an empty slot stays empty in every run exactly when it lies below the offset, or is slot 0 |
| SlotProtocol.LostSlotIsReachable | src/ats/ats_api_scheduling.c:250-343 | a run from the start to an empty slot below the offset |
| Arm.Find | src/arm/gnunet-service-arm.c:970-983 | the first service whose name matches without regard to case |
| Arm.FatesBalance | src/arm/gnunet-service-arm.c:1662-1862 | outside shutdown the waiting STOP requests are those still waiting and those answered |
| Arm.SurvivorsBalance | src/arm/gnunet-service-arm.c:1662-1862 | the same during shutdown, when services are freed |
| Arm.RunningBalance | src/arm/gnunet-service-arm.c:1515-1577 | the start of the shutdown loses no waiting request |
| Arm.ForgetBalance | src/arm/gnunet-service-arm.c:2052-2064 | a disconnect takes exactly the client's own requests |
| Arm.AcceptKeepsInv | src/arm/gnunet-service-arm.c:992-1001 | a connection on a listen socket starts the service with both assertions holding |
| Arm.StartKeepsInv | src/arm/gnunet-service-arm.c:1206-1247 | START is answered at once and keeps the invariant |
| Arm.StopKeepsInv | src/arm/gnunet-service-arm.c:1297-1378 | STOP is answered at once or waits on a running process |
| Arm.BackoffStep | src/include/gnunet_time_lib.h:166-176 | the backoff doubles up to its limit |
| Arm.DeathKeepsInv | src/arm/gnunet-service-arm.c:1662-1862 | reaping keeps the invariant in and out of shutdown, with no assertion failing |
| Arm.EarliestRestartIsMin | src/arm/gnunet-service-arm.c:1595-1640 | the timer's next time is the least restart time among the stopped services that still wait |
| Arm.TimerKeepsInv | src/arm/gnunet-service-arm.c:1585-1653 | the restart timer keeps the invariant: what it leaves owed it covers with a new timer |
| Arm.ShutdownKeepsInv | src/arm/gnunet-service-arm.c:1515-1577 | the start of the shutdown leaves only running, silent services |
| Arm.DisconnectKeepsInv | src/arm/gnunet-service-arm.c:2052-2064 | a disconnect leaves no waiting request of that client |
| Arm.NextKeepsInv | src/arm/gnunet-service-arm.c:992-2064 | every event keeps the invariant |
| Arm.InitialInv | src/arm/gnunet-service-arm.c:2100-2179 | the state after start-up has the invariant |
| Arm.RunKeepsInv | src/arm/gnunet-service-arm.c:992-2064 | so has every state of every run |
| Arm.SupervisorSafety | src/arm/gnunet-service-arm.c:730-1862 | in no run does an assertion fail, is a restart timed during shutdown, or does the last phase run twice or before the list is empty |
| Arm.ServiceSafety | src/arm/gnunet-service-arm.c:730-1862 | running services, services in backoff and services in shutdown do not listen; a STOP waits for a running process and a connected client; the delay after k crashes is 2^k milliseconds up to 15 minutes |
| Arm.RequestsConserved | src/arm/gnunet-service-arm.c:1206-2064 | every request is answered exactly once, waits for a process to die, or lost its client |
| Arm.NextPointwise | src/arm/gnunet-service-arm.c:992-2064 | each event acts on each service by itself |
| Arm.CrashOwesRestart | src/arm/gnunet-service-arm.c:1826-1844 | a crash puts the restart off by exactly the backoff |
| Arm.OwedUntilCarriedOut | src/arm/gnunet-service-arm.c:1585-1862 | an owed restart ends only by a running process or by the timer after its time |
| Arm.OwedRestartHappens | src/arm/gnunet-service-arm.c:1585-1653 | once its time has come the timer is due, and starts the service or lets it listen on all sockets |
| Arm.RestartCovered | src/arm/gnunet-service-arm.c:1585-1653 | outside shutdown a stopped service whose restart lies ahead has a timer set for no later than that |
| Arm.TimerSetAgain | src/arm/gnunet-service-arm.c:1641-1652 | the timer is set again exactly when a stopped service still waits |
| Arm.FailedRestartAbandons | src/arm/gnunet-service-arm.c:1597-1652 | a failed restart leaves the service without process, socket or timer exactly when no other stopped service waits |
| Arm.AbandonedStays | src/arm/gnunet-service-arm.c:1206-1653 | exactly a START that succeeds, the shutdown or, for a service with a restart time, another crash end that |
| Arm.AbandonedInRun | src/arm/gnunet-service-arm.c:1206-1653 | a run leaves such a service alone throughout exactly when none of its steps is one of these |
| Arm.NeverStartedInRun | src/arm/gnunet-service-arm.c:1206-1653 | for a service that never ran, exactly when the run has neither a START for it that succeeds nor the shutdown, whatever other services and timers do |
| Arm.FailedBootAbandons | src/arm/gnunet-service-arm.c:2172-2177 | at the start exactly the services whose start failed, or that have neither process nor socket, are left alone |
| Arm.FailedStartAbandons | src/arm/gnunet-service-arm.c:992-1247 | a failed start for a connection or a START leaves the service alone exactly when no timer is set or it never ran |
| Arm.AbandonedIsReachable | src/arm/gnunet-service-arm.c:1585-1653 | one crash and one failed restart lead there |
| Arm.ShutdownStep | src/arm/gnunet-service-arm.c:1467-1862 | the processes after a step of a shutdown are some of those before, each once and in order, and the last phase runs exactly when the last service goes |
| Arm.ShutdownFinishes | src/arm/gnunet-service-arm.c:1662-1862 | when every process has died the shutdown is finished and no request waits |
| ArmEffects.SameNameIs | src/arm/gnunet-service-arm.c:970-983 | names are the same when they are but for the case of letters |
| ArmEffects.StartAnswered | src/arm/gnunet-service-arm.c:930-1247 | START is answered once: InShutdown in shutdown, IsNotKnown for no service of the name, IsStartedAlready for a running one, Starting exactly when it had no process and now has one, StartFailed exactly when it still has none |
| ArmEffects.StopAnswered | src/arm/gnunet-service-arm.c:1297-1378 | STOP is answered Stopping for "arm" only, IsNotKnown, InShutdown, IsStoppingAlready or IsStoppedAlready exactly when that is so, and otherwise not at once but by waiting on the process |
| ArmEffects.DeathsAnswered | src/arm/gnunet-service-arm.c:1792-1804 | exactly the requests that wait for a process that died are told Stopped |
| ArmEffects.OthersAnswerNothing | src/arm/gnunet-service-arm.c:992-2064 | no other event answers a request |
| ArmEffects.AcceptStarts | src/arm/gnunet-service-arm.c:992-1001 | a connection starts its service, which stops listening, and touches no other |
| ArmEffects.BackoffTable | src/include/gnunet_time_lib.h:166-176 | the backoff after k crashes is 2^k ms below twenty crashes and 15 minutes from then on |
| ArmEffects.DeathsTakeEffect | src/arm/gnunet-service-arm.c:1792-1845 | after a clean exit a service listens on all sockets and may restart at once; after a crash it waits out its backoff, which doubles, and the timer runs |
| ArmEffects.TimerTakesEffect | src/arm/gnunet-service-arm.c:1599-1640 | the timer starts the stopped services that are due and run by default, lets the others that are due listen, and touches no other |
| ArmEffects.TimerSetForEarliest | src/arm/gnunet-service-arm.c:1631-1652 | the timer is set again for the earliest restart that lies ahead, or not at all when there is none |
| ArmEffects.ShutdownKeepsRunning | src/arm/gnunet-service-arm.c:1515-1577 | the shutdown keeps exactly the running services, in order and without sockets |
| ArmEffects.ReapingKeepsAlive | src/arm/gnunet-service-arm.c:1662-1862 | a death during shutdown keeps exactly the processes that are alive, in order and as they are |
| ArmService.EarliestSoFar | src/arm/gnunet-service-arm.c:1599-1640 | the minimum that the loop carries, after each service |
| ArmService.ProgressSoFar | src/arm/gnunet-service-arm.c:1685-1850 | what the loop over the children has left, sent and noticed after each service |
| ArmService.Supervisor.constructor | src/arm/gnunet-service-arm.c:2100-2116 | the state before default services are started |
| ArmService.Supervisor.StartDefaults | src/arm/gnunet-service-arm.c:2172-2177 | the loop starts exactly the services that are not on demand |
| ArmService.Supervisor.FindService | src/arm/gnunet-service-arm.c:970-983 | the loop finds the first service of that name |
| ArmService.Supervisor.StartProcess | src/arm/gnunet-service-arm.c:730-960 | every accept task is cancelled before the process is started, which may fail |
| ArmService.Supervisor.AcceptConnection | src/arm/gnunet-service-arm.c:992-1001 | takes the step of the state machine |
| ArmService.Supervisor.HandleStart | src/arm/gnunet-service-arm.c:1206-1247 | takes the step of the state machine |
| ArmService.Supervisor.HandleStop | src/arm/gnunet-service-arm.c:1297-1378 | takes the step of the state machine |
| ArmService.Supervisor.ForgetClient | src/arm/gnunet-service-arm.c:2061-2063 | the loop forgets exactly the client's requests |
| ArmService.Supervisor.ClientDisconnect | src/arm/gnunet-service-arm.c:2052-2064 | takes the step of the state machine |
| ArmService.Supervisor.FreeService | src/arm/gnunet-service-arm.c:1158-1170 | unlinks one service; its assertions fail exactly outside shutdown or with a socket left |
| ArmService.Supervisor.DoShutdown | src/arm/gnunet-service-arm.c:1467-1487 | counts the last phase and cancels the death task |
| ArmService.Supervisor.StopListening | src/arm/gnunet-service-arm.c:1530-1548 | the nested loops close every socket |
| ArmService.Supervisor.DropStopped | src/arm/gnunet-service-arm.c:1549-1569 | the loop frees exactly the services without a process, with its assertions holding |
| ArmService.Supervisor.ShutdownTask | src/arm/gnunet-service-arm.c:1515-1577 | takes the step of the state machine |
| ArmService.Supervisor.RearmAccepts | src/arm/gnunet-service-arm.c:1620-1629 | the loop arms every accept task that is not |
| ArmService.Supervisor.RestartServices | src/arm/gnunet-service-arm.c:1599-1640 | the loop restarts or re-arms what is due and returns the least remaining restart time |
| ArmService.Supervisor.DelayedRestartTask | src/arm/gnunet-service-arm.c:1585-1653 | takes the step of the state machine |
| ArmService.Supervisor.ArmAccepts | src/arm/gnunet-service-arm.c:1816-1824 | arms all accept tasks; its check fails exactly when one was armed |
| ArmService.Supervisor.Reap | src/arm/gnunet-service-arm.c:1792-1804 | the process goes and the client that asked is told |
| ArmService.Supervisor.ScheduleRestart | src/arm/gnunet-service-arm.c:1805-1845 | restart time, backoff and timer after a clean exit and after a crash |
| ArmService.Supervisor.MaintainOne | src/arm/gnunet-service-arm.c:1686-1850 | one round of the loop |
| ArmService.Supervisor.MaintainAll | src/arm/gnunet-service-arm.c:1685-1850 | the loop, which unlinks while it runs, has the effect that the state machine gives it |
| ArmService.Supervisor.MaintChildDeath | src/arm/gnunet-service-arm.c:1662-1862 | takes the step of the state machine |
| ArmList.MeasureList | src/arm/gnunet-service-arm.c:1404-1414 | the first loop computes the size of the texts and their number in 16 bits |
| ArmList.PrintText | src/arm/gnunet-service-arm.c:1426-1432 | writes a text and its terminator and nothing before them |
| ArmList.TextsList | src/arm/gnunet-service-arm.c:1421-1434 | there is one text for each running service and no other, in list order: its name, a space, and its binary in parentheses |
| ArmList.WriteList | src/arm/gnunet-service-arm.c:1421-1434 | the second loop writes the packed texts, and stays in the buffer exactly when they fit |
| ArmList.HandleList | src/arm/gnunet-service-arm.c:1387-1438 | the message holds exactly the texts of the running services exactly when the texts have at most 65517 bytes, so that with the header they stay below 64 kB |
| ArmList.ParseIffTerminated | src/arm/arm_api.c:319-341 | a body has n texts exactly when it has n terminators |
| ArmList.ParseSound | src/arm/arm_api.c:373-385 | the parsed texts, terminated, are the front of the body |
| ArmList.ParsePacked | src/arm/arm_api.c:373-385 | parsing is the inverse of packing, whatever follows |
| ArmList.PackingUnambiguous | src/arm/arm_api.c:373-385 | a body is cut into a number of texts in one way only |
| ArmList.FindTerminator | src/arm/arm_api.c:331-336 | the search never looks behind the message |
| ArmList.NextText | src/arm/arm_api.c:331-338 | the 16-bit size counter never wraps |
| ArmList.CheckListResult | src/arm/arm_api.c:319-341 | accepts exactly the bodies with enough terminators |
| ArmList.HandleListResult | src/arm/arm_api.c:350-392 | its assertion holds exactly for those bodies, and the texts are a cut of the front of the body |
| ArmList.ReceiveList | src/arm/arm_api.c:319-392 | for every message that passes the check the handler's assertion holds |
| ArmList.ListRoundTrip | src/arm/arm_api.c:319-392 | the client gets the texts of the running services, in order, name before binary |
| Preferences.ReleaseKeepsCount | src/ats/gnunet-service-ats_preferences.c:288-314 | freeing an entry keeps the counters right |
| Preferences.AgeKeepsCount | src/ats/gnunet-service-ats_preferences.c:344-383 | so does aging it |
| Preferences.TracksStep | src/ats/gnunet-service-ats_preferences.c:344-383 | after each aged entry the totals are recomputed where a value was cut and untouched elsewhere |
| Preferences.AgedStateIs | src/ats/gnunet-service-ats_preferences.c:391-419 | what the nested iterations leave is determined by the state before, whatever their order |
| Preferences.UpdateKeepsCount | src/ats/gnunet-service-ats_preferences.c:555-643 | an update keeps the counters right |
| Preferences.DisconnectKeepsCount | src/ats/gnunet-service-ats_preferences.c:758-776 | so does a disconnect |
| Preferences.UpdateAgrees | src/ats/gnunet-service-ats_preferences.c:555-643 | an update that does not divide by zero makes the totals of its kind the sums over the clients, and every update keeps those of other kinds |
| Preferences.AgingAgrees | src/ats/gnunet-service-ats_preferences.c:344-419 | aging keeps totals and sums in agreement although it recomputes only some |
| Preferences.DisconnectAgrees | src/ats/gnunet-service-ats_preferences.c:758-776 | a disconnect keeps them in agreement exactly when the client gave nothing to peers that it shared |
| Preferences.DisconnectLeavesStaleTotal | src/ats/gnunet-service-ats_preferences.c:758-776 | two updates from the start after which it does not |
| Preferences.RunKeepsCount | src/ats/gnunet-service-ats_preferences.c:288-776 | in every run, with divisions by zero or without, the listed peers are those some client scored, with the right counts |
| Preferences.RunKeepsAgreement | src/ats/gnunet-service-ats_preferences.c:344-643 | every run without a disconnect or a division by zero for the kind keeps agreement |
| Preferences.AgreementAfterUpdate | src/ats/gnunet-service-ats_preferences.c:344-643 | from the start, after the last update of a kind its totals agree until a client disconnects, as long as no client's last update of the kind divided by zero |
| Preferences.DividesByZeroIff | src/ats/gnunet-service-ats_preferences.c:449-520 | without negative scores an update divides by zero exactly when all the client's scores of the kind are zero |
| Preferences.FirstScoreOfZero | src/ats/gnunet-service-ats_preferences.c:449-520 | a first score of zero divides by zero |
| Preferences.UpdateAdds | src/ats/gnunet-service-ats_preferences.c:555-643 | an update adds its score to what the client gave that peer for that kind, and changes no other score |
| Preferences.AgingDecays | src/ats/gnunet-service-ats_preferences.c:344-383 | a round of aging leaves 95 percent of a score, or nothing of one up to a 95th |
| Preferences.ScoresAreHistory | src/ats/gnunet-service-ats_preferences.c:344-776 | in every run from the start each score is what the client's updates, the rounds of aging and its disconnects make of zero, one after the other |
| Preferences.SharesAddToOne | src/ats/gnunet-service-ats_preferences.c:472-520 | the relative values that an update gives a client's peers add up to one |
| Preferences.SharesInUnit | src/ats/gnunet-service-ats_preferences.c:472-520 | without negative scores each lies between zero and one |
| Preferences.AgingShrinksShares | src/ats/gnunet-service-ats_preferences.c:344-383 | aging never raises their sum |
| Preferences.AgedAbsTotal | src/ats/gnunet-service-ats_preferences.c:360-365 | aging multiplies the sum of the scores it keeps |
| Preferences.AgingKeepsShares | src/ats/gnunet-service-ats_preferences.c:344-383 | relative values stay shares exactly when no positive value of the kind is cut, or all are |
| Preferences.AgingLosesShares | src/ats/gnunet-service-ats_preferences.c:344-383 | two updates from the start after which they do not |
| Preferences.UpdateNormalised | src/ats/gnunet-service-ats_preferences.c:555-643 | an update with a non-negative score keeps all values non-negative and every client's shares of a kind at most one in sum |
| Preferences.AgedNormalised | src/ats/gnunet-service-ats_preferences.c:344-383 | so does aging |
| Preferences.RunKeepsNormalised | src/ats/gnunet-service-ats_preferences.c:344-776 | so does every run without negative scores |
| Preferences.UpdateProportional | src/ats/gnunet-service-ats_preferences.c:449-643 | an update leaves the relative values of all kinds the shares of the absolute ones |
| Preferences.RunKeepsProportional | src/ats/gnunet-service-ats_preferences.c:344-776 | in every run in which aging cuts no positive value they stay shares, though aging never computes them |
| Preferences.AgedTimesBounded | src/ats/gnunet-service-ats_preferences.c:360-365 | after n rounds every score is at most 0.95^n of the bound |
| Preferences.AgingEnds | src/ats/gnunet-service-ats_preferences.c:344-419 | without new scores no entry and no listed peer is left after 1900 rounds for each unit of the highest score, and one more |
| Preferences.ValueLifetime | src/ats/gnunet-service-ats_preferences.c:360-365 | a value is kept, and is 0.95^n of what it was, exactly as long as that is above the threshold |
| Preferences.EntryLifetime | src/ats/gnunet-service-ats_preferences.c:344-419 | after n rounds an entry is left exactly when 0.95^n of one of its scores is above the threshold, and a peer is listed exactly when such an entry is |
| Preferences.PreferenceStore.constructor | src/ats/gnunet-service-ats_preferences.c:682-690 | starts empty |
| Preferences.PreferenceStore.UpdateRelative | src/ats/gnunet-service-ats_preferences.c:223-253 | the loop makes the total the sum over the clients |
| Preferences.PreferenceStore.FreePreference | src/ats/gnunet-service-ats_preferences.c:288-314 | removes the entry, counts down, and unlists a peer that no client counts |
| Preferences.PreferenceStore.AgeKind | src/ats/gnunet-service-ats_preferences.c:355-374 | one kind of one entry |
| Preferences.PreferenceStore.AgeKinds | src/ats/gnunet-service-ats_preferences.c:354-374 | the loop over the kinds, and that it counts no live value exactly when the entry is dead |
| Preferences.PreferenceStore.AgeValues | src/ats/gnunet-service-ats_preferences.c:344-383 | one entry, with removal when all kinds are cut |
| Preferences.PreferenceStore.AgePeers | src/ats/gnunet-service-ats_preferences.c:399-402 | the iteration over a client's peers, in any order |
| Preferences.PreferenceStore.PreferenceAging | src/ats/gnunet-service-ats_preferences.c:391-419 | the state is the aged one, and aging is scheduled again exactly when an entry is left |
| Preferences.PreferenceStore.AddUp | src/ats/gnunet-service-ats_preferences.c:449-459 | the iteration adds up the client's scores |
| Preferences.PreferenceStore.Divide | src/ats/gnunet-service-ats_preferences.c:472-486 | the iteration makes every relative value the share |
| Preferences.PreferenceStore.Recalculate | src/ats/gnunet-service-ats_preferences.c:496-520 | shares of the sum, or a division by zero exactly when it is zero |
| Preferences.PreferenceStore.RetotalAll | src/ats/gnunet-service-ats_preferences.c:533-543 | every listed peer gets its total again |
| Preferences.PreferenceStore.FindOrAdd | src/ats/gnunet-service-ats_preferences.c:577-592 | the client's position, or a new client at the head |
| Preferences.PreferenceStore.AddScore | src/ats/gnunet-service-ats_preferences.c:594-632 | entry and listed peer are made if missing, the counter goes up with a new entry |
| Preferences.PreferenceStore.UpdatePreference | src/ats/gnunet-service-ats_preferences.c:555-643 | the updated state, and none for an unknown kind; counters, distinct clients and the aging task stay right |
| Preferences.PreferenceStore.ReleaseEntries | src/ats/gnunet-service-ats_preferences.c:771-773 | the iteration counts every peer of the client down once |
| Preferences.PreferenceStore.ClientDisconnect | src/ats/gnunet-service-ats_preferences.c:758-776 | the state without the client; nothing for an unknown one |
| Normalization.MeanIsValue | src/ats/gnunet-service-ats_normalization.c:67-92 | the average fits 64 bits |
| Normalization.UpdateAvg | src/ats/gnunet-service-ats_normalization.c:67-92 | the loop averages the defined samples of the ring |
| Normalization.MeanOfThree | src/ats/gnunet-service-ats_normalization.c:67-92 | the average of three samples is their sum divided by their number, both without the undefined ones, and undefined when all are |
| Normalization.RingStep | src/ats/gnunet-service-ats_normalization.c:75-77 | the ring holds the latest sample of each position |
| Normalization.RingMean | src/ats/gnunet-service-ats_normalization.c:67-92 | its average is that of the last three samples, whatever the position |
| Normalization.AverageOfRecent | src/ats/gnunet-service-ats_normalization.c:67-92 | one more sample leaves a ring whose average is the mean of the last three defined samples |
| Normalization.UpdateRemembers | src/ats/gnunet-service-ats_normalization.c:230-277 | after every sample of every address in a book, all its averages are those of the last three samples since it was added |
| Normalization.SamplesTaken | src/ats/gnunet-service-ats_normalization.c:240-247 | each ring takes the current value of its property, the outbound one that of the inbound |
| Normalization.AverageOfHistory | src/ats/gnunet-service-ats_normalization.c:230-277 | every average of an address in a book is that of the last three values seen of it, fewer at first, the outbound one from the inbound values |
| Normalization.NormIs | src/ats/gnunet-service-ats_normalization.c:141-151 | a norm is 1 plus the excess of the average over the minimum, as an unsigned 64-bit number, divided by the width of the range, or 1 without a range; there is only one such number |
| Normalization.NormAtEnds | src/ats/gnunet-service-ats_normalization.c:141-151 | the minimum has the norm 1 and the maximum the norm 2 |
| Normalization.NormInRange | src/ats/gnunet-service-ats_normalization.c:141-151 | a norm lies between 1 and 2 exactly when the range is empty or contains the average |
| Normalization.NormMonotone | src/ats/gnunet-service-ats_normalization.c:141-151 | norms keep the order of averages within the range, strictly |
| Normalization.NormOutOfRange | src/ats/gnunet-service-ats_normalization.c:141-151 | a book that reaches an average of 3 with a range from 5 to 9, and a norm that is not between 1 and 2 |
| Normalization.RangeUnique | src/ats/gnunet-service-ats_normalization.c:105-130 | the addresses determine the range |
| Normalization.WidenedIsRange | src/ats/gnunet-service-ats_normalization.c:105-130 | taking in one more address gives the range of one more |
| Normalization.AllRenormedIs | src/ats/gnunet-service-ats_normalization.c:166-185 | normalising all puts every address in the form of the range |
| Normalization.OneIsEnough | src/ats/gnunet-service-ats_normalization.c:263-273 | normalising one address is normalising all when the others are in form |
| Normalization.AddressBook.constructor | src/ats/gnunet-service-ats_normalization.c:283-287 | starts with the range of no address: the greatest 64-bit and 32-bit numbers as minima, zeros as maxima |
| Normalization.AddressBook.FindRange | src/ats/gnunet-service-ats_normalization.c:105-130 | the iteration finds the range of all addresses |
| Normalization.AddressBook.NormaliseAll | src/ats/gnunet-service-ats_normalization.c:166-185 | the iteration normalises every address |
| Normalization.AddressBook.TakeSamples | src/ats/gnunet-service-ats_normalization.c:240-247 | the four averages, the outbound one from the inbound value |
| Normalization.AddressBook.UpdateProperty | src/ats/gnunet-service-ats_normalization.c:230-277 | whether it normalises one address or all, every norm of every address is what the exact range of all values makes of its average |
| Normalization.AddressBook.UpdateAndRemember | src/ats/gnunet-service-ats_normalization.c:230-277 | the same, keeping the tie between averages and histories that holds for every book |
| Normalization.AddressBook.Add | src/ats/gnunet-service-ats_addresses.c:211-264 | all addresses and the new one in form; nothing for a known address |
| Normalization.AddressBook.Update | src/ats/gnunet-service-ats_addresses.c:274-314 | all addresses in form; nothing for an unknown address or one the solver does not know |
| Normalization.AddressBook.Destroy | src/ats/gnunet-service-ats_addresses.c:323-342 | the others stay in the form of the stored range, which still covers them |
| Reservations.ReserveInOrder | src/ats/ats_api_performance.c:689-720 | a reservation keeps pending list, requests and results in step |
| Reservations.CancelInOrder | src/ats/ats_api_performance.c:728-732 | so does a cancellation |
| Reservations.ServeInOrder | src/ats/gnunet-service-ats_reservations.c:144-170 | so does the service |
| Reservations.PopInOrder | src/ats/ats_api_performance.c:376-400 | the first result fits the first pending reservation |
| Reservations.ServeBooks | src/ats/gnunet-service-ats_reservations.c:54-89 | what is granted was consumed from a tracker or given without one, and an undo is granted in full |
| Reservations.ServeStaleBooks | src/ats/gnunet-service-ats_reservations.c:144-170 | a request of a connection given up is served as well, and its result is lost |
| Reservations.DiscardBooks | src/ats/gnunet-service-ats_reservations.c:144-170 | what the service never served is an undo not made |
| Reservations.SettleBooks | src/ats/ats_api_performance.c:400-420 | every amount that arrives is booked once, and a cancelled one starts its undo |
| Reservations.SettlePlaces | src/ats/ats_api_performance.c:376-420 | each reservation of the user stays in exactly one place, and each undone one has its undo in exactly one |
| Reservations.PendingDistinct | src/ats/ats_api_performance.c:376-420 | no reservation of the user is pending twice |
| Reservations.CancelWithdrawals | src/ats/ats_api_performance.c:728-732 | the callback of a reservation that the user cancelled was not called and will not be |
| Reservations.DisconnectBooks | src/ats/ats_api_performance.c:242-294 | a lost connection loses the results on their way; its requests stay to be served or not |
| Reservations.DeliverKeepsInv | src/ats/ats_api_performance.c:376-420 | handling a result keeps the invariant and never meets a missing or foreign reservation |
| Reservations.NextKeepsInv | src/ats/ats_api_performance.c:242-732 | every event keeps the invariant |
| Reservations.RunKeepsInv | src/ats/ats_api_performance.c:242-732 | so does every run |
| Reservations.ResultsMatch | src/ats/ats_api_performance.c:376-393 | in every run each result meets its reservation, with all of the amount or nothing, so the error branch is never taken |
| Reservations.GrantsAccountedFor | src/ats/ats_api_performance.c:242-420 | in every run, for a peer as for one reservation, what was granted is what callbacks were told and what came without one, but for the user's amounts on their way or lost, and the undos on their way, in connections given up, or never served |
| ReservationEffects.ServesOldest | src/ats/gnunet-service-ats_reservations.c:54-170 | the oldest request is granted in full and its tracker charged that, but a non-negative amount that the tracker makes wait is granted as zero; the result is sent |
| ReservationEffects.ServesStaleOldest | src/ats/gnunet-service-ats_reservations.c:54-170 | the same for a connection given up, with the result lost |
| ReservationEffects.ReservationIsAsked | src/ats/ats_api_performance.c:689-720 | a reservation is remembered with its callback, to be undone if it has one and a positive amount, and asked for; refused without a connection |
| ReservationEffects.CancellingTakesCallback | src/ats/ats_api_performance.c:728-732 | cancelling takes the callback of that reservation and nothing else |
| ReservationEffects.ResultIsTold | src/ats/ats_api_performance.c:376-420 | in every run a result tells the callback of its reservation if it is set; otherwise a non-zero amount to be undone is asked back, and nothing else is |
| ReservationEffects.LossDropsPending | src/ats/ats_api_performance.c:242-264 | a lost connection drops what is pending, loses the results on their way and leaves the requests |
| ReservationEnds.LiveIsSet | src/ats/ats_api_performance.c:253-264 | the callbacks told of a lost connection are those that are set, and no other, in order |
| ReservationCosts.CancelledEnds | src/ats/ats_api_performance.c:242-420 | a settled reservation that the user cancelled came silently, was undone, was lost or was never served, and just one of these |
| ReservationCosts.CancelledCostNothing | src/ats/ats_api_performance.c:242-420 | such a reservation costs nothing exactly when nothing was granted, or it had a callback and a positive amount, its grant was not lost and its undo was not left unserved |
| ReservationCosts.CancelledWithoutLoss | src/ats/ats_api_performance.c:376-420 | in runs in which no connection fails it costs nothing exactly when nothing was granted or it had a callback and a positive amount |
| ReservationCosts.SilentCosts | src/ats/ats_api_performance.c:707-709 | a run in which a reservation made without a callback is cancelled and charged, with nothing lost |
| ReservationCosts.LostGrantCosts | src/ats/ats_api_performance.c:242-264 | a run in which a cancelled reservation is charged because its result was lost |
| ReservationCosts.UnservedUndoCosts | src/ats/ats_api_performance.c:242-264 | a run in which a cancelled reservation is charged because its undo was never served |
| ReservationCosts.TrackerCountsAll | src/ats/gnunet-service-ats_reservations.c:54-135 | while a peer has its tracker nothing is given to it without being counted |
| ReservationCosts.TrackerCharged | src/ats/gnunet-service-ats_reservations.c:54-135 | with a tracker throughout, no connection failing and nothing pending, the tracker is charged exactly what callbacks were told and what came without one |
| ReservationEnds.PerformanceHandle.ReserveBandwidth | src/ats/ats_api_performance.c:689-720 | takes the step of the state machine; refused without a connection |
| ReservationEnds.PerformanceHandle.CancelReservation | src/ats/ats_api_performance.c:728-732 | takes the step of the state machine |
| ReservationEnds.PerformanceHandle.HandleReservationResult | src/ats/ats_api_performance.c:376-420 | takes the step of the state machine |
| ReservationEnds.PerformanceHandle.DoReconnect | src/ats/ats_api_performance.c:242-264 | every set callback, and no other, learns of the loss, in order |
| ReservationEnds.ReservationService.HandleRequest | src/ats/gnunet-service-ats_reservations.c:54-170 | for a peer with a tracker a non-negative amount is granted and consumed in full without a delay and not at all with one; a negative amount always in full; without a tracker all is granted and nothing consumed |
| ReservationEnds.ReservationService.SetBandwidth | src/ats/gnunet-service-ats_reservations.c:100-135 | a peer has a tracker exactly while its bandwidth is positive |

## Left out

- Hashing, encryption, key derivation and the URI text of `contrib/gnunet-chk.py`; reading errors.
- `GNUNET_STRINGS_data_to_string` and its inverse compute sizes in machine words; sizes for which `size * 8` wraps are not modelled.
- The encoder's limit on the data size that the library asserts.
- 32-bit wrap-around of the scheduling client's static slot offset, and of counters in general, except where a row says otherwise.
- SchedulingClient.SchedulingHandle.AddressAdd: only for an offset within the table; what the source does with a number behind its array (`SchedulingClient.SlotInBounds`) is not modelled, and the protocol has one handle.
- Preferences.AgreementAfterUpdate: a value that is not a number is one again after aging cuts it; the condition does not count that.
- Message formats of the ATS interfaces; whether an address fits a message is an input (`fits`).
- The connectivity interface, address lists, feedback and preference messages' parsing, and the performance notifications of the ATS service.
- SlotProtocol.QuietServiceMirrorsClient: assumes that the solver took every address it was told of; an UPDATE for one that it does not know is refused by the service (`AddressService.AddressStore.HandleMessage`).
- Solver plugins: suggestions may be for any address the service has; bandwidth assignment is not modelled.
- The bandwidth tracker of `src/util/bandwidth.c`: the delay it computes is an input.
- Rounding, infinities and not-a-number values of floating-point numbers.
- The field `f_abs_sum` of a preference client, which is recomputed before each use.
- Configuration, sockets, signals, process creation, resource diagnostics and status broadcasts of ARM, and its client library other than the LIST reply.
- `GNUNET_OS_process_status` and `wait4`: what they report about a child is an input.
- A clock beyond 2^63 microseconds, for which restart times would saturate.
- Other services and libraries of the repository.
