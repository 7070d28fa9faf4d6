# A model of the hub firmware

This project models six cores of the firmware of an ESP-NOW to USB hub ("dongle") and proves
what they promise. Each core is self-contained; the protocol library `btp`, the operating system
and the drivers appear only as contracts, stated where they are used.

**The Shox96 text codec** (`Shox*.dfy`, `Bitwise.dfy`). A compressor that writes bits of
prefix codes into a buffer, with a digit mode, an all-capitals mode, run lengths and
back-references, and a decompressor that walks other tables. The writer is proved to append
exactly the bits of a specification, the two sets of tables are proved to agree, and every turn
of the compressor is proved to be undone by the turns of the decompressor that read it. With the
search for repeats switched off, decompression undoes compression for every text of the
alphabet. With it on, as it is in the source, there is a mistake: after a back-reference the
character remembered for run lengths is one too early. `RoundTrip` gives the exact condition: a text
comes back if and only if no run begins right after such a reference, with a remembered
character that is not the last one. `StaleExample` is a text that does not come back.

**The radio transmitter** (`RadioTxScheduler.dfy`, `CompletionSlots.dfy`, `Tx*.dfy`). Callers share four
completion slots; one worker owns the driver; driver callbacks carry an address and no token.
The protocol is a state machine of atomic steps, in which the critical section of
`completeRequest` and the semaphore given after it are two. A call that returns a status returns
the verdict of its own request in every interleaving; and every dequeued request ends in exactly
one way. The verdict is the driver's own report for that transmission in every continuation if
and only if no callback for its address is outstanding when the worker empties the status queue
for it (`AttributionIsExact`). The weighted selection gives each class its share and a bounded
wait.

**SHA-256, HMAC and PBKDF2** (`Sha256*.dfy`, `DongleKeyStore.dfy`). The streaming hash is proved
equal to FIPS 180-4 for every message below 2^61 octets and every split into updates; HMAC to
section 2 of RFC 2104 for every key length; PBKDF2 to section 5.2 of RFC 8018. The constants are
proved to be the roots of the first primes that the standard says they are.

**The radio ingress** (`RelayTable.dfy`, `PeerTable.dfy`, `RadioIngress.dfy`, `IngressSafety.dfy`,
`IngressRuns.dfy`). Fragments of messages that may be the hub's own are kept aside while an abstract reassembler
puts the message together. Each complete message is relayed whole, dispatched or dropped, never
two of these. What is relayed is all its fragments in index order, each of them a datagram
received earlier, byte for byte, and they carry exactly the message that did not open. "Relayed"
means offered to the queues of the cable, one fragment after the other: a queue that is full or a
session that ends in between can still cost a fragment, and `relayPendingUp` does not look.
Every row of the peer table has the identity of a message that was received from its address
and opened under key L.

**The cable** (`Serial*.dfy`). A frame pump over a port that accepts any number of bytes at a time,
four queues with two overflow policies, and the ends of a session. What the desktop receives is
every frame sent whole, in order, and a front of the one on the wire; a closing reply is a block of its own;
nothing is lost that is not counted; and every session that ends is cleaned up after exactly once.
From the producers of both tasks to the desktop, over every run: what it has received of each class
are frames offered to that class, in the order offered (`DesktopInOrder`).
Frames from the radio are queued by another task, which tests for a session first and holds no
lock over both. So the cleanup does not always leave the queues empty: they are if and only if no
producer that passed its test before the last cleanup has queued its frame after it
(`CleanConsole`), and a frame that is late goes out with the next session (`LateFrameCrosses`).

**Manifests and telemetry of the hub** (`LittleEndian.dfy`, `TopicRecords.dfy`, `PackedSchema.dfy`,
`HubTopics.dfy`, `ManifestCache.dfy`, `ManifestEnumeration.dfy`, `ManifestThrottle.dfy`). Records written by one module are walked by another;
payloads are read back by nothing but their field tables; the cache of manifests refines a map
from sources to their last messages; requests for manifests are paced in real time.
The main loop lists the cache response by response while another task ingests messages, with no
lock, so the responses of one listing need not belong together: a source can be listed twice and
others not at all, with no response that says complete (`ListedTwice`). `ListingIsExact` gives the
exact condition. What a caller can rely on is `QuietListingIsWhole`: the listing is whole if no
message of a new source is accepted meanwhile, and only then if the cache had a free entry.

## How it is written

Code that changes things in place is a class or a method over arrays, proved against a function;
what the source promises is then proved about that function. A protocol is a state, an
action type, `Enabled` and `Next`, with one invariant and a theorem over every run. History
variables (who was told what, what was offered) are read by no step. Library contracts are
predicates (`Stuffing`, `Submitted`, `Possible`) or a record of functions (`Library`).

## Where code and comments differ

* `components/esp32-idf-sqlite3/shox96_0_2.c:209` sets the remembered character to the one before the last
  character copied. The model follows the code.
* The comment at `lib/EspNowManager/EspNowManager.cpp:177-178` says that clearing the status queue makes a callback
  unambiguous. It does so exactly under the condition `TxAttribution.Quiet`.
* The comment at `lib/SerialMux/SerialMux.cpp:1261-1263` says that the cleanup lets a later session start from a clean
  console. It does so only under the condition of `SerialRaces.CleanConsole`, and entering does not reset the queues.
* The comment at `lib/ManifestCache/ManifestCache.h:155-156` says that only the last response of an enumeration says
  complete. With messages coming in it can be none of them (`ManifestEnumeration.ListingIsExact`).
* `lib/SerialMux/SerialMux.cpp:27-60` explains the frame sizes of three schema versions; the records of the present
  tables are 1741 octets (`HubTopics.AllTopicsFit`).

## Model

| member | source | states |
|---|---|---|
| `ShoxBits.AppendBits` | components/esp32-idf-sqlite3/shox96_0_2.c:46-79 | the buffer holds all earlier bits and then exactly the top bits of the code, and the rest of the last byte is zero |
| `ShoxBits.EncodeCount` | components/esp32-idf-sqlite3/shox96_0_2.c:81-95 | a count is appended as the prefix of its class and its digits; from 70308 on nothing is |
| `ShoxCodes.ReadCountInverts` | components/esp32-idf-sqlite3/shox96_0_2.c:360-369 | at any bit offset reading a count gives back every count below 70308 and stops after it |
| `ShoxCodes.ReadsWord` | components/esp32-idf-sqlite3/shox96_0_2.c:331-350 | the codes of a decoder table are prefix-free: each word is read as its own entry |
| `ShoxCodes.CountDigitsBack` | components/esp32-idf-sqlite3/shox96_0_2.c:352-358 | digits written for a number are read back as that number |
| `ShoxChars.PlaceAgrees` | components/esp32-idf-sqlite3/shox96_0_2.c:29-32 | the encoder's code for every character is the decoder's set and position of that character |
| `ShoxDecoder.GetCodeIdx` | components/esp32-idf-sqlite3/shox96_0_2.c:331-350 | the table walk of the decoder, bit by bit, finds the entry that the specification reads |
| `ShoxDecoder.GetNumFromBits` | components/esp32-idf-sqlite3/shox96_0_2.c:352-358 | the number that the specification reads off the bits |
| `ShoxDecoder.ReadCountAt` | components/esp32-idf-sqlite3/shox96_0_2.c:360-369 | the count and the offset after it |
| `ShoxDecoder.TakeTurn` | components/esp32-idf-sqlite3/shox96_0_2.c:384-489 | one turn of the loop changes modes, offset and text as the specification's turn does |
| `ShoxDecoder.Decompress` | components/esp32-idf-sqlite3/shox96_0_2.c:371-493 | the loop ends and the buffer holds the text that the bits decode to |
| `ShoxEncoder.MatchOccurance` | components/esp32-idf-sqlite3/shox96_0_2.c:97-114 | the search for an earlier occurrence finds the first one that is long enough, and writes length and distance |
| `ShoxEncoder.WriteRun` | components/esp32-idf-sqlite3/shox96_0_2.c:188-200 | a run is measured to its end and written as one code with its length |
| `ShoxEncoder.WriteModes` | components/esp32-idf-sqlite3/shox96_0_2.c:228-260 | the mode switches before a character |
| `ShoxEncoder.WriteChar` | components/esp32-idf-sqlite3/shox96_0_2.c:261-288 | the code of a character or of a pair of carriage return and line feed |
| `ShoxEncoder.TakeTurn` | components/esp32-idf-sqlite3/shox96_0_2.c:184-289 | one turn of the compressor writes the bits of that turn and moves as it says |
| `ShoxEncoder.Compress` | components/esp32-idf-sqlite3/shox96_0_2.c:167-297 | the bytes hold exactly the bits of all turns and the filling of the last byte |
| `ShoxReading.CutPadding` | components/esp32-idf-sqlite3/shox96_0_2.c:290-295 | in every mode the filling of the last byte decodes to no character and ends the loop |
| `ShoxRoundTrip.ModesRead` | components/esp32-idf-sqlite3/shox96_0_2.c:228-260 | the decoder reads the mode switches as the same modes, with no output |
| `ShoxRoundTrip.CharRead` | components/esp32-idf-sqlite3/shox96_0_2.c:261-288 | in the matching modes a character's bits are read as that character |
| `ShoxRoundTrip.RunRead` | components/esp32-idf-sqlite3/shox96_0_2.c:188-200 | a run code is read as so many copies of the last character of the output |
| `ShoxRoundTrip.BackRead` | components/esp32-idf-sqlite3/shox96_0_2.c:97-114 | a back-reference is read as exactly the characters it was written for |
| `ShoxRoundTrip.TurnRead` | components/esp32-idf-sqlite3/shox96_0_2.c:184-289 | the bits of any turn, read in the matching modes, give the text of that turn and leave the modes matching |
| `ShoxRoundTrip.RoundTrip` | components/esp32-idf-sqlite3/shox96_0_2.c:167-297 | decompression undoes compression if and only if no run starts with a wrongly remembered character |
| `ShoxRoundTrip.RoundTripWithoutRepeats` | components/esp32-idf-sqlite3/shox96_0_2.c:371-493 | with the search for repeats off decompression undoes compression for every text of the alphabet |
| `ShoxRoundTrip.NoRunNoStale` | components/esp32-idf-sqlite3/shox96_0_2.c:185-200 | with it on, every text without four equal characters in a row comes back |
| `ShoxRoundTrip.CopyThenStale` | components/esp32-idf-sqlite3/shox96_0_2.c:202-217 | the texts of twenty characters of one shape, on which the condition fails after a back-reference |
| `ShoxRoundTrip.StaleExample` | components/esp32-idf-sqlite3/shox96_0_2.c:209 | a text of the alphabet that decompresses to another text |
| `RadioTxScheduler.Choose` | lib/RadioTxScheduler/RadioTxScheduler.cpp:5-26 | the selection is the first ready class of the pattern from the cursor on, or none if none is ready |
| `RadioTxScheduler.WeightedShare` | lib/RadioTxScheduler/RadioTxScheduler.cpp:5-26 | a class that stays ready gets 4, 2 or 1 of every 7 selections |
| `RadioTxScheduler.BoundedWaiting` | lib/EspNowManager/EspNowManager.cpp:137-150 | a frame behind p others leaves within 2(p+1), 5(p+1) or 7(p+1) dequeues, whatever is offered meanwhile |
| `CompletionSlots.SlotTable.Acquire` | lib/EspNowManager/EspNowManager.cpp:314-336 | the first free slot is lent with a new non-zero generation and without a verdict |
| `CompletionSlots.SlotTable.Release` | lib/EspNowManager/EspNowManager.cpp:338-348 | only the borrower of this generation gives a slot back |
| `CompletionSlots.SlotTable.IsStillActive` | lib/EspNowManager/EspNowManager.cpp:103-114 | whether the slot is still lent to this request |
| `CompletionSlots.SlotTable.Complete` | lib/EspNowManager/EspNowManager.cpp:116-135 | the verdict is stored, and the semaphore due, only if the slot is still lent to this request |
| `TxOwnership.StepKeeps` | lib/EspNowManager/EspNowManager.cpp:152-236 | every step of callers, worker and driver keeps the invariant of slots, tickets and verdicts |
| `TxOwnership.VerdictOwnership` | lib/EspNowManager/EspNowManager.cpp:666-710 | in every run a call that returns a status returns the verdict of its own request |
| `TxLedger.EveryRequestEndsOnce` | lib/EspNowManager/EspNowManager.cpp:152-236 | every dequeued request has exactly one of five outcomes for good, and the counters count them |
| `TxLedger.VerdictKeeps` | lib/EspNowManager/EspNowManager.cpp:116-135 | a verdict of the driver given to a caller is the outcome on record of its request |
| `TxAttribution.TracedKeeps` | lib/EspNowManager/EspNowManager.cpp:177-234 | while no callback for the address of a request is outstanding at its own reset, a status received for it is its own |
| `TxAttribution.DriverAttribution` | lib/EspNowManager/EspNowManager.cpp:152-236 | after any run a request that was quiet at its own reset, and its call, carry what the driver reported for it, whatever happens to others |
| `TxRuns.LateCallbackMisattributes` | lib/EspNowManager/EspNowManager.cpp:179-203 | from every state about to reset with a callback for the address outstanding, the request can end with the opposite of its report |
| `TxRuns.AttributionIsExact` | lib/EspNowManager/EspNowManager.cpp:177-203 | after any run, at the reset: no callback for the address is outstanding if and only if in every continuation the request's status is its own |
| `TxRuns.LateStateReached` | lib/EspNowManager/EspNowManager.cpp:205-232 | such states are reached: wait and grace pass, the callback is still to come, and the next request is to the same address |
| `TxRuns.StaleGiveSilences` | lib/EspNowManager/EspNowManager.cpp:666-710 | a semaphore given late to the next borrower, of any slot and any queue with room, makes that call return without a status |
| `Sha256Standard.InitialHashValue` | lib/DongleKeyStore/DongleKeyStore.cpp:62-69 | the initial state is the fractions of the square roots of the first eight primes |
| `Sha256Standard.RoundConstantsAreRoots` | lib/DongleKeyStore/DongleKeyStore.cpp:39-56 | each of the sixty-four round constants is the fraction of the cube root of its prime |
| `Sha256Standard.PaddingIsLeast` | lib/DongleKeyStore/DongleKeyStore.cpp:138-141 | the padding gives whole blocks with the fewest zeros that do |
| `Sha256Standard.BigEndianValue` | lib/DongleKeyStore/DongleKeyStore.cpp:143-146 | the octets of the length stand for the length |
| `Sha256Engine.BigSigmasByShifts` | lib/DongleKeyStore/DongleKeyStore.cpp:58-60 | two shifts joined are the rotations of the large sigma functions |
| `Sha256Engine.SmallSigmasByShifts` | lib/DongleKeyStore/DongleKeyStore.cpp:58-60 | two shifts joined are the rotations of the small sigma functions |
| `Sha256Engine.Sha256.constructor` | lib/DongleKeyStore/DongleKeyStore.cpp:62-69 | a new hash is the empty stream |
| `Sha256Engine.Sha256.Expand` | lib/DongleKeyStore/DongleKeyStore.cpp:72-87 | the sixty-four words are the message schedule of the block |
| `Sha256Engine.Sha256.RunRounds` | lib/DongleKeyStore/DongleKeyStore.cpp:89-112 | the loop over the working variables is sixty-four rounds of the standard |
| `Sha256Engine.Sha256.CompressBlock` | lib/DongleKeyStore/DongleKeyStore.cpp:71-122 | the state becomes the standard's compression of the block |
| `Sha256Engine.Sha256.Absorb` | lib/DongleKeyStore/DongleKeyStore.cpp:124-133 | an update feeds the stream octet by octet and counts modulo 2^64 |
| `Sha256Engine.Sha256.Pad` | lib/DongleKeyStore/DongleKeyStore.cpp:138-141 | the padding loop ends from every fill of the block |
| `Sha256Engine.Sha256.Finalize` | lib/DongleKeyStore/DongleKeyStore.cpp:135-155 | the first 32 octets of the buffer are the finished stream's digest, the others are untouched |
| `Sha256Stream.FinishIsDigest` | lib/DongleKeyStore/DongleKeyStore.cpp:135-155 | finishing a stream gives the standard's digest of the message it stands for |
| `Sha256Stream.StreamingIsDigest` | lib/DongleKeyStore/DongleKeyStore.cpp:124-155 | for every split into updates the result is the digest of the joined message |
| `DongleKeyStore.KeysThatAgree` | lib/DongleKeyStore/DongleKeyStore.cpp:164-171 | a long key stands for its digest, a short one for itself with zeros after it |
| `DongleKeyStore.HmacSha256` | lib/DongleKeyStore/DongleKeyStore.cpp:161-191 | HMAC of RFC 2104, for every key length |
| `DongleKeyStore.OneBlockIsEnough` | lib/DongleKeyStore/DongleKeyStore.cpp:193-197 | a key of at most 32 octets is the front of T_1 of PBKDF2 |
| `DongleKeyStore.Pbkdf2HmacSha256` | lib/DongleKeyStore/DongleKeyStore.cpp:198-227 | PBKDF2 of RFC 8018 for salts to 64 and keys to 32 octets; a count of zero is taken as one |
| `DongleKeyStore.DeriveKeyL` | lib/DongleKeyStore/DongleKeyStore.cpp:242-247 | key L is PBKDF2 of the password with the fixed salt and count |
| `DongleKeyStore.VerifyTagL` | lib/DongleKeyStore/DongleKeyStore.cpp:249-255 | the tag is the first eight octets of the HMAC of the label |
| `RelayTable.PendingRelays.Retain` | lib/EspNowConfig/EspNowConfig.cpp:84-126 | the four slots retain as the map does: expiry, match before free slot, mismatch clears, full refuses |
| `RelayTable.PendingRelays.Clear` | lib/EspNowConfig/EspNowConfig.cpp:63-70 | the entry of one message goes, no other |
| `RelayTable.PendingRelays.Expire` | lib/EspNowConfig/EspNowConfig.cpp:72-79 | exactly the entries older than the time limit go |
| `RelayTable.PendingRelays.RelayUp` | lib/EspNowConfig/EspNowConfig.cpp:567-587 | all fragments in index order if none is missing, and the entry goes either way |
| `RelayTable.SizeIsHeldCount` | lib/EspNowConfig/EspNowConfig.cpp:95-107 | slots and map hold the same number of messages |
| `RadioIngress.ConsumesOnlyCandidates` | include/bally_channels.h:206-227 | what is consumed was a candidate, and one with a reference names this hub |
| `RadioIngress.Ingress.Process` | lib/EspNowConfig/EspNowConfig.cpp:662-799 | the handling of one datagram has the specified effect on side table, peers, cable and dispatcher |
| `RadioIngress.Ingress.Judge` | lib/EspNowConfig/EspNowConfig.cpp:726-792 | a complete candidate is relayed, consumed or dropped as specified |
| `IngressSafety.RelayedWhole` | lib/EspNowConfig/EspNowConfig.cpp:567-587 | the frames offered to the cable for a message are all its fragments in order and carry its payload |
| `IngressRuns.RelayedWasReceived` | lib/EspNowConfig/EspNowConfig.cpp:121-123 | every frame offered to the cable is a datagram of the run, byte for byte |
| `IngressRuns.RowsHaveWitnesses` | lib/EspNowConfig/EspNowConfig.cpp:754-760 | every peer row has a step of the run that received from its address the end of a message of its identity that opened |
| `IngressSafety.ReceiveProper` | lib/EspNowConfig/EspNowConfig.cpp:726-798 | never relayed and dispatched; dispatched exactly if complete, opened and the hub's own; relayed only whole and only if it did not open |
| `IngressSafety.DecidedOnce` | lib/EspNowConfig/EspNowConfig.cpp:732-791 | a decided message is forgotten at once, and an unopened one is relayed exactly if the side table holds all of it |
| `IngressRuns.StepKeeps` | lib/EspNowConfig/EspNowConfig.cpp:662-799 | side table and reassembler keep agreeing on every fragment both hold |
| `IngressRuns.IngressIsSafe` | lib/EspNowConfig/EspNowConfig.cpp:662-799 | after every run the next datagram has a proper effect, relays only datagrams of the run, and every peer row has its witness in the run |
| `PeerTable.RememberedPeer` | lib/BtpTransport/BtpTransport.cpp:214-256 | the address is found with its new identity and others as before; only a full table forgets, and only its first row |
| `PeerTable.LinkNotedKeeps` | lib/BtpTransport/BtpTransport.cpp:258-269 | a link verdict changes no identity |
| `PeerTable.Peers.Remember` | lib/BtpTransport/BtpTransport.cpp:214-256 | the rows become what the specification says |
| `PeerTable.Peers.NoteLink` | lib/BtpTransport/BtpTransport.cpp:258-269 | the verdict of the row of this address, if there is one |
| `SerialQueues.NothingElseIsLost` | lib/SerialMux/SerialMux.cpp:346-382 | order, conservation and the two overflow policies over every run between two resets |
| `SerialQueues.TxQueues.Enqueue` | lib/SerialMux/SerialMux.cpp:346-382 | what offering a frame does to its queue and its drop counter, and to no other |
| `SerialQueues.TxQueues.Reset` | lib/SerialMux/SerialMux.cpp:312-319 | every queue is empty |
| `SerialWire.StreamReceived` | lib/SerialMux/SerialMux.cpp:263-302 | the desktop has the frames sent whole, in order, and a front of the last one |
| `SerialWire.ReplyStandsAlone` | lib/SerialMux/SerialMux.cpp:215-229 | a closing reply over a half-sent frame is still its own block, and no earlier frame is touched |
| `SerialWire.BlockFits` | lib/SerialMux/SerialMux.cpp:244-261 | the wire buffer is large enough for every queued frame |
| `SerialTransmitter.Transmitter.Pump` | lib/SerialMux/SerialMux.cpp:272-302 | at most one write; the stream stays whole blocks and a front of the current one for any acceptance |
| `SerialTransmitter.Transmitter.Stage` | lib/SerialMux/SerialMux.cpp:244-261 | a frame goes onto an empty wire only, delimited on both sides |
| `SerialTransmitter.Transmitter.DrainClass` | lib/SerialMux/SerialMux.cpp:1106-1125 | frames leave one queue from the front, each begun as it leaves |
| `SerialTransmitter.Transmitter.DrainTx` | lib/SerialMux/SerialMux.cpp:1130-1140 | the classes are served in strict order with their shares, and the frames begun are the ones dequeued |
| `SerialTransmitter.Transmitter.WriteAll` | lib/SerialMux/SerialMux.cpp:192-209 | at most four writes, and true exactly if everything was taken |
| `SerialTransmitter.Transmitter.WriteFrame` | lib/SerialMux/SerialMux.cpp:215-229 | a reply taken whole reaches the desktop as a block of its own and is counted as sent |
| `SerialTransmitter.Transmitter.ResetQueues` | lib/SerialMux/SerialMux.cpp:312-319 | every queue is empty and nothing is on the wire |
| `SerialTransmitter.Transmitter.Delivered` | lib/SerialMux/SerialMux.cpp:1130-1140 | at any moment of a session the desktop has the dequeued frames, in order |
| `SerialRaces.StepBalanced` | lib/SerialMux/SerialMux.cpp:1256-1348 | every step of either task: no latched timeout outlives the tick, and the cleanup runs for a session that has ended and no other |
| `SerialRaces.ExactlyOnce` | lib/SerialSession/SerialSession.cpp:365-446 | over every run of both tasks each session that has ended was cleaned up after once, and wire, decoder and terminal go to the console idle |
| `SerialRaces.CleanConsole` | lib/SerialMux/SerialMux.cpp:1400-1434 | after every run the console finds the queues empty if and only if no producer passed its test before the last cleanup and queued after it |
| `SerialRaces.LateFrameCrosses` | lib/SerialMux/SerialMux.cpp:1223-1254 | a frame queued late is still there when the next session is entered |
| `SerialRaces.SessionReached` | lib/SerialMux/SerialMux.cpp:1239-1254 | the states it starts from are reached |
| `SerialRaces.TickIsRun` | lib/SerialMux/SerialMux.cpp:1274-1348 | an uninterrupted tick is a run of the steps, down to the single frame |
| `SerialDelivery.StepTold` | lib/SerialMux/SerialMux.cpp:346-382 | every step of either task keeps the queues, and the frames begun of each class, what the history of that class says |
| `SerialDelivery.DesktopInOrder` | lib/SerialMux/SerialMux.cpp:1106-1140 | over every run of both tasks: what the desktop has received of each class are frames offered to it, in the order offered; all others are on the wire, waiting or counted as dropped |
| `SerialSession.LatchedLossIsSwallowed` | lib/SerialSession/SerialSession.cpp:443-446 | a lost transport that met a latched timeout would skip the cleanup |
| `SerialMux.SerialMux.Enter` | lib/SerialMux/SerialMux.cpp:1223-1254 | a negotiation starts from the console only |
| `SerialMux.SerialMux.FinalizeToConsole` | lib/SerialMux/SerialMux.cpp:476-502 | the reply goes out first, a block of its own if the port takes it whole; then everything of the session is gone, with one cleanup |
| `SerialMux.SerialMux.Dispatch` | lib/SerialMux/SerialMux.cpp:924-984 | one frame of the desktop moves the session as specified |
| `SerialMux.SerialMux.PumpRx` | lib/SerialMux/SerialMux.cpp:986-1036 | the receive loop stops as soon as the console has the port |
| `SerialMux.SerialMux.PollTimeout` | lib/SerialSession/SerialSession.cpp:429-441 | a latched timeout is reported first, and once |
| `SerialMux.SerialMux.Tick` | lib/SerialMux/SerialMux.cpp:1274-1348 | one tick, through receive, timeout and transmit, with the queues and the frames begun on the wire after it |
| `SerialMux.SerialMux.TransportLost` | lib/SerialMux/SerialMux.cpp:1256-1272 | a running session is dropped and cleaned up after |
| `SerialMux.SerialMux.MayRelay` | lib/SerialMux/SerialMux.cpp:1401 | the test: a session has the port |
| `SerialMux.SerialMux.QueueRelayed` | lib/SerialMux/SerialMux.cpp:1433-1434 | the frame is offered to its queue, in whatever state the main loop has come to |
| `LittleEndian.Writer.Raw` | lib/DonglePublisher/DonglePublisher.cpp:230-235 | a write that fits appends its octets, one that does not changes nothing |
| `LittleEndian.Writer.Patch` | lib/DonglePublisher/DonglePublisher.cpp:220-225 | four octets are written over and no others |
| `LittleEndian.LeRoundTrip` | lib/ManifestCache/ManifestCache.cpp:102-109 | reading little-endian octets gives back the number written |
| `TopicRecords.WriteFieldRecord` | lib/DonglePublisher/DonglePublisher.cpp:242-256 | a field record with its own size in front, if it fits |
| `TopicRecords.WriteTopicRecord` | lib/DonglePublisher/DonglePublisher.cpp:258-275 | a topic record with its own size in front, if it fits |
| `TopicRecords.WriteTopicRecords` | lib/DonglePublisher/DonglePublisher.cpp:467-483 | all records if they fit, otherwise the first that do |
| `TopicRecords.Lookup` | lib/ManifestCache/ManifestCache.cpp:659-693 | the walk over record sizes as a loop |
| `TopicRecords.WalkFindsFirst` | lib/ManifestCache/ManifestCache.cpp:677-692 | over records of the publisher, whatever follows them, the walk finds the rate of the first topic of that id, and none only if there is none |
| `TopicRecords.LookupOwn` | lib/DonglePublisher/DonglePublisher.cpp:485-494 | the hub's answer for itself agrees with the walk over the records it sends |
| `PackedSchema.SchemaRoundTrip` | lib/DonglePublisher/DonglePublisher.cpp:70-78 | a reader of the field table recovers every value of a payload packed in its order |
| `HubTopics.LinkDecodes` | lib/DonglePublisher/DonglePublisher.cpp:78-91 | the link table reads every link counter off 50 octets |
| `HubTopics.PackLink` | lib/DonglePublisher/DonglePublisher.cpp:376-389 | the packed link payload is read back by its table |
| `HubTopics.UsbDecodes` | lib/DonglePublisher/DonglePublisher.cpp:93-115 | the usb table reads every counter and every drop class off 122 octets |
| `HubTopics.PackUsb` | lib/DonglePublisher/DonglePublisher.cpp:391-407 | the packed usb payload is read back by its table |
| `HubTopics.PeersDecode` | lib/DonglePublisher/DonglePublisher.cpp:117-143 | the peers table reads every column for every number of peers, off 18 + 25 n octets |
| `HubTopics.PackPeers` | lib/DonglePublisher/DonglePublisher.cpp:409-461 | at most sixteen peers, read back by the table, or nothing if they do not fit |
| `HubTopics.AllTopicsFit` | lib/DonglePublisher/DonglePublisher.cpp:145-165 | the records of all three topics fit the buffer |
| `ManifestCache.NextRefines` | lib/ManifestCache/ManifestCache.cpp:378-481 | every message keeps table and reference map saying the same |
| `ManifestCache.CacheRefines` | lib/ManifestCache/ManifestCache.cpp:163-187 | after any run the table renders a reference that follows from the messages alone: per source its last message and its last full one, nothing else |
| `ManifestCache.NextIsHeardStep` | lib/ManifestCache/ManifestCache.cpp:432-451 | row choice, eviction and acceptance do to the sources what the reference says of the message |
| `ManifestCache.OnlyTheOldestGoes` | lib/ManifestCache/ManifestCache.cpp:170-187 | a source loses its entry only to a new one, from a full table, and only if seen longest ago |
| `ManifestCache.CatalogRevisionMoves` | lib/ManifestCache/ManifestCache.cpp:441-479 | the catalog revision moves exactly when a source appears, restarts or reconfigures |
| `ManifestCache.CachedRate` | lib/ManifestCache/ManifestCache.cpp:674-692 | the rate answered for a cached source is the one its publisher declared |
| `ManifestCache.Cache.LookupRate` | lib/ManifestCache/ManifestCache.cpp:659-693 | the lookup finds the entry of the source and walks its records |
| `ManifestCache.Cache.Find` | lib/ManifestCache/ManifestCache.cpp:163-168 | the first entry of a source |
| `ManifestCache.Cache.Allocate` | lib/ManifestCache/ManifestCache.cpp:175-186 | the first free row, or the first of those seen longest ago |
| `ManifestCache.Cache.Ingest` | lib/ManifestCache/ManifestCache.cpp:378-481 | the row and the revision after a message, field by field |
| `ManifestCache.Cache.Collect` | lib/ManifestCache/ManifestCache.cpp:216-231 | the insertion sort lists every used row once, strictly increasing by source |
| `ManifestCache.Cache.Enumerate` | lib/ManifestCache/ManifestCache.cpp:558-593 | one response from one table: the hub or the source of that place, and the complete flag at the last place only |
| `ManifestCache.Cache.Count` | lib/ManifestCache/ManifestCache.cpp:550-556 | the hub and every used row |
| `ManifestEnumeration.ListingIsExact` | lib/SerialMux/SerialMux.cpp:648-657 | after every run of both tasks a listing is the hub, every source of the table once in order and the flag on the last response, if and only if the count has not grown, no response found one more source at or below the last one listed, and none listed is gone |
| `ManifestEnumeration.QuietListingIsWhole` | lib/SerialMux/SerialMux.cpp:648-657 | it is so if no message of a new source is accepted between count and last response, and, if a row was free, only then |
| `ManifestEnumeration.StepUnderway` | lib/ManifestCache/ManifestCache.cpp:558-593 | at every moment each index so far has its response and the count has not fallen; while it has not grown the flags are right |
| `ManifestEnumeration.LateSourceDoubles` | lib/ManifestCache/ManifestCache.cpp:558-593 | a new source below the one listed last, into a free row, makes the next response list that one again, and not say complete |
| `ManifestEnumeration.ListedTwice` | lib/SerialMux/SerialMux.cpp:648-657 | from every cache with two sources and a free row a listing can double its first source |
| `ManifestEnumeration.ListedTwiceReached` | lib/SerialMux/SerialMux.cpp:648-657 | a run from the start in which 10 is listed twice, 20 and 5 never, and nothing says complete |
| `ManifestCache.OneOrder` | lib/ManifestCache/ManifestCache.cpp:216-231 | one table has only one such order, so responses that find the same table belong together |
| `ManifestThrottle.ElapsedIsReal` | lib/ManifestCache/ManifestCache.cpp:349 | the 32-bit clock never shows more time than has passed |
| `ManifestThrottle.RequestsArePaced` | lib/ManifestCache/ManifestCache.cpp:329-362 | over every run k requests to a source span at least 1000 min(k-1,3) + 3000 max(0,k-4) ms of real time |
| `ManifestThrottle.PendingTable.ShouldRequest` | lib/ManifestCache/ManifestCache.cpp:329-362 | the slots and the answer for one call |
| `ManifestThrottle.PendingTable.FindSpare` | lib/ManifestCache/ManifestCache.cpp:196-211 | the first free slot, or the first of those asked longest ago |
| `ManifestThrottle.PendingTable.Answer` | lib/ManifestCache/ManifestCache.cpp:473-477 | an accepted manifest frees the slot of its source |

## Left out

- `matchLine` and `prev_lines` of the codec: the only caller passes none, and the code rewinds the output before or-ing bits into it.
- Characters outside the codec's alphabet, which the compressor drops, and texts and counts of 70308 and more.
- The `btp` library: decoding, reassembly, opening, byte stuffing, the session's own deadlines and the manifest reader and writer are contracts.
- The operating system: queues, semaphores, clocks and ports are plain values that accept and delay as they like; an enqueue is one step, and so is the test before it, which reads two fields of the session.
- The inside of an operation on the cache of manifests: a count, a sort with the copying of its entry, a walk and an ingestion are one step each although two tasks share the cache without a lock; a copy or a walk during an ingestion can tear.
- The worker's start, stop and the destruction of its storage; the lengths of its wait and grace windows, which may end at any time.
- `TxOwnership.VerdictOwnership`: assumes that a slot's 32-bit generation does not come round while a request of it waits.
- `TxAttribution.DriverAttribution`: assumes `Quiet` at the request's own reset, because exactly without it the property is false (`TxRuns.AttributionIsExact`).
- `Sha256Stream.FinishIsDigest`: says nothing for messages of 2^61 octets or more, for which the standard defines no digest.
- `ManifestThrottle.RequestsArePaced`: says nothing from 2^32 requests on, where the 32-bit counter of attempts starts again.
- `SerialQueues.NothingElseIsLost`: does not cover a producer and a consumer inside one enqueue, which the source does not lock.
- Persistence of key L, its wiping beyond the tag's digest, and the state that holds it: only setters and getters.
- The queues behind the dispatcher and the counters of the ingress, whose claimed sum is not exact.
- Ping and round-trip fields of the peer table and its enumeration.
- The contents of session replies, the subscription registry, the shell, STATUS payloads and the relay to the radio: a session step queues any frames.
- Targeted manifest responses, the serialisation of source information and the publish schedule of the hub's topics.
- Partial octets left by a topic record that does not fit: `topicRecords` counts them, and the present tables fit.
- The journal cache of `components/esp32-idf-sqlite3/esp32.c`, which is not a plain byte array as written.
