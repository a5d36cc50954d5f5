# HidraNet: verified models

A Dafny project that models the hardest parts of HidraNet, the hidden-service node
(`hidra-node`, Rust) and the browser around it (`hidra-browser`, JavaScript), and proves
what those parts promise. Run `dafny verify dfyconfig.toml` from this directory.

| file | what it models |
|---|---|
| `ChatRooms.dfy` | the HidraChat server's rooms: any number of sessions joining, being refused, leaving and reaping, with the three locks held and awaited step by step |
| `ChatConduct.dfy` | what those steps do for a visitor: who gets in, what is said and recorded, who leaves |
| `Frames.dfy` | the hand-written WebSocket codec (section 5.2 of RFC 6455) fed by arbitrary reads |
| `Scrypt.dfy` | the in-place Salsa20/8, blockMix and roMix (sections 3 to 6 of RFC 7914) |
| `ScryptVectors.dfy` | published values of Salsa20 and the vector of section 8 of RFC 7914 |
| `Modular.dfy`, `Fermat.dfy`, `P256.dfy` | BigInt modular arithmetic, Fermat's theorem, Jacobian scalar multiplication against the affine law of section 2.2.1 of SEC 1 |
| `RegistryList.dfy`, `Registrar.dfy` | the signed name list and the registrar's handlers |
| `RegistrarRuns.dfy`, `RegistrarRecovery.dfy`, `RegistrarRate.dfy` | whole runs with crashes anywhere and a relay that replays anything; lost disks and restored backups; the rate of claims |
| `RegistrarAnswers.dfy` | which claims and hides are recorded and which lists taken over, exactly, and that they are then listed |
| `TorLock.dfy` | the network lock, the Tor manager and the connect protocol, interleaved at every await |
| `LockOpens.dfy` | exactly when a connect opens the lock, and schedules in which it does |
| `LockSockets.dfy` | the sessions' connections under the lock: those the filter sees, those it does not, and closes that complete or fail |
| `Crc32.dfy` | the table-driven and the bit-by-bit CRC-32 |
| `Zip.dfy`, `ZipScripts.dfy` | the ZIP format as bytes (sections 4.3.7, 4.3.12 and 4.3.16 of PKWARE's APPNOTE), and the reader and writer loops |
| `ZipHeaders.dfy` | every field of every header where the format puts it |
| `HiddenSessions.dfy` | the hidden-service event loop between one sealed session and one local connection |
| `UpdateCheck.dfy` | the persisted update record and the notice it decides |
| `UpdateAnswers.dfy` | which versions, records and tables are believed, and what is then shown and remembered |
| `ReplayGuard.dfy` | the trust store, the replay guard and the opening of envelopes |
| `Base32.dfy`, `HidraSite.dfy` | base32 addresses and signed sites |

How it is done. Concurrency is a step system: a schedule is a sequence of labels, a label that
cannot fire changes nothing, and a theorem speaks of the state after every schedule. Objects
that the source updates in place are classes whose methods are proved equal to a step function;
loops are methods with invariants, proved against a specification. Signatures are symbolic: one
verifies for the key and fields it was made with and for nothing else. Clocks, the network, reads
and writes of files and calls into the platform are parameters or labels, and may fail where the
source provides for it; a theorem holds for all of their behaviours except where its own
conditions, or "Left out", name one. A refused value stands for a thrown error.

Where the code keeps less than its documentation says, the model keeps the code and proves
exactly how much holds:

- The hidden-service loop is documented to pass a session on to one local connection in order.
  A message whose connect or write fails is dropped while the session goes on
  (`HiddenSessions.FailedConnectLeavesGap`); everything arrives exactly when no message met a
  refused connect or a write cut short (`HiddenSessions.EverythingArrivesIff`).
- "Open implies Tor ready" needs three assumptions on the Tor processes. For each of them a
  schedule that keeps the other two ends with the lock open over no working Tor
  (`TorLock.EarlySpawnLeavesOpen`, `TorLock.LateLineLeavesOpen`,
  `TorLock.ErrorWhenReadyLeavesOpen`).
- The update record in the file goes down when a start cannot read the file and an older signed
  record is then served again (`UpdateCheck.UnreadableStartLowersFile`); exactly when a check
  lowers it is `UpdateCheck.FinishLowersIff`, and it never does in sessions that read it at their
  start (`UpdateCheck.FileNeverGoesDown`).
- A registrar that lost its disk, could not read it, or got an old one back, may break the order of its lists. It
  does when it publishes before the relay has handed over the newest list: then it repeats a
  number, with no name involved (`RegistrarRecovery.UnansweredRestoreBreaksOrder`). It also does
  when a name on that list was bound otherwise before it came. In all runs the lists are in order
  exactly when each was of a state ahead of all lists sent before
  (`RegistrarRuns.SentListsOrderedIff`); in terms of events, when none is built by a copy that is
  behind in the sense above (`RegistrarRecovery.RestoredRunsOrderedIff`). What was adopted counts
  for a restart only once it is saved.
- Closing the lock asks every session to close its connections and hears of nothing after that. A
  close that fails leaves one open for good (`LockSockets.FailedCloseStaysOpen`); one is
  open under a closed lock exactly when it did not end by itself, was asked to close since it was
  opened, and every such close is under way or failed (`LockSockets.OpenUnderClosedLockIff`).
- A nonce older than the last 512 of its session is taken again, even inside the time window
  (`ReplayGuard.OldNonceIsTakenAgain`, and exactly when: `ReplayGuard.AcceptedIff`).
- An archive reads back as written exactly when every stated size is the true one
  (`Zip.RoundTripIff`); `modPow` is the power modulo m except for the modulus 1 with exponent 0
  (`Modular.ModPow`).

## Model

| member | source | states |
|---|---|---|
| `ChatRooms.RememberMessage` | hidra-node/src/apps/hidrachat.rs:782-787 | pushing a message and popping the front keeps the last 200 of all messages |
| `ChatRooms.StepKeepsInv` | hidra-node/src/apps/hidrachat.rs:562-603 | every step of every session keeps the whole invariant: each lock is held by exactly the session whose position says so, user tables hold exactly the members, every member's room is the mapped one, and every empty mapped room is owed a look |
| `ChatRooms.Reachable` | hidra-node/src/apps/hidrachat.rs:562-753 | the invariant holds after every schedule of connects, joins, refusals, messages, leaves and reaps |
| `ChatRooms.NoOrphans` | hidra-node/src/apps/hidrachat.rs:562-603 | in every reachable state a room state with a member is the one the map holds under that member's id, has at most 512 members, no two with equal nick keys, and its history is the last 200 messages said in it |
| `ChatRooms.AtRestMapIsNonEmptyRooms` | hidra-node/src/apps/hidrachat.rs:719-753 | whenever nobody is deciding a join or has yet to look at whether a room is empty, a room state is in the map if and only if it has a member |
| `ChatRooms.EmptyRoomIsOwed` | hidra-node/src/apps/hidrachat.rs:594-601 | at every moment an empty room in the map has a session inside its join or reap that will still look at it |
| `ChatRooms.HolderIsFurther` | hidra-node/src/apps/hidrachat.rs:606-633 | a session that holds the lock another waits for waits, if at all, further down the order rooms, users, history |
| `ChatRooms.NoDeadlock` | hidra-node/src/apps/hidrachat.rs:739-753 | whenever a session is blocked on a lock, some lock holder can move |
| `ChatConduct.JoinIsAnsweredIff` | hidra-node/src/apps/hidrachat.rs:579-592 | in every run, after the step of a session that holds its room's user table it is a member if and only if fewer than 512 were there and none had an equal nick key, under its own nick with everybody else kept; otherwise it is on the refusal path and the table is unchanged |
| `ChatConduct.VisitorJoins` | hidra-node/src/apps/hidrachat.rs:562-646 | from every reachable state with no lock held, a visitor with a place in the room that is left alone is in its main loop after twelve turns, added to the members of the mapped room |
| `ChatConduct.VisitorIsRefused` | hidra-node/src/apps/hidrachat.rs:594-601 | and one without a place is refused, with rooms and tables as they were |
| `ChatConduct.VisitorLeaves` | hidra-node/src/apps/hidrachat.rs:719-753 | a member that goes and is left alone is out of the table after seven turns, and its room is forgotten if and only if it was the last |
| `ChatConduct.SpeaksAlone` | hidra-node/src/apps/hidrachat.rs:779-790 | one message said while nobody else moves is the last the room has recorded |
| `ChatConduct.RoomKeepsWhatWasRecorded` | hidra-node/src/apps/hidrachat.rs:782-787 | in every run a room's history is the last 200 of the messages recorded by the turns of the run, in their order |
| `ChatConduct.WhatIsSaidIsRecorded` | hidra-node/src/apps/hidrachat.rs:779-790 | in every run what a session said is what was recorded of it, in order, then at most one message on its way |
| `Frames.TryParseFrame` | hidra-node/src/apps/hidrachat.rs:314-362 | the parser with its early exits and in-place unmasking is the declarative parse of a buffer |
| `Frames.Unmask` | hidra-node/src/apps/hidrachat.rs:350-356 | bit j of byte i of the payload is set if and only if bit j of that byte and of byte i mod 4 of the key differ |
| `Frames.XorBit` | hidra-node/src/apps/hidrachat.rs:350-356 | every bit of an exclusive or is set exactly where the two bits differ |
| `Frames.WireIsParsed` | hidra-node/src/apps/hidrachat.rs:314-362 | every frame in any length form, masked or not, within the limit, is read back exactly and consumes exactly itself, whatever follows |
| `Frames.ReadyIsWire` | hidra-node/src/apps/hidrachat.rs:314-362 | conversely, whatever the parser reports was written so at the front of the buffer |
| `Frames.PrefixIsIncomplete` | hidra-node/src/apps/hidrachat.rs:315-317 | every strict prefix of a frame is incomplete |
| `Frames.OverLimitHeader` | hidra-node/src/apps/hidrachat.rs:339-341 | a header that announces too much is refused as soon as it is whole, and not before |
| `Frames.EncodeIsParsed` | hidra-node/src/apps/hidrachat.rs:434-449 | what the server encodes parses to its opcode and payload, for every opcode below 16, payload within the limit and trailing bytes |
| `Frames.EncodeIsFinal` | hidra-node/src/apps/hidrachat.rs:434-449 | the first byte is 128 plus the opcode, the frame is unmasked, and its header has the shortest of the three forms |
| `Frames.ParseAllSplit` | hidra-node/src/apps/hidrachat.rs:367-386 | parsing a stream in two goes is parsing it at once, up to the first over-limit header |
| `Frames.ParseGrows` | hidra-node/src/apps/hidrachat.rs:367-386 | more bytes only add frames at the end |
| `Frames.RestIsSmall` | hidra-node/src/apps/hidrachat.rs:367-386 | without an over-limit header, fewer than MAX_FRAME_PAYLOAD + 14 bytes stay buffered |
| `Frames.ScanFrames` | hidra-node/src/apps/hidrachat.rs:367-386 | the incremental scan gives exactly the frames, rest and over-limit flag of the batch parse |
| `Frames.Connection.TakeFrames` | hidra-node/src/apps/hidrachat.rs:367-386 | taking frames leaves in the buffer exactly the rest of its parse |
| `Frames.Connection.ReadJoin` | hidra-node/src/apps/hidrachat.rs:471-510 | for every cutting into reads, the frames seen and the frames still buffered are those of the stream so far; it stops at the first join or close frame, an over-limit header or the end |
| `Frames.Connection.TakeRead` | hidra-node/src/apps/hidrachat.rs:654-696 | one read appended and its frames taken keeps the account of the stream and the bound on the buffer |
| `Frames.Connection.MainLoop` | hidra-node/src/apps/hidrachat.rs:654-696 | the same account for the frames the main loop takes, with the bound on the buffer after each read; it stops before the last read only at a close frame or an over-limit header |
| `Frames.Connection.Session` | hidra-node/src/apps/hidrachat.rs:471-696 | over a whole session the frames of read_join, then of the main loop, then those buffered are the parse of the bytes read, and a prefix of the parse of the whole stream; all reads are used unless a close frame or an over-limit header came |
| `Scrypt.ColumnsInPlace` | hidra-browser/src/ui/hidrachat-crypto.js:106-113 | the four in-place quarter-rounds on columns are the column round on the old values |
| `Scrypt.RowsInPlace` | hidra-browser/src/ui/hidrachat-crypto.js:114-121 | the next four are the row round, which is the column round transposed |
| `Scrypt.SalsaInPlace` | hidra-browser/src/ui/hidrachat-crypto.js:102-124 | the in-place core computes Salsa20/8 of section 3 of RFC 7914 |
| `ScryptVectors.QuarterVectors` | hidra-browser/src/ui/hidrachat-crypto.js:106-121 | the six published values of the Salsa20 quarter round |
| `ScryptVectors.SalsaVector` | hidra-browser/src/ui/hidrachat-crypto.js:102-124 | the 64 octets of section 8 of RFC 7914, read as words, put through Salsa20/8 and written, are the published output |
| `ScryptVectors.MixOfFour` | hidra-browser/src/ui/hidrachat-crypto.js:128-141 | four blocks mixed: each is added to the output before it, and the even outputs come out first |
| `Scrypt.BlockMixInPlace` | hidra-browser/src/ui/hidrachat-crypto.js:128-141 | for every r and offset, scryptBlockMix of section 4 on the 32r words at the offset, and no other word changes |
| `Scrypt.IndexIsLowWord` | hidra-browser/src/ui/hidrachat-crypto.js:156 | the low 32-bit word modulo N equals the whole Integerify modulo N whenever N divides 2^32 |
| `Scrypt.ROMixInPlace` | hidra-browser/src/ui/hidrachat-crypto.js:144-160 | scryptROMix of section 5 on the 32r words at the offset, and no other word changes |
| `Scrypt.MixLanes` | hidra-browser/src/ui/hidrachat-crypto.js:199 | the p lanes are mixed independently |
| `Scrypt.WordsRoundTrip` | hidra-browser/src/ui/hidrachat-crypto.js:162-179 | reading words little-endian undoes writing them |
| `ScryptVectors.OctetsRoundTrip` | hidra-browser/src/ui/hidrachat-crypto.js:162-179 | and writing undoes reading, for whole words of octets |
| `Scrypt.PowerOfTwoTest` | hidra-browser/src/ui/hidrachat-crypto.js:195 | N & (N - 1) is zero if and only if N is a power of two |
| `Scrypt.Scrypt` | hidra-browser/src/ui/hidrachat-crypto.js:193-201 | scrypt of section 6 around any PBKDF2; for every N, r, p and dkLen, derived exactly for a power of two N above 1, positive parameters and memory that can be had |
| `Modular.ModIsRes` | hidra-browser/src/ui/hidrachat-crypto.js:449-452 | correcting JavaScript's truncated remainder gives the residue in [0, m) |
| `Modular.ModPow` | hidra-browser/src/ui/hidrachat-crypto.js:454-463 | square-and-multiply equals base^exp mod m, in [0, m) unless m is 1 and exp is 0 |
| `Fermat.Euclid` | hidra-browser/src/ui/hidrachat-crypto.js:465-467 | a prime modulus divides a product only through a factor |
| `Fermat.FermatLittle` | hidra-browser/src/ui/hidrachat-crypto.js:465-467 | a^(p-1) leaves 1 modulo a prime p for every non-zero residue a |
| `P256.PrimeIsField` | hidra-browser/src/ui/hidrachat-crypto.js:465-467 | for a prime above 3 the power a^(p-2) that modInv computes is the inverse of a |
| `P256.DoubleStands` | hidra-browser/src/ui/hidrachat-crypto.js:470-483 | Jacobian doubling stands for the tangent law, infinity and y = 0 included, with coordinates in [0, p) |
| `P256.AddStands` | hidra-browser/src/ui/hidrachat-crypto.js:485-502 | Jacobian addition stands for the chord law in every case: infinity, equal and opposite points |
| `P256.DoubleOnCurve` | hidra-browser/src/ui/hidrachat-crypto.js:470-483 | doubling stays on the curve |
| `P256.AddOnCurve` | hidra-browser/src/ui/hidrachat-crypto.js:485-502 | addition stays on the curve |
| `P256.TimesOnCurve` | hidra-browser/src/ui/hidrachat-crypto.js:505-515 | every multiple of a curve point is on the curve |
| `P256.GeneratorOnCurve` | hidra-browser/src/ui/hidrachat-crypto.js:441-447 | the constants describe a point of the curve |
| `P256.ScalarMultiply` | hidra-browser/src/ui/hidrachat-crypto.js:505-515 | for every scalar below 2^256 the loop and the one inversion give the affine multiple, for any base point and field |
| `P256.P256Public` | hidra-browser/src/ui/hidrachat-crypto.js:505-515 | d * G as affine coordinates in [0, p) on the curve, or (0, 0) at infinity |
| `P256.SeedToScalar` | hidra-browser/src/ui/hidrachat-crypto.js:535-538 | every seed gives a scalar from 1 to n - 1 |
| `P256.SeedsReachAll` | hidra-browser/src/ui/hidrachat-crypto.js:533-538 | and every scalar from 1 to n - 1 is that of a 32-byte seed |
| `P256.ScalarIsNext` | hidra-browser/src/ui/hidrachat-crypto.js:533-538 | for every 32-byte seed the scalar is its big-endian number plus one, less n - 1 if the number is not below n - 1 |
| `P256.BytesToBig` | hidra-browser/src/ui/hidrachat-crypto.js:523-527 | the loop reads the bytes as one big-endian number |
| `ByteStrings.FirstByteLeads` | hidra-browser/src/ui/hidrachat-crypto.js:523-527 | in that number the first byte counts 256 to the power of the bytes after it |
| `P256.SeedToPublic` | hidra-browser/src/ui/hidrachat-crypto.js:542-546 | a seed is refused unless it has 32 bytes, and else gives the multiple of the generator by its scalar |
| `RegistryList.CheckNames` | hidra-browser/src/ui/hidrachat-crypto.js:647-656 | comparing each name only with the one before accepts exactly the lists of good entries in strict order |
| `RegistryList.CheckHides` | hidra-browser/src/ui/hidrachat-crypto.js:657-662 | the same for post ids |
| `RegistryList.VerifyRegistry` | hidra-browser/src/ui/hidrachat-crypto.js:641-665 | the check accepts exactly the well-formed lists under the registrar's signature |
| `RegistryList.SortStrict` | hidra-browser/src/ui/hidrachat-crypto.js:628-635 | sorting distinct keys gives strict order |
| `RegistryList.StrictIsUnique` | hidra-browser/src/ui/hidrachat-crypto.js:612-613 | there is one strict order of a set, so both sides sign the same bytes |
| `RegistryList.LessIff` | hidra-browser/src/ui/hidrachat-crypto.js:628-635 | one name comes before another if and only if it ends, or has the smaller character, where they first part |
| `RegistryList.SignVerifies` | hidra-browser/src/ui/hidrachat-crypto.js:632-638 | a signed list is accepted if and only if its entries are good and distinct, and signing loses and adds none |
| `RegistryList.SignatureFixesList` | hidra-browser/src/ui/hidrachat-crypto.js:622-626 | two accepted lists under one signature are the same list |
| `Registrar.AdoptKeepsRecords` | hidra-browser/tools/forum-registrar.js:200-202 | adopting a list changes no record already there |
| `Registrar.AdoptAddsMissing` | hidra-browser/tools/forum-registrar.js:200-202 | and takes over every entry whose name was missing, unchanged |
| `Registrar.AdoptAddsOnlyListed` | hidra-browser/tools/forum-registrar.js:200-202 | and adds no other name |
| `Registrar.ClaimKeepsGood` | hidra-browser/tools/forum-registrar.js:112-145 | whatever is claimed, every record stays fit for a list |
| `Registrar.HideKeepsGood` | hidra-browser/tools/forum-registrar.js:170-187 | the same for hides |
| `Registrar.ListKeepsGood` | hidra-browser/tools/forum-registrar.js:192-211 | the same for lists from the relay |
| `Registrar.BuiltListVerifies` | hidra-browser/tools/forum-registrar.js:222-232 | the list built from any good state is accepted under the registrar's key, reads back as exactly the recorded names, moderator and hides, and carries the time of the clock |
| `Registrar.WalkDoesNotMatter` | hidra-browser/tools/forum-registrar.js:224-229 | the signed list does not depend on the order in which the maps are walked |
| `Registrar.Registrar.RateLimited` | hidra-browser/tools/forum-registrar.js:106-110 | prunes the times outside the window and reports whether 200 are left |
| `Registrar.Registrar.OnClaim` | hidra-browser/tools/forum-registrar.js:112-145 | the handler is the claim step: checks, first claim wins, bootstrap, cap, rate |
| `Registrar.Registrar.OnHide` | hidra-browser/tools/forum-registrar.js:170-187 | the handler is the hide step |
| `Registrar.Registrar.SetAdmin` | hidra-browser/tools/forum-registrar.js:161-166 | sets the moderator exactly for a canonical key and changes nothing else of the state |
| `Registrar.Registrar.AdoptFrom` | hidra-browser/tools/forum-registrar.js:199-205 | the two loops adopt the names and the hides of the list |
| `Registrar.Registrar.Foreign` | hidra-browser/tools/forum-registrar.js:213-220 | flags a republish unless one was flagged within the cooldown |
| `Registrar.Registrar.OnRegistry` | hidra-browser/tools/forum-registrar.js:192-211 | the handler with its two loops is the list step |
| `Registrar.Registrar.Build` | hidra-browser/tools/forum-registrar.js:222-232 | counts up, clears dirty, and returns the one signed list of the state |
| `RegistrarRuns.OrderedIffCaughtUp` | hidra-browser/tools/forum-registrar.js:315-325 | the next list has a higher number and carries every earlier line unchanged if and only if the state it is built from covers all lists sent |
| `RegistrarRuns.EveryListIsExact` | hidra-browser/tools/forum-registrar.js:222-232 | in every run, lost and restored disks included, the list being published is accepted under the registrar's key and reads back as exactly what is recorded, which is on disk before it is sent; every list sent is accepted |
| `RegistrarRuns.CaughtUpRunsAreSound` | hidra-browser/tools/forum-registrar.js:315-325 | in every run, lost and restored disks included, in which lists are built by covering states, all lists sent are in order and accepted |
| `RegistrarRuns.SentListsOrderedIff` | hidra-browser/tools/forum-registrar.js:315-325 | in every run, whatever is lost, unreadable, restored or discarded, the lists sent have rising numbers and keep every line if and only if each was of a state with a higher number than every list sent before and with every line of it |
| `RegistrarRuns.RelayIsNoNews` | hidra-browser/tools/forum-registrar.js:198 | while the disk is kept and read, nothing the relay can show makes the registrar adopt |
| `RegistrarRuns.PublishedListsOnlyGrow` | hidra-browser/tools/forum-registrar.js:80-84 | across all claims, hides, relay lists, publishes, crashes between any two steps and restarts that find and read the disk: sent numbers strictly increase, every line of a sent list stands unchanged in all later ones, every one is accepted, and the caps hold |
| `RegistrarRuns.RecordsAreSigned` | hidra-browser/tools/forum-registrar.js:112-187 | in every run that keeps its disk and reads it at each start, each recorded name was claimed under the signature of the very key it is recorded for, and each hide was signed by a key the operator had named |
| `RegistrarRuns.ChangesAreFlagged` | hidra-browser/tools/forum-registrar.js:222-232 | in every run, a registrar that is not dirty differs in nothing from the last list built or the state loaded |
| `RegistrarAnswers.ClaimIsRecordedIff` | hidra-browser/tools/forum-registrar.js:112-145 | a claim is recorded, with exactly the claimed shown name, key and time, if and only if the name is free, the claim holds, the registrar is not bootstrapping or adopts claims, fewer than 3000 names are recorded and fewer than 200 remembered times lie within 600000 ms; otherwise the state is unchanged |
| `RegistrarAnswers.OwnClaimHoldsIff` | hidra-browser/tools/forum-registrar.js:113-122 | a claim signed by its owner holds if and only if its name is 3 to 24 of the allowed characters in compared form and its time is from 0 up to the last whole number held exactly |
| `RegistrarAnswers.ClaimIsListed` | hidra-browser/tools/forum-registrar.js:133-145 | in every run such a claim, handed over between publishes, is in every list the process goes on to build, whatever else comes in |
| `RegistrarAnswers.OwnClaimIsListed` | hidra-browser/tools/forum-registrar.js:112-145 | and so is every owner's claim to a name that may be taken |
| `RegistrarAnswers.RecordedIsListed` | hidra-browser/tools/forum-registrar.js:222-232 | whatever comes in, a recorded name is in every list the process goes on to build, as it was recorded |
| `RegistrarAnswers.RestartedRecords` | hidra-browser/tools/forum-registrar.js:99-101 | a fresh process records a claim that holds at once if and only if it adopts claims or began with any number or name |
| `RegistrarAnswers.SettleOpens` | hidra-browser/tools/forum-registrar.js:345-358 | the end of the settle window opens it to claims and changes nothing else |
| `RegistrarAnswers.HideIsRecordedIff` | hidra-browser/tools/forum-registrar.js:170-187 | a post is hidden if and only if its id is one, the moderator signed the hide with a finite time, none with a time other than zero is kept and fewer than 5000 are; otherwise nothing changes |
| `RegistrarAnswers.OwnHideIsListed` | hidra-browser/tools/forum-registrar.js:170-187 | in every run a hide the moderator signed is in every list the process goes on to build |
| `RegistrarAnswers.NamedIsListed` | hidra-browser/tools/forum-registrar.js:161-166 | and so is the moderator the operator named |
| `RegistrarAnswers.ListIsAnswered` | hidra-browser/tools/forum-registrar.js:192-220 | a list is taken over exactly when it verifies with a higher number: its number, the lines for free names, its hides and its moderator where none was named; ours but not newer changes nothing; anything else is answered unless the last answer is less than 60000 ms old |
| `RegistrarRecovery.AdoptionCatchesUpIff` | hidra-browser/tools/forum-registrar.js:192-211 | after adopting the newest list a copy with a lower number covers all lists sent if and only if it had bound none of its names otherwise |
| `RegistrarRecovery.LostDiskRecovers` | hidra-browser/tools/forum-registrar.js:99-101 | a registrar with an empty disk, not told to adopt claims, is caught up once the newest list arrives, whatever claims came before |
| `RegistrarRecovery.RecoveredRunsStayOrdered` | hidra-browser/tools/forum-registrar.js:189-211 | in every run with any losses, unreadable starts and restores, the lists sent stay in order if none is built between a start without the current state and the hand-over of the newest list with no name on it bound otherwise |
| `RegistrarRecovery.NextListKeepsOrderIff` | hidra-browser/tools/forum-registrar.js:315-325 | at every point of such a run, the next list sent keeps the order if and only if that hand-over has happened |
| `RegistrarRecovery.RestoredRunsOrderedIff` | hidra-browser/tools/forum-registrar.js:192-232 | over whole runs, the lists sent are in order if and only if no list was built by a copy that was behind |
| `RegistrarRecovery.UnansweredRestoreBreaksOrder` | hidra-browser/tools/forum-registrar.js:345-358 | the run that fails: a disk lost or unreadable, no list from the relay before the settle timer, and the number 1 is sent twice |
| `RegistrarRate.WindowHoldsAtMost` | hidra-browser/tools/forum-registrar.js:137-143 | in every run whose clock does not go back, no half-open ten-minute window holds more than 200 names recorded from claims by one process |
| `TorLock.NetworkLock.Engage` | hidra-browser/src/main/network-lock.js:97-105 | closing sets the reason, moves the generation on, restarts the count of blocked requests if it was open, and asks every protected session to close its connections, without waiting for it |
| `TorLock.NetworkLock.Release` | hidra-browser/src/main/network-lock.js:111-116 | opens for the current generation and for no other |
| `TorLock.NetworkLock.OnBeforeRequest` | hidra-browser/src/main/network-lock.js:148-159 | a request is cancelled if and only if it is refused, or the lock is closed and it is not local |
| `TorLock.NetworkLock.Protect` | hidra-browser/src/main/network-lock.js:144-166 | the session joins those that are checked; the lock does not move |
| `TorLock.NetworkLock.Forget` | hidra-browser/src/main/network-lock.js:180-182 | the session leaves them; the lock does not move |
| `TorLock.TorManager.Finish` | hidra-browser/src/main/tor-manager.js:252-257 | the first handler of a process to end its start decides the start's result |
| `TorLock.TorManager.OnBootstrapped` | hidra-browser/src/main/tor-manager.js:275-279 | a line saying 100% makes Tor ready, whatever it was, and ends its start well |
| `TorLock.TorManager.OnError` | hidra-browser/src/main/tor-manager.js:305-310 | an error fails it, forgets the process and ends its start badly |
| `TorLock.TorManager.BeginStop` | hidra-browser/src/main/tor-manager.js:409-420 | a stop marks a live process as stopping and the state as stopped |
| `TorLock.TorManager.OnClose` | hidra-browser/src/main/tor-manager.js:312-345 | an asked-for exit stops, an exit of a ready Tor fails and closes the lock, any other fails; all but the second end the start badly |
| `TorLock.TorManager.Disconnect` | hidra-browser/src/main/main.js:1107-1116 | by the first await the lock is closed with its reason and Tor has been told to stop |
| `TorLock.OpenIsJustified` | hidra-browser/src/main/main.js:249-281 | in every interleaving, while the lock is open nothing has closed it since the opening connect took its generation, that connect saw Tor ready in the opening step, and every session of its snapshot is on Tor's route |
| `TorLock.OpenMeansTorIsReady` | hidra-browser/src/main/tor-manager.js:265-345 | if a Tor is spawned only when none is alive, one told to stop says 100% no more, and an error comes only before ready or during a stop, then an open lock means a ready, running Tor that is not stopping |
| `LockOpens.DecisionOpensIff` | hidra-browser/src/main/main.js:249-281 | after the deciding step of every run the lock is open if and only if every session of the snapshot answered in the run that it is on Tor's route, and was, and the lock was open already or Tor is ready and no engage came since the connect took its generation |
| `LockOpens.RunsAreNoted` | hidra-browser/src/main/main.js:262-273 | in every run what the connect has noted is what the checks of the run answered |
| `LockOpens.ConnectAloneOpens` | hidra-browser/src/main/main.js:249-281 | from every reachable state with no connect and no Tor under way and all sessions, however many, on Tor's route, a connect that nothing disturbs opens the lock |
| `LockOpens.OneSessionOpens` | hidra-browser/src/main/main.js:249-281 | a run that opens the lock with one session |
| `LockOpens.FailedStartCloses` | hidra-browser/src/main/main.js:254-258 | a start that fails before or at the spawn leaves the lock closed and the way free |
| `LockOpens.BrokenStartCloses` | hidra-browser/src/main/main.js:254-258 | so does a spawned Tor that does not come up |
| `LockSockets.StepIsValid` | hidra-browser/src/main/network-lock.js:94-105 | every step of the lock, the filter, a socket or a close keeps the account of which connections are open and which were asked to close |
| `LockSockets.NoneOpensWhileClosed` | hidra-browser/src/main/network-lock.js:148-159 | while the lock is closed no connection opens through the filter |
| `LockSockets.RequestOpens` | hidra-browser/src/main/network-lock.js:148-159 | through an open lock a request of a protected session opens its connection and touches no other |
| `LockSockets.CloseEnds` | hidra-browser/src/main/network-lock.js:102-104 | a close that completes closes exactly the connections of its session opened before it was asked for; one that fails closes none; neither is awaited again |
| `LockSockets.EndingEnds` | hidra-browser/src/main/network-lock.js:148-159 | a connection that ends by itself is open no more, and no other is touched |
| `LockSockets.OpenUnderClosedLockIff` | hidra-browser/src/main/network-lock.js:94-105 | in every interleaving, a connection through the filter, of a session protected since, is open under a closed lock if and only if it did not end by itself, was asked to close after it was opened, and every such close is under way or failed |
| `LockSockets.ClosedCarriesNothingIff` | hidra-browser/src/main/network-lock.js:102-104 | in every interleaving, a closed lock is over some such connection if and only if one neither ended by itself nor was closed by any close asked for since |
| `LockSockets.AllCompletedCarriesNothing` | hidra-browser/src/main/network-lock.js:102-104 | when every close asked for has completed, there is none |
| `LockSockets.FailedCloseStaysOpen` | hidra-browser/src/main/network-lock.js:103 | a schedule in which a close fails: the lock is closed, nothing asked of the session is under way, and its connection is open |
| `TorLock.EarlySpawnLeavesOpen` | hidra-browser/src/main/main.js:1107-1116 | a schedule that keeps the other two assumptions, but starts a Tor before the last is seen to exit, ends with the lock open and no Tor alive |
| `TorLock.ErrorWhenReadyLeavesOpen` | hidra-browser/src/main/tor-manager.js:305-310 | a schedule that keeps the other two, but has an error from a ready Tor, leaves the lock open over a failed Tor |
| `TorLock.LateLineLeavesOpen` | hidra-browser/src/main/tor-manager.js:275-279 | a schedule that keeps the other two, but has a stopped Tor say 100%, leaves the lock open and no Tor alive |
| `Crc32.ShiftsLinear` | hidra-browser/scripts/lib/zip.js:20 | shifting the register n times is linear over exclusive or |
| `Crc32.BytewiseIsSerial` | hidra-browser/scripts/prepare-build.js:189-192 | adding a byte and shifting eight times is feeding its bits one at a time |
| `Crc32.TableStep` | hidra-browser/scripts/lib/zip.js:27 | one table lookup per byte is the serial register after eight bits |
| `Crc32.MakeTable` | hidra-browser/scripts/lib/zip.js:16-24 | entry i of the table is i shifted eight times |
| `Crc32.TableCrc` | hidra-browser/scripts/lib/zip.js:25-29 | the table-driven checksum is the serial CRC-32, for every byte sequence |
| `Crc32.BitwiseCrc` | hidra-browser/scripts/prepare-build.js:186-195 | so is the bit-by-bit one; the two scripts agree |
| `Crc32.BothScripts` | hidra-browser/scripts/prepare-build.js:186-195 | the two scripts give one and the same checksum for every byte sequence |
| `Crc32.CheckValue` | hidra-browser/scripts/lib/zip.js:16-29 | the checksum of the nine digits 1 to 9 is the published CBF43926 |
| `Crc32.OneByteChangeIsSeen` | hidra-browser/scripts/lib/zip.js:25-29 | a change confined to one byte, anywhere in any file, changes the checksum |
| `Zip.DosStampReadsBack` | hidra-browser/scripts/lib/zip.js:82-94 | every moment gives a stamp that fits 16 bits, reads back to the year (clamped), month, day and time, and is a date that exists |
| `Zip.EntryReadsBack` | hidra-browser/scripts/lib/zip.js:45-68 | the directory entry and local header written for an entry read back field by field |
| `ZipHeaders.EntryIsLaidOut` | hidra-browser/scripts/lib/zip.js:97-150 | in every written archive each entry's local header, name and data stand after those before it, every field at its own offset, and the directory lists the entry with every field and that place |
| `ZipHeaders.EndIsLaidOut` | hidra-browser/scripts/lib/zip.js:152-160 | and the end record closes the file with both counts, the size and the place of the directory |
| `Zip.ArchiveReadsBack` | hidra-browser/scripts/lib/zip.js:32-71 | every written archive reads back in order; only the raw bytes depend on the stated sizes |
| `Zip.RoundTripIff` | hidra-browser/scripts/lib/zip.js:97-163 | reading what was written gives the same entries, with missing versions and missing or impossible dates filled in, if and only if every compSz is the raw length |
| `Zip.NormalIsDated` | hidra-browser/scripts/lib/zip.js:112-114 | a written date always exists, a valid one is kept, and an entry is unchanged exactly when its date is valid, its time is there and its version non-zero |
| `Zip.SecondTripChangesNothing` | hidra-browser/scripts/lib/zip.js:97-163 | writing what was read, at any later time, gives the same bytes and the same entries |
| `Zip.ReadEntriesCopyThrough` | hidra-browser/scripts/lib/zip.js:5-9 | entries read from any buffer at all, none cut short by its end, can be written to another archive and read again |
| `ZipScripts.LocalRecord` | hidra-browser/scripts/lib/zip.js:107-122 | the field-by-field writes build the local header and the name |
| `ZipScripts.CentralRecord` | hidra-browser/scripts/lib/zip.js:126-144 | the same for the directory entry |
| `ZipScripts.EndOf` | hidra-browser/scripts/lib/zip.js:152-160 | the writes build the end record |
| `ZipScripts.WriteZip` | hidra-browser/scripts/lib/zip.js:97-163 | the archive bytes, refused exactly when a number does not fit its field |
| `ZipScripts.SearchEnd` | hidra-browser/scripts/lib/zip.js:34-38 | the backward search finds the last end record within reach, or none |
| `ZipScripts.ReadZip` | hidra-browser/scripts/lib/zip.js:32-71 | the reader's loops give the entries of the format, refused exactly where a read leaves the buffer or a signature is wrong |
| `ZipScripts.Repack` | hidra-browser/scripts/lib/zip.js:32-163 | the loops together: written and read again, the entries are the same if and only if the sizes are true |
| `HiddenSessions.StepIsValid` | hidra-node/src/main.rs:806-885 | every turn of the loop, whatever each call returns, keeps connections in order, each with a contiguous run of one session |
| `HiddenSessions.ConnectionsCarryRuns` | hidra-node/src/main.rs:785-887 | in every run nothing reaches the local server before a hello is answered, and each connection carries a contiguous run of the opened messages of exactly one session, the last possibly cut, no message twice |
| `HiddenSessions.SessionsAreHellos` | hidra-node/src/main.rs:808-819 | sessions are exactly the hellos answered and sent |
| `HiddenSessions.RunsConserve` | hidra-node/src/main.rs:824-848 | in every run the bytes opened of a session are the bytes delivered plus the bytes dropped |
| `HiddenSessions.DropsNothingIff` | hidra-node/src/main.rs:833-847 | nothing of a session is dropped if and only if no event brings it a message that opens and meets a refused connect or a write cut short |
| `HiddenSessions.EverythingArrivesIff` | hidra-node/src/main.rs:833-847 | the local server has all bytes of a session in order if and only if no message of it met a refused connect or a write cut short |
| `HiddenSessions.FailedConnectLeavesGap` | hidra-node/src/main.rs:833-841 | from any live session without a connection, a failed connect loses its message and the next opens a connection that starts after it |
| `HiddenSessions.ChunksJoin` | hidra-node/src/main.rs:860 | the pieces are non-empty, within the limit and together exactly the bytes read |
| `HiddenSessions.RunsReturn` | hidra-node/src/main.rs:857-871 | in every run the sealed pieces of each session fit a cell and join to what its own connections read, complete while the loop runs |
| `HiddenSessions.ReadIsRead` | hidra-node/src/main.rs:857-871 | in every run what is on record as read for a session is, from the events alone, the bytes of every read of at most a buffer that finds the loop running and a connection of that session open |
| `HiddenSessions.EverythingReturns` | hidra-node/src/main.rs:857-871 | while pieces can be sent, the pieces sent back to a session join to exactly those bytes |
| `HiddenSessions.HeardIsOpened` | hidra-node/src/main.rs:824-832 | in every run what a session opened is, from the events alone, what was sealed for it, each at its own count |
| `HiddenSessions.ServerDoneEnds` | hidra-node/src/main.rs:872-880 | after the local server closes or fails the connection is gone, and the loop goes on exactly when the end can be sent |
| `HiddenSessions.StrangerEnds` | hidra-node/src/main.rs:824-832 | a message that does not open ends session and connection, not the loop |
| `HiddenSessions.HelloEnds` | hidra-node/src/main.rs:808-819 | a hello ends the connection at once, and the session before exactly when it is answered |
| `HiddenSessions.NothingWithoutHello` | hidra-node/src/main.rs:820-823 | without a session nothing a client sends has any effect |
| `HiddenSessions.Serve` | hidra-node/src/main.rs:785-887 | the loop over its variables is the run of the step function |
| `HiddenSessions.Deliver` | hidra-node/src/main.rs:833-847 | connect if needed, write, drop the connection where the write fails |
| `HiddenSessions.SendPieces` | hidra-node/src/main.rs:859-870 | sends the pieces of what was read in order until one cannot be sealed or sent |
| `UpdateCheck.CompareIsRank` | hidra-browser/src/main/update-check.js:66-72 | comparing number by number is comparing X.Y.Z as one number |
| `UpdateCheck.CompareVersions` | hidra-browser/src/main/update-check.js:66-72 | the loop gives the sign of that order and throws exactly where a text is no version |
| `UpdateAnswers.PrintedReadsBack` | hidra-browser/src/main/update-check.js:58-63 | X.Y.Z as written reads back as its three numbers in order |
| `UpdateAnswers.PrintedOrder` | hidra-browser/src/main/update-check.js:66-72 | one version is below another if and only if the first number in which they differ is |
| `UpdateCheck.StoredReadsBackIff` | hidra-browser/src/main/update-check.js:160-190 | a record comes back from the file exactly when its versions are in order and its day is real |
| `UpdateCheck.MergeIsUpper` | hidra-browser/src/main/update-check.js:172-181 | the merge lowers neither record and keeps the minimum at or below the latest |
| `UpdateCheck.MergeIsLeast` | hidra-browser/src/main/update-check.js:172-181 | and it is the least such record |
| `UpdateCheck.FreshMerges` | hidra-browser/src/main/update-check.js:149-151 | a record is not stale if and only if the merge takes over the rank of both its versions; the merge never goes down |
| `UpdateAnswers.TableIsJudgedIff` | hidra-browser/src/main/update-check.js:134-155 | whatever is kept, a fetched table that is not complete, consistent and genuine is invalid; any other is stale exactly when it is below what is kept, else expired exactly past its day, else judged by its own versions if this build has one |
| `UpdateAnswers.FailedFetchKeeps` | hidra-browser/src/main/update-check.js:225-242 | a missing signature is told from a silent site, and neither touches what is kept or stored |
| `UpdateAnswers.CheckStartsIff` | hidra-browser/src/main/update-check.js:215-223 | asking starts a check if and only if none is under way and none has ended but in a silent site |
| `UpdateAnswers.BelievedIsShown` | hidra-browser/src/main/update-check.js:215-275 | in every run, once a check brings a table to believe, the page shows its two versions, and unsafe, by the order of versions, until the next start |
| `UpdateAnswers.BelievedIsRemembered` | hidra-browser/src/main/update-check.js:160-190 | and what it raised and wrote is what the next session that reads the file starts with |
| `UpdateCheck.FileNeverGoesDown` | hidra-browser/src/main/update-check.js:246-254 | over any fetches, failed writes and restarts, from any file, in which checks end only in sessions whose start could read the file: a usable file stays usable and neither its versions nor its day go down |
| `UpdateCheck.FinishLowersIff` | hidra-browser/src/main/update-check.js:246-254 | a finished check brings a usable file down if and only if it has a verdict on a record, something changed, the write succeeds, and the merge with what this session holds is below the file |
| `UpdateCheck.UnreadableStartLowersFile` | hidra-browser/src/main/update-check.js:160-169 | the run that fails, for every two records of which the older has not expired: a start that cannot read the file, then the older record |
| `UpdateCheck.KeptIsSane` | hidra-browser/src/main/update-check.js:160-181 | in every run, from any file, what is kept has its minimum at or below its latest and a real day |
| `UpdateCheck.KeptIsSigned` | hidra-browser/src/main/update-check.js:134-155 | in every run each version and day that is kept or stored was in the first file or in a table under a genuine signature |
| `UpdateCheck.NoticeFollowsKept` | hidra-browser/src/main/update-check.js:259-275 | in every run, whatever the site serves: the page says unsafe if and only if this build is below the kept minimum and there is a verdict of this session or a record not expired, and offers an update if and only if it is below the kept latest |
| `UpdateAnswers.OffersAreKept` | hidra-browser/src/main/update-check.js:259-270 | in every run the versions offered have the rank of the kept ones, and are the kept ones or those of this session's verdict |
| `UpdateAnswers.UnconfirmedIff` | hidra-browser/src/main/update-check.js:264-275 | in every run the page says unconfirmed if and only if a check has ended, there is no word to go by, and it was more than a missing signature or silent site, or this build knows the table is signed, or something is kept |
| `UpdateCheck.SilenceMeansCurrent` | hidra-browser/src/main/update-check.js:264-275 | once something is kept and asked for, the page is silent only on a word that this build is current |
| `UpdateCheck.UpdateCheck.Run` | hidra-browser/src/main/update-check.js:215-223 | a settled check is not repeated, one under way is shared, else one starts |
| `UpdateCheck.UpdateCheck.Complete` | hidra-browser/src/main/update-check.js:217-254 | a check that ends sets the verdict, keeps the record and frees the way for the next |
| `UpdateCheck.UpdateCheck.KeepRecord` | hidra-browser/src/main/update-check.js:246-254 | what is kept is the merge; the file changes only when something does and the write succeeds |
| `ReplayGuard.TrustStore.Bind` | hidra-browser/src/ui/hidrachat-crypto.js:355-362 | the first key of an id stays; another is refused |
| `ReplayGuard.TrustStore.Forget` | hidra-browser/src/ui/hidrachat-crypto.js:363-365 | forgets one id and no other |
| `ReplayGuard.ReplayGuard.Accept` | hidra-browser/src/ui/hidrachat-crypto.js:372-381 | accepts exactly in the window and unseen, and keeps the last 512 |
| `ReplayGuard.Open` | hidra-browser/src/ui/hidrachat-crypto.js:406-424 | the checks in order, with the stores after each outcome |
| `ReplayGuard.RejectionLeavesNothing` | hidra-browser/src/ui/hidrachat-crypto.js:416-423 | a message rejected as foreign, malformed, identity or signature changes neither store; a replay changes at most the key of its own id |
| `ReplayGuard.ReplaysAreFarApart` | hidra-browser/src/ui/hidrachat-crypto.js:372-381 | in every run, between two acceptances of one nonce from one session lie at least 512 others from it, and all accepted messages were authentic and in the window |
| `ReplayGuard.AcceptedIff` | hidra-browser/src/ui/hidrachat-crypto.js:406-424 | after every run, exactly which messages are accepted, in terms of the log of acceptances |
| `ReplayGuard.FloodReplays` | hidra-browser/src/ui/hidrachat-crypto.js:372-381 | after every flood of more than 512 authentic messages of one session within the window, its first message is accepted again although it is in the log |
| `ReplayGuard.OldNonceIsTakenAgain` | hidra-browser/src/ui/hidrachat-crypto.js:377-380 | a run of 513 messages at one time after which that happens |
| `ReplayGuard.OneKeyPerSession` | hidra-browser/src/ui/hidrachat-crypto.js:350-362 | while no id is forgotten, all messages accepted under one id carry one key |
| `Base32.WrapIsHarmless` | hidra-browser/src/ui/hidra-site.js:33-34 | what wraps off the 32-bit accumulator is never read |
| `Base32.B32` | hidra-browser/src/ui/hidra-site.js:30-38 | the bit-accumulator loop gives the base32 text, for every byte string |
| `Base32.DigitsEncode` | hidra-browser/src/ui/hidra-site.js:30-38 | that text is the numeral of section 6 of RFC 4648: 8n/5 digits rounded up, with the value of the bytes shifted up by the padding bits |
| `Base32.DecodeUndoes` | hidra-browser/src/ui/hidra-site.js:30-38 | decoding undoes encoding |
| `Base32.TextIsInjective` | hidra-browser/src/ui/hidra-site.js:30-38 | different bytes have different texts |
| `Base32.IsTextIff` | hidra-browser/src/ui/hidra-site.js:30-38 | which digit strings are texts: exactly those of a possible length with zero padding bits |
| `HidraSite.KeyAddressIsSigned` | hidra-browser/src/ui/hidra-site.js:43-62 | every address made from a key is of the signed kind, and one of 16 bytes of the legacy kind |
| `HidraSite.AddressesMeetIff` | hidra-browser/src/ui/hidra-site.js:56-62 | two keys share an address exactly when the first 20 bytes of their hashes agree |
| `HidraSite.CleanFiles` | hidra-browser/src/ui/hidra-site.js:118-125 | keeps exactly the entries with a page name and a text |
| `HidraSite.CleanKeepsIff` | hidra-browser/src/ui/hidra-site.js:118-125 | a site's pages come through untouched if and only if each has a page name |
| `HidraSite.OpenFiles` | hidra-browser/src/ui/hidra-site.js:91-115 | the outcome of opening, branch by branch |
| `HidraSite.SealedOpens` | hidra-browser/src/ui/hidra-site.js:78-83 | what a site seals opens at its address with its cleaned pages and its time, as signed |
| `HidraSite.SignedShowsIff` | hidra-browser/src/ui/hidra-site.js:97-114 | a signed address shows exactly what its own key signed for that address |
| `HidraSite.OnlyOwnerChanges` | hidra-browser/src/ui/hidra-site.js:9-13 | when signatures are made by sealing, whatever the address of a key shows was sealed by a key whose hash agrees with it in the first 20 bytes, with the pages and the time it sealed |
| `HidraSite.LegacyIsNeverSigned` | hidra-browser/src/ui/hidra-site.js:112-114 | a legacy address shows exactly old bundles, never as signed |
| `HidraSite.OneLabelPerEnvelope` | hidra-browser/src/ui/hidra-site.js:101-105 | an envelope opens at one label at most |

## Left out

- Scrypt.Scrypt: takes from the platform that an array of 2^37 words cannot be had; whether a smaller one can is a parameter.
- P256.P256Public: that the modulus is prime is a hypothesis; everything that follows from it is proved. Multiples are double-and-add with the chord-and-tangent law; associativity of that law is not proved.
- ChatRooms.NoOrphans: rooms, tables and locks are values of a step system, not shared objects in the Dafny heap; a room's identity is a reference number. Broadcast channels are not modelled, and nothing is said about which later messages a joiner sees.
- TorLock.OpenMeansTorIsReady: holds under the three assumptions written out in `TorLock.Holds`; that nothing loads in a session before it is on Tor's route is not part of it.
- HidraSite.SealedOpens: takes from the platform that trimming and lower-casing leave plain lower-case labels alone, that a hash has 32 bytes and that JSON reads back.
- HiddenSessions.Serve: the circuit and the local sockets are values, and the outcome of each call is part of the event that leads to it.
- RegistrarRecovery.RestoredRunsOrderedIff: from left to right it is for runs whose backups are current, below the newest list or at odds with it, and whose early lists are sent: with a backup of a high number that merely lacks lines, or after early lists that were discarded, the order depends on whether the same claims are made again. The iff without these conditions, on the states the lists are of, is `RegistrarRuns.SentListsOrderedIff`.
- LockSockets.ClosedCarriesNothingIff: speaks of connections through the filter, of sessions protected since they were opened; a socket the filter never sees may open at any time, and only its route keeps it on Tor's port. Connections that stay on this machine are not counted.
- RegistrarRate.WindowHoldsAtMost: counts names recorded from claims by one process; adoption and restarts are outside that bound in the code as well.
- Zip.RoundTripIff: names are UTF-8 bytes, so a file name that is not well-formed Unicode is not covered; numbers are whole, and the bitwise or of the disjoint fields of a stamp is written as a sum.
- UpdateCheck.NoticeFollowsKept: the lines of the record come from the table as values; the text search for them and the calendar are parameters.
- RegistrarRuns.PublishedListsOnlyGrow: one registrar at a time works on a directory, and nobody else writes there.
- UpdateCheck.FileNeverGoesDown: one browser at a time uses the file, and nobody else writes it.
- JavaScript objects used as dictionaries are maps of own keys; inherited names such as `constructor` are not modelled, nor is a NaN time, which JSON cannot carry.
- Whether a list is too large to publish, and whether a save or a send fails, are choices of the schedule; the size in bytes is not computed. The registrar's counters and log lines are dropped.
- Electron sessions, tabs and pages, sockets, HTTP handlers, timers, process spawning and logging appear only as events.
- SHA-256, HKDF, PBKDF2, AES-GCM, ECDSA, Ed25519, ChaCha20 and deflate are opaque.
- Unicode folding of nicknames and names is opaque; only equality of the results is used.
- Onion layers, circuits, the DHT, the SOCKS proxy, the MQTT relay server, the VPN and vault code and the build scripts other than ZIP and CRC are not modelled.
- `mkFile`, `mkDir` and `patchEntry`, `onAdmin` (which only logs) and the `show` and `keygen` commands are not modelled.
