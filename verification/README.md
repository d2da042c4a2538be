# Verified model of the sutegi core

A Dafny 4.11 model of the parts of the sutegi framework where a mistake is hardest to
see: modular arithmetic in machine words, protocols over many threads or pods, parsers
and printers that must agree, and compilers to another system's query language. The
model follows the code; where code and documentation disagree, the code is modelled and
a lemma says exactly when the documented promise holds.

Code that changes state step by step is a class or a method with loops, proved against a
function; what the source promises is then proved about that function. Concurrent code is
a state machine whose steps are the source's lock sections, transactions or messages, in
any interleaving, and the theorems quantify over every run.

| file | models |
|---|---|
| `Wrappers`, `Words`, `Decimals` | options and joined text; bytes and 32/64-bit words, whose ranges make overflow a proof obligation; decimal numbers |
| `Poly1305Spec`, `Poly1305` | the authenticator of RFC 8439: its definition, and the five-limb computation |
| `Sha256`, `Aead`, `Base64` | the streaming hash buffer, ChaCha20-Poly1305 sealing, HKDF's expand loop, Base64 |
| `Civil`, `CivilText` | days to Gregorian dates, in log timestamps and in mail headers; the timestamp's text |
| `EventStore`, `EventLog`, `Projections` | appends under optimistic concurrency, their interleavings, and projections over the log |
| `Json`, `JsonRoundTrip`, `JsonParser` | the grammar and the two serializations, their round trips, and the parser and serializer as written |
| `Supervisor`, `SupervisorSafety`, `SupervisorPolicies` | the supervisor's message loop, what every run keeps, and which restart policies it keeps when |
| `Presence`, `PresenceSync` | one pod's presence state and diffs, and convergence across pods |
| `Search`, `SearchRoundTrip`, `SearchGrammar`, `TsQuery`, `Fts5`, `Fusion` | the search grammar on every input, its two compilations read back under each engine's precedence, and rank fusion |
| `Sql`, `Identifiers`, `JsonPath`, `Builder`, `Selecting`, `Updates`, `Copy` | placeholders, validated identifiers, JSON paths, the builders, row-lock clauses, and COPY text |
| `SqlReading`, `StatementReading` | built SQL read back, word by word, as what the calls asked for |
| `Http`, `HttpFraming`, `HttpOutcomes`, `HttpConnection` | the request reader over chunked input, request framing, what becomes of other requests, and the keep-alive loop |
| `Pool`, `Transactions` | the blocking connection pools, and what a transaction left open does to every later use of one |
| `Hub` | channel membership, topics and broker subscriptions |

`dafny verify dfyconfig.toml` checks everything.

## Where the code does not keep its documentation's promise

- `OneForOne` restarts every sibling declared later, because the loop uses only the start of the range (`SupervisorPolicies.OneForOneOnlyIfLast`, with a run in `SupervisorPolicies.SiblingRestarted`).
- A `Temporary` child is restarted along with a sibling (`SupervisorPolicies.TemporaryKeptIff`), and so is a `Transient` one whose clean stop should have been final (`SupervisorPolicies.CleanStopFinalIff`, `SupervisorPolicies.CleanStopUndone`).
- HKDF accepts up to 8160 bytes, but with overflow checks fails above 8128 (`Aead.Hkdf`).
- The event log's documentation relies on `BEGIN IMMEDIATE`; transactions begin with a plain `BEGIN`, so the proof rests on the uniqueness constraints alone (`EventStore.AdmittedIffFresh`, `EventLog.PrimaryKeyAloneAdmitsStale`).
- A presence request between a track's insert and its join makes a peer count the member twice until the next state message (`PresenceSync.DoubleCount`, `PresenceSync.JoinSyncsIff`, `PresenceSync.Converged`); a leave diff is fanned out even when nothing was cached (`Presence.LeaveExactIff`).
- The rank constant keeps a row in both legs ahead only up to 15 results (`Fusion.TightAtFifteen`).
- A JSON path key spelled `null` needs quoting in the array literal (`JsonPath.PgPathIff`).
- A request whose head is cut short by the end of the stream is accepted (`HttpFraming.OwnBytesIff`, `HttpFraming.CutShortAccepted`).
- A presence state in which nothing changed is still fanned out when a cached key held no metas and is gone (`Presence.SilentIff`).
- A COMMIT that fails leaving the transaction open puts its connection back on top of the SQLite pool's stack. Until a failing statement happens to roll it back, every transaction served by it is refused at BEGIN, and single statements on it report success without ever being committed (`Transactions.TopStuckIff`, `Transactions.SerialUse`, `Transactions.Starved`); with several threads it takes one connection of the pool's capacity, the next to be handed out (`Transactions.StuckIff`, `Transactions.CapacityLost`, `Transactions.StuckServedNext`).
- Members and joins of a topic come apart in two ways (`Hub.StepAgreedIff`, `Hub.QuietAgreesIff`). A kick between the two halves of an admission leaves a member that has not joined, and goes on receiving broadcasts (`Hub.KickDuringAdmit`). A kick that takes the join, is overtaken by the client joining again, and only then forgets the member leaves a connection joined to a topic that has no entry, no member and no subscription, so that it receives nothing (`Hub.KickBeforeRejoin`).
- Resetting a projection is exact only while its read model is empty; clearing and resetting are separate transactions, and a tick between them that moves the checkpoint undoes the clearing (`Projections.ResetExactIff`, `Projections.RebuildExact`).
- A column named `DISTINCT` passes the identifier check, and as the first of the columns reads as the keyword (`StatementReading.SelectReadsBack`).

## Model

| member | source | states |
|---|---|---|
| `Poly1305.LimbsOfBytes` | crates/sutegi-crypto/src/lib.rs:603-607 | the five overlapping loads, shifts and masks cut sixteen bytes into 26-bit limbs whose value is the little-endian number |
| `Poly1305.ClampedMultiplier` | crates/sutegi-crypto/src/lib.rs:578-585 | the limb masks give exactly the clamped multiplier of section 2.5 of RFC 8439, small enough for every later product |
| `Poly1305.AddBlock` | crates/sutegi-crypto/src/lib.rs:589-607 | adding a block adds its number with the marker bit, full or partial, and no word overflows |
| `Poly1305.CarryChain` | crates/sutegi-crypto/src/lib.rs:620-636 | the lazy carries keep the sum modulo 2^130-5 and leave limbs loose but bounded; no addition overflows |
| `Poly1305.MulReduce` | crates/sutegi-crypto/src/lib.rs:609-636 | schoolbook products with the fivefold wrap-around are the product modulo 2^130-5, in 64-bit words without overflow |
| `Poly1305.FullCarry` | crates/sutegi-crypto/src/lib.rs:639-654 | the final chain, its last carry into h1 included, leaves five limbs below 2^26 of the same value modulo 2^130-5 |
| `Poly1305.MinusP` | crates/sutegi-crypto/src/lib.rs:656-671 | the wrapping subtraction yields h - p with an all-ones mask exactly when h is at least p |
| `Poly1305.Canonical` | crates/sutegi-crypto/src/lib.rs:656-676 | the selected limbs are the unique representative below 2^130-5 |
| `Poly1305.PackWords` | crates/sutegi-crypto/src/lib.rs:678-682 | from limbs below 2^26, four 32-bit words holding exactly the low 128 bits |
| `Poly1305.AddPad` | crates/sutegi-crypto/src/lib.rs:684-698 | the carry-propagated sum is the addition modulo 2^128, little-endian |
| `Poly1305.AbsorbAll` | crates/sutegi-crypto/src/lib.rs:589-637 | after every block the accumulator is the polynomial accumulator modulo 2^130-5 |
| `Poly1305.Poly1305` | crates/sutegi-crypto/src/lib.rs:573-699 | for every key and message the tag is the RFC 8439 tag, and no word operation overflows |
| `Poly1305Spec.AbsorbIsPolynomial` | crates/sutegi-crypto/src/lib.rs:589-637 | the running accumulator is the sum of blocks times descending powers of r |
| `Sha256.BlocksAppend` | crates/sutegi-crypto/src/lib.rs:105-131 | compressing whole blocks of a concatenation is compressing one part and then the other with what was left over |
| `Sha256.Hasher.TopUp` | crates/sutegi-crypto/src/lib.rs:108-120 | filling a partial buffer owes exactly the bytes not yet compressed |
| `Sha256.Hasher.WholeBlocks` | crates/sutegi-crypto/src/lib.rs:122-130 | whole blocks go straight from the input; the rest is buffered |
| `Sha256.Hasher.Update` | crates/sutegi-crypto/src/lib.rs:105-131 | after an update the hasher has taken in the old message followed by the input, whatever the split |
| `Sha256.Hasher.Finalize` | crates/sutegi-crypto/src/lib.rs:133-149 | the padding loop ends, having compressed exactly the padded message of section 5.1.1 of FIPS 180-4 |
| `Sha256.SplitIndependent` | crates/sutegi-crypto/src/lib.rs:105-131 | two hashers that took in the same message hold the same state, however it was split |
| `Sha256.Sha256` | crates/sutegi-crypto/src/lib.rs:159-163 | the one-shot hash is the streaming hash of one update |
| `Sha256.PaddedInjective` | crates/sutegi-crypto/src/lib.rs:133-141 | distinct messages below 2^64 bits have distinct padded forms |
| `Sha256.PaddedByFips` | crates/sutegi-crypto/src/lib.rs:133-141 | the padded message is whole blocks of the message, a one bit, as few zeros as possible and the bit length modulo 2^64, big-endian, as section 5.1.1 of FIPS 180-4 has it |
| `Aead.ConstantTimeEq` | crates/sutegi-crypto/src/lib.rs:400-411 | true exactly when the slices are equal |
| `Aead.ChaCha20Xor` | crates/sutegi-crypto/src/lib.rs:563-571 | the buffer becomes its exclusive-or with the keystream, the counter wrapping at 32 bits |
| `Aead.XoredTwice` | crates/sutegi-crypto/src/lib.rs:563-571 | the same keystream twice gives the buffer back |
| `Aead.MacDataInjective` | crates/sutegi-crypto/src/lib.rs:701-713 | distinct (aad, ciphertext) pairs have distinct authenticator inputs |
| `Aead.AeadTag` | crates/sutegi-crypto/src/lib.rs:701-714 | the tag is the authenticator of the padded and length-suffixed input of section 2.8 of RFC 8439 |
| `Aead.SealedByRfc` | crates/sutegi-crypto/src/lib.rs:701-735 | each plaintext byte is combined with the keystream from block 1 on, and the tag is taken under the first half of block 0, as section 2.8 of RFC 8439 has it |
| `Aead.Seal` | crates/sutegi-crypto/src/lib.rs:723-735 | ciphertext followed by a 16-byte tag over it |
| `Aead.Open` | crates/sutegi-crypto/src/lib.rs:741-758 | the plaintext if and only if the last sixteen bytes are the tag of the rest; short input is refused |
| `Aead.OpenIffSealed` | crates/sutegi-crypto/src/lib.rs:723-758 | a string opens to a plaintext exactly when it is the sealing of that plaintext |
| `Aead.Hkdf` | crates/sutegi-crypto/src/lib.rs:219-243 | the expand loop yields the output of RFC 5869; with overflow checks it fails exactly when more than 8128 bytes are asked for, though 8160 are promised |
| `Aead.ExpandedChain` | crates/sutegi-crypto/src/lib.rs:219-243 | block k of the output is the authenticator of the block before it, the info and the byte k, as section 2.3 of RFC 5869 has it |
| `Base64.Encode` | crates/sutegi-crypto/src/lib.rs:455-478 | every three bytes become four characters, the last chunk padded |
| `Base64.DecodeOne` | crates/sutegi-crypto/src/lib.rs:481-509 | one chunk of up to four characters, or its first invalid character |
| `Base64.Decode` | crates/sutegi-crypto/src/lib.rs:481-509 | the bytes, or the first character outside the alphabet |
| `Base64.ValueOfDigit` | crates/sutegi-crypto/src/lib.rs:482-495 | the alphabet and its inverse agree on all 64 values |
| `Base64.RoundTrip` | crates/sutegi-crypto/src/lib.rs:455-509 | decoding an encoding gives the bytes back, for every byte string |
| `Civil.CivilFollowsCalendar` | crates/sutegi-log/src/lib.rs:697-712 | day z gives a valid Gregorian date, and day z+1 the calendar day after it, for every integer |
| `Civil.Anchor` | crates/sutegi-log/src/lib.rs:697-712 | day 0 is 1970-01-01 |
| `Civil.CivilCountsDays` | crates/sutegi-log/src/lib.rs:697-712 | n days later is n calendar steps later |
| `Civil.CivilIsCounting` | crates/sutegi-log/src/lib.rs:697-712 | the closed form equals counting days from the epoch one at a time |
| `Civil.CivilIncreases` | crates/sutegi-log/src/lib.rs:697-712 | later days have later dates |
| `Civil.CivilOnto` | crates/sutegi-log/src/lib.rs:697-712 | every valid date is the date of some day |
| `Civil.RoundTrip` | crates/sutegi-log/src/lib.rs:697-712 | counting days and reading the date are inverse |
| `Civil.TimestampExact` | crates/sutegi-log/src/lib.rs:683-694 | date, hour, minute, second and millisecond together are exactly the instant, each in range |
| `CivilText.TextBack` | crates/sutegi-log/src/lib.rs:683-694 | the zero-padded text, whatever the number of year digits, reads back to the date and time; two instants have the same text only if they are the same |
| `Civil.MailDateAgrees` | crates/sutegi-mail/src/message.rs:265-291 | the second copy of the computation gives the same date, with table indices in range |
| `Civil.MailWeekdayAdvances` | crates/sutegi-mail/src/message.rs:265-277 | one day later the weekday is the next one; the epoch is a Thursday |
| `EventStore.Tx.AppendTx` | crates/sutegi-events/src/store.rs:292-347 | a conflict exactly when the stream version read is not the expected one (0 for a stream expected to be new, never when any will do); otherwise the rows are inserted one by one at consecutive positions and versions, or nothing is |
| `EventStore.ReadsAreMaxima` | crates/sutegi-events/src/store.rs:395-409 | the two reads are the greatest position and the greatest version of the stream, or 0 |
| `EventStore.ReadsOfLog` | crates/sutegi-events/src/store.rs:395-409 | on a gap-free log the head is its length and a stream version is the number of its events |
| `EventStore.AdmittedIffFresh` | crates/sutegi-events/src/store.rs:349-363 | the two uniqueness constraints admit the new rows exactly when head and stream version read earlier are still current |
| `EventStore.GapFreeAppend` | crates/sutegi-events/src/store.rs:316-337 | an admitted append keeps positions 1..head and versions 1..n |
| `EventLog.StepInv` | crates/sutegi-events/src/store.rs:253-347 | every step of every concurrent append, reads and commit apart, keeps the log gap-free and each caller consistent |
| `EventLog.AppendSafety` | crates/sutegi-events/src/store.rs:253-347 | in every interleaving positions are 1..head in commit order, and an append that returned Ok wrote its events once, contiguously |
| `EventLog.AppendedMeans` | crates/sutegi-events/src/store.rs:253-347 | in every interleaving an Ok append that expected version v wrote its events when the stream had exactly v events, one that expected no stream when it had none, and its version is that plus their number |
| `EventLog.AnswerMeans` | crates/sutegi-events/src/store.rs:253-347 | in every interleaving a conflict reports a version the stream had during the call, and one that is not the expected one |
| `EventLog.RefusalMeansProgress` | crates/sutegi-events/src/store.rs:270-281 | a commit succeeds exactly when head and stream version are still the ones read; a refused one changes nothing and is tried again up to fifteen times |
| `EventLog.PrimaryKeyAloneAdmitsStale` | crates/sutegi-events/src/store.rs:349-363 | without the uniqueness of (stream, version) a stale append would be admitted: both constraints are needed |
| `Projections.PageOfLog` | crates/sutegi-events/src/projection.rs:125-128 | on the event log a page is the next slice: nothing skipped, nothing repeated |
| `Projections.FoldAppend` | crates/sutegi-events/src/projection.rs:133-135 | folding a concatenation is folding one part and then the other, up to the first refusal |
| `Projections.FoldRuns` | crates/sutegi-events/src/projection.rs:133-135 | the fold gives a model exactly when some trace of models leads to it with the handler accepting every event in turn, and none exactly when the handler refuses an event it is run on |
| `Projections.Projection.Tick` | crates/sutegi-events/src/projection.rs:96-148 | if the handler accepts every event of the page in turn the checkpoint and the model move together behind it; if it refuses one, or a fault comes between, neither moves |
| `Projections.AdvanceExact` | crates/sutegi-events/src/projection.rs:96-148 | appends, claims, reads, commits and aborts of competing workers all keep an exact model exact, never move the checkpoint back, and leave the model alone while it stays |
| `Projections.SoundRuns` | crates/sutegi-events/src/projection.rs:96-183 | in every run, resets and cleared models included, the checkpoint is within the log and one tick at a time works on the page it claimed |
| `Projections.ExactlyOnce` | crates/sutegi-events/src/projection.rs:96-148 | in every run, from the start or from the last reset of an emptied model on, the handler was run on exactly the events up to the checkpoint, once each and in order, and accepted them all |
| `Projections.CaughtUpAgrees` | crates/sutegi-events/src/projection.rs:52-56 | caught up, the model is the one the handler leads to over the whole log, whatever the batch size, schedule, failures or rebuilds |
| `Projections.PoisonedEventHalts` | crates/sutegi-events/src/projection.rs:133-135 | an event the handler refuses on the model before it is never passed: the checkpoint stays before it |
| `Projections.ResetExactIff` | crates/sutegi-events/src/projection.rs:174-183 | a reset, which waits for the row and moves the checkpoint alone, leaves the projection exact if and only if the model is empty at that moment |
| `Projections.RebuildExact` | crates/sutegi-events/src/projection.rs:174-183 | clearing the model and then resetting makes the projection exact again, whatever it held, unless a tick moved the checkpoint in between |
| `Projections.Drain` | crates/sutegi-events/src/projection.rs:150-158 | ticking until nothing is left ends, caught up or at a refused event |
| `JsonRoundTrip.PrintParse` | crates/sutegi-json/src/lib.rs:147-224 | parsing the compact form and the pretty form of a value with finite numbers nested at most 128 deep gives the value back |
| `JsonRoundTrip.RoundTripExactly` | crates/sutegi-json/src/lib.rs:147-230 | the round trip holds if and only if the numbers are finite and the nesting is at most 128 |
| `JsonRoundTrip.ValueBack` | crates/sutegi-json/src/lib.rs:401-427 | a rendered value, wherever it stands in a text, is read up to its last character |
| `JsonRoundTrip.StringBack` | crates/sutegi-json/src/lib.rs:330-365 | every string, escapes and control characters included, is read back from its quoted form |
| `JsonRoundTrip.ValueGood` | crates/sutegi-json/src/lib.rs:401-608 | whatever is parsed has finite numbers, sorted distinct keys and the nesting the parser admits |
| `JsonRoundTrip.ParsePrintParse` | crates/sutegi-json/src/lib.rs:186-230 | what parses prints to a text that parses to the same value |
| `JsonRoundTrip.WrittenParse` | crates/sutegi-json/src/lib.rs:147-230 | any value nested at most 128 deep, its keys in any order and any number of times, is read from its text as itself with every object gathered and null for a number that is not finite |
| `JsonRoundTrip.OnlySpaceFollows` | crates/sutegi-json/src/lib.rs:227-242 | a written value with anything behind it that does not run a number on parses exactly when that is all white space |
| `JsonRoundTrip.NumberCharIs` | crates/sutegi-json/src/lib.rs:549-567 | the characters of a number |
| `JsonRoundTrip.InsertSets` | crates/sutegi-json/src/lib.rs:429-457 | an insertion gives the key the new value, whether or not it had one, and leaves every other key its own |
| `JsonRoundTrip.ObjectsParse` | crates/sutegi-json/src/lib.rs:429-457 | the text of any list of members parses to the object in which each key written has the value of its last member, and no other key is |
| `JsonRoundTrip.SurrogatePair` | crates/sutegi-json/src/lib.rs:493-535 | the escaped surrogate pair of every code point from 0x10000 to 0x10FFFF is read as that character |
| `JsonRoundTrip.BasicCharacter` | crates/sutegi-json/src/lib.rs:493-535 | every code unit outside the surrogates is read as its character, its digits in either case |
| `JsonRoundTrip.LoneSurrogate` | crates/sutegi-json/src/lib.rs:493-535 | a surrogate without its partner is the replacement character, and reading goes on right behind it |
| `JsonRoundTrip.OneLetterEscape` | crates/sutegi-json/src/lib.rs:480-547 | the eight one-letter escapes and their characters; any other letter but u is an error |
| `JsonRoundTrip.SkipsSpace` | crates/sutegi-json/src/lib.rs:395-399 | all of the blanks, tabs and line ends before the next character, and nothing else |
| `JsonParser.Parser.ReadUnicode` | crates/sutegi-json/src/lib.rs:493-535 | a surrogate pair is one character; a lone half becomes the replacement character and the cursor is rewound to before the second escape |
| `JsonParser.Parser.ReadString` | crates/sutegi-json/src/lib.rs:480-547 | the loop agrees with the string grammar and ends, the rewind included |
| `JsonParser.Parser.ReadNumber` | crates/sutegi-json/src/lib.rs:549-567 | the longest run of number characters, and what the number format makes of it |
| `JsonParser.Parser.ReadValue` | crates/sutegi-json/src/lib.rs:401-427 | the recursive descent agrees with the grammar; the cursor stays in bounds and the depth is restored |
| `JsonParser.Parser.ReadArray` | crates/sutegi-json/src/lib.rs:459-478 | elements, commas and the closing bracket |
| `JsonParser.Parser.ReadObject` | crates/sutegi-json/src/lib.rs:429-457 | members into the key-sorted map, as the grammar function says |
| `JsonParser.ParseText` | crates/sutegi-json/src/lib.rs:227-242 | the whole input, and nothing after it but white space |
| `JsonParser.Buffer.EscapeInto` | crates/sutegi-json/src/lib.rs:330-359 | the escaping loop appends exactly the quoted text |
| `JsonParser.Buffer.WriteTo` | crates/sutegi-json/src/lib.rs:186-224 | the compact serializer appends the rendered value |
| `JsonParser.Buffer.WritePretty` | crates/sutegi-json/src/lib.rs:147-184 | the pretty serializer appends the rendered value with its indentation |
| `Supervisor.Runner.Start` | crates/sutegi-actors/src/supervisor.rs:117-131 | a start bumps the generation, counts a restart after the first, and gives all handles |
| `Supervisor.Runner.StopAndJoin` | crates/sutegi-actors/src/supervisor.rs:133-145 | a stop gives up all handles; the thread has ended when it returns |
| `Supervisor.Runner.StopAll` | crates/sutegi-actors/src/supervisor.rs:480-484 | every child is stopped, last first |
| `Supervisor.Runner.StopRange` | crates/sutegi-actors/src/supervisor.rs:455-460 | the children of the range that have a thread are stopped, last first |
| `Supervisor.Runner.StartRange` | crates/sutegi-actors/src/supervisor.rs:461-463 | the children of the range are started, in order |
| `Supervisor.Runner.HandleExit` | crates/sutegi-actors/src/supervisor.rs:406-466 | one exit message is handled as the transition function says |
| `SupervisorSafety.StopFromEffect` | crates/sutegi-actors/src/supervisor.rs:455-460 | stopping a range ends exactly the threads held there and changes nothing else |
| `SupervisorSafety.StartFromEffect` | crates/sutegi-actors/src/supervisor.rs:461-463 | starting a range moves each child there one generation on with one new thread |
| `SupervisorSafety.TrimExact` | crates/sutegi-actors/src/supervisor.rs:431-436 | trimming drops exactly the leading events older than the window |
| `SupervisorSafety.TrimmedIsRecent` | crates/sutegi-actors/src/supervisor.rs:428-436 | after an event the deque holds exactly the restart events of the last window |
| `SupervisorSafety.SpacedMeansCapped` | crates/sutegi-actors/src/supervisor.rs:428-442 | spaced events put at most the maximum into any closed interval as long as the window |
| `SupervisorSafety.StepSafe` | crates/sutegi-actors/src/supervisor.rs:402-469 | every step, threads ending and shutdown included, keeps the invariant |
| `SupervisorSafety.SupervisorRuns` | crates/sutegi-actors/src/supervisor.rs:377-470 | in every run handles are all or none, restarts are one less than the generation, each child has at most one thread and none is orphaned, and each exit is acted on at most once |
| `SupervisorSafety.EveryRun` | crates/sutegi-actors/src/supervisor.rs:377-470 | in every run a child has all three handles or none and one restart fewer than generations, each running thread is the current one of exactly one child, no exit is acted on twice, and once stopped or failed no thread runs |
| `SupervisorSafety.RestartsCapped` | crates/sutegi-actors/src/supervisor.rs:428-442 | in every run any max_restarts + 1 performed restarts in a row take longer than the window, so every closed interval as long as it has at most max_restarts |
| `SupervisorSafety.StaleExitIgnored` | crates/sutegi-actors/src/supervisor.rs:411-416 | an exit of a replaced generation changes nothing but the queue |
| `SupervisorSafety.RestartEffect` | crates/sutegi-actors/src/supervisor.rs:449-463 | a restart leaves the children before the range start alone and runs every one from there on one generation later |
| `SupervisorSafety.RestartOrder` | crates/sutegi-actors/src/supervisor.rs:455-463 | a restart stops the running children of the range last to first, then starts all of them first to last |
| `SupervisorSafety.UpwardIs` | crates/sutegi-actors/src/supervisor.rs:461-463 | the starts of a range are its indexes in ascending order, each once |
| `SupervisorSafety.DownwardIs` | crates/sutegi-actors/src/supervisor.rs:455-460 | the stops of a range are its running children in descending order, each once |
| `SupervisorSafety.ExcessFails` | crates/sutegi-actors/src/supervisor.rs:438-442 | the supervisor fails exactly when the window holds more than max_restarts events, and then every child is stopped |
| `SupervisorPolicies.OneForOneOnlyIfLast` | crates/sutegi-actors/src/supervisor.rs:449-463 | OneForOne restarts only the exited child if and only if no child was declared after it, against the documentation at lines 29-31 |
| `SupervisorPolicies.ExitDecides` | crates/sutegi-actors/src/supervisor.rs:417-463 | within the cap an exited child runs one generation later if and only if it is permanent, or transient and crashed; otherwise it stays down and no other child changes |
| `SupervisorPolicies.StrategyMoves` | crates/sutegi-actors/src/supervisor.rs:449-463 | OneForAll moves every child, the other strategies exactly those declared from the exited one on |
| `SupervisorPolicies.TemporaryKeptIff` | crates/sutegi-actors/src/supervisor.rs:455-463 | a sibling restart leaves temporary children alone if and only if none stands at or after the range start, against the documentation at lines 22-23 |
| `SupervisorPolicies.SiblingRestarted` | crates/sutegi-actors/src/supervisor.rs:449-463 | a run under OneForOne in which the first child ends and the second, temporary or not and still in its first thread, is started again |
| `SupervisorPolicies.EndedForGoodRuns` | crates/sutegi-actors/src/supervisor.rs:417-426 | in every run of a running supervisor a child without a thread is a temporary one or a transient one whose thread did not crash |
| `SupervisorPolicies.CleanStopFinalIff` | crates/sutegi-actors/src/supervisor.rs:455-463 | a sibling restart leaves cleanly stopped transient children stopped if and only if none stands at or after the range start, against the documentation at lines 20-21 |
| `SupervisorPolicies.CleanStopUndone` | crates/sutegi-actors/src/supervisor.rs:455-463 | a run in which a transient child stops cleanly and is started again by a sibling exit |
| `Presence.DiffMetas` | crates/sutegi-channels/src/presence.rs:382-391 | joined and remaining are the two multiset differences |
| `Presence.DiffStates` | crates/sutegi-channels/src/presence.rs:376-404 | joins and leaves are, key by key, the multiset differences of the two states |
| `Presence.SilentIff` | crates/sutegi-channels/src/presence.rs:359-361 | a state is fanned out as nothing if and only if it has every cached key and the same metas under each of its keys; a cached key without metas still leaves when it goes |
| `Presence.StateExact` | crates/sutegi-channels/src/presence.rs:339-362 | after a state message the cache is the snapshot, and old list plus joins equals new list plus leaves with nothing both joining and leaving, whatever was cached |
| `Presence.JoinExact` | crates/sutegi-channels/src/presence.rs:310-336 | a join diff is exact |
| `Presence.KeysAfter` | crates/sutegi-channels/src/presence.rs:310-328 | a leave takes its key out of the cache exactly when no meta is left under it, and a join puts it there; no other key changes |
| `Presence.LeaveExactIff` | crates/sutegi-channels/src/presence.rs:310-336 | a leave diff is exact if and only if the meta was cached for the pod that sent it: the diff is fanned out without looking |
| `Presence.TrackExact` | crates/sutegi-channels/src/presence.rs:115-137 | a track that replaces another is the leave of the old meta and the join of the new, exactly |
| `Presence.UntrackExact` | crates/sutegi-channels/src/presence.rs:408-430 | an untrack is the leave of the meta; the topic is dropped exactly with its last member |
| `Presence.Snapshot` | crates/sutegi-channels/src/presence.rs:246-261 | the published state counts every local member once |
| `Presence.Tracker.TrackNow` | crates/sutegi-channels/src/presence.rs:110-138 | local change, messages published in order, diffs fanned out, and the merged list pushed to the tracked member |
| `Presence.Tracker.OnMessage` | crates/sutegi-channels/src/presence.rs:293-365 | cache update, reply and diff for each action; every state diff exact and minimal, and silent exactly for an unchanged state |
| `Presence.Tracker.Untrack` | crates/sutegi-channels/src/presence.rs:408-430 | one membership dropped, if there is one, its leave published and its diff fanned out; nothing otherwise |
| `Presence.Tracker.Housekeep` | crates/sutegi-channels/src/presence.rs:454-484 | a cached pod stays, with its entries, if and only if it was heard within two and a half intervals; what the others claimed leaves the list exactly |
| `Presence.Tracker.List` | crates/sutegi-channels/src/presence.rs:153-171 | the merged list counts local members and every cached pod |
| `Presence.Expire` | crates/sutegi-channels/src/presence.rs:464-483 | expired pods are removed one by one with one diff each |
| `PresenceSync.SoundRun` | crates/sutegi-channels/src/presence.rs:110-138 | in every run of any number of pods a pod with members is subscribed, and none caches or hears itself |
| `PresenceSync.OutboxConserved` | crates/sutegi-channels/src/presence.rs:110-138 | in every run each message a pod comes to owe, a join per track, a leave per membership replaced or dropped, the first request, a state per beat or request answered, is published once or about to be, and no other is |
| `PresenceSync.InboxConserved` | crates/sutegi-channels/src/presence.rs:293-365 | in every run each message published while a pod listens waits there once until it is handled |
| `PresenceSync.ExpiryExact` | crates/sutegi-channels/src/presence.rs:454-484 | in every run a tick drops exactly the pods whose last message is more than two and a half intervals old |
| `PresenceSync.StateSyncs` | crates/sutegi-channels/src/presence.rs:339-357 | handling a current state message makes the cache agree with the members of its sender, whatever it held |
| `PresenceSync.Converged` | crates/sutegi-channels/src/presence.rs:153-171 | with stable locals and nothing older in flight, one state message of each pod makes every list the union of all locals, messages arriving in any order |
| `PresenceSync.JoinSyncsIff` | crates/sutegi-channels/src/presence.rs:310-328 | a join message brings the cache in line if and only if it was in line before the track |
| `PresenceSync.LeaveSyncsIff` | crates/sutegi-channels/src/presence.rs:310-328 | a leave message for a cached meta brings the cache in line if and only if it was in line before the untrack |
| `PresenceSync.DoubleCount` | crates/sutegi-channels/src/presence.rs:115-136 | a reachable run in which a request answered between the local insert and the join makes a member count twice |
| `Search.ParseQuery` | crates/sutegi-orm/src/search.rs:51-95 | the loop ends and yields what the grammar functions say, error cases included |
| `Search.AcceptedIsGood` | crates/sutegi-orm/src/search.rs:84-94 | an accepted query has non-empty groups of sanitized words, each with a positive term |
| `SearchRoundTrip.ParseShow` | crates/sutegi-orm/src/search.rs:51-95 | every query of sanitized terms, written in the grammar, parses back to itself |
| `SearchRoundTrip.TermParsed` | crates/sutegi-orm/src/search.rs:65-82 | one turn of the loop reads one written term and the space after it |
| `SearchGrammar.WordsByLaw` | crates/sutegi-orm/src/search.rs:39-44 | a text is cut at every character that is no ASCII letter, digit or underscore, and its words are put in lower case |
| `SearchGrammar.ParseItems` | crates/sutegi-orm/src/search.rs:51-95 | any items between any white space parse to the alternatives that say something, with the terms of their items in order, or to one of the two errors, exactly then |
| `SearchGrammar.EveryInput` | crates/sutegi-orm/src/search.rs:51-95 | every input is such items: words, phrases closed or not, exclusions and ORs |
| `TsQuery.GroupsLexed` | crates/sutegi-orm/src/search.rs:101-127 | the rendered text spells exactly the intended tokens of the engine |
| `TsQuery.ReadsBack` | crates/sutegi-orm/src/search.rs:101-127 | the rendered text parses under !, <->, &, \| to the tree of the query |
| `TsQuery.PhraseHolds` | crates/sutegi-orm/src/search.rs:103-104 | words chained by <-> match exactly where they stand in a row |
| `TsQuery.TsqueryMeans` | crates/sutegi-orm/src/search.rs:101-127 | the text matches exactly the documents the query means |
| `Fts5.GroupText` | crates/sutegi-orm/src/search.rs:137-148 | the NOT clauses appended in a loop are the rendering of the group |
| `Fts5.ReadsBack` | crates/sutegi-orm/src/search.rs:132-155 | the rendered text parses under NOT, AND, OR to a tree in which NOT binds to the last phrase alone |
| `Fts5.Fts5Means` | crates/sutegi-orm/src/search.rs:132-155 | the text still matches exactly the documents the query means |
| `Fts5.EnginesAgree` | crates/sutegi-orm/src/search.rs:51-155 | every accepted input means the same documents to both engines |
| `Fusion.AddLeg` | crates/sutegi-orm/src/search.rs:358-364 | one leg adds each row the reciprocal of its rank |
| `Fusion.BothBeatsOne` | crates/sutegi-orm/src/search.rs:355-364 | with at most 60 places in a leg a row in both legs scores strictly above every row in one |
| `Fusion.TightAtFifteen` | crates/sutegi-orm/src/search.rs:298-301 | over all legs the promise holds if and only if k is at most 15 |
| `Fusion.Best` | crates/sutegi-orm/src/search.rs:365-367 | the k best rows, distinct, in non-increasing score; nothing left out scores more |
| `Fusion.Fuse` | crates/sutegi-orm/src/search.rs:355-367 | the fused rows are distinct rows of either leg with their exact scores, the k best, best first |
| `Fusion.Attach` | crates/sutegi-orm/src/search.rs:369-387 | rows gone from the table drop out and the order stays |
| `Sql.ToPgPlaceholders` | crates/sutegi-orm/src/pg.rs:26-45 | the scanning loop is the translation function |
| `Sql.TranslateTemplate` | crates/sutegi-orm/src/pg.rs:26-45 | in text whose places stand outside literals the k-th ? becomes $k and nothing else changes |
| `Sql.MarksAreValues` | crates/sutegi-orm/src/pg.rs:26-45 | such a text has one unquoted ? per value |
| `Sql.FillPlaced` | crates/sutegi-orm/src/builder.rs:274-277 | a raw fragment gives every value its place exactly when it has as many unquoted placeholders as values |
| `Identifiers.IdentifierClean` | crates/sutegi-orm/src/builder.rs:19-52 | an accepted identifier holds no quote and no question mark |
| `Identifiers.OperatorClean` | crates/sutegi-orm/src/builder.rs:57-72 | an accepted operator holds no quote and no question mark, in any case |
| `Identifiers.IdentifierIs` | crates/sutegi-orm/src/builder.rs:19-52 | accepted is exactly a star, a name, or a name with a name or a star behind one dot |
| `Identifiers.OperatorIs` | crates/sutegi-orm/src/builder.rs:57-72 | accepted are exactly the eleven operators, in either case |
| `Builder.RenderPred` | crates/sutegi-orm/src/builder.rs:212-279 | each predicate is rendered with each value at the operator it belongs to; only containment on SQLite is refused |
| `Builder.RenderPredicates` | crates/sutegi-orm/src/builder.rs:199-282 | the WHERE clause and its values, in order |
| `Builder.ChainSanitized` | crates/sutegi-orm/src/builder.rs:329-599 | after any chain of setters that recorded no error, JSON paths parsed and row locks among them, everything interpolated is free of quotes and question marks |
| `Builder.BuildsClosed` | crates/sutegi-orm/src/builder.rs:620-682 | every chain that builds, with fitting raw fragments, puts all its places outside literals |
| `Builder.BuiltTranslates` | crates/sutegi-orm/src/builder.rs:620-682 | so a built query has one ? per value, the k-th belonging to the k-th value, and is translated to $1..$n with nothing else changed |
| `Builder.BuildFor` | crates/sutegi-orm/src/builder.rs:620-682 | SQL and values are those of the template, or the recorded error |
| `Builder.CountTranslates` | crates/sutegi-orm/src/builder.rs:688-706 | the count query has the WHERE values alone, one ? each, in order |
| `Builder.BuildCountFor` | crates/sutegi-orm/src/builder.rs:693-706 | SQL and values of the count template |
| `Selecting.ChainLock` | crates/sutegi-orm/src/builder.rs:426-471 | a chain that builds asks for a lock exactly when a call names its strength; the last strength and the last way of waiting count, and none says how to wait before a strength is named |
| `Selecting.SelectTranslates` | crates/sutegi-orm/src/backend.rs:359-370 | with the row-lock clause at its end the statement still has one ? per value, in order, and is translated with nothing else changed |
| `Selecting.Select` | crates/sutegi-orm/src/backend.rs:183-205 | an error exactly when a check failed, the engine lacks the JSON paths that are used, containment is asked of SQLite, or not waiting is asked of an engine that cannot skip locked rows; otherwise the text with its lock clause and its values |
| `Updates.UpdateTranslates` | crates/sutegi-orm/src/builder.rs:769-794 | an update has one ? per value, SET values first, and is translated in order |
| `Updates.Build` | crates/sutegi-orm/src/builder.rs:769-794 | SQL and values of the update template, or the recorded error |
| `SqlReading.WhereSays` | crates/sutegi-orm/src/builder.rs:199-282 | the text and values of a WHERE clause, cut into words and signs, are the words meant, for every predicate but a raw fragment |
| `SqlReading.WhereRead` | crates/sutegi-orm/src/builder.rs:199-282 | read back, they are the predicates asked for, in order: columns, operators, values, empty lists as never, OR groups, NULL tests, casts and paths |
| `StatementReading.ChainAsks` | crates/sutegi-orm/src/builder.rs:329-599 | a chain that builds holds exactly what its calls ask for: the last columns, grouping and page, and every join, predicate and ordering in order |
| `StatementReading.SelectReadsBack` | crates/sutegi-orm/src/builder.rs:620-682 | the SQL and values sent for a chain without raw fragments read back as exactly the statement its calls ask for, lock clause included, if and only if the first of its columns, without distinct, is not named DISTINCT |
| `StatementReading.CountReadsBack` | crates/sutegi-orm/src/builder.rs:693-706 | the count reads back as the same tables, joins and predicates |
| `StatementReading.UpdateReadsBack` | crates/sutegi-orm/src/builder.rs:769-794 | an UPDATE reads back as every assignment with its value, the predicates, and the columns to return |
| `JsonPath.Parse` | crates/sutegi-orm/src/builder.rs:112-150 | the path loop is the grammar: keys, indexes that fit 64 bits, and its errors |
| `JsonPath.PathIs` | crates/sutegi-orm/src/builder.rs:112-150 | a path is accepted, as these segments, exactly when it is a dollar sign and their texts |
| `JsonPath.PrintPath` | crates/sutegi-orm/src/builder.rs:153-165 | the printed canonical path |
| `JsonPath.PathBack` | crates/sutegi-orm/src/builder.rs:112-165 | printing segments and parsing them gives them back |
| `JsonPath.CanonicalPath` | crates/sutegi-orm/src/builder.rs:112-165 | an accepted path prints to a canonical path with the same segments |
| `JsonPath.PgPathIff` | crates/sutegi-orm/src/builder.rs:167-179 | the unquoted array literal reads back as the segments if and only if no key is spelled null, though quoting is said never to be needed |
| `JsonPath.NullKeyReachable` | crates/sutegi-orm/src/builder.rs:167-179 | $.null is accepted and read as the missing element |
| `Copy.CopyText` | crates/sutegi-orm/src/pg.rs:472-493 | one field, escaped where the code escapes |
| `Copy.CopyRows` | crates/sutegi-orm/src/pg.rs:453-463 | the rows, tabs between fields and a newline after each row |
| `Copy.FieldBack` | crates/sutegi-orm/src/pg.rs:470-493 | a field holds no bare delimiter, row end or carriage return, is not the end marker, and reads back as its text or as NULL |
| `Copy.ReadBack` | crates/sutegi-orm/src/pg.rs:453-493 | the server reads every row back, NULL distinct from every text |
| `Copy.Injective` | crates/sutegi-orm/src/pg.rs:453-493 | the COPY text determines the contents of every row |
| `Http.Reader.ReadLine` | crates/sutegi-http/src/lib.rs:368-410 | the capped line is a function of the bytes alone, however they arrive |
| `Http.Reader.ReadBody` | crates/sutegi-http/src/lib.rs:550-570 | the body is the next bytes, in whatever pieces they arrive, or an error |
| `Http.ReadHeaders` | crates/sutegi-http/src/lib.rs:498-543 | the header loop over a reader is the header function over the bytes |
| `Http.ParseRequest` | crates/sutegi-http/src/lib.rs:464-581 | the outcome does not depend on the chunking, and an accepted request takes exactly its bytes |
| `HttpFraming.AcceptedFraming` | crates/sutegi-http/src/lib.rs:498-570 | an accepted request is within the budgets, has no header named transfer-encoding in any case, and its body is as long as each Content-Length says, each a decimal number below 2^64; with a body there is one |
| `HttpFraming.AccountIs` | crates/sutegi-http/src/lib.rs:516-541 | a transfer encoding is refused with 501, a length that is no number or differs from one before with 400, any other header leaves the length alone |
| `HttpFraming.RestIrrelevant` | crates/sutegi-http/src/lib.rs:464-581 | a request with a complete head is the same whatever follows it |
| `HttpFraming.OwnBytesIff` | crates/sutegi-http/src/lib.rs:502-515 | that holds for every continuation if and only if the head was ended by an empty line: the end of the stream is also accepted as its end |
| `HttpFraming.CutShortAccepted` | crates/sutegi-http/src/lib.rs:502-515 | one letter and the end of the stream is accepted as a request, though one more newline would have belonged to it |
| `HttpFraming.ReadsBack` | crates/sutegi-http/src/lib.rs:464-581 | a well-formed request with anything after it is read back and takes exactly its own bytes |
| `HttpFraming.PipelineReadsBack` | crates/sutegi-http/src/lib.rs:464-581 | any concatenation of well-formed requests parses to that list |
| `HttpOutcomes.HeaderRefused` | crates/sutegi-http/src/lib.rs:502-543 | whatever follows it, the first header that offends decides: 501 for a transfer encoding, 400 for a length that is no number or not the one given before |
| `HttpOutcomes.BodyLimits` | crates/sutegi-http/src/lib.rs:545-570 | with a written head the body alone decides: too large above the limit, an error if the stream ends inside it, accepted otherwise |
| `HttpOutcomes.FirstLineOutcome` | crates/sutegi-http/src/lib.rs:477-482 | nothing sent is a closed connection, and only that; a first line over the budget is too large |
| `HttpOutcomes.HeaderLine` | crates/sutegi-http/src/lib.rs:516-518 | the first colon divides a header line, and the white space around name and value does not belong to them |
| `HttpConnection.HandleConnection` | crates/sutegi-http/src/lib.rs:858-940 | the connection loop serves what the bytes alone say, however they were cut into chunks |
| `HttpConnection.StaysIs` | crates/sutegi-http/src/lib.rs:717-724 | the connection is kept exactly when the answer is whole and the first Connection header says keep-alive, for HTTP/1.0, or does not say close, for any other version |
| `HttpConnection.ServedUpTo` | crates/sutegi-http/src/lib.rs:858-940 | served are the first outcomes of reading the connection to its end, each but the last of them a request whose version and Connection header keep it open and whose answer is whole, up to the cap, and no further |
| `HttpConnection.PipelineServed` | crates/sutegi-http/src/lib.rs:858-940 | well-formed requests that keep the connection open are served in order, as many as the cap allows, then the end of the stream is seen |
| `Pool.Monitor.CheckoutTurn` | crates/sutegi-pg/src/pool.rs:82-110 | one turn of the loop: take an idle connection, reserve a slot, or sleep |
| `Pool.Monitor.Checkin` | crates/sutegi-pg/src/pool.rs:113-118 | the connection becomes idle |
| `Pool.Monitor.Free` | crates/sutegi-pg/src/pool.rs:120-125 | a slot is freed |
| `Pool.StepAccounted` | crates/sutegi-pg/src/pool.rs:82-125 | every lock section keeps the accounting and loses no wakeup |
| `Pool.PoolRuns` | crates/sutegi-pg/src/pool.rs:82-125 | in every run idle, used and dialing connections make up open within the cap, no connection is in two hands, and while threads sleep free slots never exceed awake threads |
| `Pool.HolderHasSlot` | crates/sutegi-pg/src/pool.rs:96-103 | the open count never goes below zero |
| `Pool.SomeoneMoves` | crates/sutegi-orm/src/db.rs:148-182 | as long as any thread is not away, some thread can act |
| `Pool.MovesEnd` | crates/sutegi-orm/src/db.rs:148-182 | a run without new arrivals is no longer than the work at its start |
| `Pool.EveryoneServed` | crates/sutegi-orm/src/db.rs:148-182 | such a run ends only when every thread has been served: no waiter is left asleep |
| `Transactions.Handle.Transact` | crates/sutegi-orm/src/db.rs:284-308 | BEGIN, the body, then COMMIT or ROLLBACK, on the connection popped off the stack and pushed back |
| `Transactions.Handle.Execute` | crates/sutegi-orm/src/db.rs:498-530 | a single statement on the connection popped off the stack and pushed back |
| `Transactions.TopStuckIff` | crates/sutegi-orm/src/db.rs:148-182 | one use at a time: the top of the stack is inside a transaction exactly when an earlier use left it open and no failing statement has rolled it back since; the connections below are never reached |
| `Transactions.SerialUse` | crates/sutegi-orm/src/db.rs:284-308 | after any uses the next transaction begins exactly when its BEGIN succeeds and the top was not left open, and acknowledged rows are committed exactly when it was not |
| `Transactions.Starved` | crates/sutegi-orm/src/db.rs:284-308 | once the top was left open no transaction begins and nothing is committed any more, while single statements still report success |
| `Transactions.StuckIff` | crates/sutegi-orm/src/db.rs:141-182 | in every interleaving of threads a connection is stuck exactly when some use of it left its transaction open and no later statement on it rolled that back |
| `Transactions.CapacityLost` | crates/sutegi-orm/src/db.rs:141-182 | stuck connections count against the size of the pool; once all of it is stuck, every thread that gets a connection gets a stuck one |
| `Transactions.StuckServedNext` | crates/sutegi-orm/src/db.rs:158-182 | the thread that next checks out gets the very connection just left open, even when clean ones lie below it |
| `Hub.Maps.Admit` | crates/sutegi-channels/src/hub.rs:492-519 | the two halves of an admission, uninterrupted |
| `Hub.Maps.Tear` | crates/sutegi-channels/src/hub.rs:607-634 | one membership removed from both maps, the subscription with the last, the callback once; or nothing to remove |
| `Hub.Maps.ForgetMember` | crates/sutegi-channels/src/hub.rs:653-666 | the last member takes the entry and its subscription |
| `Hub.StepOnce` | crates/sutegi-channels/src/hub.rs:607-650 | every lock section keeps each membership in exactly one place |
| `Hub.StepSubscribed` | crates/sutegi-channels/src/hub.rs:497-518 | every lock section keeps the live subscriptions accounted for |
| `Hub.HubRuns` | crates/sutegi-channels/src/hub.rs:438-666 | in every run, kicks overlapping anything included, joins belong to open connections, entries have members, memberships are torn down once and subscriptions are accounted for |
| `Hub.StepAgreedIff` | crates/sutegi-channels/src/hub.rs:438-519 | a lock section keeps members and joins in step on a membership if and only if it neither kicks it between the two halves of its admission nor admits it while a kick has yet to forget it |
| `Hub.OrderlyAgrees` | crates/sutegi-channels/src/hub.rs:438-519 | a membership on which every step so far was orderly is in step, whatever happened to others |
| `Hub.QuietAgreesIff` | crates/sutegi-channels/src/hub.rs:438-666 | at every quiet point of every run a connection is in the members if and only if it holds the join, exactly when the last step that entered or forgot it was in order |
| `Hub.QuietSound` | crates/sutegi-channels/src/hub.rs:607-666 | at every quiet point of every run a topic has an entry exactly while it has members, with one live subscription, and each membership is held or has had its leave callback once |
| `Hub.QuietBroadcast` | crates/sutegi-channels/src/hub.rs:572-604 | at quiet points a broadcast reaches a connection if and only if it is joined and not excluded, exactly when its last entering or forgetting was in order, and is sent once |
| `Hub.KickDuringAdmit` | crates/sutegi-channels/src/hub.rs:492-519 | a run in which a kick between the two halves of an admission leaves a member that has not joined |
| `Hub.KickBeforeRejoin` | crates/sutegi-channels/src/hub.rs:607-666 | a run in which a kick forgets the member only after the client joined again: joined, but no entry, no member and no subscription |

## Left out

- Sockets, TLS, files, processes, clocks, sleeps and randomness: times are inputs, timeouts and faults are nondeterministic steps or excluded; the wrappers that draw a random nonce add only that.
- The SHA-256 compression, the ChaCha20 block function and HMAC are uninterpreted functions; SHA-1 and MD5 are not modelled.
- The databases: tables are sequences or maps with uniqueness constraints, transactions are atomic commits over what they read; the wire protocol, advisory locks and the in-process lock registry are not modelled.
- Floating point: numbers in JSON are abstract tokens with a print and parse inverse, fusion scores are exact rationals, real and vector values are known by their text.
- Text encoding: texts are sequences of characters, UTF-8 validity is a parameter of the request reader, letters and white space are ASCII.
- Error messages: errors are told apart as far as callers can act on them.
- Civil.CivilFollowsCalendar: does not model 64-bit overflow at the ends of the day range.
- Civil.MailDateAgrees: states the fields of the mail header, not its padded text, which is the same kind of text as the timestamp's.
- Sha256.PaddedInjective: is for messages below 2^61 bytes, as the bit length is kept modulo 2^64.
- JsonParser.ParseText: input is a sequence of characters, not bytes; object keys are kept sorted by the character order of the ordered map.
- EventLog.AppendSafety: the backoff between retries and the notification after an append are not modelled.
- Projections.ExactlyOnce: is about one projection; handlers act on one read model in the same transaction and are deterministic; waking and polling are not modelled.
- SupervisorSafety.SupervisorRuns: rests on each thread posting one exit when it ends, which the actor loop provides and which is a step of the model; exits wait in a set, so any order of arrival is covered; backoff sleeps and the registry are not modelled, nor is an actor that never returns.
- PresenceSync.Converged: message text is already parsed; malformed messages are ignored by the code and have no step here; diffs reach a pod's own members without loss.
- TsQuery.TsqueryMeans: a document is its sequence of words; the engines' own tokenizers, dictionaries and ranking are not modelled, nor positions of `<->` over anything but words.
- Fts5.Fts5Means: a doubled quote inside a string and implicit AND, neither ever rendered, are not modelled.
- Fusion.Fuse: the order among equal scores is arbitrary, as the score map's iteration order is; fetching the legs is not modelled.
- Builder.BuiltTranslates: a raw fragment and its values are the caller's and must fit each other; the DELETE builder, which is the UPDATE builder without assignments, is not modelled.
- Sql.TranslateTemplate: literals are single-quoted text; comments and dollar-quoted text, which the translation does not know either, may only come from raw fragments.
- StatementReading.SelectReadsBack: raw fragments say what their caller wrote and are not read back.
- Copy.ReadBack: a real's text is assumed to hold no character COPY treats specially; octal and hexadecimal escapes, never written, are refused by the reader.
- Http.ParseRequest: deadlines, interrupted reads and other I/O errors are not modelled; white space beyond ASCII is not split on.
- Pool.PoolRuns: handlers that panic while holding a connection are not modelled; the SQLite pool is the same machine without discarding.
- Hub.HubRuns: assumes that a connection's own messages are handled one at a time, as its reading thread does; callbacks' own effects are not modelled.
- Transactions.SerialUse: whether BEGIN, COMMIT, ROLLBACK and each statement succeed, and whether a failure ends the transaction, is the engine's and an input; SQL text that itself begins or ends a transaction is not modelled.
- HttpConnection.HandleConnection: the bytes left over for an upgraded protocol, writing responses and the handler's panics are not modelled.
- Response writing, the accept loop and the thread pool: their interesting part is I/O.
- Migrations, introspection, authentication, mail delivery, embeddings, key-value store, macros, CLI, templates and the site: code generation, user interface or operations behind one or two branches.
