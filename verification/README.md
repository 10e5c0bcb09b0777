# pg_doorman: a verified model of its protocol core

pg_doorman is a PostgreSQL connection pooler. This project models the parts of it that carry hard correctness arguments
and proves what they promise, for all inputs, all runs and all interleavings.

- **Prepared-statement rewriting.** The pooler renames statements, skips Parse messages a backend already holds and
  splices synthetic ParseComplete messages into the replies. `Wire`, `Frames` and `BatchReorder` define the rewriting of
  one reply buffer; `BatchConservation` and `BatchErrors` say what is conserved; `BatchPlacement`, `BatchExact`,
  `BatchOneBuffer`, `BatchShapes`, `BatchOneExact`, `BatchNecessity`, `BatchCuts`, `BatchFlush`, `BatchProtocol`,
  `BatchErrorExact`, `BatchRows` and `BatchExamples` say exactly when the client cannot tell that Parses were skipped;
  `BatchLoops` holds the loops over positions and counters. `Lru` and `PreparedCache` are the per-client cache,
  `ClientProtocol` the state machine and the object of one client, `ClientRenaming`, `ClientForwarding`, `PoolNames` and
  `SharedPool` its soundness for one client and for any number on one pool, and `ClientReplies` joins a session's
  batches with the rewriting of their replies.
- **Client migration.** `MigrationCodec` is the binary format as a printer and a parser, `MigrationRoundTrip` the round
  trip, `MigrationFormat` exactly what is accepted, `MigrationBuffers` the appending encoder and the cursor-driven
  decoder, `MigrationFrame` the reassembly of a frame from short receives over one reused buffer, `MigratedCache` what
  becomes of a statement cache and `MigratedClient` what the client may still refer to.
- **Auth-query cache.** `AuthCache` is a state machine over the steps of concurrent callers with a clock, `AuthAnswers`
  the reason of each of its events.
- **SCRAM-SHA-256, both ends.** `Scram` defines client and server after sections 2.2 and 3 of RFC 5802 (SHA-256 as in
  RFC 7677), `ScramLoops` the code that works in place, `ScramMessages` exactly what is accepted, `ScramAgreement` the
  logins.
- **Smaller cores.** `Hba`, `HbaDecisions`, `HbaText`, `HbaGrammar` and `HbaRoundTrip` are rule evaluation and the rule
  text; `LogFilter`, `LogGrammar` and `LogController` the runtime log filter; `Admission` the fetch-add gates; `TextOps`
  the string operations they share.

Code that changes things step by step is a class or a method with loops, proved equal to a function; the properties are
lemmas about these functions. Input and output, the clock, random values and code outside these files are parameters.
`usize` subtractions that can go below zero, slices out of range and 64-bit wrapping are explicit outcomes of the model.

Where the code does not do what one might expect, the model follows the code and says exactly when the expectation holds:

- The reply to a placeable batch comes out as if no Parse had been skipped if and only if no notice or other message comes
  between a skipped Parse and the next completion (`BatchExact.ExactIffPrompt`, `BatchExamples.NoticeOvertakes`).
- With replies that have no such message it does so for every reply as received if and only if no skipped Parse waits at
  an Execute or a portal Describe (`BatchCuts.ExactIffPlaceable`); for replies that come in one buffer there is one
  exception more (`BatchNecessity.OneBufferIff`).
- At a Flush all synthetic ParseCompletes come before the reply, which is exact if and only if nothing but ParseComplete
  answers the operations before a skipped Parse (`BatchFlush.FlushIffNothingBefore`).
- When an operation fails, the client cannot tell that Parses were skipped if and only if the reply was prompt, none was
  skipped after the failed operation and none waits at the end of the batch (`BatchErrorExact.ErrorExactIff`).
- An error split from its ReadyForQuery conserves ParseCompletes if and only if nothing mapped was open
  (`BatchErrors.ErrorAcrossBuffers`).
- A migrated client keeps its named statements and has to parse its unnamed one again
  (`MigratedClient.RenamingSurvivesMigration`).
- Refetches keep `min_interval` if and only if both TTLs are at least that long (`AuthCache.RateLimitIff`).
- A login between the two ends succeeds if and only if nonce and salt avoid the patterns that the client's parser erases
  (`ScramAgreement.Agreement`).
- The accept loop admits up to `max_connections + 1` clients (`Admission.AcceptLoopBound`).

## Model

| member | source | states |
|---|---|---|
| `BatchReorder.PlanConserves` | src/client/batch_handling.rs:118-175 | the plan built from any batch has distinct indices below the number of operations of each kind, and its entries plus what is still pending sum to the number of skipped Parses |
| `BatchReorder.PlanCounts` | src/client/batch_handling.rs:118-175 | the indices of the plan are the numbers of operations of each kind in the batch |
| `BatchReorder.AddGet` | src/client/batch_handling.rs:29-49 | adding to an insertion map raises exactly one index and the sum by the count |
| `BatchReorder.RelevantGet` | src/client/batch_handling.rs:177-204 | offsetting a map by the replies already seen reads the same entry at the shifted index |
| `BatchReorder.PendingSplit` | src/client/batch_handling.rs:177-208 | what is open from an index on is the entry there plus what is open after it |
| `Frames.SplitFlatten` | src/client/batch_handling.rs:252-270 | cutting a buffer of whole messages by their length fields gives the messages back and leaves nothing |
| `Frames.SplitCovers` | src/client/batch_handling.rs:252-270 | any buffer is its complete messages followed by the incomplete rest |
| `BatchConservation.RunKeepsOriginals` | src/client/batch_handling.rs:252-349 | erasing what the loop inserted gives back the server's messages in order, for every batch and reply |
| `BatchConservation.StepSpends` | src/client/batch_handling.rs:272-331 | one message inserts no more than leaves the maps, so the subtractions stay non-negative |
| `BatchConservation.Conservation` | src/client/batch_handling.rs:74-358 | for every batch shape and every one-chunk reply ending in its only ReadyForQuery, with at most one error followed by pass-through messages: no underflow, exactly one ParseComplete per skipped Parse, the server's bytes in order, the trailing partial message unchanged |
| `BatchErrors.ErrorAcrossBuffers` | src/client/batch_handling.rs:320-355 | an error whose ReadyForQuery comes in the next buffer, whatever earlier buffers answered: both calls finish with the server's messages in order, and together they insert what the batch was owed if and only if no mapped insertion was open after the error; each one that was open is inserted twice |
| `BatchPlacement.RunIsAbsolute` | src/client/batch_handling.rs:177-349 | a call counting from its own start inserts what counting from the start of the batch would insert |
| `BatchPlacement.ChunkIndependence` | src/client/batch_handling.rs:177-239 | for batches in which no Execute consumes a skipped Parse, any cut of an error-free reply at message boundaries gives, joined, the output of the whole reply, including through the early-return counting path |
| `BatchPlacement.PlanLooksUp` | src/client/batch_handling.rs:118-175 | the plan puts before each operation's completion exactly what was pending when the batch reached it |
| `BatchExact.ExactIffPrompt` | src/client/batch_handling.rs:74-358 | for every placeable batch, every error-free reply with any number of rows and notices anywhere, also after a completion, and any cut into buffers: the call finishes, and the output is byte for byte the reply without skipping if and only if nothing but ParseComplete comes between a skipped Parse and the next completion or ReadyForQuery |
| `BatchShapes.PlanStage` | src/client/batch_handling.rs:118-175 | what the plan holds after any batch, by how far the batch has come: what waits, what the first Execute consumed, and that no later one consumes anything |
| `BatchShapes.PlaceableStage` | src/client/batch_handling.rs:118-175 | the batches placeable in every cut are those placeable in one buffer without the portal exception |
| `BatchOneExact.OneBufferExact` | src/client/batch_handling.rs:74-358 | for every batch placeable in one buffer and every error-free reply in one buffer, the output is the reply without skipping if and only if the reply is prompt |
| `BatchNecessity.GoesAstray` | src/client/batch_handling.rs:143-166 | for every other batch an error-free prompt reply in one buffer comes out with some message where the reply without skipping has another |
| `BatchNecessity.OneBufferIff` | src/client/batch_handling.rs:74-358 | every prompt reply in one buffer comes out exact if and only if no skipped Parse waits at an Execute or a portal Describe, except at a first portal Describe whose Execute follows before anything but sent Parses and portal Describes |
| `BatchCuts.ReceivedJoin` | src/server/protocol_io.rs:603-878 | the buffers of the receive loop join to the whole reply |
| `BatchCuts.CutGoesAstray` | src/client/batch_handling.rs:250-318 | in that exception a first row that fills the receive buffer is cut off from the second, the flag that the Execute has begun is lost, and the output is no longer exact |
| `BatchCuts.ExactIffPlaceable` | src/client/batch_handling.rs:74-358 | every prompt error-free reply, cut as the receive loop cuts it, comes out exact if and only if no skipped Parse waits at an Execute or a portal Describe |
| `BatchExamples.NoticeOvertakes` | src/client/batch_handling.rs:272-346 | a skipped Parse and a Bind answered by a notice and BindComplete: the notice overtakes the ParseComplete |
| `BatchExamples.CommandCompleteOvertakes` | src/client/batch_handling.rs:302-306 | a skipped Parse and an Execute answered by CommandComplete alone: it overtakes the ParseComplete |
| `BatchExamples.PortalThenExecute` | src/client/batch_handling.rs:143-166 | a skipped Parse, a portal Describe and an Execute: not placeable, yet exact in one buffer for every prompt reply |
| `BatchProtocol.SaysAnswers` | src/client/batch_handling.rs:272-346 | whatever a PostgreSQL server says to an operation that succeeds, told by its type bytes, is an answer to it as the placement theorems take it |
| `BatchProtocol.ServerExactIffPrompt` | src/client/batch_handling.rs:74-358 | for every placeable batch, every such reply and every cut, the output is the reply without skipping if and only if the reply is prompt |
| `BatchErrorExact.ErrorTakesAll` | src/client/batch_handling.rs:320-345 | for every batch and every reply in one buffer with an ErrorResponse: the ParseCompletes mapped and not yet inserted stand immediately before the error, the pending ones immediately before ReadyForQuery, one per skipped Parse in all |
| `BatchErrorExact.ErrorExactIff` | src/client/batch_handling.rs:74-358 | for every placeable batch in which an operation fails, whatever was said before and in every cut: the output is what it would have been without skipping if and only if the messages before the error were prompt, no Parse was skipped after the failed operation and none waits at the end |
| `BatchRows.RowsExact` | src/client/batch_handling.rs:150-161 | for every batch in which skipped Parses wait at Executes that nothing was described before, and every reply in one buffer whose Executes complete, those with rows first: the output is the reply without skipping if and only if the reply is prompt |
| `BatchFlush.FlushIffNothingBefore` | src/client/transaction.rs:577-596 | for every batch and every error-free reply, writing all ParseCompletes of skipped Parses before the reply gives the reply without skipping if and only if nothing but ParseComplete answers the operations before a skipped Parse |
| `BatchFlush.FlushIffParsesFirst` | src/client/transaction.rs:577-596 | while sent Parses bring no notice, it does so for every reply if and only if only Parses come before a skipped Parse |
| `BatchLoops.BuildPlan` | src/client/batch_handling.rs:100-175 | the loop over the batch operations builds the plan |
| `BatchLoops.CountMessages` | src/client/batch_handling.rs:210-239 | the counting loop of the early return counts the messages of each kind |
| `BatchLoops.PutParseCompletes` | src/client/batch_handling.rs:275-280 | the insertion loop appends that many ParseComplete messages |
| `BatchLoops.DueBefore` | src/client/batch_handling.rs:272-345 | the match on the message type computes how many insertions are due |
| `BatchLoops.SpliceMessages` | src/client/batch_handling.rs:241-349 | the byte loop with its position and counters equals the rewriting of the message sequence, underflow included |
| `BatchLoops.ReorderBuffer` | src/client/batch_handling.rs:74-358 | the whole method equals its specification: output bytes and carried counts |
| `PreparedCache.GetReads` | src/client/core.rs:129-137 | a get returns what is stored and changes nothing a later read can see |
| `PreparedCache.PutWrites` | src/client/core.rs:148-182 | a put stores its value; Evicted exactly for a fresh anonymous key at capacity, with the last entry of the list as victim; Replaced exactly for a present key; every other key reads as before |
| `PreparedCache.PopRemoves` | src/client/core.rs:186-194 | a pop returns and removes exactly its key |
| `PreparedCache.PreparedStatementCache.constructor` | src/client/core.rs:114-124 | a new cache is empty, unlimited for size 0 and bounded otherwise |
| `PreparedCache.PreparedStatementCache.Get` | src/client/core.rs:129-137 | get on the object is get on its value |
| `PreparedCache.PreparedStatementCache.Put` | src/client/core.rs:148-182 | put on the object is put on its value, with the same outcome |
| `PreparedCache.PreparedStatementCache.Pop` | src/client/core.rs:186-194 | pop on the object is pop on its value |
| `PreparedCache.PreparedStatementCache.Clear` | src/client/core.rs:223-229 | clear empties both maps and keeps the capacity |
| `PreparedCache.LruRefinesUnlimited` | src/client/core.rs:107-229 | under every run of get, put, pop and clear the bounded cache is a submap of the unlimited one, never exceeds its capacity, and equals it while no put has reported an eviction |
| `PreparedCache.NamedStay` | src/client/core.rs:148-194 | a named entry leaves exactly by a pop of its name or a clear |
| `PreparedCache.ListIsRecencyOrder` | src/client/core.rs:125-182 | in every reachable state the list is ordered by last get or put |
| `PreparedCache.EvictionTakesLeastRecent` | src/client/core.rs:148-182 | after any run a put evicts exactly when its key is fresh and the cache full, and what leaves is the least recently used entry |
| `ClientProtocol.Client.constructor` | src/client/core.rs:427-441 | a new client has nothing cached, skipped or buffered |
| `ClientProtocol.Client.ProcessParse` | src/client/protocol.rs:145-364 | the Parse method changes the state as the step function says |
| `ClientProtocol.Client.StoreStatement` | src/client/protocol.rs:226-257 | the parsed statement is stored under its name, or under its hash as the latest unnamed one |
| `ClientProtocol.Client.SendOrSkipParse` | src/client/protocol.rs:262-364 | a Parse the server holds is skipped and recorded, any other is registered and forwarded |
| `ClientProtocol.Client.MarkPending` | src/client/protocol.rs:336-344 | every entry without a Bind is marked for insertion at the beginning |
| `ClientProtocol.Client.ResolveStatement` | src/client/protocol.rs:367-407 | the lookup of a Bind or Describe, with eviction on refusal and SQLSTATE 26000 when nothing is found |
| `ClientProtocol.Client.ProcessBind` | src/client/protocol.rs:411-536 | the Bind method changes the state as the step function says |
| `ClientProtocol.Client.MarkFirstWaiting` | src/client/protocol.rs:461-470 | the first entry of the statement without a Bind gets one |
| `ClientProtocol.Client.ProcessDescribe` | src/client/protocol.rs:540-690 | the Describe method changes the state as the step function says |
| `ClientProtocol.Client.RetargetFirst` | src/client/protocol.rs:612-634 | the first entry of the statement placed at a BindComplete moves to the ParameterDescription |
| `ClientProtocol.Client.ProcessClose` | src/client/protocol.rs:696-719 | a Close of a named statement forgets it |
| `ClientProtocol.Client.ReorderParseCompletes` | src/client/batch_handling.rs:74-358 | the reply is rewritten and the counts carried over in the client |
| `ClientProtocol.Client.FlushSkipped` | src/client/transaction.rs:577-596 | a Flush writes one ParseComplete per skipped Parse and forgets the batch if any was skipped |
| `ClientProtocol.Client.EndBatch` | src/client/core.rs:445-450 | Sync and Flush reset the batch; Flush makes the client async for good |
| `ClientRenaming.StepKeeps` | src/client/protocol.rs:145-719 | every message keeps the cache faithful to the client's own history |
| `ClientRenaming.SessionSound` | src/client/protocol.rs:145-719 | the cache is faithful in every state a session can reach, with named, unnamed and async statements and any evictions |
| `ClientRenaming.RenamingSound` | src/client/protocol.rs:145-719 | over every run and whatever the cache size, a forwarded Bind or statement Describe names a server statement bound to the text of the client's latest Parse under that name, and one is refused with SQLSTATE 26000 if and only if the client's own history leaves no such statement, unnamed ones included |
| `ClientForwarding.SessionForwards` | src/client/protocol.rs:145-719 | in every session, enabled or not, the buffer for the server is the client's own messages since the last Sync or Flush, in order, with only statement names replaced, each by the server name of the client's latest Parse of it, and without the skipped Parses; the recorded batch is the operations of these messages |
| `ClientForwarding.ParseEnds` | src/client/protocol.rs:145-364 | a Parse is processed if and only if statements are disabled, or the pool holds it and the server does or can register it; what a skipped one adds; an eviction is counted exactly when an unnamed one finds its bounded cache full |
| `ClientForwarding.BeginningMarks` | src/client/protocol.rs:336-344 | a sent Parse marks every skipped entry without a Bind |
| `ClientForwarding.BoundMarks` | src/client/protocol.rs:461-470 | a Bind marks the first entry of its statement that waits for one |
| `ClientForwarding.RetargetMarks` | src/client/protocol.rs:612-634 | a Describe moves the first entry of its statement placed at a BindComplete to the end |
| `ClientReplies.BatchAgrees` | src/client/protocol.rs:262-364 | in every reachable state the messages waiting for the server are the recorded batch without its skipped Parses, there is one skipped entry per skipped Parse, and an async client has none |
| `ClientReplies.SpreadAnswers` | src/client/batch_handling.rs:74-116 | answers to the messages sent are answers to the batch, a skipped Parse having none |
| `ClientReplies.SessionExactIffPrompt` | src/client/batch_handling.rs:74-358 | in every session of a client that is not async, the reply to a placeable batch comes out as if no Parse had been skipped if and only if it is prompt |
| `ClientReplies.SessionFlushIff` | src/client/transaction.rs:577-603 | in every session of a client that is not async, what it gets at a Flush is the reply without skipping if and only if nothing but ParseComplete answers the operations before a skipped Parse |
| `ClientReplies.AsyncUntouched` | src/client/batch_handling.rs:74-84 | the replies of an async client come out unchanged, whatever they are |
| `ClientRenaming.ParseOutSound` | src/client/protocol.rs:145-364 | a forwarded Parse uses a name bound to its text; one is skipped only when the server holds the statement and the client is not async |
| `PoolNames.PoolStepSound` | src/server/prepared_statement_cache.rs:537-582 | one registration or async name hands out the text asked for and rebinds no name |
| `PoolNames.NamesBoundForEver` | src/server/prepared_statement_cache.rs:537-582 | in every run by any clients, a name handed out means its text to the end of the run |
| `PoolNames.SameStatementShared` | src/server/prepared_statement_cache.rs:537-582 | while an entry is neither dropped nor missed, whoever registers the same text under the same planner settings gets the same statement |
| `SharedPool.EnvKept` | src/server/prepared_statement_cache.rs:537-582 | in every run of any clients on one pool, the pool keeps its promises to each message |
| `SharedPool.SharedRenaming` | src/client/protocol.rs:145-719 | renaming is sound for every client of every run of any clients on one pool, with any drops, misses and evictions, the pool's promises being proved here and not assumed |
| `MigrationBuffers.Writer.WriteStr` | src/client/migration.rs:147-150 | a string is its length in two bytes and its bytes |
| `MigrationBuffers.Writer.WriteKey` | src/client/migration.rs:281-290 | a key with its tag |
| `MigrationBuffers.Writer.WriteParamTypes` | src/client/migration.rs:295-299 | the parameter types after their count |
| `MigrationBuffers.Writer.WriteEntry` | src/client/migration.rs:280-300 | one prepared statement |
| `MigrationBuffers.Writer.WritePrepared` | src/client/migration.rs:274-301 | the prepared state: flags, count and entries |
| `MigrationBuffers.Writer.WriteParameters` | src/client/migration.rs:234-239 | the server parameters after their count |
| `MigrationBuffers.Writer.WriteAuth` | src/client/migration.rs:247-268 | the backend auth tail |
| `MigrationBuffers.Writer.WriteHeader` | src/client/migration.rs:218-222 | magic, version, connection, key and mode |
| `MigrationBuffers.Writer.WriteWho` | src/client/migration.rs:224-231 | pool, user and address |
| `MigrationBuffers.SerializeState` | src/client/migration.rs:215-271 | the encoder's loops append exactly the encoding of the state |
| `MigrationBuffers.NegativeCountTooLong` | src/client/migration.rs:410-411 | a negative i16 count, turned into a usize and multiplied under 64-bit wrapping, asks for more bytes than any buffer has |
| `MigrationBuffers.Reader.TakeUInt` | src/client/migration.rs:333-347 | the integer at the cursor; its bytes must be there |
| `MigrationBuffers.Reader.TakeI32` | src/client/migration.rs:347-347 | the signed integer at the cursor |
| `MigrationBuffers.Reader.ReadStr` | src/client/migration.rs:152-159 | a string or the error of the grammar |
| `MigrationBuffers.Reader.ReadKey` | src/client/migration.rs:388-395 | a key or the error of the grammar |
| `MigrationBuffers.Reader.ReadParamTypes` | src/client/migration.rs:409-415 | the parameter types, a negative count being refused by the length check |
| `MigrationBuffers.Reader.ReadQuery` | src/client/migration.rs:398-408 | a query within the limit or the error of the grammar |
| `MigrationBuffers.Reader.ReadEntry` | src/client/migration.rs:387-422 | one prepared statement or the error of the grammar |
| `MigrationBuffers.Reader.ReadPrepared` | src/client/migration.rs:377-423 | the prepared state or the error of the grammar |
| `MigrationBuffers.Reader.ReadParameters` | src/client/migration.rs:367-374 | the server parameters or the error of the grammar |
| `MigrationBuffers.Reader.ReadAddress` | src/client/migration.rs:353-365 | the address or the error of the grammar |
| `MigrationBuffers.Reader.ReadAuth` | src/client/migration.rs:427-451 | the backend auth tail, absent and unknown tags giving nothing |
| `MigrationBuffers.Reader.ReadWho` | src/client/migration.rs:350-365 | pool, user and address |
| `MigrationBuffers.Reader.ReadTail` | src/client/migration.rs:424-451 | the TLS flag and the backend auth |
| `MigrationBuffers.DeserializeState` | src/client/migration.rs:330-467 | on every byte string the decoder ends with the value or the error of the grammar and never reads past the end |
| `MigrationRoundTrip.ReadState` | src/client/migration.rs:330-467 | every state that fits is read back from its encoding, whatever follows it |
| `MigrationRoundTrip.DecodedFits` | src/client/migration.rs:330-467 | whatever the bytes, a decoded state keeps the field widths and limits |
| `MigrationRoundTrip.RoundTripIffFits` | src/client/migration.rs:147-467 | decoding the encoding of a state gives it back if and only if it is within the field widths and limits |
| `MigrationFormat.DecodesIff` | src/client/migration.rs:331-466 | for every buffer the decoder returns a state if and only if the bytes are in the format and stand for it: magic, version, fields in order, any nonzero byte for a set flag or an anonymous key, an absent or unknown auth tag for none |
| `MigrationFormat.HeaderErrors` | src/client/migration.rs:332-346 | too short, wrong magic and wrong version are told apart in that order |
| `MigrationFrame.Socket.Recv` | src/client/migration.rs:861-870 | a receive gives any number of bytes up to what was asked for, or ends the stream |
| `MigrationFrame.FillState` | src/client/migration.rs:857-877 | the state loop appends exactly the missing bytes from the stream |
| `MigrationFrame.FillArray` | src/client/migration.rs:895-945 | the header and TLS loops fill exactly the missing bytes of their array |
| `MigrationFrame.ReceiveState` | src/client/migration.rs:846-877 | the state is what of it was in the buffer and the rest from the socket; a buffer still needed is unchanged |
| `MigrationFrame.ReceiveArray` | src/client/migration.rs:879-950 | the TLS length and the TLS state come from the leftover bytes and the socket; a buffer still needed is unchanged |
| `MigrationFrame.ReceiveFrame` | src/client/migration.rs:838-953 | however the stream is cut into receives, state and TLS bytes are those the frame at its head announces, and the stream stands after the frame or after the first receive, whichever is further |
| `MigrationFrame.ReceivedIsSent` | src/client/migration.rs:722-730 | of a stream beginning with the frame of a state and a TLS state exactly these two are received if and only if their lengths fit 32 bits |
| `MigrationFrame.RestIsLeft` | src/client/migration.rs:838-953 | what follows the frame is left on the socket if and only if the first receive did not go past the frame |
| `MigratedCache.ReconstructPreparedState` | src/client/migration.rs:666-714 | the replay loop puts the entries the pool registers, in order, into a new cache |
| `MigratedCache.PutsLimited` | src/client/migration.rs:676-712 | a bounded cache holds exactly the last entries replayed, as many as it has room for |
| `MigratedCache.ReplayMigrates` | src/client/migration.rs:666-714 | replaying a cache listed in any order keeps every named entry; with capacity 0 or at least the anonymous count, every entry; otherwise exactly the capacity many anonymous ones, all from the original |
| `MigratedCache.CacheSurvivesMigration` | src/client/migration.rs:274-301 | the same through encode, decode and replay, for every client state within the limits |
| `MigratedClient.MigratedSound` | src/client/migration.rs:666-714 | a replayed cache is faithful to what the client knew, less the unnamed statement |
| `MigratedClient.ReplayNames` | src/client/migration.rs:676-712 | every replayed entry goes by its own drawn name for an async client and by the pool's otherwise |
| `MigratedClient.RenamingSurvivesMigration` | src/client/migration.rs:666-714 | renaming stays sound through encode, decode and replay, for every session before and after; an unnamed Bind or Describe is refused until the client parses an unnamed statement again, even where its entry survived |
| `AuthCache.RunLocked` | src/auth/auth_query.rs:923-930 | in every interleaving no two calls have the same mutex, and all calls of a user use its one lock object until it is dropped |
| `AuthCache.OneFetchInFlight` | src/auth/auth_query.rs:901-974 | in every interleaving without `clear` at most one fetch per username is in flight |
| `AuthCache.ClearAdmitsTwo` | src/auth/auth_query.rs:1048-1052 | with the lock objects cleared in between, two fetches for one user are in flight at once |
| `AuthCache.RunSeparated` | src/auth/auth_query.rs:930-974 | in every interleaving without `clear`, what `get_or_fetch` recorded is still held with no fetch of its kind under way, or was ended |
| `AuthCache.FetchesHaveAnEndBetween` | src/auth/auth_query.rs:901-1002 | two recorded fetches begun by `get_or_fetch` for one user have between them an invalidation, or a fetch that found an entry recorded since then expired |
| `AuthCache.EveryHitIsYoung` | src/auth/auth_query.rs:746-753 | every hit returns the latest recorded entry, not invalidated or cleared since, and it is younger than the TTL of its kind |
| `AuthAnswers.EveryEventExplained` | src/auth/auth_query.rs:901-1053 | in every interleaving every event has its reason: a hit is the latest recorded entry, younger than its TTL, and returned as its kind says; a fetch begins only without such an entry, a refetch only outside the interval, a rate limit only within it; an entry is recorded only by the call whose executor answered Found or NotFound, with that answer's content and stamped after it; a call returns what it recorded |
| `AuthAnswers.NoAnswerLost` | src/auth/auth_query.rs:941-976 | a call that got Found or NotFound has recorded it or is about to, and returns what it recorded or is about to |
| `AuthAnswers.HitIffYoung` | src/auth/auth_query.rs:914-941 | at both checks get_or_fetch hits if and only if the latest recorded entry is younger than its TTL in milliseconds, and then begins no fetch |
| `AuthAnswers.LimitedIffRecent` | src/auth/auth_query.rs:1007-1022 | a refetch is rate limited if and only if the latest recorded entry was refetched within min_interval |
| `AuthAnswers.Dropped` | src/auth/auth_query.rs:929-943 | a call dropped while it waits for the lock or the executor is gone and leaves everything else as it was; elsewhere it cannot be dropped |
| `AuthCache.RunSpaced` | src/auth/auth_query.rs:1004-1043 | with both TTLs at least `min_interval` and no `invalidate` or `clear`, no fetch of any kind for a user begins within `min_interval` of the result of a recorded refetch, although `get_or_fetch` resets the stamp |
| `AuthCache.RateLimitIff` | src/auth/auth_query.rs:714-753 | over all undisturbed runs refetches are spaced by `min_interval` if and only if both TTLs are at least `min_interval` |
| `TextOps.EraseIff` | src/auth/scram_client.rs:275-284 | `replace` with nothing leaves a text unchanged exactly when the pattern does not occur |
| `TextOps.ParseOfPrint` | src/auth/scram_client.rs:277-281 | a printed iteration count is parsed back |
| `ScramLoops.XorInto` | src/auth/scram_client.rs:181-183 | the in-place XOR loop over the shorter of two lengths |
| `ScramLoops.StretchPassword` | src/auth/scram_client.rs:233-256 | the loop computes Hi of section 2.2 of RFC 5802, the XOR of all iterates |
| `ScramLoops.Signed` | src/auth/scram_client.rs:179-183 | the proof is the key XOR the signature; what of a longer key no signature byte reaches stays |
| `ScramLoops.Differences` | src/auth/scram.rs:421-427 | the OR-accumulating comparison is zero exactly on equality |
| `ScramLoops.ServerFinal` | src/auth/scram.rs:366-438 | the server's last step equals its specification, error cases included |
| `ScramLoops.ScramSha256.FromNonce` | src/auth/scram_client.rs:63-74 | the client before its first message |
| `ScramLoops.ScramSha256.FromClientKey` | src/auth/scram_client.rs:78-100 | the client with a ClientKey instead of a password |
| `ScramLoops.ScramSha256.Update` | src/auth/scram_client.rs:108-194 | the state and reply of the specification on success, the state unchanged on every error |
| `ScramLoops.ScramSha256.Finish` | src/auth/scram_client.rs:198-230 | the verdict on the server's last message |
| `ScramAgreement.FirstParses` | src/auth/scram.rs:62-145 | the server reads the client's first message; a comma in the nonce cuts the nonce but not the bare message |
| `ScramAgreement.ChallengeParses` | src/auth/scram_client.rs:265-291 | the client reads the server's challenge with every key pattern erased |
| `ScramAgreement.FinalParses` | src/auth/scram.rs:280-365 | the server reads the client's final message |
| `ScramAgreement.Accepts` | src/auth/scram.rs:366-438 | the server accepts the proof of a key that hashes to StoredKey and recovers that key |
| `ScramAgreement.Agreement` | src/auth/scram.rs:62-438 | for every password, salt and iteration count of at least 1 a login succeeds if and only if the nonce has no comma, the combined nonce no `r=` and the encoded salt no `s=`; then both ends built the same AuthMessage, the server has the ClientKey and the client accepted the server signature |
| `ScramAgreement.FinishIff` | src/auth/scram_client.rs:198-231 | a client with a password accepts the last message if and only if it is v= and text that decodes to the server signature under its own salted password; a wrong signature is a server error; a client with a given key asks only for the form |
| `ScramAgreement.OnlyTheSignature` | src/auth/scram_client.rs:108-231 | after the honest exchange the client accepts nothing but the ServerSignature of section 3 of RFC 5802 under its own password |
| `ScramAgreement.ZeroIsOne` | src/auth/scram_client.rs:233-252 | an iteration count of 0 stretches the password once |
| `ScramAgreement.ProofLength` | src/auth/scram_client.rs:176-182 | the proof is as long as the key, and the end of a longer key is sent as it is |
| `ScramMessages.FirstRead` | src/auth/scram.rs:62-150 | every client-first-message of the RFC's form is read as it was written, with flags n and y, an authorization identity and extensions |
| `ScramMessages.FirstOnly` | src/auth/scram.rs:62-150 | nothing else is accepted as a first message |
| `ScramMessages.FinalRead` | src/auth/scram.rs:280-362 | every client-final-message with decodable binding and proof is read as it was written, extensions included |
| `ScramMessages.FinalOnly` | src/auth/scram.rs:280-362 | nothing else is accepted as a final message |
| `ScramMessages.ChallengeRead` | src/auth/scram_client.rs:265-292 | a challenge of three parts is read by erasing its keys, or refused when its third part is no number |
| `ScramMessages.ChallengeOnly` | src/auth/scram_client.rs:265-292 | a challenge of any other number of parts is refused |
| `ScramMessages.HiIsXorOfAll` | src/auth/scram_client.rs:233-252 | the stretched password is the XOR of all iterates of section 2.2 of RFC 5802 |
| `ScramAgreement.Passthrough` | src/auth/scram_client.rs:78-194 | a login with an accepted key succeeds against every verifier with the same StoredKey if and only if nonce and salt meet the same conditions |
| `ScramAgreement.AuthzidTurnedAway` | src/auth/scram.rs:374-383 | a client that names an authorization identity and repeats its header as sent is always refused, because the expected header lacks the `a=` |
| `HbaDecisions.CheckHbaIs` | src/auth/hba.rs:360-410 | for every rule list, connection and method name, in the fields of both: the first rule for the connection's transport, TLS state, address, database and user that is trust, reject or of that method gives Trust, Deny or Allow; without one nothing matched |
| `HbaDecisions.OneTrustRule` | src/auth/hba.rs:80-89 | one trust rule admits exactly the connections it is for: local by socket, hostssl with TLS, hostnossl without |
| `HbaDecisions.TrustIsFor` | src/auth/mod.rs:166-212 | a login that is not Talos is trusted only by a trust rule for its connection with no reject rule for it before |
| `Hba.FirstDecides` | src/auth/hba.rs:360-410 | the first matching rule that is trust, reject or the wanted method gives the result |
| `Hba.FindFirst` | src/auth/hba.rs:360-410 | some rule is the first to decide, or none decides and nothing matched |
| `Hba.Coherence` | src/auth/hba.rs:360-410 | for every rule list and client two decisions are never Trust and Deny together, and when one is Trust or Deny the other is not NotMatched |
| `Hba.LoginFollowsScan` | src/auth/mod.rs:166-212 | for the two decisions of one client the scan for the stored password's method decides the login; without a deciding rule it is denied, except a SCRAM password under an md5 rule |
| `Hba.TrustNeedsRule` | src/auth/mod.rs:166-212 | a login that is not Talos evaluates to Trust only if some matching trust rule has no matching reject rule before it |
| `Hba.FirstTrustIsTrusted` | src/auth/mod.rs:166-212 | with a trust rule first among all that match, an empty, SCRAM or MD5 password evaluates to Trust |
| `HbaText.ShellLikeSplit` | src/auth/hba.rs:422-444 | the splitting loop equals the tokens of the line |
| `HbaText.FromContent` | src/auth/hba.rs:282-346 | the line loop equals the rules of the content |
| `HbaGrammar.LineIff` | src/auth/hba.rs:282-346 | a line gives a rule if and only if its tokens are a record type, database, user, for all but local an address, and a method, in that order and in any case of their letters |
| `HbaGrammar.CommentIgnored` | src/auth/hba.rs:413-418 | from a hash sign on a line is comment |
| `HbaGrammar.QuotedToken` | src/auth/hba.rs:420-453 | inside quotes blanks belong to the token |
| `HbaGrammar.PlainRun` | src/auth/hba.rs:420-453 | outside quotes a token ends at the first blank |
| `HbaRoundTrip.RuleRoundTrip` | src/auth/hba.rs:145-172 | a rule with plain names comes back from its line if and only if it is canonical |
| `HbaRoundTrip.LineRule` | src/auth/hba.rs:413-444 | no parsed name holds a quote or '#', none holds whitespace unless the line has quotes |
| `HbaRoundTrip.RoundTripIffCanonical` | src/auth/hba.rs:112-185 | parsing the printed rules gives the same list in order if and only if every rule is canonical: plain names, none spelled `all` in any case, methods in lower case and not a keyword, an address exactly for host rules |
| `LogFilter.SortIsStable` | src/app/log_level.rs:169-170 | the sort orders by length, loses nothing and keeps the order of equal lengths |
| `LogFilter.RunParseFilter` | src/app/log_level.rs:143-173 | the parsing loop equals its specification, error and panic cases included |
| `LogFilter.AcceptedIsClean` | src/app/log_level.rs:143-173 | every accepted filter has trimmed, comma-free paths within the limit, longest first |
| `LogFilter.FilterRoundTrip` | src/app/log_level.rs:119-173 | for every accepted filter string re-parsing the display gives the same base level and the same ordered overrides |
| `LogGrammar.FilterIff` | src/app/log_level.rs:142-188 | a text is accepted if and only if every word between its commas is a level or an override and at most one is a level; the base is that level or info, the overrides the words' own sorted by length |
| `LogGrammar.TooLong` | src/app/log_level.rs:151-157 | a module path over 256 bytes of UTF-8 is an error, or a panic when its 64th byte is inside a character |
| `LogController.IsEnabled` | src/app/log_level.rs:49-66 | the prefix scan equals its specification |
| `LogController.EnabledIff` | src/app/log_level.rs:49-66 | a record is enabled exactly when its level is within the base or within the level of the longest matching prefix |
| `LogController.MaxNeverBlocks` | src/app/log_level.rs:103-114 | the global maximum level blocks no enabled record |
| `LogController.MaxIsUsed` | src/app/log_level.rs:103-110 | the global maximum is a level in use |
| `LogController.EnclosedSet` | src/app/log_level.rs:88-99 | quotes or blanks around a setting do not matter |
| `LogController.Controller.constructor` | src/app/log_level.rs:28-35 | a new controller has its startup level and no overrides |
| `LogController.Controller.SetLogLevel` | src/app/log_level.rs:88-117 | an accepted filter is put in place with the most permissive level as maximum; on an error nothing changes |
| `LogController.Controller.GetLogLevel` | src/app/log_level.rs:120-137 | the loop prints the display of the filter in place |
| `LogController.Controller.Logs` | src/app/log_level.rs:49-66 | a record passes the global maximum and the filter exactly when the filter enables it |
| `LogController.SetOfGet` | src/app/log_level.rs:88-137 | in every reachable state setting what is shown changes nothing |
| `Admission.GateHolds` | benches/pool_anticipation_benchmarks.rs:29-36 | in every interleaving of increment, test, rollback and release the counter is the holders plus the rejections not rolled back, and the holders keep the cap |
| `Admission.BurstSlotsKeepCap` | benches/pool_anticipation_benchmarks.rs:29-36 | holders of burst slots never exceed the cap |
| `Admission.AcceptLoopBound` | src/app/server.rs:880-908 | a number of clients can be admitted at once if and only if it is at most `max_connections + 1` |

## Left out

- `Bind::rename`, `Parse::to_bytes_with_name` and the other byte layouts of client messages: the client protocol model works on parsed messages.
- The batch operations keep statement names, and skipped entries `insert_at_beginning` and `has_bind`: modelled in the client state, but the reordering reads none of them.
- The split in `BatchErrors.ErrorAcrossBuffers` is one that the receive loop does not produce today: outside async mode it keeps an error and its ReadyForQuery in one buffer (src/server/protocol_io.rs:603-878).
- Messages too large for the receive buffer, which are streamed past the reordering, COPY, and the buffers of async mode.
- Server connections, pools, the query interner and planner hashing: their answers are parameters, under the contract that a hash names one text.
- Sockets, descriptor passing, TLS export and import, and `MSG_CMSG_CLOEXEC`: only the bytes and lengths of a frame are modelled; a receive may return any short count.
- `ServerParameters::set_param`: parameters are the list of pairs in the order of the encoding, which the source takes from a hash map.
- LRU recency order across a migration: the source leaves the iteration order open, so the replay theorem is about every order.
- A missing pool during replay gives an empty cache.
- A statement hash that differs between the two processes of a migration: `MigratedClient` has one hash for both.
- Registration failures during replay: modelled by `MigratedCache.Replay`, but the preservation theorem assumes that the pool registers every entry.
- Startup parameters, dedicated mode, the stored ClientKey and overlay-drift pool dropping in the auth cache: no step of the locking protocol depends on them.
- The `as u64` cut of elapsed milliseconds in `is_expired`: it needs an entry older than 500 million years.
- Steps of `clear` inside one user's entry or lock: the maps are cleared user by user, in any order, each as one step.
- Cryptographic strength, saslprep and random nonces: the hash, the MAC, base64 and normalisation are uninterpreted, base64 with its inverse, alphabet and padding.
- Non-UTF-8 messages in SCRAM, and slices at positions inside a multi-byte character: a text is a sequence of characters, each standing for one byte.
- `str::lines` drops a carriage return before a line feed: trimming drops it too, so the HBA model splits at line feeds only.
- JWT, PAM and Talos logins: `Hba.Evaluate` passes them through as the source does.
- The moments between the three stores of `set_log_level`, and a logger that is not initialised.
- Changes of `max_connections` while clients are connected, and counter overflow.
- Admin commands, metrics, logging output, web frontend, signals and process spawning: display and operating-system calls.
