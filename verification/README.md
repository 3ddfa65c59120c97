# Concordia, verified

A Dafny model of the stateful parts of Concordia, a chat platform, with proofs of what they keep
over whole runs. `dafny verify dfyconfig.toml` checks everything.

| files | part of the system |
|---|---|
| `Presence`, `PresenceHandler`, `PresenceTime` | the session registry: hashes with a TTL and two indexes, one Redis command at a time; queries spread over time; heartbeats |
| `Gateway`, `System` | connection ids, connection tables and pushes over several gateway replicas; gateways and Presence composed |
| `Numbers`, `UuidColumn`, `Json`, `GoValues`, `AuditEvents` | the canonical text of an audit event and its trip through the columns of `audit_events` |
| `AuditChain`, `AuditStore` | the hash chain, and append, seed, verify and the consumer over the table |
| `Messages`, `MessageWalks`, `MessageCache` | paging through a channel's history, also while it is written to, and the cache in front of it |
| `RateLimit` | the gateway's fixed-window limiter |
| `ChannelView`, `MessageList` | the web client's optimistic messages and its scrolled-back history |
| `Servers`, `PermissionCache` | servers, roles and memberships, and permission checks behind a one-minute cache |
| `Tokens`, `RefreshRaces` | refresh tokens, request by request and step by step |
| `VoiceChannel` | ICE candidates buffered until a peer connection is ready |

Each state machine is a total function `Apply` on a state and an event, where an event that is not
enabled changes nothing, so a theorem about `RunFrom` and an arbitrary event sequence is a theorem
about every interleaving. Beside it, a class holds the fields the program updates in place; its
methods are proved to have the effect the machine, or a specification function, gives them.

## Where the code differs from what is said about it

- `store.go` says that any manual UPDATE or DELETE breaks the chain. Deleting the newest rows leaves a
  chain that verifies (`AuditChain.DeleteCaughtUnlessPrefix`), until the running store appends again
  (`AuditStore.AppendAfterTailDelete`). An UPDATE that `scanRow` cannot see, such as one more member in
  the actor column, is accepted (`AuditStore.InvisibleUpdate`), and so is one that recomputes the hash of
  the newest row; `AuditStore.UpdateCaught` has the exact condition.
- A row passes `verify` only if the columns give back what was hashed. An event whose id is a UUID in
  upper case, in braces or with its dashes elsewhere, or whose metadata holds a negative zero, is stored
  and then rejected: `AuditStore.UpperCaseIdBreaks`, `AuditStore.NegativeZeroBreaks`, and the exact
  condition in `AuditStore.RunVerifies`. Every other float64 comes back from `numeric` as it was.
- An event with a NUL character in any string is refused by the database and lost: `AuditStore.InsertsIff`.
- Paging filters deleted rows after the `LIMIT`, so a page with a deleted row ends the walk even if
  older messages exist (`Messages.ShortWalk`); `Messages.WalkIsPrefix` says exactly how far it gets, and
  `MessageWalks.WalkThroughStops` does while the table changes.
- The limiter's 100 per minute allows 199 in a minute, and not 200, which two full windows would
  suggest: `RateLimit.AtMost199` and `RateLimit.BoundReached`.
- Session hashes that expire leave their index entries; a later register of the same connection
  does not clean them (`Presence.StaleAfterExpiry`), and `Presence.QueriesAgreeWithScan` needs runs
  without that; `KeepAlive.HeartbeatsKeepQueriesExact` says which heartbeats ensure it.
- Leaving a server deletes the member's rows in `membership_roles` (a cascade in migration V4), so
  for up to a minute a cached answer can grant what no role grants, or refuse READ to a member:
  `PermissionCache.StaleGrantRun`, `PermissionCache.MemberRefusedReadRun`, and the exact conditions,
  `PermissionCache.AllowedIsGrantedIff` and `PermissionCache.BasicRefusedIff`.
- A logout is meant to end a user's sessions, but `refresh` runs outside a transaction: one that has
  deleted its old token when the logout reads saves its new one afterwards, and a login between the
  logout's read and its commit survives too (`RefreshRaces.SurvivesLogout`,
  `RefreshRaces.LoginSurvivesLogout`). `RefreshRaces.LogoutEndsOldTokens` and
  `RefreshRaces.LogoutHoldsIff` say exactly what a logout ends. One use of a token does hold on every
  interleaving: `RefreshRaces.AcceptedOnce`, `RefreshRaces.OneTokenPerLogin`.
- A register that fails half-way and is repeated leaves stale channel entries behind unless
  `PresenceService.RetryHealsIff` holds.
- Placeholder ids are milliseconds. `MessageInput.tsx` lets one send be in flight at a time, which is
  more than enough; `ChannelView.DistinctIffClean` says what is needed.

## What is assumed

- Hashing is an arbitrary function with non-empty output. Theorems about it say: this holds, or two
  of the texts that were hashed have the same hash.
- Reading a number as a float64 and printing it is a function on decimals that gives a printed float64
  back and keeps both zeros; how it rounds is left open.
- New ids (UUIDs, refresh-token hashes) have not been used before. UUIDs are 128-bit numbers; message ids
  are of version 7, whose numeric order is their order in time (section 5.7 of RFC 9562), and a
  Cassandra uuid column compares versions first. JSON strings are escaped as in section 7 of RFC 8259.
- Hostnames of gateway replicas are distinct, and a gateway runs as one process with an unbounded
  sequence number. Presence calls complete before they return.
- The gateway issues the Presence calls of one connection one after the other.
- A database transaction runs whole. In `Tokens` a request of the auth service does too; in
  `RefreshRaces` its steps interleave. There a persistence context lasts as long as its request (Spring's
  open-in-view default, which no configuration changes), so rows are deleted through the entities that
  were read: a DELETE that affects no row raises, and the request ends in 500.
- The commands of a Redis pipeline that are run when a request fails are its first ones.

## Model

| member | source | states |
|---|---|---|
| Presence.AdvanceComplete | services/presence/handler.go:39-94 | each single Redis command of a register or deregister keeps what the database owes its own connection at that point of the handler |
| Presence.AdvanceFrame | services/presence/handler.go:39-94 | a command of one connection changes no hash and no index entry of another |
| Presence.QueriesNeverMiss | services/presence/handler.go:28-207 | on every interleaving of commands of registers, deregisters, heartbeats, expiries: a live session with nothing in flight that a full scan finds is found by both indexed queries, read in one state |
| Presence.QueriesAgreeWithScan | services/presence/handler.go:28-207 | on runs where a connection keeps its user and no register finds its hash gone by expiry, both queries, read in one state, return exactly the scan, for every connection with nothing in flight and as whole sets when nothing is in flight at all |
| PresenceQueries.SpreadQueriesNeverMiss | services/presence/handler.go:139-207 | with the index read first and each session later, at any moments of any run: a connection a scan finds at the start, with nothing in flight, is in the answer if its session is still there when it is read |
| PresenceQueries.SpreadQueriesExact | services/presence/handler.go:139-207 | on such orderly runs each of the two answers holds a connection with nothing in flight at the start if and only if a scan finds it there at the start and its session is there when it is read |
| KeepAlive.HeartbeatsKeepAlive | services/gateway/ws/handler.go:275-297 | on any run of registry commands in which of any 14 consecutive due heartbeats of a connection one has run its EXPIRE, its session never expires |
| KeepAlive.HeartbeatsKeepQueriesExact | services/gateway/ws/handler.go:275-297 | if that holds of every connection and connections keep their users, the run is orderly and both queries return exactly the scan |
| Presence.StaleAfterExpiry | services/presence/handler.go:43-51 | a concrete run without that condition: after an expiry and a re-register the channel query returns a connection the scan does not |
| Presence.RegisterExactIff | services/presence/handler.go:39-66 | after a register the channel index is exact for its connection if and only if every entry it had was for a channel of the replaced hash or of the new list |
| Presence.RegisterUserExactIff | services/presence/handler.go:55-66 | after a register the user index is exact for its connection if and only if every entry it had was for the user now registered |
| Presence.RegisterEffect | services/presence/handler.go:39-66 | the command sequence of a register, run through, sets the hash with a fresh TTL, adds the user entry, removes the old channel entries and adds the new ones |
| Presence.DeregisterEffect | services/presence/handler.go:79-92 | the command sequence of a deregister, run through, removes the hash and exactly the index entries the hash listed |
| Presence.RegisteredHolds | services/presence/handler.go:39-66 | after a register the connection has its user, its channel list and 1800 seconds, its index entries are those asked for plus stale ones of other channels or users, and nothing of another connection has changed |
| Presence.DeregisteredHolds | services/presence/handler.go:79-92 | after a deregister the hash and exactly what it listed are gone, and nothing of another connection has changed |
| Presence.LastsHalfAnHour | services/presence/handler.go:11 | a session that nobody renews is there until 1800 seconds after its register, and gone then |
| Presence.RunsAlone | services/presence/handler.go:39-94 | an operation in flight, stepped with nothing in between, terminates with the effect of its whole command sequence and is no longer in flight |
| Presence.LastRegisterWins | services/presence/handler.go:39-66 | on an exact index, registering twice equals registering the second time only |
| Presence.DeregisterUndoesRegister | services/presence/handler.go:39-94 | deregistering right after registering an unknown connection restores the database |
| Presence.OnlyRegisterCreates | services/presence/handler.go:39-116 | the only event that brings a hash into existence is the HSET of a register |
| Presence.HeartbeatsNeverResurrect | services/presence/handler.go:99-116 | once a session is gone and no register is in flight or follows, no run brings its hash back, heartbeats past their EXISTS included |
| PresenceService.PresenceHandler.Register | services/presence/handler.go:28-71 | 400 and no change on an empty id; otherwise 200 exactly if the whole second pipeline ran and was acknowledged, else 500, with the effect of just the commands that ran; with Redis answering, the whole register effect, its loops included |
| PresenceService.PresenceHandler.Deregister | services/presence/handler.go:76-94 | 204 in every case, with the effect of just the commands that ran: the whole deregister effect if all did, nothing if there is no session or HGETALL failed |
| PresenceService.RetryHealsIff | services/presence/handler.go:43-69 | after a register that got only some way, one that succeeds leaves what it would have left alone if and only if the first had not yet overwritten the hash or had cleaned every old index entry that is not wanted again |
| PresenceService.PresenceHandler.Heartbeat | services/presence/handler.go:99-116 | 500 if EXISTS fails and 404 without a session, both without change; otherwise 200, with a deadline 30 minutes away if EXPIRE works, and nothing else changed |
| PresenceService.PresenceHandler.QueryByChannelId | services/presence/handler.go:139-170 | 500 if SMEMBERS fails; otherwise one entry, with the stored user, per indexed connection whose hash is there and could be read, and no other |
| PresenceService.PresenceHandler.QueryByUserId | services/presence/handler.go:177-207 | 500 if SMEMBERS fails; otherwise the distinct indexed connections whose hash is there and could be asked for; online exactly if there is one |
| Heartbeats.NeverExpires | services/gateway/ws/handler.go:275-297 | for the timing alone: with calls that take at most 5 seconds and never 14 consecutive failures, the deadline stays ahead of every 2-minute heartbeat, late ones included |
| Heartbeats.FourteenFailuresExpire | services/gateway/ws/handler.go:275-297 | fourteen consecutive failures are one too many, even with no delay |
| ConnIds.LastDash | services/gateway/ws/handler.go:139 | in host-seq the dash of the format is the last dash, whatever the hostname contains |
| ConnIds.ConnIdInjective | services/gateway/ws/handler.go:139 | equal connection ids have equal hostname and equal sequence number |
| Backplane.HolderUnique | services/gateway/ws/handler.go:374-426 | replicas that issue their own ids never hold the same connection |
| Backplane.WrittenOnce | services/gateway/ws/handler.go:374-426 | each listed occurrence is written by at most one replica, and by one if and only if some replica holds it and the write works |
| Backplane.BackplaneRefinesSingleTable | services/gateway/ws/handler.go:374-426 | the delivered counts of any set of replicas add up to what one table with the union of their sockets delivers |
| Backplane.Gateway.constructor | services/gateway/ws/handler.go:81-100 | an empty table under the hostname, or under the fallback name if it is empty |
| Backplane.Gateway.Open | services/gateway/ws/handler.go:139-152 | a new id from the counter, entered in both tables |
| Backplane.Gateway.Close | services/gateway/ws/handler.go:143-152 | the deferred cleanup takes the id out of both tables |
| Backplane.Gateway.UpdateSubscription | services/gateway/ws/handler.go:218-235 | the channel is in the connection's set afterwards if and only if this was a subscribe, every other channel of it and every other connection stay as they were, and the set is returned in full without repeats; nothing for a torn-down connection |
| Backplane.Gateway.DeliverLocal | services/gateway/ws/handler.go:393-410 | delivered and missing add up to the list length, and the occurrences written, in order, are exactly those held here whose write works |
| FanOut.NextIdFresh | services/gateway/ws/handler.go:139 | the id a new connection gets has been used by no goroutine, call, session or table before |
| FanOut.SessionsAreHeld | services/gateway/ws/handler.go:143-166 | in every reachable state of gateways and Presence, each session is in the table of exactly one gateway, and conns and subs have the same keys |
| FanOut.SessionsBelongToConnects | services/gateway/ws/handler.go:139-166 | on every run a session with no call in flight belongs to an open connection, made for that user by the connect its id counts |
| FanOut.SubscribeTakenIff | services/gateway/ws/handler.go:218-235 | on every run a subscribe or unsubscribe is acted on if and only if the connection is open and waits for no call, with the list of everything it has subscribed to, this change included |
| FanOut.TableHoldsWhatWasAsked | services/gateway/ws/handler.go:218-235 | on every run an open connection's set holds a channel if and only if its last subscribe or unsubscribe for it was a subscribe |
| FanOut.CleanupTakenIff | services/gateway/ws/handler.go:143-166 | a hang-up is acted on exactly for an open connection that waits for no call, the cleanup exactly after the deregister that follows it; then no table and no session holds the connection |
| FanOut.QueryFindsSubscribers | services/gateway/ws/handler.go:218-235 | in every reachable state the channel query returns each settled connection whose last subscribe or unsubscribe for the channel was a subscribe, and, without expired sessions, no other settled connection |
| FanOut.HeartbeatsMakeSteady | services/gateway/ws/handler.go:275-297 | runs of gateways and Presence whose connections never miss 14 heartbeats in a row are runs in which no register finds its session expired |
| FanOut.HeartbeatsKeepFanOutExact | services/gateway/ws/handler.go:275-297 | so on those runs the channel query returns a settled connection if and only if its last subscribe or unsubscribe for the channel was a subscribe |
| FanOut.MessageReachesSubscribers | services/chat/src/handlers/messages.rs:519-560 | in every reachable state, pushing in that state to the ids the channel query returns in it writes to each settled connection whose last word about the channel was a subscribe exactly once, on the replica serving it, if its socket works, and the replicas' counts add up to the writes that work |
| FanOut.MessageReachesLater | services/chat/src/handlers/messages.rs:519-560 | with the index read in one state, each session later, and the push reaching each replica at a moment of its own: a settled connection whose last word about the channel was a subscribe, whose session outlives its read and whom its replica still holds, is written to exactly once, by that replica, if its socket works, and the counts add up to the occurrences held where the push arrives whose write works |
| Json.ValueRoundTrip | services/audit/store.go:41-57 | reading what Go or Postgres writes of any JSON structure, before any text that cannot continue a number, gives the structure and the rest back |
| Json.ObjectIsText | services/audit/store.go:41-57 | Go writes any object as its quoted names and its values in the order of its fields, between braces, with a colon and a comma and nothing else |
| Json.ArrayIsText | services/audit/store.go:41-57 | and any array as its elements in order, between brackets, with commas and nothing else |
| Json.PlainEscaped | services/audit/store.go:41-57 | a string without quotes, backslashes, controls and HTML-sensitive characters is written as it is, in quotes |
| Json.HtmlEscapes | services/audit/store.go:41-57 | <, >, & and the two line separators are written as their four-digit escapes |
| Json.ControlEscapes | services/audit/store.go:41-57 | a control character without a short escape is written as its four-digit escape |
| Numbers.NumberBack | services/audit/store.go:115-118 | Go's text of a number, in exponent form or not, reads back as that number, and a numeric's text in full as the same value, with the sign of zero lost |
| Numbers.GoTextForm | services/audit/store.go:41-57 | Go uses the exponent form exactly for numbers other than zero below 10 to the -6 or from 10 to the 21 on |
| Numbers.NumberTexts | services/audit/store.go:41-57 | literal texts: -1.5, 700, 1.2e-7, 1e+21, and -0 against 0 |
| GoValues.UnmarshalEmitted | services/audit/store.go:41-57 | a value is read back the same whatever the member order, number writing and style of its text, but for what writer and reader do to a number |
| GoValues.MarshalInjective | services/audit/store.go:41-57 | two values are written alike if and only if they are the same value |
| GoValues.WrittenInOrder | services/audit/store.go:41-43 | Go writes a map's members in strictly ascending order of their keys, each once, with its own value |
| GoValues.LexLeqIff | services/audit/store.go:41-43 | the order of keys: one is the start of the other, or smaller where they first differ |
| GoValues.FieldOrderForgotten | services/audit/store.go:41-43 | two objects without repeated keys are read alike if and only if they have the same keys and each member is read alike, so members may be permuted at any depth |
| GoValues.NumericKeepsIff | infra/audit-db/init.sh:26 | a value made of float64 numbers comes back from a numeric unchanged if and only if it holds no negative zero |
| UuidColumn.NormalizedIff | infra/audit-db/init.sh:17 | a uuid column gives back exactly the spelling it was given if and only if that is lower case, 8-4-4-4-12 |
| UuidColumn.NormalizedIsCanonical | infra/audit-db/init.sh:17 | what a uuid column gives back for any accepted spelling is canonical, and stays as it is from then on |
| UuidColumn.UpperCaseAccepted | infra/audit-db/init.sh:17 | an id canonical but for upper-case letters is accepted and comes back in lower case |
| UuidColumn.BracesAccepted | infra/audit-db/init.sh:17 | braces around a canonical id are taken off |
| UuidColumn.DashesOptional | infra/audit-db/init.sh:17 | 32 digits without dashes are accepted and come back with them |
| AuditEvents.CanonicalTextIs | services/audit/store.go:30-57 | what is hashed, letter for letter: event_id, event_type, timestamp, actor, resource if there is one, outcome, metadata if not empty, prev_hash, in this order and each with its own value; actor and resource hold their non-empty texts under user_id, ip, user_agent and type, id |
| AuditEvents.SampleMetadata | services/audit/store.go:41-57 | a literal text with two sorted members, an array, an escape and an exponent |
| AuditEvents.CanonicalTextInjective | services/audit/store.go:30-57 | two events with their previous hashes have the same canonical text if and only if they are equal up to nil against empty metadata |
| AuditEvents.ScanUndoesInsert | services/audit/store.go:104-172 | an INSERT goes through if and only if the id is an accepted spelling of a UUID and no string or key of the event holds a NUL; scanning the row gives the event with canonical id and numbers as a numeric leaves them, the previous hash and the hash |
| AuditEvents.ColumnsHold | services/audit/store.go:104-132 | each column of an inserted row holds its own field of the event; absent resource, absent metadata and an empty previous hash are NULL |
| AuditEvents.DecodedKeeps | services/audit/consumer.go:46-55 | reading a message keeps every field of its event and the keys, strings, booleans, nulls and nesting of its metadata, and makes each number its float64 |
| AuditEvents.CanonicalTextSurvives | services/audit/store.go:146-172 | the scanned row hashes the text that append hashed if and only if the id is lower case, 8-4-4-4-12, and no number in the metadata is a negative zero |
| HashChain.Commitment | services/audit/store.go:209-242 | in two valid chains the same hash after m and n rows means m = n and the same rows, or two hashed texts collide |
| HashChain.HashesDistinct | services/audit/store.go:209-242 | the hashes of a valid chain are distinct, or two hashed texts collide |
| HashChain.DeletionCaught | services/audit/store.go:209-242 | deleting rows of a valid chain leaves a valid chain if and only if a prefix remains, or two hashed texts collide |
| AuditChain.HeadCommitsToHistory | services/audit/store.go:209-242 | two logs that verify, as scanned, have the same head hash if and only if they have the same events row by row up to nil against empty metadata, or two hashed texts collide |
| AuditChain.EditCaught | services/audit/store.go:209-242 | replacing one scanned row of a log that verifies: inside, accepted if and only if event and hashes are the same up to nil against empty metadata, or two texts collide; at the end, if and only if it links back as before and its hash is recomputed |
| AuditChain.DeleteCaughtUnlessPrefix | services/audit/store.go:209-242 | a DELETE from a log that verifies is caught if and only if what remains is not a prefix, or two hashed texts collide |
| AuditStore.PersistedInOrder | services/audit/consumer.go:34-63 | the events that reach the table are a subsequence, in order, of the valid events in the messages, as they were sent |
| AuditStore.ConsumeStoresIff | services/audit/consumer.go:46-72 | a message ends up in the table if and only if it carries an event with a non-empty id, type, time and outcome, the database answers, the id is a UUID no row has, and no string of the event holds a NUL; otherwise table and head stay as they are |
| AuditStore.StoredAsSent | services/audit/consumer.go:46-63 | from any state, the row a message adds reads back with the type, time, actor, resource, outcome and metadata the message carried and the normalized id, linked to the head before it, and its hash is the new head |
| AuditStore.RowVerifies | services/audit/store.go:220-241 | a written row passes verify if and only if its id is canonical and its metadata has no negative zero, or its old and new texts collide |
| AuditStore.RunVerifies | services/audit/store.go:78-135 | after every run of appends, failures, duplicate ids and restarts: lastHash is the head of the table, the rows read back, in order, as events inside the messages (id normalized, numbers as float64 without the sign of zero, all else as sent) with distinct ids, and verify accepts if and only if every such id is lower case, 8-4-4-4-12, and no metadata number is a negative zero, or two hashed texts collide |
| AuditStore.InsertsIff | services/audit/store.go:124-132 | an INSERT goes through if and only if the database answers, the id is a UUID not in the table, and no string of the event holds a NUL |
| AuditStore.UpperCaseIdBreaks | services/audit/store.go:124-132 | a concrete event with an upper-case id is stored, and then verify rejects the log, or two texts collide |
| AuditStore.NegativeZeroBreaks | services/audit/store.go:115-118 | a concrete event with a negative zero in its metadata is stored, and then verify rejects the log, or two texts collide |
| AuditStore.UpdateCaught | services/audit/store.go:209-242 | an UPDATE of one row of a table that verifies is accepted, before the newest row, if and only if scanRow reads the same event up to nil against empty metadata and the same hashes, or two texts collide; in the newest row, if and only if it links back as before with its hash recomputed |
| AuditStore.InvisibleUpdate | services/audit/store.go:158-160 | writing one more member into the actor column of any row changes the table and is accepted by verify |
| AuditStore.AppendAfterTailDelete | services/audit/store.go:99-135 | after the newest rows are deleted, the next append without a restart leaves a log that verify rejects, or two texts collide |
| AuditStore.Store.Seed | services/audit/store.go:78-97 | if one of thirty attempts is answered, lastHash becomes the hash of the last row, or empty; otherwise it fails and nothing changes |
| AuditStore.Store.Append | services/audit/store.go:100-135 | the row chained to lastHash is added and becomes the head exactly if the database answers, the id is a UUID not in the table and no string holds a NUL; otherwise only a sequence number is used up |
| AuditStore.Store.Consume | services/audit/consumer.go:34-72 | the loop over any list of messages is the run of their steps: malformed and invalid ones dropped, failed ones lost |
| AuditStore.Store.Verify | services/audit/store.go:212-242 | an error if and only if the read fails and all rows before the failure are in order; else ok with the row count if and only if the whole chain holds; else Count is the one-based position of the first broken row, BrokenSeq its seq, the rows before it form a chain that verifies, and the reason is the check that failed first |
| Messages.ListMessages | services/chat/src/handlers/messages.rs:237-330 | 50 messages without a limit, else the limit brought into 1 to 100; made from the first rows after the cursor, one more than that: a page that continues shows exactly that many of them and its cursor is the last, any other shows all that is live in them |
| Messages.Clamp | services/chat/src/handlers/messages.rs:65-66 | no limit gives 50, 1 to 100 give themselves, less gives 1, more gives 100 |
| Messages.ForeignCursor | services/chat/src/handlers/messages.rs:247-264 | a cursor that is no version 7 id comes after all rows or before all of them, by its version |
| Messages.PageOf | services/chat/src/handlers/messages.rs:265-323 | a page continues if and only if limit + 1 rows were there and none was deleted; then it shows the first limit rows and its cursor leaves exactly the rows after them |
| Messages.StopsAtFirstGap | services/chat/src/handlers/messages.rs:265-323 | a walk ends at the first window of limit + 1 rows that is short or holds a deleted row |
| Messages.WalkFrom | services/chat/src/handlers/messages.rs:237-330 | following the cursors from any cursor, of whatever UUID version, returns the live messages of exactly the rows up to that window |
| Messages.WalkIsPrefix | services/chat/src/handlers/messages.rs:237-330 | for every limit the walk terminates with strictly descending ids and a prefix of the live history, the whole of it if and only if every row after the stopping window is deleted |
| Messages.ShortWalk | tasks.md:438-443 | a table of three rows where one deleted row makes the walk stop and hide an older live message |
| Messages.InsertsDoNotDisturb | services/chat/src/handlers/messages.rs:237-330 | a walk over tables that only gain newer rows between pages returns what it would have returned from the first table |
| MessageWalks.WalkThroughDescends | services/chat/src/handlers/messages.rs:237-330 | a walk over tables in which messages arrive and are deleted between pages terminates and returns strictly descending ids |
| MessageWalks.WalkThroughLive | services/chat/src/handlers/messages.rs:305-307 | each message such a walk returns was live when its page was read |
| MessageWalks.WalkThroughSkipsNone | services/chat/src/handlers/messages.rs:265-323 | such a walk returns every message at or above the last id it returns that is live in every state from its start on |
| MessageWalks.WalkThroughStops | services/chat/src/handlers/messages.rs:237-330 | exactly how far such a walk gets: page by page through the rows it started from, none skipped, up to the first window of limit + 1 of them that is short or holds a row deleted by the time it is read, of which it returns what is live |
| MessageCache.CacheKeyInjective | services/chat/src/handlers/messages.rs:244-249 | different channels, clamped limits or cursors never share a cache key |
| MessageCache.BoundedStaleness | services/chat/src/handlers/messages.rs:239-341 | over every interleaving of creates, deletes, reads, stores, evictions and time, each served page is the page of some table state in force at a time no older than the TTL plus that fill's read-to-SET delay |
| MessageCache.ServedWithinTtl | services/chat/src/handlers/messages.rs:239-262 | a stored page is served until the TTL has passed since its SET, and not after |
| MessageCache.FillServes | services/chat/src/handlers/messages.rs:265-341 | a miss serves the table's page as it is then, whether or not the SET works |
| MessageCache.InsertInOrder | services/chat/src/handlers/messages.rs:119-150 | an insert keeps the clustering order, for any id |
| MessageCache.DeletionHides | services/chat/src/handlers/messages.rs:436-457 | a soft delete marks exactly the rows with that id and leaves every other as it is; the live history loses that message and no other |
| MessageCache.MessageService.List | services/chat/src/handlers/messages.rs:207-348 | 500 if the permission check, or on a miss the table, fails, 403 without READ; the stored page on a hit; on a miss or a failed GET the page of the table for 50 messages or the limit brought into 1 to 100, stored exactly if the SET works |
| MessageCache.MessageService.Create | services/chat/src/handlers/messages.rs:87-192 | 500 if the check or the INSERT fails and 403 without WRITE, without change; else the partition holds the new row and all rows with other ids, still in order, and other channels are untouched |
| MessageCache.MessageService.Delete | services/chat/src/handlers/messages.rs:364-473 | 500 exactly if a call it needs fails, 404 exactly for a missing or already deleted message, 403 exactly for a stranger without MANAGE, else 204 and the message is gone from the live history and nothing else changed |
| RateLimit.LifetimePasses | services/gateway/middleware/ratelimit.go:51-83 | on every interleaving of INCR and EXPIRE, of the requests served by one key exactly the first hundred pass |
| RateLimit.AtMost199 | services/gateway/middleware/ratelimit.go:15-83 | on every interleaving, EXPIREs late or lost included, the requests of a user whose INCR falls in any half-open minute include at most 199 that pass |
| RateLimit.BoundReached | services/gateway/middleware/ratelimit.go:54-83 | a concrete run in which 199 requests pass within two milliseconds |
| RateLimit.RateLimiter.Limit | services/gateway/middleware/ratelimit.go:38-85 | uncounted and passed when disabled, without claims or without Redis; else a living counter goes up by one and a dead one starts at 1 with 60 seconds if the EXPIRE arrives; refused exactly beyond 100, with the seconds left, rounded, or 60; other users are untouched |
| ChannelView.SendKeeps | apps/web-app/app/components/ChannelView.tsx:121-130 | a placeholder keeps ids distinct if and only if no send in flight has its millisecond |
| ChannelView.DistinctIffClean | apps/web-app/app/components/ChannelView.tsx:84-159 | over any interleaving of sends, repeated echoes, confirmations and failures, ids are distinct at every moment if and only if no send reuses the millisecond of one in flight |
| ChannelView.SameMillisecond | apps/web-app/app/components/ChannelView.tsx:121-152 | two sends in one millisecond: after both answers the first message is there twice and the second not at all |
| ChannelView.ListOfRun | apps/web-app/app/components/ChannelView.tsx:84-159 | the list holds no id twice and exactly one entry, with its content, for every unanswered send and every echoed or confirmed message, so no placeholder outlives its response |
| ChannelView.Confluent | apps/web-app/app/components/ChannelView.tsx:84-159 | two orders of the same sends, responses and echoes leave the same messages |
| ChannelView.ConfirmKeepsPlace | apps/web-app/app/components/ChannelView.tsx:147-151 | a confirmation ahead of its echo puts the stored message in the placeholder's position and changes nothing else |
| ChannelView.MergeKeeps | apps/web-app/app/components/MessageList.tsx:97-101 | merging keeps ids distinct, loses none, and keeps the fetched list in front |
| MessageList.ScrollIsPrefix | apps/web-app/app/components/MessageList.tsx:71-157 | however far the client scrolls while others post, what it holds is a prefix of the live history at the first load with strictly ascending ids, and the whole page walk once there is no more |
| MessageList.ScrollShowsPages | apps/web-app/app/components/MessageList.tsx:71-157 | with messages posted and deleted while scrolling and pages served stale from the cache, each from a state that holds the row of its cursor: while there is more, the list is exactly the first rows of the first state, page by page; it ends exactly at the first load whose window is short or holds a row deleted by then |
| MessageList.FreshPagesKnowCursors | apps/web-app/app/components/MessageList.tsx:125-157 | a load answered from a state no older than the one before it holds the row of its cursor |
| MessageList.ListAscends | apps/web-app/app/components/MessageList.tsx:97-176 | whatever states of the table the pages are read in and whatever the user deletes meanwhile, also while a page is on its way, ids strictly ascend in the list |
| MessageList.ScreenHasNoDuplicates | apps/web-app/app/components/MessageList.tsx:97-176 | such a list merged with the optimistic list of any orderly run shows no id twice and misses none |
| Servers.DoKeeps | services/servers/src/main/java/com/concordia/servers/service/MembershipService.java:39-77 | every transaction keeps each member holding READ, WRITE and VOICE_JOIN, each owner a member holding everything, and takes nothing from a member who stays |
| Servers.BasicIffMember | services/servers/src/main/resources/db/migration/V4__roles_and_permissions.sql:5-11 | someone holds a basic permission if and only if they are a member |
| Servers.ManageComesFromOwner | services/servers/src/main/java/com/concordia/servers/service/RoleService.java:54-80 | after any transactions, if someone other than the owner holds MANAGE on a server, its owner has assigned a role there |
| Servers.DeletedServerStillGrants | services/servers/src/main/java/com/concordia/servers/service/ServerService.java:120-129 | soft-deleting a server changes neither its memberships nor anyone's permissions |
| ServersApi.ServersService.CreateServer | services/servers/src/main/java/com/concordia/servers/service/ServerService.java:38-79 | 400 for a blank name; else the server, @everyone with READ, WRITE and VOICE_JOIN, @owner with MANAGE too, and an owner who is a member holding @owner |
| ServersApi.ServersService.UpdateServer | services/servers/src/main/java/com/concordia/servers/service/ServerService.java:94-118 | 400, 404 and 403 in that order, else only the name changes |
| ServersApi.ServersService.DeleteServer | services/servers/src/main/java/com/concordia/servers/service/ServerService.java:120-136 | 404 and 403 in that order, else only the deleted flag changes |
| ServersApi.ServersService.CreateRole | services/servers/src/main/java/com/concordia/servers/service/RoleService.java:32-52 | 400 and 404 in that order, an unmapped 500 exactly if the server has a role of that name, else one new role with that name and those permissions |
| ServersApi.ServersService.AssignRole | services/servers/src/main/java/com/concordia/servers/service/RoleService.java:54-80 | 404 and 400 in that order, then 403 exactly if the requester is not the owner and does not hold MANAGE, else 200 and one assignment to the target |
| ServersApi.ServersService.JoinServer | services/servers/src/main/java/com/concordia/servers/service/MembershipService.java:39-60 | 404 and 409 in that order, else 200 and the user is a member assigned the server's @everyone role and nothing else, holding READ, WRITE and VOICE_JOIN |
| ServersApi.ServersService.LeaveServer | services/servers/src/main/java/com/concordia/servers/service/MembershipService.java:62-77 | 400 for the owner and 404, else the membership and exactly the user's assignments on the server are gone |
| PermissionCache.KeyInjective | services/servers/src/main/java/com/concordia/servers/service/PermCacheService.java:21 | different servers or users never share a cache entry |
| PermissionCache.AnswersAreRecent | services/servers/src/main/java/com/concordia/servers/service/PermissionService.java:23-32 | on every interleaving of check steps, transactions, evictions and time: who is not a member at the test is refused, and every other answer is what the roles gave in a state in force no longer ago than 60 seconds plus that fill's delay |
| PermissionCache.DroppedAfterAMinute | services/servers/src/main/java/com/concordia/servers/config/CacheConfig.java:19-21 | the clock drops an entry exactly 60 seconds after it was stored |
| PermissionCache.BasicRefusedIff | services/servers/src/main/java/com/concordia/servers/service/PermissionService.java:23-32 | READ, WRITE or VOICE_JOIN is refused past the membership test if and only if the role query behind the answer saw a moment the user was not a member |
| PermissionCache.AllowedIsGranted | services/servers/src/main/java/com/concordia/servers/service/PermCacheService.java:21-26 | an allowed permission is granted by the roles in every later state up to which the user stayed a member since the role query |
| PermissionCache.AllowedIsGrantedIff | services/servers/src/main/java/com/concordia/servers/service/PermCacheService.java:21-26 | in any later state an allowed permission is granted by the roles if and only if the user has stayed a member since the role query, or a join or an assignment since then gave it and the user has stayed a member from then on |
| PermissionCache.OwnerNeverRefused | services/servers/src/main/java/com/concordia/servers/service/ServerService.java:65-70 | an owner asking about an existing server is refused nothing, on any run |
| PermissionCache.StaleGrant | services/servers/src/main/java/com/concordia/servers/config/CacheConfig.java:19-21 | from any state where the cache holds a permission @everyone does not give: after leaving and rejoining the answer is yes though no current role grants it |
| PermissionCache.MemberRefusedRead | services/servers/src/main/java/com/concordia/servers/service/PermissionService.java:24-27 | from any state: a check interleaved with leaving and rejoining makes the next check refuse READ to a member who holds it |
| PermissionCache.StaleGrantRun | services/servers/src/main/java/com/concordia/servers/config/CacheConfig.java:19-21 | a whole run from empty tables (found, join, promote, check, leave, rejoin, check) that ends with MANAGE allowed to a member whose roles do not grant it |
| PermissionCache.MemberRefusedReadRun | services/servers/src/main/java/com/concordia/servers/service/PermissionService.java:24-27 | a whole run from empty tables that ends with READ refused to a member who holds it |
| PermissionService.PermissionService.GetPermissionsForUser | services/servers/src/main/java/com/concordia/servers/service/PermCacheService.java:21-26 | the cached set for less than 60 seconds after it was stored, else the union over the user's roles, which is stored |
| PermissionService.PermissionService.CheckPerm | services/servers/src/main/java/com/concordia/servers/service/PermissionService.java:23-32 | "not a member" from the live test without touching the cache; else exactly what the set cached less than 60 seconds ago, or the roles, say, with the matching reason; no other entry changes |
| Tokens.AcceptedIff | services/auth/src/main/java/com/concordia/auth/service/AuthService.java:128-173 | with each request run whole: after any run a refresh is accepted if and only if its token was issued to a user who has not logged out since, at most seven days ago, and not used since |
| Tokens.UsedAtMostOnce | services/auth/src/main/java/com/concordia/auth/service/AuthService.java:128-139 | with each request run whole: on no run is one token used twice, whether a use was accepted or found it expired |
| Tokens.NoneAfterLogout | services/auth/src/main/java/com/concordia/auth/service/AuthService.java:175-181 | with each request run whole: no token issued to a user before a logout is accepted after it |
| Tokens.HeldIsBalance | services/auth/src/main/java/com/concordia/auth/service/AuthService.java:110-181 | with each request run whole: a user holds as many tokens as logins since the last logout less those removed as expired, since an accepted refresh is neutral |
| RefreshRaces.TakenAwayOnce | services/auth/src/main/java/com/concordia/auth/service/AuthService.java:128-181 | with find, delete and save, and a logout's read and commit, as separate steps of any interleaving: a token is taken from the table at most once, and no refresh finds it afterwards |
| RefreshRaces.AcceptedOnce | services/auth/src/main/java/com/concordia/auth/service/AuthService.java:128-167 | on every interleaving at most one refresh is given a new token for the same old one, however many of them found it |
| RefreshRaces.DeletesIff | services/auth/src/main/java/com/concordia/auth/service/AuthService.java:134-139 | a refresh that found its token gets past its delete if and only if no other refresh and no logout has taken that token away since |
| RefreshRaces.RootIsLogin | services/auth/src/main/java/com/concordia/auth/service/AuthService.java:128-167 | every token goes back, refresh by refresh, to a login of the same user |
| RefreshRaces.OneTokenPerLogin | services/auth/src/main/java/com/concordia/auth/service/AuthService.java:81-167 | on every interleaving a login accounts for at most one token in the table |
| RefreshRaces.CommitsIff | services/auth/src/main/java/com/concordia/auth/service/AuthService.java:175-181 | a logout commits if and only if no token it read has been taken away since |
| RefreshRaces.LogoutEndsOldTokens | services/auth/src/main/java/com/concordia/auth/service/AuthService.java:175-181 | a token saved for a user before a logout's read is not found after its commit and is not in the table at the end, whatever is in flight |
| RefreshRaces.LogoutHoldsIff | services/auth/src/main/java/com/concordia/auth/service/AuthService.java:128-181 | for every logout on every run: all tokens its user is given after its read go back to logins after that read if and only if none of them is saved by a refresh that had found its token before the read |
| RefreshRaces.SurvivesLogout | services/auth/src/main/java/com/concordia/auth/service/AuthService.java:128-181 | a concrete run in which a refresh past its delete when the logout reads saves a token of the old session after it |
| RefreshRaces.LoginSurvivesLogout | services/auth/src/main/java/com/concordia/auth/service/AuthService.java:175-181 | a concrete run in which a login between a logout's read and its commit keeps its token |
| RefreshRaces.UndisturbedRefresh | services/auth/src/main/java/com/concordia/auth/service/AuthService.java:128-173 | with nothing in between, the three steps of a refresh do to the table what the whole request does |
| RefreshRaces.UndisturbedLogout | services/auth/src/main/java/com/concordia/auth/service/AuthService.java:175-181 | and the two steps of a logout likewise |
| Auth.AuthService.Login | services/auth/src/main/java/com/concordia/auth/service/AuthService.java:81-126 | unknown email and wrong password refused alike without change; else one new token of that user for 604,800,000 milliseconds |
| Auth.AuthService.Refresh | services/auth/src/main/java/com/concordia/auth/service/AuthService.java:128-173 | accepted exactly for a known unexpired token; the old token is gone in every case and a new one of the same user for seven days is there only if accepted; no other token changes |
| Auth.AuthService.Logout | services/auth/src/main/java/com/concordia/auth/service/AuthService.java:175-181 | exactly the user's tokens are gone; without a valid access token nothing changes |
| IceBuffering.NothingLost | apps/web-app/app/components/VoiceChannelView.tsx:70-201 | on every interleaving at awaits, for each user and candidate: received = handed over + buffered + carried by a flushing handler + discarded |
| IceBuffering.NeverTooEarlyNorStranded | apps/web-app/app/components/VoiceChannelView.tsx:77-131 | no candidate is handed over before the remote description is set, and none stays buffered for a ready peer except until the handler that made it ready goes on |
| IceBuffering.SignalFlushes | apps/web-app/app/components/VoiceChannelView.tsx:159-183 | an offer or an answer whose description is set on an open connection, left undisturbed, hands it the user's whole buffer, in order, each candidate once |
| IceBuffering.ClosedIsFinal | apps/web-app/app/components/VoiceChannelView.tsx:70-75 | a connection closed before its description was set never gets one |
| VoiceChannel.VoiceChannelView.MakePeer | apps/web-app/app/components/VoiceChannelView.tsx:91-115 | a connection never used before takes the user's place in the map |
| VoiceChannel.VoiceChannelView.AddRemoteCandidate | apps/web-app/app/components/VoiceChannelView.tsx:118-131 | straight to a ready peer, else to the end of the user's buffer |
| VoiceChannel.VoiceChannelView.FlushCandidates | apps/web-app/app/components/VoiceChannelView.tsx:78-89 | undisturbed, the whole buffer goes in order to the given connection, and only that buffer is removed |
| VoiceChannel.VoiceChannelView.RemovePeer | apps/web-app/app/components/VoiceChannelView.tsx:70-75 | the peer is closed and forgotten and its buffer discarded, nothing else |
| VoiceChannel.VoiceChannelView.DoCleanup | apps/web-app/app/components/VoiceChannelView.tsx:188-201 | all peers are closed and forgotten and all buffers discarded |

## Left out

- Presence.QueriesNeverMiss: the query is read in one state; `PresenceQueries.SpreadQueriesNeverMiss` spreads its reads over a run.
- Presence.QueriesAgreeWithScan: the query is read in one state; `PresenceQueries.SpreadQueriesExact` spreads its reads over a run.
- PresenceService.PresenceHandler.Register: a single command refused by a Redis that runs the ones after it is not modelled.
- FanOut.SessionsAreHeld: a Presence call that times out in the gateway and completes later is not modelled, nor is a gateway that crashes or restarts under the same hostname.
- FanOut.MessageReachesSubscribers: query and push are in one state; `FanOut.MessageReachesLater` takes them apart.
- Heartbeats.NeverExpires: a recurrence of deadlines apart from the registry; `KeepAlive.HeartbeatsKeepAlive` is about the registry's runs.
- Backplane.BackplaneRefinesSingleTable: every replica is subscribed and receives the push once; Redis pub/sub delivery itself is not modelled.
- AuditStore.RunVerifies: a failed INSERT is taken to have left no row.
- AuditStore.InsertsIff: the size limits of columns, indexes and jsonb are not modelled.
- AuditEvents.ScanUndoesInsert: Go's matching of member names without regard to case, which matters only for rows not written by the store, is not modelled, nor is a number beyond the range of float64 in such a row.
- Json.ValueRoundTrip: invalid UTF-8 and surrogate escapes are not modelled.
- Numbers.NumberBack: which decimal a float64 prints as is left open; the texts of that decimal are not.
- Messages.WalkIsPrefix: the table stands still; `MessageWalks` and `Messages.InsertsDoNotDisturb` let it change.
- MessageWalks.WalkThroughSkipsNone: rows are never removed, as the service never removes any.
- MessageCache.BoundedStaleness: Cassandra is one consistent map, and Redis expiry is exact to the clock of the model.
- RateLimit.AtMost199: a request is placed in time by its INCR; requests that pass uncounted because Redis failed or the limiter is off are not in the count.
- ChannelView.ListOfRun: one mount of one channel; the usernames attached to messages are not modelled.
- MessageList.ScrollIsPrefix: only inserts while scrolling; `MessageList.ScrollShowsPages` lets messages be deleted and pages be stale.
- MessageList.ScrollShowsPages: a page cached for a cursor before the row of that cursor existed, which no client could have asked for, is not covered, nor are messages the user deletes from the list on screen, which `MessageList.ScreenHasNoDuplicates` has; responses that arrive after a channel switch, failed loads and overlapping load-mores are not modelled.
- PermissionCache.AnswersAreRecent: one instance of the servers service, whose cache never exceeds its maximum size except by arbitrary evictions.
- ServersApi.ServersService.CreateRole: a null name or null permission set is treated as a blank or empty one.
- Tokens.AcceptedIff: each request runs whole; `RefreshRaces` lets their steps interleave. Users are never deleted.
- Tokens.UsedAtMostOnce: each request runs whole; `RefreshRaces.TakenAwayOnce` and `RefreshRaces.AcceptedOnce` do without.
- Tokens.NoneAfterLogout: each request runs whole; `RefreshRaces.LogoutEndsOldTokens` and `RefreshRaces.LogoutHoldsIff` do without.
- Tokens.HeldIsBalance: each request runs whole; without that a user may hold fewer tokens, while a refresh is between its delete and its save or after one failed there, and `RefreshRaces.OneTokenPerLogin` bounds them by the logins.
- RefreshRaces.AcceptedOnce: users are never deleted, so a refresh never fails between its delete and its save for want of its user.
- IceBuffering.NothingLost: a candidate given to addIceCandidate counts as handed over even if the browser rejects it.
- The gateway's circuit breaker: its state machine is a library's.
- JWT validation, bcrypt, SHA-256 and random ids: foreign calls, taken as parameters or fresh values.
- HTTP, gRPC, Kafka and WebSocket plumbing, reconnects, deployment, the desktop shell and rendering.
- Attachments, tips, CORS, logging, path routing and audit emission from the other services: one-branch behaviour.
- Listing members and servers, and the profile endpoint: lookups without state.
