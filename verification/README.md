# ChatterStack: a verified model of the chat backend

Six stateful parts of the backend, modelled in Dafny and proved over whole runs:
the auth session cache, the rate limiter, the websocket hub with its client pumps
and relay, the message service, history reading, and direct rooms. `dafny verify
dfyconfig.toml` checks everything.

Where the program changes state step by step, a class or a method has the same
statements and is proved equal to a specification function; the results about runs
are lemmas about those functions.

| file | content |
|---|---|
| `Text.dfy`, `Uuid.dfy` | trimming, splitting and joining of strings; which texts a UUID column accepts, and what it gives back |
| `Cache.dfy`, `Auth.dfy` | the expiring key-value store under a fault-and-clock script; the auth service on it |
| `AuthRuns.dfy`, `AuthTheorems.dfy`, `AuthSliding.dfy`, `AuthAnswers.dfy` | ownership, single use, revocation, failed issues, sliding expiry, and who is answered what |
| `RateLimiter.dfy` | token buckets with eviction, and exactly when eviction shows |
| `Hub.dfy`, `HubLoop.dfy`, `HubTheorems.dfy`, `HubDelivery.dfy` | the hub as functions, as an object, its safety, and what clients receive |
| `WritePump.dfy`, `ClientEvents.dfy` | the write pump's frames; what a socket may do |
| `Relay.dfy`, `RelayLoop.dfy`, `Network.dfy` | channel names and dispatch, the receive loop, fan-out over many nodes |
| `Messages.dfy`, `MessageAnswers.dfy`, `History.dfy` | the publication log against the table; the row of an id against the calls about it; pages and neighbourhoods |
| `Rooms.dfy`, `RoomAnswers.dfy` | transactional creation, and direct rooms found before they are made; what each call writes and answers |

## Main results

- **Auth.** A refresh token is single-use whatever cache commands fail. If deletes and
  renewals work, a completed Login, Refresh or Logout ends every earlier access token
  of the user for good, and an issue whose writes fail leaves the user with no usable
  token. The hypotheses on renewals and deletes are needed (`LostRenewalOutlivesLogout`,
  `LostDeleteOutlivesLogout`), and `LogoutSparesIff` says exactly which tokens a Logout
  leaves. Without cache errors an access token works exactly until its user's next Login,
  Refresh or Logout, as long as no two uses are a lifetime apart, whatever else is called
  (`SlidingSession`).
- **Rate limiter.** Eviction is invisible, and the rate bound holds, if and only if
  `burst * window <= (2 * window + 1) * requests`, which for every practical setting
  is `burst <= 2 * requests`. The bound is sharp: a request is admitted if and only if every
  interval ending with it stays within it (`AdmittedIff`), so refused requests cost nothing
  (`RefusalsCostNothingIff` gives the exact condition with eviction).
- **Hub.** An orderly run panics if and only if some client is unregistered twice. The
  program itself can do that: an evicted slow consumer is unregistered by the eviction
  and again by its read pump (`SlowConsumerRun`). When that is done with, such a run has
  panicked if and only if some broadcast met a full queue (`PanicsIffOverflow`). The other
  two hypotheses (no user message to a full queue, none after shutdown) are shown to be
  needed as well. Under them a user's messages reach exactly the user's clients
  (`UserMessagesArrive`). Without any hypothesis the room index is exact, every client gets
  its events in broadcast order, and a registered client that missed one has a removal
  pending.
- **Fan-out.** A message is queued once for each healthy client of its room on every
  node, and twice on the node whose socket sent it, because the handler broadcasts
  what the relay broadcasts again. The client must have joined under the text the message
  names the room by: a member who asked for the room in another spelling is let in and
  never hears of it (`BareRoomHearsNothing`).
- **Messages.** The publication log rebuilds the table, up to the spelling of ids, for
  every id whose latest change went out, in every run. To the letter it does so if and
  only if the message was not sent under another spelling of its room or sender, or has
  been edited or deleted since: the UUID columns store one spelling, and Send publishes
  the one it was given (`AgreeIff`, `ReplayRebuildsTable`). Each row is what the calls about
  its id made of it, and says only what its sender said (`RowIsItsHistory`,
  `StoredWordsAreTheSenders`).
- **History.** Reading pages to the end misses nothing, if and only if no two messages
  of the table share a time (`PagesCoverIff`); the surroundings of a message are a
  contiguous slice for every limit, without the messages of the same time.
- **Direct rooms.** One room a pair, in every run whose calls meet their guards; each
  guard is exact (`StepSoundIff`). They are met if user ids come in canonical form, plain
  rooms come from EnsureDirectRoom only, and nobody edits the members of a direct room. The
  code enforces none of the three. The query compares text while the table stores UUIDs, so
  any other spelling PostgreSQL accepts, such as an id without its hyphens, makes a new room
  each time (`EnsureTwice`, `BareIdMakesASecondRoom`); the create route makes plain rooms of
  any members (`PlainRoomIsNoPair`); and members can be added to a direct room
  (`BareIdAddsAThird`).

## Hypotheses

- Generated tokens and ids are fresh, and generated ids canonical; lifetimes are positive
  (the type `Lifetime`).
- Calls of one service do not interleave.
- Hub steps are atomic. The mutex does not make all of them so: sendToRoom and SendToUser
  take only the read lock and run in different goroutines, and the model orders any two
  of them one after the other.
- A request and the clock reading of its bucket happen at one instant, and time does not
  run backwards.
- Where a row says so, runs of the hub are orderly in the sense of
  `HubTheorems.Orderly`, and the calls of runs of rooms meet `RoomTheorems.Keeps`, which
  `RoomTheorems.Allowed` implies. The predicates are spelled out there.
- Pub/sub is reliable and ordered for each node; queries answer by their SQL.
- For the fan-out, different events are encoded differently, and an edit is given no time
  its message was published under before, by either clock.
- After a failed Write on a websocket frame its Close fails too, as in the library used.

## Model

| member | source | states |
|---|---|---|
| CacheKeys.RenderInjective | internal/domain/auth/service_impl.go:279-293 | the four key builders are injective and their ranges are disjoint, for arbitrary ids and tokens |
| Cache.Store.Get | internal/repository/redis/redis_cache.go:21-27 | a read answers hit, miss or error by key and clock; only the clock moves |
| Cache.Store.Set | internal/repository/redis/redis_cache.go:30-32 | a write stores value and expiry under the rendered key unless it is lost; the string store keeps matching the typed view |
| Cache.Store.Delete | internal/repository/redis/redis_cache.go:34-36 | a delete removes that one key unless it is lost; the string store keeps matching the typed view |
| Cache.SetMatches | internal/domain/auth/service_impl.go:279-293 | writing under a rendered key touches no other typed entry |
| AuthService.Service.InvalidateSession | internal/domain/auth/service_impl.go:255-277 | the statements on the store do what the specification function says, at every fault and clock script |
| AuthService.Service.IssueTokens | internal/domain/auth/service_impl.go:178-229 | invalidation, the token source's failure, the four writes and their rollbacks, as statements, against the specification |
| AuthService.Service.WriteTokens | internal/domain/auth/service_impl.go:207-226 | the four writes in order, each with its own rollback, against the specification |
| AuthService.Service.Login | internal/domain/auth/service_impl.go:86-117 | field checks, user lookup, password check, issue and status update, against the specification |
| AuthService.Service.Refresh | internal/domain/auth/service_impl.go:119-163 | token checks, user lookup, issue and status update, against the specification |
| AuthService.Service.Logout | internal/domain/auth/service_impl.go:165-176 | trimming, invalidation and status update, against the specification |
| AuthService.Service.ValidateAccessToken | internal/domain/auth/service_impl.go:231-253 | lookup and the two renewing writes, against the specification |
| AuthRuns.StepOwned | internal/domain/auth/service_impl.go:86-277 | every cache entry of every family always belongs to the user its token was generated for, under any faults |
| AuthRuns.StepNoRevival | internal/domain/auth/service_impl.go:86-277 | no call makes an already generated token acceptable that was not acceptable before, under any faults |
| AuthRuns.RunNoRevival | internal/domain/auth/service_impl.go:86-277 | acceptance of each generated token only shrinks over every run, under any faults |
| AuthTheorems.RefreshIsSingleUse | internal/domain/auth/service_impl.go:119-163 | once Refresh(t), or a Login of its user, has returned a pair, no later Refresh(t) succeeds, whatever cache commands fail before or after |
| AuthTheorems.InvalidateClears | internal/domain/auth/service_impl.go:255-277 | where live access tokens are linked to their access-session entry, invalidation leaves the user no live access token and no session |
| AuthTheorems.WriteAccessLinks | internal/domain/auth/service_impl.go:214-226 | because the access-session entry is written last it outlives the token; a failed pair of writes leaves nothing live |
| AuthTheorems.WriteTokensLinks | internal/domain/auth/service_impl.go:207-226 | for every outcome of the four writes: success keeps the link, any failure leaves the user nothing acceptable |
| AuthTheorems.RenewalLinks | internal/domain/auth/service_impl.go:231-253 | a validation whose writes succeed keeps the link, in the order it writes |
| AuthTheorems.StepLinks | internal/domain/auth/service_impl.go:86-277 | the link survives every call if deletes and renewals work; reads and the writes of an issue may fail |
| AuthTheorems.RunLinks | internal/domain/auth/service_impl.go:86-277 | the same over every run |
| AuthTheorems.OneAccessTokenPerUser | internal/domain/auth/service_impl.go:178-253 | after every such run each user has at most one live access token, the one its access-session entry names |
| AuthTheorems.CompletionRevokes | internal/domain/auth/service_impl.go:165-229 | a completed Login, Refresh or Logout of u leaves no earlier access token of u live |
| AuthTheorems.AccessRevocation | internal/domain/auth/service_impl.go:165-277 | and no earlier access token of u is accepted in any continuation, whose faults are unrestricted |
| AuthTheorems.FailedIssueRevokesAll | internal/domain/auth/service_impl.go:207-226 | if any of the four writes fails, with or without effect, no token of that user, old or new, is ever accepted again |
| AuthTheorems.InvalidateSparesIff | internal/domain/auth/service_impl.go:255-277 | after an invalidation, in any state and under any faults, an access token is live if and only if it has not expired and was not both named by the access-session entry read and deleted with effect |
| AuthTheorems.LogoutSparesIff | internal/domain/auth/service_impl.go:165-176 | the same after a Logout that succeeded |
| AuthSliding.IssueStartsTheClock | internal/domain/auth/service_impl.go:207-226 | the lifetimes of a new pair count from its own writes; session ends no later than refresh, access no later than access-session |
| AuthSliding.NewRefreshTokenWorks | internal/domain/auth/service_impl.go:119-163 | a new refresh token is exchanged for a new pair within the refresh lifetime |
| AuthSliding.AcceptedWhileGapsAreShort | internal/domain/auth/service_impl.go:86-253 | without cache errors, in any run of calls of any users: use i of a token is accepted if and only if no Login, Refresh or Logout of its user has passed its checks before and every gap up to it is below the access lifetime |
| AuthSliding.LapsedStaysLapsed | internal/domain/auth/service_impl.go:86-253 | a lapsed token is refused at every later use, whatever is called in between and whatever cache commands fail |
| AuthSliding.OtherCallKeeps | internal/domain/auth/service_impl.go:86-277 | a call that is no use of a token and does not act for its user leaves its entry as it is, under any faults |
| AuthSliding.ActingRevokes | internal/domain/auth/service_impl.go:178-277 | without cache errors a call that acts for a user ends that user's tokens, even if it fails afterwards |
| AuthSliding.SlidingSession | internal/domain/auth/service_impl.go:86-253 | the equivalence holds of the access token of every Login and Refresh that returned a pair, after any run whose deletes and renewals work |
| AuthSliding.LostRenewalOutlivesLogout | internal/domain/auth/service_impl.go:245-250 | a concrete run: one lost renewal write and nothing else, then Logout succeeds and the token is still accepted |
| AuthSliding.LostDeleteOutlivesLogout | internal/domain/auth/service_impl.go:271-274 | a concrete run: one lost delete and nothing else, Logout reports success and the token is still live |
| AuthAnswers.LoginAnswers | internal/domain/auth/service_impl.go:86-117 | a login returns a pair only if the trimmed lower-case email is a user's and the password fits; the pair is the generated one and all four entries name that user; for anybody else nothing is written; without cache errors only the random source and the status update can keep an entitled login back |
| AuthAnswers.LoginRefusals | internal/domain/auth/service_impl.go:86-105 | which error a refused login gets, in the order of the checks |
| AuthAnswers.RefreshAnswers | internal/domain/auth/service_impl.go:119-163 | a refresh token is exchanged only if, at the two lookups, it is live for a user whose live session names it and who still exists; the new pair is that user's; otherwise no entry changes; without cache errors nothing else is asked |
| AuthAnswers.ValidateAnswers | internal/domain/auth/service_impl.go:231-253 | a validation answers with the user that the token's live entry names; without cache errors it does so exactly then |
| AuthAnswers.LogoutAnswers | internal/domain/auth/service_impl.go:165-176 | a Logout succeeds only for a named user and with the status updated, and then, without cache errors, leaves no live session or access-session entry |
| AuthAnswers.InvalidateTakesOnly | internal/domain/auth/service_impl.go:255-277 | an invalidation takes away at most the user's two entries and the two token entries they name, and writes nothing, under any faults |
| AuthAnswers.InvalidateTakesAll | internal/domain/auth/service_impl.go:255-277 | if deletes work it takes all four that are still live |
| AuthAnswers.FailedIssueLeavesNothing | internal/domain/auth/service_impl.go:214-226 | if the third or fourth write fails and deletes work, neither the session nor any entry of the new pair is left |
| AuthAnswers.AcceptedIsOwner | internal/domain/auth/service_impl.go:231-253 | in every run, under any faults, an accepted access token is answered with the user it was generated for |
| AuthAnswers.ExchangedForOwner | internal/domain/auth/service_impl.go:119-163 | and a refresh token is exchanged for a pair of the user it was generated for |
| RateLimiter.WithDefaults | pkg/middleware/rate_limit.go:35-44 | non-positive settings get 100 requests, one minute, burst equal to requests; others are kept |
| RateLimiter.Limiter.GetVisitor | pkg/middleware/rate_limit.go:73-85 | a known key's bucket or a full new one; the key was seen now |
| RateLimiter.Limiter.Request | pkg/middleware/rate_limit.go:62-71 | one request is decided on the key's bucket, which is updated |
| RateLimiter.Limiter.Tick | pkg/middleware/rate_limit.go:87-101 | the deletion loop removes exactly the keys idle for more than two windows |
| RateLimiter.RunForgets | pkg/middleware/rate_limit.go:62-101 | a table that has forgotten full buckets only decides every run like one that forgets nothing |
| RateLimiter.EvictionInvisible | pkg/middleware/rate_limit.go:62-101 | eviction changes no decision of any run if and only if a drained bucket refills before its key can be evicted |
| RateLimiter.EvictionShows | pkg/middleware/rate_limit.go:62-101 | otherwise two bursts around the third tick are decided differently |
| RateLimiter.BurstThreshold | pkg/middleware/rate_limit.go:49-55 | that condition is burst <= 2 * requests, below one request a nanosecond; burst <= 2 * requests always suffices |
| RateLimiter.DefaultBurstIsSafe | pkg/middleware/rate_limit.go:42-44 | with the default burst eviction never shows |
| RateLimiter.CreditBoundsAdmissions | pkg/middleware/rate_limit.go:49-71 | without eviction, admissions cost at most the credit plus what the time earns |
| RateLimiter.RateBound | pkg/middleware/rate_limit.go:49-101 | with eviction, any interval admits at most burst + T * requests / window for a key, across re-creations |
| RateLimiter.RateBoundThreshold | pkg/middleware/rate_limit.go:49-101 | the rate bound holds in every run if and only if the same condition holds |
| RateLimiter.AdmittedIff | pkg/middleware/rate_limit.go:49-101 | a request of an ordered run is admitted if and only if, in every interval that ends with it, the key's admissions and this one cost at most the burst plus what the interval earns; so it is without eviction, and with it under the same condition |
| RateLimiter.StrikingIsFree | pkg/middleware/rate_limit.go:62-71 | striking any refused requests out of an ordered run changes no other verdict, without eviction, and with it under the same condition |
| RateLimiter.RefusalsCostNothingIff | pkg/middleware/rate_limit.go:62-101 | with eviction that holds of every run if and only if the condition holds or tokens come at least one a nanosecond |
| RateLimiter.RefusalCosts | pkg/middleware/rate_limit.go:76-79 | otherwise one refused request between two bursts keeps the key from eviction, and the second burst is no longer admitted whole |
| Hub.FiledIsExact | internal/delivery/websocket/hub.go:93-111 | filing a client keeps an index exact, with repeated rooms too |
| Hub.UnfiledIsExact | internal/delivery/websocket/hub.go:113-134 | removing a client keeps an index exact and stores no empty set |
| HubLoop.File | internal/delivery/websocket/hub.go:99-110 | the insertion loop, making missing sets, against its closed form |
| HubLoop.Unfile | internal/delivery/websocket/hub.go:119-134 | the removal loop, dropping sets left empty, against its closed form |
| HubLoop.Offer | internal/delivery/websocket/hub.go:144-154 | sendToRoom's loop in any order: every open queue with room gets the item, full ones are scheduled for removal, a closed one panics |
| HubLoop.OfferOrClose | internal/delivery/websocket/hub.go:82-89 | SendToUser's loop: full queues are closed and their clients dropped |
| HubLoop.Loop.AddClient | internal/delivery/websocket/hub.go:93-111 | the new state of the hub, all fields |
| HubLoop.Loop.RemoveClient | internal/delivery/websocket/hub.go:113-137 | the new state of the hub, all fields, and the panic of a second close |
| HubLoop.Loop.SendToRoom | internal/delivery/websocket/hub.go:139-155 | the new state of the hub, all fields |
| HubLoop.Loop.SendToUser | internal/delivery/websocket/hub.go:77-91 | the new state of the hub, all fields |
| HubLoop.Loop.Shutdown | internal/delivery/websocket/hub.go:157-167 | channels closed, clients and rooms emptied, users left |
| HubLoop.Loop.Run | internal/delivery/websocket/hub.go:40-54 | the event loop over any sequence of events computes the step-by-step run |
| HubTheorems.IndexesAreExact | internal/delivery/websocket/hub.go:93-134 | in every run, orderly or not, rooms is the exact index of the client set and stores no empty set, repeated rooms or not; users too, until a message overflows a queue or the hub stops |
| HubTheorems.RunSound | internal/delivery/websocket/hub.go:40-167 | every orderly run keeps rooms, users and clients one exact set of open clients, and panics only after a double removal |
| HubTheorems.PanicsIffUnregisteredTwice | internal/delivery/websocket/hub.go:40-167 | an orderly run sends on or closes a closed channel if and only if some client is unregistered twice; otherwise clients are exactly the registered ones with an open queue |
| HubTheorems.EvictionBalance | internal/delivery/websocket/hub.go:144-154 | in an orderly run that has not panicked, the evictions of a client handled or still pending are as many as the broadcasts that met its full queue |
| HubTheorems.PanicNeedsOverflow | internal/delivery/websocket/hub.go:40-155 | with one read pump for each client an orderly run panics only if a broadcast met a full queue |
| HubTheorems.PanicsIffOverflow | internal/delivery/websocket/hub.go:40-155 | once the evictions asked for are handled and the read pumps of those clients have ended, it has panicked if and only if a broadcast met a full queue |
| HubTheorems.RegisterThenUnregisterRestores | internal/delivery/websocket/hub.go:93-137 | removing a freshly added client restores all three indexes |
| HubTheorems.EvictionThenReadPumpPanics | internal/delivery/websocket/hub.go:136-152 | eviction followed by the read pump's own removal closes the channel twice |
| HubTheorems.UserOverflowIsHarmlessAlone | internal/delivery/websocket/hub.go:82-89 | from an exact state any series of user messages, overflowing queues or not, ends without a panic, since a client whose channel is closed leaves its user's set at once |
| HubTheorems.OverflowThenBroadcastPanics | internal/delivery/websocket/hub.go:82-89 | a full queue met by SendToUser makes the next broadcast to the client's room panic |
| HubTheorems.SendToUserAfterStopPanics | internal/delivery/websocket/hub.go:157-167 | a user message after shutdown hits a closed channel, because users is kept |
| HubDelivery.NothingIsMissing | internal/delivery/websocket/hub.go:139-155 | in an orderly run a client awaiting no removal has received exactly the broadcasts for it since it registered |
| HubDelivery.RunOrders | internal/delivery/websocket/hub.go:40-155 | every run, orderly or not, keeps each queue in broadcast order and misses nothing unless a removal is pending |
| HubDelivery.DeliveryOrder | internal/delivery/websocket/hub.go:40-54 | in every run a client's room events are broadcasts addressed to it, in broadcast order, without repeats; a registered client that missed one has a removal pending |
| HubDelivery.SameOrderForAll | internal/delivery/websocket/hub.go:139-155 | in every run two clients see their common events in the same order |
| HubDelivery.RunBounded | internal/delivery/websocket/client.go:55 | no queue ever exceeds its 256 places |
| HubDelivery.UserMessagesArrive | internal/delivery/websocket/hub.go:77-91 | in an orderly run the messages queued for a client as its user's are exactly those sent to that user while it was registered, each once, as sent and in order; a panic can only cut them short; other users' clients get none |
| HubDelivery.TakingFreesPlaces | internal/delivery/websocket/client.go:55 | in every run at most 256 items wait for a client; its pump takes those that have waited longest, and each one taken frees a place |
| HubDelivery.SlowConsumerPanics | internal/delivery/websocket/hub.go:148-153 | a broadcast to a full queue leads, through the eviction and the read pump, to a double close |
| HubDelivery.SlowConsumerRun | internal/delivery/websocket/hub.go:148-153 | an orderly run from the start that ends so: a client registers, 257 broadcasts reach its room, and both removals follow |
| WritePump.Pump | internal/delivery/websocket/client.go:131-178 | for every arrival schedule and every failing write, what goes out is the queued messages in order up to some point, in nonempty batches; unless a write failed that is all that was taken, and a close frame comes last and only after all of them; a failing write ends the pump with at most one batch lost |
| WritePump.Batch | internal/delivery/websocket/client.go:144-169 | one text frame: the message received and those buffered behind it, joined by newlines, unless one of its writes fails |
| WritePump.Behind | internal/delivery/websocket/client.go:158-159 | as many messages as were buffered leave behind the first, short of the end of the queue and of 256 |
| WritePump.FramesDecode | internal/delivery/websocket/client.go:147-169 | splitting the frames on newline returns the messages in order if and only if none contains a newline |
| ClientEvents.SocketsStayInTheirRooms | internal/delivery/websocket/client.go:180-223 | over a socket a user writes only as itself into its own rooms, and what is broadcast is what was stored, but in the spelling the client was given and with times in nanoseconds |
| ClientEvents.SocketRepeatsTheRelay | internal/delivery/websocket/client.go:196-222 | a socket's message is one publication, and its handler broadcasts, if that was acknowledged, exactly what the relay will broadcast of it |
| ClientEvents.SentAsWritten | internal/delivery/websocket/client.go:180-223 | a socket's message becomes a Send exactly if it names a room of the client, and is broadcast to that room with its trimmed content exactly if that is accepted and acknowledged |
| ClientEvents.TypingStaysInTheRooms | internal/delivery/websocket/client.go:225-256 | a typing notice goes to a room of its sender and is addressed to every other member's client |
| ClientEvents.TypingIsNoticed | internal/delivery/websocket/client.go:225-256 | a notice goes out if and only if it names a room of the client, or none and the client has but one |
| ClientEvents.TypingIsNotEchoed | internal/delivery/websocket/hub.go:145-147 | in every run a notice that excludes a client is never queued for it |
| ClientEvents.FilterAuthorizedRooms | internal/delivery/websocket/auth_helpers.go:26-43 | the loops over the rooms asked for and their members, with failing lookups, against the specification |
| ClientEvents.JoinedIff | internal/delivery/websocket/auth_helpers.go:26-43 | a socket joins a room under the very text it asked with, if and only if that names, in any spelling, a room of its user and a lookup of it came back |
| ClientEvents.BareRoomHearsNothing | cmd/server/main.go:309-334 | a member who asks for a room without the hyphens of its id is let in and never gets a message published under the id |
| Uuid.CanonIsCanonical | db/migrations/0001_init.up.sql:14-34 | the text a UUID column gives back is accepted and comes back unchanged |
| Uuid.CanonLooksRight | db/migrations/0001_init.up.sql:14-34 | it has hyphens after 8, 12, 16 and 20 digits and nowhere else, and its digits are in lower case |
| Uuid.CanonicalIsUuidText | db/migrations/0001_init.up.sql:14-34 | it has 36 characters over the UUID alphabet |
| Uuid.HexIsAccepted | db/migrations/0001_init.up.sql:14-34 | any thirty-two hex digits, in whatever case, are accepted for some id |
| Uuid.BareIsAccepted | db/migrations/0001_init.up.sql:14-34 | every id without its hyphens is accepted for that id and is not canonical |
| Uuid.FoursAreAccepted | db/migrations/0001_init.up.sql:14-34 | any thirty-two hex digits in groups of four are accepted |
| Uuid.BracesAreIgnored | db/migrations/0001_init.up.sql:14-34 | braces around an id change nothing |
| Uuid.CanonKeepsDigits | db/migrations/0001_init.up.sql:14-34 | an accepted text has thirty-two digits, and its id has the same ones up to case |
| Uuid.SameIdIff | db/migrations/0001_init.up.sql:14-34 | two accepted texts name one id if and only if their digits are the same up to case |
| Text.TrimCutsSpace | internal/domain/messages/service_impl.go:61-75 | trimming cuts off space only, and only at the two ends |
| Relay.UserChannelRoute | internal/delivery/websocket/relay.go:50-57 | a user channel always routes to a user, and to its own user if and only if the id has no colon |
| Relay.RoomChannelRoute | internal/delivery/websocket/relay.go:50-57 | for colon-free ids a room channel is taken for a room if and only if the id does not both start with "events" and end with "users" |
| Relay.UuidChannels | internal/delivery/websocket/relay.go:50-57 | over the UUID alphabet the relay inverts both channel names |
| Relay.RoomPublicationsArrive | internal/delivery/websocket/relay.go:59-118 | a message or deletion published for a room is dispatched as that room's broadcast with the same contents |
| RelayLoop.Relay | internal/delivery/websocket/relay.go:40-119 | the receive loop hands the hub exactly the events of the publications, in order |
| Network.UserPublicationsArrive | internal/delivery/websocket/relay.go:50-57 | what is published for a user is queued, as published, for each of that user's clients at a node, and for no others |
| Network.RelayedInOrder | internal/delivery/websocket/relay.go:40-48 | each node's relay takes every publication once, in the order of publication |
| Network.StepBalance | internal/delivery/websocket/client.go:196-222 | at every node and step, broadcasts logged, waiting in the relay and owed by socket handlers add up to those due |
| Network.RunBalance | internal/delivery/websocket/client.go:196-222 | the same over every run |
| Network.DueMeansPublished | internal/delivery/websocket/relay.go:59-118 | with an injective encoding nothing but the publication of a message makes its broadcast due |
| Network.DueOnce | internal/domain/messages/service_impl.go:61-91 | with fresh ids and new edit stamps the message service never publishes the same twice, so nothing else makes that broadcast due |
| Network.Fanout | internal/delivery/websocket/client.go:196-222 | over any number of nodes a published message is broadcast once, and twice on the node whose socket sent it; each healthy client that joined under the text the message names its room by has it queued as often, and one that joined under no such text never |
| MessageService.Service.Send | internal/domain/messages/service_impl.go:61-91 | validation order, stored row, publication and answer, against the specification, for every failing call |
| MessageService.Service.Edit | internal/domain/messages/service_impl.go:182-219 | the same for an edit by the sender |
| MessageService.Service.Delete | internal/domain/messages/service_impl.go:221-260 | the same for a deletion by the sender |
| MessageService.Service.Mark | internal/domain/messages/service_impl.go:129-158 | id and failure checks, the receipt of message and user, then the status, with no publication |
| MessageAnswers.SendDoesExactly | internal/domain/messages/service_impl.go:61-91 | an accepted Send stores its trimmed content, new, under the ids its texts name, and publishes and answers the same as it was given; any other changes nothing |
| MessageAnswers.SendRefusals | internal/domain/messages/service_impl.go:62-70 | which error a malformed Send gets |
| MessageAnswers.EditDoesExactly | internal/domain/messages/service_impl.go:182-219 | an Edit by the sender changes content and time of the row only, and publishes and answers that row; any other changes nothing |
| MessageAnswers.EditRefusals | internal/domain/messages/service_impl.go:182-204 | which error a refused Edit gets |
| MessageAnswers.DeleteDoesExactly | internal/domain/messages/service_impl.go:221-260 | a Delete by the sender removes the row and its receipts and no others, and publishes and answers that; any other changes nothing |
| MessageAnswers.DeleteRefusals | internal/domain/messages/service_impl.go:221-240 | which error a refused Delete gets |
| MessageAnswers.MarkAnswers | internal/domain/messages/service_impl.go:129-158 | a Mark succeeds if and only if receipt and status were both recorded |
| MessageAnswers.DropTakes | db/migrations/0001_init.up.sql:31-44 | a room takes its messages and their receipts with it, and no others |
| MessageAnswers.RowIsItsHistory | internal/domain/messages/service_impl.go:61-260 | in every run, whatever fails, the row of an id is what the calls about that id make of it in turn: room, sender and creation of its Send, content of its Send or the last Edit granted to its sender, status of the last Mark, and none once it was removed |
| MessageAnswers.StoredWordsAreTheSenders | internal/domain/messages/service_impl.go:61-219 | what a stored message says, its sender has said in a Send or an Edit of it |
| MessageReplay.RunConsistent | internal/domain/messages/service_impl.go:61-260 | in every run with fresh ids, whatever fails, rows are in canonical form, and log and table agree up to spelling about every id whose latest change went out |
| MessageReplay.ReplayAgrees | internal/domain/messages/service_impl.go:61-260 | after every run, for every such id, replay and table agree up to the spelling of room and sender; nothing about an id follows its deletion |
| MessageReplay.RawIff | internal/domain/messages/service_impl.go:72-85 | over a run, the latest publication about an id is spelled otherwise than its row if and only if its Send was and no Edit or Delete of it has been published since |
| MessageReplay.AgreeIff | internal/domain/messages/service_impl.go:61-260 | so log and table agree to the letter about such an id if and only if it does not still stand as sent in another spelling |
| MessageReplay.ReplayRebuildsTable | internal/domain/messages/service_impl.go:61-260 | with no lost publication and no room deletion, replay rebuilds id -> (room, sender, content) if and only if this holds of no id |
| MessageReplay.CanonicalSendsRebuild | internal/domain/messages/service_impl.go:61-260 | in particular it does when every Send names its room and sender in canonical form |
| MessageReplay.ListenersRebuildTable | internal/delivery/websocket/relay.go:59-118 | when every Send names canonical ids, a node that hears all publications rebuilds the table from its broadcasts |
| MessageReplay.RawSendDiverges | internal/domain/messages/service_impl.go:72-85 | the failing run: one Send under another spelling, after which the log has the spelling and the table the id |
| MessageReplay.BareRoomIsSentRaw | internal/repository/postgres/message_repo.go:37-38 | such Sends exist: any room id without its hyphens will do |
| MessageReplay.DroppedRoomDiverges | db/migrations/0001_init.up.sql:33 | a run: a cascading room deletion removes a message the log still shows |
| MessageReplay.PublicationsDiffer | internal/repository/postgres/message_repo.go:204-209 | with fresh ids, and no edit stamped as its message was published before, nothing posted is ever posted again |
| MessageReplay.StepByRight | internal/domain/messages/service_impl.go:182-260 | a call changes a content only as its sender's edit and removes a message only as its sender's deletion or with its room |
| MessageReplay.GoneForGood | internal/domain/messages/service_impl.go:221-260 | a message once gone never comes back under its id |
| MessageReplay.RoomAndAuthorAreFixed | internal/domain/messages/service_impl.go:61-260 | over every run a message keeps its room and its sender |
| MessageReplay.MarkDoes | internal/repository/postgres/message_repo.go:145-170 | a Mark that names a message, in any spelling, sets one receipt and, unless the second statement fails, the status; any other changes nothing |
| MessageReplay.RunRefers | db/migrations/0001_init.up.sql:36-43 | in every run each receipt is of a message of the table: it goes with the message and with the room |
| History.ReverseInPlace | internal/repository/postgres/message_repo.go:105-108 | the swapping loop reverses the array |
| History.ListAround | internal/repository/postgres/message_repo.go:66-143 | for query results that answer the SQL: Ok if and only if the text names a message of the room asked for; then older rows reversed, that message, newer rows, all of that room; a malformed id is an error, an unknown or foreign message not found |
| History.Halves | internal/domain/messages/service_impl.go:116-124 | before + 1 + after is the limit, for every limit |
| HistoryService.ListAround | internal/domain/messages/service_impl.go:107-127 | the service answers if and only if the trimmed texts name a message and its room, with at most the limit of that room's messages: the contiguous neighbourhood, half of it before the message |
| HistoryService.ListByRoom | internal/domain/messages/service_impl.go:93-105 | a page is the room's newest messages, as many as the limit says, after those of the pages before it |
| History.AroundIsSlice | internal/repository/postgres/message_repo.go:81-142 | for every limit and whatever the ties, that result is the contiguous slice around the target, clipped at both ends, of the room's history without the others of the target's time |
| History.AroundIsTheSlice | internal/repository/postgres/message_repo.go:81-142 | with distinct times it is the slice of the one history there is |
| History.TiesAreDropped | internal/repository/postgres/message_repo.go:86 | given room for everything, ListAround's result is the whole room if and only if no other message shares the target's time |
| History.DescendingUnique | internal/repository/postgres/message_repo.go:47 | rows with distinct times have only one listing, so query results are determined |
| History.PageArgsStart | internal/domain/messages/service_impl.go:97-103 | page p + 1 starts where p pages of the effective limit end |
| History.PagesCover | internal/domain/messages/service_impl.go:93-105 | if the messages present at the start have distinct times, a reader taking pages 1, 2, 3, ... until one is empty misses none of them, whatever newer ones arrive between |
| History.TieCanBeSkipped | internal/repository/postgres/message_repo.go:44-48 | any two messages of the same time: a reading to the end, one by one, of an unchanging table that the SQL allows and that misses one of them |
| History.PagesCoverIff | internal/repository/postgres/message_repo.go:44-48 | every reading to the end of an unchanging table is complete if and only if no two messages share their time |
| History.PagesTile | internal/domain/messages/service_impl.go:93-105 | on an unchanging table with distinct times the pages tile the history without gap or repeat |
| RoomSpec.BuildMembersIsASet | internal/domain/rooms/service_impl.go:234-259 | the creator is an admin, everybody named is a member exactly once, in the first role named for it |
| RoomService.Service.BuildMembers | internal/domain/rooms/service_impl.go:234-259 | the loop over the inputs with the set of users seen, against the specification |
| RoomService.Service.Insert | internal/repository/postgres/room_repo.go:24-55 | the transactional inserts, with a failure at any call: all rows or none |
| RoomService.Service.Create | internal/domain/rooms/service_impl.go:57-88 | validation, members, insert, against the specification |
| RoomService.Service.EnsureDirectRoom | internal/domain/rooms/service_impl.go:149-180 | trimming, the two refusals, the failing lookup, find or create, against the specification |
| RoomService.Service.AddMember | internal/domain/rooms/service_impl.go:90-113 | checks, then the upsert under the ids that the texts name |
| RoomService.Service.RemoveMember | internal/domain/rooms/service_impl.go:115-123 | checks, then the deletion under the ids that the texts name |
| RoomService.Service.Delete | internal/domain/rooms/service_impl.go:182-210 | only the creator deletes, failures included; the members go with the room |
| RoomAnswers.CreatedAsAsked | internal/domain/rooms/service_impl.go:57-88 | a created room has its trimmed name, kind and creator; the creator is its admin, everybody named is in it in the first role given, "member" if blank, and nothing else changes |
| RoomAnswers.EnsureAnswers | internal/domain/rooms/service_impl.go:149-180 | blank users and one user twice are refused, a room found is the answer, and one that is made is named after the two, the earlier one first, with the first as admin and the second as member |
| RoomAnswers.AddAnswers | internal/domain/rooms/service_impl.go:90-113 | the user is put in, in the role given or as "member", if and only if the texts name a room and a user and the call does not fail; no other row changes |
| RoomAnswers.RemoveAnswers | internal/domain/rooms/service_impl.go:115-123 | that one row goes if and only if the texts could name a room and a user and the call does not fail |
| RoomAnswers.OnlyTheCreatorDeletes | internal/domain/rooms/service_impl.go:182-210 | a room is deleted if and only if its creator asks and no call fails; then it goes with its members' rows, and nothing else does |
| RoomAnswers.DeleteRefusals | internal/domain/rooms/service_impl.go:182-203 | which error a refused deletion gets |
| RoomAnswers.RoomsChangeByRight | internal/domain/rooms/service_impl.go:57-210 | a room keeps name, kind and creator under every call, and only its creator's Delete takes it away |
| RoomTheorems.InsertAllIff | internal/repository/postgres/room_repo.go:43-52 | the member rows go in if and only if each names an existing user that is no member and no two name the same; then exactly their rows are new, in whatever order they came |
| RoomTheorems.CreateIff | internal/domain/rooms/service_impl.go:57-88 | a room is created if and only if it has a name, all those named exist, none in two spellings, and no database call fails; its members are then exactly they, and otherwise nothing changes |
| RoomTheorems.QueryMeaning | internal/repository/postgres/room_repo.go:141-151 | the query's two counts mean: a non-group room whose member set is exactly the pair |
| RoomTheorems.OtherSpellingIsNeverFound | internal/repository/postgres/room_repo.go:148 | a user given in another spelling than the canonical one is not found |
| RoomTheorems.PairIsUnordered | internal/domain/rooms/service_impl.go:227-232 | the normalized pair and the generated name do not depend on who asks |
| RoomTheorems.EnsureCreates | internal/domain/rooms/service_impl.go:166-179 | without a match a room for exactly the two is created if the texts name different existing users and no database call fails, and nothing otherwise |
| RoomTheorems.EnsureSoundIff | internal/domain/rooms/service_impl.go:149-180 | an EnsureDirectRoom keeps direct rooms paired and unique if and only if both ids are canonical, or what it is given makes no room, or the two had none |
| RoomTheorems.MakeSoundIff | internal/delivery/http/room_handler.go:66-98 | a creation does if and only if it is of a group, or cannot succeed, or is for exactly two users without a direct room |
| RoomTheorems.AddSoundIff | internal/domain/rooms/service_impl.go:90-113 | adding a member does if and only if the room is no direct room in whatever spelling, or the call fails, or the user is in it already |
| RoomTheorems.RemoveSoundIff | internal/domain/rooms/service_impl.go:115-123 | removing one does if and only if the room is no direct room in whatever spelling, or the call fails, or the user is not in it |
| RoomTheorems.StepSoundIff | internal/domain/rooms/service_impl.go:57-210 | so each call, plain creations and membership edits included, keeps direct rooms paired and unique if and only if its guard `Keeps` holds before it |
| RoomTheorems.RunSound | internal/domain/rooms/service_impl.go:57-210 | and so does every run of calls that meet their guards |
| RoomTheorems.AllowedRunKeeps | internal/domain/rooms/service_impl.go:57-210 | canonical user ids, plain rooms only by EnsureDirectRoom and no membership edits of direct rooms meet the guards in every run |
| RoomTheorems.OneDirectRoomPerPair | internal/domain/rooms/service_impl.go:149-180 | in every run whose calls meet their guards each direct room has exactly two members and each pair at most one direct room |
| RoomTheorems.EnsureTwice | internal/domain/rooms/service_impl.go:149-180 | after every such run from empty tables and any call that answered with a room, asking again the other way round finds that room with created=false if and only if both ids are in canonical form; otherwise one more room is made |
| RoomTheorems.BareIdMakesASecondRoom | internal/repository/postgres/room_repo.go:148 | the failing input: any user's id without its hyphens makes a second room for two users who have one |
| RoomTheorems.BareIdAddsAThird | internal/repository/postgres/room_repo.go:57-66 | a direct room's id without its hyphens is no stored id and still lets a third user in |
| RoomTheorems.PlainRoomIsNoPair | internal/delivery/http/room_handler.go:66-98 | the failing run of one call: a user makes a room that is no group and names nobody else |

## Left out

- HTTP handlers, routing, use-case delegates, payload mapping, configuration, logging and mocks: one-branch translation.
- Register, user presence and last-seen times: no invariant across calls.
- Token randomness, JSON, PostgreSQL, Redis and websocket libraries: freshness, faithful encoding and documented semantics are assumed.
- The token bucket library's floating point: levels are exact integers in units of 1/window token.
- Interleaved auth calls for one user and concurrent EnsureDirectRoom calls for one pair: both check and then act, so the sequential results do not carry over.
- A pause between a rate limiter's table lookup and its bucket decision: an eviction could fall into it.
- Attachments: they are published but not stored, so they are only a count in the model.
- No order among message states is claimed: MarkDelivered after MarkRead writes DELIVERED back. The times of receipts are left out.
- Search in messages and rooms: pattern matching in SQL.
- Client channels are a map held by the hub's state, not fields of client objects; Go's panic is a flag after which nothing runs, so the partial effects of a panicking step are not modelled.
- Read pump: envelope decoding, the per-client limiter, deadlines and pongs.
- The room_added publications of Create and AddMember: they are best effort and their failures are ignored.
- Failing reads of history; the order in which buildMembers lists the members (InsertAllIff shows it does not matter).
- Two read-locked hub calls running at once: their interleaving client by client, and the unsynchronized map deletion in SendToUser.
