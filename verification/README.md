# Glienicke relay: model and proofs

Glienicke is a Nostr relay. This project models the parts of it in which state
changes step by step, and proves what those steps keep, over single calls and
over whole runs. `dafny verify dfyconfig.toml` checks everything.

The model has five parts.

- **Event stores.** `MemoryStore` is a class with the event, tombstone and channel
  maps; `SqliteStore` is two tables with a relational reading of each statement, a
  filter compiler with positional arguments (`SqlFilters`), per-filter limits
  (`LimitPushdown`) and a hand-written tag printer and parser (`TagCodec`).
  `MemoryRuns` and `StoreSimulation` hold the properties of whole runs: which event
  wins a replaceable slot, that tombstones are for ever, and when the two stores
  agree. `Migrations` covers interrupted schema migrations.
- **Rate limiter.** `RateLimiter` is the token bucket and ban per address;
  `RateLimiterRuns` proves its exact level, its ban machine and the conservation of
  rejections.
- **Protocol.** `Protocol` is a client connection and its gate, `Relay` the handling
  of messages and the delivery of broadcasts, and `RelayRuns` whole runs in which the
  steps of readers, deliveries and retention interleave. `GateRuns` follows each kind of
  message from the gate to the session and the log, `HandlingRuns` each kind of event
  to the store. `EventRuns` states what a
  deletion or a second save between the steps of an event leads to, `DeliveryRuns`
  where the copies in a client's log come from.
- **Deletion and search.** `Deletions` (NIP-09 and NIP-62) and `Search` (NIP-50).
- **Encrypted direct messages.** `Base64`, `Cbc` and `Nip04`.

`Events` says what a filter means, `Orders` what sorting, filtering and cutting keep.

## Reading the model

Each operation that changes state is a method proved equal, on the whole new state,
to a specification function (`Saved`, `Handled`, `Checked`, ...); the lemmas are about
those functions. Maps are visited in any order, and a sort yields any sorted
permutation. Text is a sequence of code points, and bytes where the code works on
bytes. Time is a parameter: the code's clock readings are arguments, in seconds as
reals for the rate limiter and as integers elsewhere. Timestamps and kinds are
unbounded integers; nothing but the retention cutoff computes with them.

Parameters of the model, about which nothing more is assumed than stated: whether an
event is valid (`Rules.valid`) and an AUTH event signed (`Rules.signed`), the content
policy, the validators by kind, expiry, case folding, AES under a key (a permutation
of blocks), the initialisation vector, the challenge, and what JSON decoding yields
for each element of a message. That a valid id determines its event up to the
signature is a stated assumption of the lemmas of `EventRuns` (`IdBinds`).

Where the code and its documentation differ, the model follows the code:

- Among replaceable events with equal timestamps the last to arrive stays; NIP-01
  keeps the one with the lowest id.
- Saving the live event of a replaceable slot again tombstones it in the in-memory
  store (`MemoryRuns.ResavingTombstones`). The relay looks for the id first, so there it
  takes two readers that were handed the same event (`EventRuns.SaveTombstonesItself`).
- A deleted event can still be broadcast once, by a reader that had saved it and not yet
  started its broadcast (`EventRuns.DeletionBeforeLaunch`), and a deleted channel message
  stays in the answers to channel requests (`Relay.ChannelIgnoresTombstones`).
- `QueryEvents` of the SQLite store ignores tombstones and tag filters, and its id
  and author lists hold whole keys, not prefixes.
- A handled EVENT can be answered by two OKs, one from the handler and one from the
  dispatcher (`Reacted`).
- A broadcast sends one copy per client; a comment in the code says per subscription.

## Model

| member | source | states |
|---|---|---|
| Events.MatchesPrefix | pkg/event/event.go:263-268 | true exactly when the prefix is a prefix of the target |
| Events.HasTag | pkg/event/event.go:251-260 | true exactly when some tag of that name has a value starting with the one asked for |
| Events.Matches | pkg/event/event.go:181-248 | the scan decides the filter: id and author prefixes, kinds, closed time range, every tag clause; empty lists accept everything; the tag map is visited in any order |
| Events.MatchesSome | pkg/relay/relay.go:806-815 | filters are alternatives |
| Events.GetTagValues | pkg/event/event.go:271-279 | returns, in order, exactly the second elements of the tags of that name |
| Events.FirstTagValue | pkg/nips/nip44/nip44.go:13-20 | the value of the first tag of that name, or none exactly when no tag has it |
| Events.TagClauseMeans | pkg/event/event.go:221-245 | a filter of one tag clause accepts exactly the events with a tag of that name whose value one of the values asked for begins |
| MemoryStore.Store.SaveEvent | internal/store/memory/memory.go:35-64 | refuses a tombstoned id; drops an event with a newer live rival; otherwise stores it and tombstones exactly its live rivals, for every order in which the event map is visited; keeps the store well formed |
| MemoryStore.Store.GetEvent | internal/store/memory/memory.go:151-165 | a tombstoned id is reported deleted, an unknown one not found, else the stored event |
| MemoryStore.Store.QueryEvents | internal/store/memory/memory.go:75-112 | for every map order, the live events accepted by some filter, each once, newest first, cut by the first filter's limit |
| MemoryStore.AnswersAreNewest | internal/store/memory/memory.go:100-111 | an answer is duplicate-free, newest first, live and accepted; it has min(limit, matches) events, and no event left out is newer than one given; without a limit it is complete |
| MemoryStore.Store.CountEvents | internal/store/memory/memory.go:173-197 | counts exactly the events the unlimited query lists, each once however many filters accept it |
| MemoryStore.Store.Count | internal/store/memory/memory.go:200-204 | the difference of the map sizes is the number of live events |
| MemoryStore.Store.DeleteEvent | internal/store/memory/memory.go:115-133 | not found, not the author, or exactly this id becomes a tombstone |
| MemoryStore.Store.DeleteAllEventsByPubKey | internal/store/memory/memory.go:136-148 | exactly the author's stored ids become tombstones |
| MemoryStore.Store.DeleteEventsOlderThan | internal/store/memory/memory.go:360-380 | tombstones exactly the live, older, non-exempt ids, and returns exactly the drop in the number of live events |
| MemoryStore.Store.SaveChannelEvent | internal/store/memory/memory.go:207-222 | files the event under its first channel_id tag, or reports that it has none, changing nothing |
| MemoryStore.Store.QueryChannelEvents | internal/store/memory/memory.go:225-258 | the channel's events in the closed time range, each once, newest first, cut only by a positive limit |
| MemoryStore.ChannelAnswersAreNewest | internal/store/memory/memory.go:225-258 | a channel answer is duplicate-free and newest first; a positive limit cuts the oldest, any other limit nothing |
| MemoryStore.Store.DeleteChannelEvents | internal/store/memory/memory.go:344-357 | drops exactly this channel and returns how many events it held |
| MemoryRuns.RunKeepsWellFormed | internal/store/memory/memory.go:35-64 | in every state reachable through the store: tombstones cover stored ids only, one live event per pubkey and replaceable kind, and Count is the number of live events |
| MemoryRuns.DeletedStaysDeleted | internal/store/memory/memory.go:39-42 | over every run of store operations a tombstoned id stays one, and neither GetEvent nor QueryEvents nor CountEvents shows it |
| MemoryRuns.FetchedIsLive | internal/store/memory/memory.go:151-165 | GetEvent returns an event exactly if it is live under that id |
| MemoryRuns.FiledIsListed | internal/store/memory/memory.go:207-222 | an event filed under its first channel_id is listed there from then on beside the earlier ones, in place of one of the same id |
| MemoryRuns.FilingTouchesOneChannel | internal/store/memory/memory.go:207-222 | filing changes no other channel, and neither events nor tombstones |
| MemoryRuns.DroppedListsNothing | internal/store/memory/memory.go:344-357 | a dropped channel lists nothing, and the others what they did |
| MemoryRuns.SavesConverge | internal/store/memory/memory.go:44-63 | after any run of saves with fresh ids the live set is exactly the events not beaten in their slot by a greater timestamp, or an equal one that arrived later |
| MemoryRuns.BestFrom | internal/store/memory/memory.go:44-63 | whatever was saved, some unbeaten event at least as new holds its slot |
| MemoryRuns.SurvivorsAreNewest | internal/store/memory/memory.go:49-58 | with distinct timestamps the winner of a slot is its newest event |
| MemoryRuns.ArrivalOrderIsIrrelevant | internal/store/memory/memory.go:44-63 | any permutation of saves with distinct ids and timestamps ends in the same live set |
| MemoryRuns.ResavingTombstones | internal/store/memory/memory.go:48-62 | saving a live event again, signed anew or not, tombstones it if and only if its kind is replaceable |
| TagCodec.TagsToJSON | internal/store/sqlite/sqlite.go:891-908 | the printing loops compute the printed form |
| TagCodec.ParseTagString | internal/store/sqlite/sqlite.go:580-605 | the loop over the pieces of one tag computes its parsed form |
| TagCodec.ParseTagsJSON | internal/store/sqlite/sqlite.go:527-577 | the one-pass depth-counting loop computes the same tags as cutting the text first and reading the pieces after |
| TagCodec.UnescapeUndoesEscape | internal/store/sqlite/sqlite.go:597-600 | un-escaping quotes undoes escaping them on every string |
| TagCodec.EscapeIsBackslash | internal/store/sqlite/sqlite.go:891-908 | escaping puts a backslash before each quote and leaves everything else alone |
| TagCodec.PrintedForm | internal/store/sqlite/sqlite.go:891-908 | the text of a list of tags, spelled out |
| TagCodec.PartIgnoresSpace | internal/store/sqlite/sqlite.go:594-602 | white space around a part is ignored |
| TagCodec.SpacesByCodePoint | internal/store/sqlite/sqlite.go:527-531 | white space is the Unicode property of that name, by code point |
| TagCodec.TrimSpaceIsExact | internal/store/sqlite/sqlite.go:527-531 | what is stripped at either end is white space, and what is left has none there |
| TagCodec.RoundTripExactly | internal/store/sqlite/sqlite.go:527-605 | parsing what was printed gives back the tags if and only if no part holds a comma and the bracket depth is never zero between two parts of a tag and zero again after each tag but the last |
| TagCodec.BalancedPartsRoundTrip | internal/store/sqlite/sqlite.go:891-908 | in particular for every tag list whose comma-free parts have as many opening as closing brackets, with any quotes, backslashes, spaces, empty parts and empty tags |
| SqlFilters.BuildQuery | internal/store/sqlite/sqlite.go:430-487 | conditions and arguments grow side by side; each slot is bound to the value meant for it, the limit last, and the conditions select exactly the rows the filter asks for in SQL terms |
| SqlFilters.AddCondition | internal/store/sqlite/sqlite.go:434-478 | positional binding: appending a condition with its arguments adds exactly that test and disturbs no earlier slot |
| SqlFilters.CompiledFilterIsAccepts | internal/store/sqlite/sqlite.go:434-478 | for nil or non-empty lists of whole keys, an event is accepted by the filter exactly when its row is selected and the tag clauses hold |
| SqlFilters.AgreesIffNoTagClause | internal/store/sqlite/sqlite.go:430-487 | such a filter that selects something agrees with the SQL on all events if and only if it has no tag clause |
| SqlFilters.PrefixesAreLost | internal/store/sqlite/sqlite.go:434-449 | for every filter without present-but-empty lists: the accepted events whose whole id and author are listed wherever any are, are exactly the selected ones that meet the tag clauses; so what is accepted through proper prefixes only is lost |
| SqliteStore.StoredEventReadsBack | internal/store/sqlite/sqlite.go:495-520 | a stored event reads back with at most its tags changed, and unchanged if and only if the tags are in the codec's domain |
| SqliteStore.Store.NewestInSlot | internal/store/sqlite/sqlite.go:281-290 | the greatest timestamp among the rows of the slot, or none exactly when there is no row |
| SqliteStore.Store.SaveEvent | internal/store/sqlite/sqlite.go:270-326 | refuses a tombstoned id; drops an event older than a row of its slot; otherwise its row replaces the rows of the slot, or of its id |
| SqliteStore.Store.GetEvent | internal/store/sqlite/sqlite.go:674-712 | a tombstoned id is reported deleted, an unknown one not found, else the scanned row |
| SqliteStore.Store.QueryFilter | internal/store/sqlite/sqlite.go:430-523 | the selected rows newest first, ties in any order, cut by the filter's own limit, a negative one cutting nothing |
| SqliteStore.Store.MergeNew | internal/store/sqlite/sqlite.go:405-410 | merging appends exactly the events whose ids are new, without duplicates |
| SqliteStore.Store.QueryEvents | internal/store/sqlite/sqlite.go:390-427 | each filter's cut answer, merged without duplicates, sorted again and cut by the first filter's limit |
| SqliteStore.QueriesIgnoreTombstones | internal/store/sqlite/sqlite.go:390-427 | burying ids changes no query answer: deleted rows are still answered |
| SqliteStore.GravesAreKept | internal/store/sqlite/sqlite.go:608-671 | a tombstone once written keeps who deleted and when; retention removes exactly the older non-exempt rows, tombstoned or not, and no tombstone |
| SqliteStore.Store.DeleteEvent | internal/store/sqlite/sqlite.go:608-633 | not found, not the author, or one tombstone more, an existing one being kept |
| SqliteStore.Store.DeleteAllEventsByPubKey | internal/store/sqlite/sqlite.go:636-671 | a tombstone for each of the author's rows, existing ones being kept |
| SqliteStore.Store.DeleteEventsOlderThan | internal/store/sqlite/sqlite.go:806-831 | removes exactly the older, non-exempt rows, tombstoned or not, and returns their number |
| LimitPushdown.LimitPushdownKeepsTimes | internal/store/sqlite/sqlite.go:399-424 | when no filter is cut shorter than the request, the answer has the timestamps of the k newest rows of the unlimited union, in order, however ties are broken at either stage |
| LimitPushdown.PushdownIsSafeIffLimitsReach | internal/store/sqlite/sqlite.go:480-487 | given the limits of a request, the first being k, this holds for all filters with these limits on all databases if and only if no limit is in 0..k-1 |
| LimitPushdown.TighterLimitLosesARow | internal/store/sqlite/sqlite.go:480-487 | a limit below k loses a row the request asked for |
| Orders.SameFirstKeys | internal/store/sqlite/sqlite.go:412-424 | two sorted listings have the same first k keys if the smaller set misses nothing above a key fewer than k of its elements reach |
| StoreSimulation.MirrorStep | internal/store/sqlite/sqlite.go:270-326 | every call of either store keeps rows, tombstones and live events in correspondence, deletions of any kind included, except a fresh save overshadowed by a newer tombstoned row of its slot |
| StoreSimulation.RunsMirror | internal/store/memory/memory.go:35-64 | up to the first overshadowed save of a run with fresh ids the stores correspond |
| StoreSimulation.StoresAgree | internal/store/sqlite/sqlite.go:674-712 | over runs with fresh ids, both stores fetch the same ids after every call if and only if no save is overshadowed by a newer tombstoned row of its slot |
| StoreSimulation.FetchedAlike | internal/store/sqlite/sqlite.go:674-712 | the events they then fetch differ at most in the tags, and are equal if and only if the tags are in the codec's domain |
| StoreSimulation.OvershadowedSaveDiverges | internal/store/sqlite/sqlite.go:281-300 | from any corresponding states an overshadowed fresh save is served by the in-memory store and unknown to SQLite |
| StoreSimulation.DeletingReplaceableDiverges | internal/store/sqlite/sqlite.go:281-300 | for any two events of a slot: saving the newer, deleting it and saving the older sets the stores apart |
| StoreSimulation.SqlRunKeepsSlots | internal/store/sqlite/sqlite.go:281-300 | every reachable database has at most one row per pubkey and replaceable kind |
| StoreSimulation.SqlSavesConverge | internal/store/sqlite/sqlite.go:281-300 | after saves with fresh ids SQLite serves exactly the events unbeaten in their slot |
| StoreSimulation.SqlArrivalOrderIsIrrelevant | internal/store/sqlite/sqlite.go:281-300 | with distinct ids and timestamps any arrival order leaves SQLite serving the same events |
| RateLimiter.RateLimiter.IsIPBanned | pkg/relay/relay.go:408-430 | banned until more than 24 hours have passed; an expired ban is lifted and the violations cleared |
| RateLimiter.RateLimiter.CheckRate | pkg/relay/relay.go:434-491 | the verdict and the new state of the address: refill capped at the burst, one token taken, or one violation more and the tenth a ban |
| RateLimiterRuns.BanMachine | pkg/relay/relay.go:408-485 | over every run: violations in 0..10, the ban set exactly at 10, rejections ten a reset plus the current violations, bans spaced |
| RateLimiterRuns.ReachableBuckets | pkg/relay/relay.go:408-485 | in every reachable state of all addresses, violations are in 0..10 and the ban time is set exactly when they are 10 |
| RateLimiterRuns.BetweenBans | pkg/relay/relay.go:414-483 | between consecutive bans of an address lie more than 24 hours and exactly ten bucket rejections |
| RateLimiterRuns.BanEndsAfterADay | pkg/relay/relay.go:408-423 | over every run a check draws on the bucket exactly if there is no ban or the last one is more than 86400 seconds old, is told banned otherwise, and the first one after a ban is accepted |
| RateLimiterRuns.ProbeTellsBan | pkg/relay/relay.go:426-430 | a probe finds an address banned exactly within those 86400 seconds |
| RateLimiterRuns.LevelIsLeastCredit | pkg/relay/relay.go:457-463 | the level, defined by capped refills, equals the least credit over all earlier hits |
| RateLimiterRuns.TokensAreLeastCredit | pkg/relay/relay.go:443-490 | the tokens at a call equal the minimum over earlier calls of 20 + 10 a second - calls accepted since; it is accepted exactly when that reaches one |
| RateLimiterRuns.NoRejectionIffWithinRate | pkg/relay/relay.go:443-490 | a run rejects nothing if and only if every stretch of it has at most 20 + 10 a second calls |
| RateLimiterRuns.WindowBound | pkg/relay/relay.go:443-490 | any window accepts at most 20 + 10 a second |
| RateLimiterRuns.AddressesAreIndependent | pkg/relay/relay.go:443-455 | however the calls of other addresses interleave, an address has the bucket of its own calls |
| RateLimiterRuns.RejectionsAreConserved | pkg/relay/relay.go:465-470 | rateLimitedCount is the sum over addresses of ten per lifted ban plus the current violations |
| RateLimiterRuns.CallRejections | pkg/relay/relay.go:465-470 | a call moves the counter by as much as the rejections of its own address |
| Deletions.HandleDeletion | pkg/nips/nip09/nip09.go:17-52 | the loop over the tags has the effect stated as two sets: the deleter's named ids, and the channels of named channel events live at the start |
| Deletions.DeletionIsExact | pkg/nips/nip09/nip09.go:22-50 | only the names matter, not their order or repetition; exactly the deleter's stored, named ids become tombstones |
| Deletions.DeletionMeans | pkg/nips/nip09/nip09.go:17-61 | tombstones and channels after a kind 5 event, spelled out over its e tags and the stored events |
| Deletions.ValidateRequestToVanish | pkg/nips/nip62/nip62.go:23-47 | valid exactly when there is a relay tag and the first one is not blank |
| Deletions.HandleRequestToVanish | pkg/nips/nip62/nip62.go:50-82 | fails exactly on an invalid request; an applicable one tombstones the author's stored ids; otherwise nothing changes |
| Deletions.VanishIsExact | pkg/nips/nip62/nip62.go:60-79 | an applicable request hides all of the author's events and no other author's |
| Search.ParseSearchQuery | pkg/nips/nip50/nip50.go:20-58 | the loop splits the words into terms, exclusions and extensions, the last value of a key winning |
| Search.WordsOfSpaced | pkg/nips/nip50/nip50.go:25-26 | the words of a text are read back from it |
| Search.PlainWord | pkg/nips/nip50/nip50.go:117-135 | a word without a colon and not beginning with a minus sign must occur, letter case aside, in the content or in the value of a tag |
| Search.MinusWord | pkg/nips/nip50/nip50.go:43-49 | after a minus sign it must not |
| Search.ColonWord | pkg/nips/nip50/nip50.go:34-40 | a key and a value around the first colon are an extension; with either missing it is a plain word |
| Search.NsfwMeans | pkg/nips/nip50/nip50.go:165-183 | nsfw:true asks for a content-warning tag, nsfw:false for none |
| Search.LanguageAndDomainMean | pkg/nips/nip50/nip50.go:143-163 | language asks for a language tag of that value, domain for a nip05 tag at that domain, letter case aside |
| Search.OtherExtensionsAreIgnored | pkg/nips/nip50/nip50.go:185-192 | any other extension accepts everything |
| Search.QueryMeansItsWords | pkg/nips/nip50/nip50.go:81-114 | a parsed query accepts an event exactly when each word does, except extensions given again later |
| Search.EventContainsTerm | pkg/nips/nip50/nip50.go:117-135 | true exactly when the folded content or some tag value contains the folded term |
| Search.SearchMatches | pkg/nips/nip50/nip50.go:81-114 | true exactly when the filter accepts the event and the query does; extensions are visited in any order |
| Search.SearchEvents | pkg/nips/nip50/nip50.go:196-222 | an answer of the plain query, filtered in order by all terms, exclusions and extensions of some filter |
| Search.SearchIsLive | pkg/nips/nip50/nip50.go:196-222 | with any limit a search result holds only live events some filter and its query accept |
| Search.SearchIsComplete | pkg/nips/nip50/nip50.go:196-222 | without a limit: exactly the live events some filter and its query accept, each once, newest first |
| Search.WordOrderIsIrrelevant | pkg/nips/nip50/nip50.go:20-58 | permuting the words of a query with distinct extension keys changes nothing it accepts |
| Search.SearchIgnoresWordOrder | pkg/nips/nip50/nip50.go:196-222 | so the possible results of a search stay the same |
| Search.AddedWordNarrows | pkg/nips/nip50/nip50.go:20-58 | a term, an exclusion or an extension with a new key, put anywhere, keeps exactly the events it accepts itself |
| Search.SearchNarrows | pkg/nips/nip50/nip50.go:196-222 | adding such a word to one query of a search never adds a result |
| Protocol.GateStopsUnauthenticated | pkg/protocol/protocol.go:216-243 | where authentication is required and missing, only an event of the AUTH kind and a CLOSE get past the gate |
| GateRuns.ReqSubscribes | pkg/protocol/protocol.go:303-341 | a REQ that gets to the gate open subscribes its id to its filters, in order, unless it were the 21st subscription, which is refused |
| GateRuns.EventIsHandled | pkg/protocol/protocol.go:276-300 | an EVENT is handled if it is valid, and refused if not |
| GateRuns.CloseAlwaysPasses | pkg/protocol/protocol.go:216-246 | a CLOSE passes without authentication and whatever the limiter says |
| GateRuns.RefusalsNameTheRequest | pkg/protocol/protocol.go:224-258 | refusals of unauthenticated and of limited messages name the request or the event they refuse |
| GateRuns.ConnectionBegins | pkg/relay/relay.go:270-284 | a connection begins without subscriptions, and is sent the challenge exactly if authentication is required |
| GateRuns.LimitedDoesNothing | pkg/protocol/protocol.go:245-259 | a message the limiter refuses, other than a CLOSE, changes nothing but the log, by one reply that is neither an event nor a count |
| GateRuns.LimitedReaderDoesNothing | pkg/protocol/protocol.go:245-259 | over whole runs: as long as its messages are refused, an idle connection stays idle, keeps authentication and subscriptions, and changes neither store nor flights |
| GateRuns.InsertSubscribes | pkg/protocol/protocol.go:335-338 | the insertion maps exactly the id to exactly the filters of the request and keeps the other subscriptions |
| GateRuns.RespondKeepsSubscriptions | pkg/relay/relay.go:741-744 | answering drops the subscription of the request exactly if so configured, and no other one |
| GateRuns.CloseUnsubscribes | pkg/protocol/protocol.go:345-357 | a CLOSE drops exactly its subscription and is not answered |
| GateRuns.CountAnswers | pkg/relay/relay.go:758-783 | a COUNT is answered with the number of live events some filter accepts |
| GateRuns.SubscriptionLasts | pkg/protocol/protocol.go:335-338 | over whole runs without closing after EOSE, a subscription lasts until a CLOSE or another REQ of its id, or the end of the connection |
| GateRuns.ArrivalMeans | pkg/relay/relay.go:791-817 | over whole runs an arriving copy is queued, once, exactly if the event is unexpired, some filter accepts it, and for kind 4 some filter lists its first p value |
| GateRuns.SubscriberReceives | pkg/relay/relay.go:804-815 | an unexpired event, not of kind 4, that the filters of a lasting subscription accept is queued once when its copy lands |
| Protocol.Client.Authenticate | pkg/protocol/protocol.go:109-112 | sets the authentication and its key, and nothing else |
| Protocol.Client.RemoveSubscription | pkg/protocol/protocol.go:385-389 | removes exactly this subscription |
| Protocol.Client.GetSubscriptions | pkg/protocol/protocol.go:464-474 | the copying loop returns all subscriptions |
| Protocol.Client.HasSubscriptionToPubKey | pkg/protocol/protocol.go:477-493 | true exactly when some filter of some subscription lists the key under p |
| Relay.Relay.HandleEvent | pkg/relay/relay.go:494-670 | the store, the session, the error return and the broadcast of every branch: AUTH, authentication, policy, validation, ephemeral, expired, deletion, vanish, gift wrap, duplicate, saved |
| Relay.Relay.StoreAndBroadcast | pkg/relay/relay.go:631-669 | a known id is answered as duplicate, a tombstoned one fails, a new one is saved and broadcast to every client; the save after the check cannot fail |
| Relay.Relay.BroadcastEvent | pkg/relay/relay.go:786-818 | one delivery is started for each connected client |
| Relay.Relay.Deliver | pkg/relay/relay.go:791-817 | at most one copy, under a matching subscription, exactly when the event is unexpired, passes the recipient test and is matched |
| Relay.Relay.SendStored | pkg/relay/relay.go:709-722 | exactly the first unexpired events up to the cap are sent, in order |
| Relay.Relay.HandleReq | pkg/relay/relay.go:673-748 | an answer of the channel, search or plain query, its first unexpired events, one EOSE, and the subscription closed if so configured |
| Relay.Relay.QueryChannel | pkg/relay/relay.go:910-947 | bounds of the last filters that have them; without kinds one sorted and cut answer of the channel, with kinds one such answer for each of them, restricted to it, one after another |
| Relay.ChannelIsNamedFirst | pkg/relay/relay.go:888-897 | the channel queried is that of the first filter whose first channel_id is not empty |
| Relay.ChannelRangeMeans | pkg/relay/relay.go:911-924 | in range are the channel's events not before the since of the last filter that has one, and not after the last until |
| Relay.LastBoundIsLast | pkg/relay/relay.go:911-924 | of several filters the last one that has a bound gives it |
| Relay.ChannelIgnoresTombstones | pkg/relay/relay.go:910-947 | a channel query has the same answers whatever has been tombstoned |
| Relay.ChannelMembers | pkg/relay/relay.go:910-947 | a channel answer holds only the channel's events in range and of the kinds asked for, and all of them if there is no positive limit |
| Relay.Relay.React | pkg/protocol/protocol.go:276-382 | what EVENT, CLOSE, COUNT and refused messages do to store, session and deliveries, including the second OK |
| Relay.Relay.HandleMessage | pkg/protocol/protocol.go:199-273 | one message from gate to effect |
| Relay.Relay.RunRetention | pkg/relay/relay.go:199-216 | with a positive number of days, removes what is older and not exempt; otherwise nothing |
| Relay.RetentionAbsorbsEarlierRuns | pkg/relay/relay.go:183-216 | a later retention run makes earlier ones irrelevant; what it leaves live is what was, if exempt or not older than the cutoff |
| RelayRuns.StepKeeps | pkg/protocol/protocol.go:313-338 | every interleaved step of readers, deliveries and retention keeps the relay invariant, and no tombstone and no stored event is lost |
| RelayRuns.SubscriptionCap | pkg/protocol/protocol.go:313-338 | whatever runs between the check and the insertion, a client never holds more than 20 subscriptions |
| RelayRuns.AuthenticationSafety | pkg/protocol/protocol.go:216-243 | over whole runs with authentication required, a connection that has not itself made the handshake holds no subscription, was never sent an event, and no step of its reader changes the store or the deliveries in flight |
| RelayRuns.AuthenticatedMeansHandshake | pkg/relay/relay.go:503-517 | an authenticated connection, its number being used only once, has had a valid AUTH event with its own challenge handled |
| RelayRuns.StaysOpen | pkg/relay/relay.go:286-304 | a connection that is open at two moments of a run was open all the time between |
| RelayRuns.HandshakeAuthenticates | pkg/relay/relay.go:503-517 | conversely handling one authenticates |
| RelayRuns.EventAlone | pkg/relay/relay.go:616-669 | the steps of an event, uninterrupted, do what handling it in one go does |
| RelayRuns.ReqAlone | pkg/protocol/protocol.go:313-341 | the three steps of a REQ, uninterrupted, end exactly where handling it in one go does |
| RelayRuns.DeliveryIsExact | pkg/relay/relay.go:791-817 | a delivery step queues one copy exactly when the client should receive the event, and touches no other client |
| RelayRuns.RequestAnswer | pkg/relay/relay.go:709-736 | on the regular path a REQ is answered by at most the cap of live, accepted, unexpired events, newest first, each once, none left out being newer, and one EOSE; fewer than the cap and no limit means all of them |
| RelayRuns.AnswersSpareTombstones | pkg/relay/relay.go:703-717 | on the plain and the search path an answer holds no tombstoned event |
| RelayRuns.SearchRequestAnswer | pkg/relay/relay.go:703-708 | a request with a search text is answered with live, unexpired events some filter and its words accept, all of them below the cap and without a limit |
| RelayRuns.ChannelRequestAnswer | pkg/relay/relay.go:687-702 | a request that names a channel is answered with unexpired events of it, in range and of the kinds asked for |
| RelayRuns.ChannelAnswersShowTombstoned | pkg/relay/relay.go:687-702 | on the channel path a request has the same answers whatever has been tombstoned |
| EventRuns.Handling | pkg/relay/relay.go:631-669 | whatever interleaves, the reader of an event is where its own steps have brought it: it publishes only what it saved, or what is ephemeral, and always does so unless the save was refused |
| HandlingRuns.RefusedChangesNothing | pkg/relay/relay.go:519-593 | a refused, an invalid and an expired event change neither store nor flights and are answered with a refusal |
| HandlingRuns.VanishHandled | pkg/relay/relay.go:603-613 | a valid request to vanish that names ALL_RELAYS or this relay tombstones exactly the stored ids of its author, any other one nothing |
| HandlingRuns.VanishedForEver | pkg/nips/nip62/nip62.go:60-79 | over whole runs what the author had stored is hidden from then on, and no other author's event is touched |
| HandlingRuns.DeletionHandled | pkg/relay/relay.go:595-600 | a kind 5 event tombstones its author's named events and drops the named channels; it is neither stored nor sent on |
| HandlingRuns.EphemeralIsSentOn | pkg/relay/relay.go:583-587 | an event of kind 20000 to 29999 goes to every connected client and is not stored |
| HandlingRuns.NewEventIsStored | pkg/relay/relay.go:616-669 | an event of any other kind and an unknown id is stored unless a newer event holds its slot, tombstones the live events of its slot (kinds 0, 3 and 10000 to 19999), and goes to every connected client either way |
| HandlingRuns.ChannelEventIsFiled | pkg/relay/relay.go:646-661 | an event of kind 40 to 44 is filed under its channel, and no other one is |
| HandlingRuns.DuplicateIsNotSentOn | pkg/relay/relay.go:635-639 | an event that is live already is answered, and neither stored nor sent on again |
| EventRuns.LaunchedIffSavedInTime | pkg/relay/relay.go:631-669 | an event whose id is tombstoned at some time is launched by a reader that has finished with it if and only if that reader saved it before |
| EventRuns.CheckedTooLate | pkg/relay/relay.go:631-642 | an event whose check runs when its id is tombstoned is never launched |
| EventRuns.DeletedForEver | pkg/relay/relay.go:616-669 | over whole runs, once an id is tombstoned neither GetEvent nor QueryEvents nor CountEvents shows it, and a later step starts a delivery of it only for a reader that had received and saved it before |
| EventRuns.DeletionBeforeLaunch | pkg/relay/relay.go:642-667 | such a launch does happen, when the author's deletion is handled between saving and broadcasting |
| EventRuns.SaveTombstonesItself | pkg/relay/relay.go:631-645 | the save of a replaceable event tombstones that event itself if and only if another reader saved it after this reader had looked for its id |
| EventRuns.HandlingNeverRevives | pkg/relay/relay.go:583-669 | handled without interruption, an event whose id is tombstoned is not broadcast, if ids bind events; this rests on ephemeral kinds never being stored |
| DeliveryRuns.FlightsAreConserved | pkg/relay/relay.go:786-818 | the broadcasts of an event started while a client was connected are the copies that have landed there and those still in flight |
| DeliveryRuns.CopiesAreBroadcasts | pkg/relay/relay.go:786-818 | the copies of an event in a client's log are those queued on landing and those sent in answers, and at most one is queued for each broadcast of it started while the client was connected |
| Base64.RoundTrip | pkg/nips/nip04/nip04.go:87 | decoding undoes encoding on every byte string |
| Base64.SymbolsAreTheAlphabet | pkg/nips/nip04/nip04.go:87 | the symbols are the alphabet of section 4 of RFC 4648 in its order |
| Base64.GroupsAreSpelled | pkg/nips/nip04/nip04.go:87 | each group of three bytes is spelled in its place by four symbols of the same 24-bit number |
| Base64.RestIsPadded | pkg/nips/nip04/nip04.go:87 | one or two bytes left over are spelled with zeros, with the padding of section 4 of RFC 4648 |
| Cbc.XorUndone | pkg/nips/nip04/nip04.go:83-84 | exclusive or with the same byte twice gives the byte back |
| Cbc.XorIsExclusiveOr | pkg/nips/nip04/nip04.go:83-84 | a bit of the combined block is set exactly where the two blocks differ |
| Cbc.CiphertextBlocks | pkg/nips/nip04/nip04.go:83-84 | each ciphertext block is the cipher's image of its plaintext block combined with the ciphertext block before, the first with the vector |
| Cbc.PaddingIsPkcs7 | pkg/nips/nip04/nip04.go:67-74 | padding goes to the next whole block by at least one byte, each byte added being their number |
| Cbc.DecryptUndoesEncrypt | pkg/nips/nip04/nip04.go:83-84 | unchaining undoes chaining for every block permutation, initialisation vector and whole blocks |
| Cbc.EncryptUndoesDecrypt | pkg/nips/nip04/nip04.go:127-129 | and conversely |
| Cbc.UnpadExactly | pkg/nips/nip04/nip04.go:132-148 | whole blocks unpad to p if and only if they are the padding of p |
| Cbc.EncryptBlocks | pkg/nips/nip04/nip04.go:83-84 | the in-place loop over the buffer computes the chained blocks |
| Cbc.DecryptBlocks | pkg/nips/nip04/nip04.go:127-129 | the loop computes the unchained blocks into a new buffer |
| Nip04.Pad | pkg/nips/nip04/nip04.go:67-74 | the buffer holds the plaintext and then the padding length to whole blocks |
| Nip04.Encrypt | pkg/nips/nip04/nip04.go:57-88 | a key that is not 32 bytes is refused; otherwise the encrypted content |
| Nip04.Decrypt | pkg/nips/nip04/nip04.go:91-149 | each malformed key, format, base64, vector, length and padding is refused; otherwise the plaintext |
| Nip04.RemovePadding | pkg/nips/nip04/nip04.go:132-148 | the padding loop accepts exactly well-padded blocks |
| Nip04.ContentParses | pkg/nips/nip04/nip04.go:40-54 | the printed content splits back into its two parts, because base64 text holds no question mark |
| Nip04.SplitsAtFirstSeparator | pkg/nips/nip04/nip04.go:40-54 | every content is split at its first separator, or refused for want of one or of text after it |
| Nip04.ShortMessage | pkg/nips/nip04/nip04.go:57-88 | under the zero vector a text of less than a block encrypts to the base64 of the cipher's image of its padded block, the separator and the vector |
| Nip04.RoundTrips | pkg/nips/nip04/nip04.go:57-149 | for every plaintext, 32-byte key and vector, decrypting undoes encrypting |
| Nip04.AcceptsExactlyEncryptions | pkg/nips/nip04/nip04.go:91-149 | a content decrypts to p if and only if its decoded ciphertext is the encryption of the padding of p under its vector |
| Migrations.Database.RunMigrations | internal/store/sqlite/sqlite.go:235-262 | the loop skips recorded versions and stops at the first statement that fails or is interrupted |
| Migrations.Database.InitSchema | internal/store/sqlite/sqlite.go:160-178 | the version table, then the migrations |
| Migrations.MigrationRuns | internal/store/sqlite/sqlite.go:246-259 | a migration started on a schema holding any prefix of its objects does not fail, and is recorded only after all its statements |
| Migrations.InitialisedKeeps | internal/store/sqlite/sqlite.go:160-262 | from a coherent schema a run never fails, leaves it coherent, changes no row, adds only planned objects, and all of them when complete |
| Migrations.RunsKeep | internal/store/sqlite/sqlite.go:235-262 | so does any number of interrupted runs |
| Migrations.RecoveryReachesCleanSchema | internal/store/sqlite/sqlite.go:235-262 | after any number of interrupted runs one complete run reaches the tables, indexes and versions of a single clean run, with existing rows untouched |
| Migrations.RelayMigrationsAreWellFormed | internal/store/sqlite/sqlite.go:185-233 | the relay's three migrations meet the assumptions, and every database without recorded versions is coherent |
| Migrations.CleanSchema | internal/store/sqlite/sqlite.go:185-233 | the tables, indexes and versions a complete run makes of an empty database |

## Left out

- SqlFilters.CompiledFilterIsAccepts: leaves out lists that are present but empty, which the compiler turns into conditions nothing meets while the filter's own test ignores them; `SqlAccepts` models them.
- A negative limit of the first filter: both stores slice by it, which panics (`LimitOk`). Of a later filter it is modelled, as no limit.
- WebSocket pumps, HTTP routes, TLS, health JSON, the metrics other than rateLimitedCount, logging, configuration and the command line.
- The send buffer: messages queued to a client form an unbounded log, so blocking on a full buffer and sending to a closed client are not modelled.
- Steps finer than the model's: a kind 5 event and a delivery are each handled in one step, messages queued in one step come together in the log, and a step reads the clock once.
- The coupling of the rate limiter to a run of the relay: the gate is proved for every verdict of the limiter.
- Bytes of text that are not valid UTF-8.
- The validators of NIP-02, 22, 25, 28, 36, 42 and 65, the expiry tag of NIP-40 and the whole of NIP-59: predicates without a definition. NIP-11, 17 and 56 are not called by the modelled code.
- Floating-point rounding in the token bucket: tokens are reals.
- SaveEvents (batch): not part of the store interface, and it skips the handling of replaceable kinds.
- CountEvents, the channel table, PruneDeletedEvents, Vacuum and GetStats of the SQLite store; ListChannels, GetChannelMetadata and GetChannelEvent of both stores.
- SQL errors, transactions of concurrent connections, and two processes migrating one database at once.
- The hourly timer of retention: a retention step may come at any time.
