# GoCentral, verified

GoCentral is a master server for a game: clients log in, look for each other's sessions, record scores, read
leaderboards and exchange messages. Its state lives in MongoDB collections and in a few in-memory stores. This project
models the parts of it that carry invariants and proves what they keep.

Collections are sequences of documents, a single database operation is atomic, and (except in the cache protocol) a
handler is one step. Time, random choices, user lookups and the hash function are parameters, so every theorem holds for
all of them. A sorted query may return ties in any order, unless a lemma says otherwise.

## The modules

| module | what it models |
|---|---|
| `TtlCache` | the protocol behind all three caches: look up, fetch on a miss, store, interleaved with other calls, writes, invalidations and the clock |
| `ConfigCache`, `ConsoleTypeCache`, `KerberosKey` | the three caches themselves, and what the protocol's guarantees mean for bans, leaderboard filters and ticket keys |
| `Marshaler`, `MarshalerHeader`, `MarshalerRoundTrip`, `TagTest`, `RequestTypes` | the reflective marshaler over field descriptors, which struct types survive a round trip, a test on their tags that says so, and that the score-record request passes it |
| `MessageStore` | the message store with expiry and purging, against a store that never purges |
| `Scores`, `ScoreHistory`, `ScoreCleanup`, `InterleavedCleanup` | the score recorder, the stored document as a function of the history, the housekeeping passes over it, and the duplicate pass in pieces between other operations |
| `Leaderboards`, `Aggregates` | song boards ranked by counting, boards of summed totals, and the agreement of the four services |
| `Accomplishments` | thirty-two parallel boards updated at an index found in one of them |
| `GatheringCodec`, `GatheringStore`, `GatheringWrites`, `Matchmaking` | the raw gathering bytes, the handlers that write gatherings, who may write which and what is written, and the search that reads them |
| `TextMessage`, `NPTicket` | the two byte codecs |
| `PidStack`, `ClientStore` | the bounded list of a client's PIDs, as a function of what was pushed |
| `Bytes`, `Decimals`, `Seqs`, `Options` | integers in bytes, decimal numerals, filters, counts and sums over sequences |

The handlers that change state are methods of classes. Each is proved equal to a step function on the state
(`Step`, `Submitted`, `Recorded`, `Cleaned`, ...), and the theorems are about all sequences of steps. What a step decides
and writes is stated beside it, field by field and with the numbers written out.

## Where the code does less than it says

* The comment at database/utils.go:84-85 says that invalidating the configuration cache forces the next read to see the
  database. A call that read before the change and stores after the invalidation undoes it
  (`ConfigCache.InvalidationCanBeOvertaken`). Calls that begin after an invalidation see the database as of then or later, in
  every continuation, if and only if at the invalidation no call in flight holds a value that the database does not say any
  more (`TtlCache.PromiseKeptIff`; for the two caches that are invalidated, `ConfigCache.InvalidationWorksIff` and
  `ConsoleTypeCache.InvalidationWorksIff`). A fetch in flight that read the current value does no harm. The ban handlers do
  not invalidate; a ban takes effect within the time to live plus the slowest fetch (`ConfigCache.BanIsEnforced`).
* A login that changes a user's console type invalidates both types before it writes the new one (servers/login.go:216-234). A
  read in between caches the old members again, and later reads return them although no fetch was in flight at the
  invalidations (`ConsoleTypeCache.InvalidationCanBeTooEarly`). After a change, all later calls see it if and only if by then
  neither the cache nor a fetch in flight holds other members (`ConsoleTypeCache.ChangeIsSeenIff`), which takes an
  invalidation after the write with no stale fetch in flight, or an entry that was not there or has expired.
* Registering stores the `state` column 0 whatever the bytes say, and updating replaces the bytes but not the column
  (servers/registergathering.go:60-68, servers/updategathering.go:71-82). In every run the column is what SetState last set
  since registration, or 0, and the bytes have the state last sent; they agree if and only if these are the same
  (`GatheringStore.StateAgreesIff`). Matchmaking filters by the column, so it can offer a gathering whose bytes say "in song"
  (`Matchmaking.InSongIsOffered`).
* CustomFind writes the number of offers before it skips the ones whose creator has no user document
  (servers/customfind.go:202-211). The count is right exactly when there is none (`Matchmaking.HeaderIsHonestIff`); a Wii
  console's master user, who has no user document, makes it wrong (`Matchmaking.CountCanExceedEntries`).
* The duplicate filter does not group by battle (database/housekeeping_tasks.go:21-25). In every reachable collection it deletes
  a battle score if and only if the player has an equal, newer one in another battle (`ScoreHistory.BattleScoreIsLostIff`).
  That is about the collection when the duplicates are listed: a battle score that is improved before the deletion goes too
  (`InterleavedCleanup.ImprovedBattleScoreCanBeLost`). Song scores are never lost, also if other operations come between the
  listing and the deletions (`InterleavedCleanup.DeletionsSpareSongs`).
* The rank a new best is told is the rank of the player's stored score if and only if no later part of the same request, for the
  same player and role, overtakes it (`Leaderboards.InstaRankAgrees`, with a request that shows the difference in
  `Leaderboards.InstaRankCanDiffer`).
* A player without a score gets the page of rank 1, but playerranks answers a rank behind every score of the board
  (`Leaderboards.PlayerRanksWithoutScore`).
* A text message survives serialization if and only if none of its strings ends in a zero byte and each of them, with its
  terminator, has a length that fits 32 bits (`TextMessage.RoundTripIff`).
* A struct type survives the marshaler for all values if and only if the unmarshaler looks at all its fields, its slices have
  numbered tags, only a scalar and a later slice share a tag, and no field takes a name of another before that one's tag has
  its turn (`MarshalerRoundTrip.RoundTripIff`); for every other type there is a value that comes out different. A finite test
  on the tags decides it (`TagTest.SurvivesIffPasses`).

## Model

| member | source | states |
|---|---|---|
| TtlCache.EntryOrigin | database/utils.go:60-82 | in every interleaving, a cache entry is what the last store since any invalidation fetched, and expires one lifetime after that store |
| TtlCache.HitIff | database/utils.go:61-67 | a lookup hits with a value exactly if the last thing that happened to its key was the store of a fetch that read this value, less than a lifetime ago |
| TtlCache.ReturnOrigin | database/utils.go:60-82 | whatever a call returns was read in a window that stored it, with nothing dropping or replacing the entry since |
| TtlCache.BoundedStaleness | database/utils.go:60-82 | a returned value is what the database said at an instant less than the lifetime plus the slowest read-to-store delay ago |
| TtlCache.PromiseIff | database/utils.go:60-90 | from any point of a run, every call that begins later sees the database as of then or later, in every continuation, if and only if neither the cache nor a fetch in flight holds a value the database no longer says |
| TtlCache.PromiseKeptIff | database/utils.go:84-90 | in every continuation, every call that begins after an invalidation returns what the database said then or later, if and only if no call in flight at the invalidation holds a value that the database does not say any more |
| TtlCache.NoneInFlight | database/utils.go:60-82 | with no fetch of the key in flight at the invalidation, none that read before it is stored after it |
| TtlCache.FreshAfterInvalidation | database/utils.go:84-90 | with no such fetch, every later call returns what the database said at an instant after the invalidation |
| ConfigCache.ConfigCache.GetCachedConfig | database/utils.go:60-82 | an uninterrupted call returns the cached configuration untouched while it is fresh, and otherwise what the database says, cached for 30 s |
| ConfigCache.ConfigCache.InvalidateConfigCache | database/utils.go:86-90 | the entry is gone |
| ConfigCache.IsUsernameBanned | database/utils.go:648-662 | the ban loop says yes exactly if the list has an active ban for that name, ignoring case |
| ConfigCache.EqualFoldIff | database/utils.go:655 | names are the same if they agree letter by letter, ignoring the case of A to Z |
| ConfigCache.BanPlayer | restapi/restapi.go:795-823 | refuses the empty name; otherwise keeps all bans and appends one for the lower-case name that is active now unless its duration is not positive, and is permanent without a duration |
| ConfigCache.UnbanPlayer | restapi/restapi.go:844-885 | refuses if there is no name or no active ban; otherwise expires the first of the most recently created active bans and changes nothing else |
| ConfigCache.ActiveBanIsOld | restapi/restapi.go:787-897 | no run of bans and unbans moves a ban or revives an expired one: one that is active later was there unchanged all along |
| ConfigCache.BanIsEnforced | database/utils.go:627-662 | every ban check made 30 s plus the slowest fetch after a ban is in the database, while the ban is active, denies |
| ConfigCache.InvalidationCanBeOvertaken | database/utils.go:84-90 | a run in which the call after an invalidation returns the configuration from before the ban |
| ConfigCache.InvalidationWorksIff | database/utils.go:84-90 | calls that begin after the invalidation return a configuration the database had since, in every continuation, exactly if no call in flight has read another one than the current |
| ConsoleTypeCache.FetchPids | database/utils.go:694-704 | the cursor loop collects exactly the users of that console type |
| ConsoleTypeCache.ConsoleTypePIDsCache.Check | database/utils.go:668-680 | hits exactly if the type has an unexpired entry |
| ConsoleTypeCache.ConsoleTypePIDsCache.Store | database/utils.go:711-714 | sets that type's entry and expiry and no other's |
| ConsoleTypeCache.ConsoleTypePIDsCache.InvalidateConsoleTypePIDsCache | database/utils.go:45-57 | drops the entry of the type, or all entries for -1 |
| ConsoleTypeCache.ReturnsASnapshot | database/utils.go:666-722 | a returned set is exactly the users the type had at one instant, at most 5 minutes plus a fetch ago |
| ConsoleTypeCache.ReadsReflectChange | database/utils.go:43-57 | with no older fetch stored after the invalidation, later reads report a membership that has held since |
| ConsoleTypeCache.InvalidationWorksIff | database/utils.go:43-57 | later calls report the membership as of the invalidation or later, in every continuation, exactly if no call in flight for the type has read an older one |
| ConsoleTypeCache.ChangeIsSeenIff | servers/login.go:216-234 | after any step, for one the change of a user's type, later calls see the members as of then or later, in every continuation, exactly if neither the cache nor a call in flight holds others |
| ConsoleTypeCache.InvalidationCanBeTooEarly | servers/login.go:216-234 | a run that invalidates, caches again and then writes: the user still counts as a member of the old type |
| ConsoleTypeCache.InvalidationIsLocal | database/utils.go:54-55 | invalidating a type does not change what a lookup of another type finds |
| KerberosKey.CacheKeyIsInjective | servers/login.go:46 | equal cache keys mean the same user and the same effective password |
| KerberosKey.KerberosKeyCache.DeriveKerberosKey | servers/login.go:41-74 | cached or not, returns the password hashed 65000 + pid mod 1024 times, and keeps every cached key right |
| KerberosKey.DerivedIsChainEnd | servers/login.go:56-66 | that is the end of every chain of 65000 + pid mod 1024 hashes that starts at the password, or at the environment's if it is empty |
| KerberosKey.CacheIsTransparent | servers/login.go:41-74 | in every interleaving of calls with any expiry, each call returns the derived key of its own request |
| Marshaler.BuildNamesAndTypesLists | protocols/jsonproto/marshaler/response.go:46-69 | the nested loops produce the names and types of all fields, slices numbered with at least three digits |
| Marshaler.BuildValuesList | protocols/jsonproto/marshaler/response.go:71-91 | the nested loops produce the values in the same order |
| Marshaler.MarshalResponse | protocols/jsonproto/marshaler/response.go:11-37 | a list response has its first element's header and every element's values; an empty list panics |
| MarshalerHeader.ScalarAdds | protocols/jsonproto/marshaler/response.go:62-65 | a scalar adds its tag (or its name without one), `d` or `s`, and its value behind those of the fields before it |
| MarshalerHeader.SliceAdds | protocols/jsonproto/marshaler/response.go:57-61 | a slice adds as many names as it has elements, its tag without a final XXX and the number, with as many letters and values |
| MarshalerHeader.LettersAreTypes | protocols/jsonproto/marshaler/response.go:46-91 | every letter is `d` over a number or `s` over a string |
| Marshaler.NormalizeJson | protocols/jsonproto/marshaler/request.go:161-175 | fails exactly for lists of unequal length or with a name that is no string; else the map in which later entries win |
| MarshalerHeader.LastValueWins | protocols/jsonproto/marshaler/request.go:161-175 | each name has the last of its values, and nothing else is a key |
| Marshaler.ExtractIndex | protocols/jsonproto/marshaler/request.go:40-45 | the number in the trailing digits after the prefix, and an error if there is none or it does not fit 64 bits |
| MarshalerHeader.IndexIff | protocols/jsonproto/marshaler/request.go:40-45 | behind the prefix, the longest run of digits at the end counts, whatever stands before it, if it is there and below 2^63 |
| MarshalerHeader.DynamicIff | protocols/jsonproto/marshaler/request.go:81-82 | a field collects numbered keys exactly if its tag has XXX at any place |
| Marshaler.CollectDynamic | protocols/jsonproto/marshaler/request.go:81-95 | for every order of visiting the map while deleting from it: exactly the numbered keys of the prefix are taken out, and every number keeps the value of one of its keys |
| Marshaler.AppendSorted | protocols/jsonproto/marshaler/request.go:102-121 | the values of the right type, in ascending order of all collected numbers |
| Marshaler.UnmarshalRequest | protocols/jsonproto/marshaler/request.go:48-127 | for every list of fields: panics exactly if a slice field's own tag is left for it; otherwise every field is one of the values allowed by the keys its tag captured |
| MarshalerRoundTrip.NumberIsReadBack | protocols/jsonproto/marshaler/request.go:40-45 | the number of a flattened name is read back, also past 999 |
| MarshalerRoundTrip.RestoresExactly | protocols/jsonproto/marshaler/request.go:48-127 | if no field captures another's names, the unmarshaler turns a flattened struct into that struct and nothing else, whatever the map order |
| MarshalerRoundTrip.SomeValueIsLost | protocols/jsonproto/marshaler/request.go:59-96 | for every other struct type there is a value that the unmarshaler does not restore |
| MarshalerRoundTrip.RoundTripIff | protocols/jsonproto/marshaler/request.go:48-127 | a type round-trips for all values if and only if every field is looked at, slices have numbered tags, only a scalar and a later slice share a tag, and no name is claimed before the first field with its tag has its turn |
| MarshalerRoundTrip.FlattenAndUnmarshal | protocols/jsonproto/marshaler/response.go:46-91 | building the lists, normalizing and unmarshalling returns the struct, without a panic |
| MarshalerRoundTrip.HeaderFitsIff | protocols/jsonproto/marshaler/response.go:24-30 | the first row's header is another row's own header if and only if their slices are equally long |
| MarshalerRoundTrip.RowsRoundTrip | protocols/jsonproto/marshaler/response.go:18-30 | such a row, read under the first row's header, is exactly its struct |
| TagTest.TakesIff | protocols/jsonproto/marshaler/request.go:40-95 | a test on two tags says exactly whether one field claims a name of the other: whether its tag is such a name, or its prefix ends in the other's prefix or in a numeral |
| TagTest.PadIsNumeral | protocols/jsonproto/marshaler/response.go:59 | the number in a name has at least three digits, no needless zeros, and the element's index as its value |
| TagTest.PassesIffRoundTrips | protocols/jsonproto/marshaler/request.go:48-127 | the test of all pairs of tags is passed if and only if the type round-trips |
| TagTest.SurvivesIffPasses | protocols/jsonproto/marshaler/request.go:48-127 | so a type's values all survive if and only if its tags pass a finite test |
| RequestTypes.DifferentHeadsSuffice | protocols/jsonproto/marshaler/request.go:80-95 | tags of six or more characters that differ within the first three pass the test |
| RequestTypes.ScoreRecordRoundTrips | protocols/jsonproto/services/scores/record.go:32-51 | the score-record request, with its nine numbered lists, passes the test and round-trips for all values |
| MessageStore.MessageStore.NextMessageID | servers/messagestore.go:46-48 | ids count up and wrap at 2^32 |
| MessageStore.MessageStore.AddMessage | servers/messagestore.go:51-68 | the message is appended to its recipient's box with the time now + lifetime in nanoseconds at 10^9 per second, and no other box changes |
| MessageStore.MessageStore.GetMessages | servers/messagestore.go:71-89 | answers with the unexpired messages in order and changes nothing |
| MessageStore.MessageStore.GetAndClearMessages | servers/messagestore.go:92-113 | answers with the unexpired messages and empties the box |
| MessageStore.MessageStore.GetMessagesByIDs | servers/messagestore.go:131-172 | answers with the unexpired messages asked for; with deleteAfter exactly these and the expired ones are gone |
| MessageStore.MessageStore.DeleteMessages | servers/messagestore.go:175-210 | removes exactly the messages with these ids |
| MessageStore.MessageStore.PurgeExpired | servers/messagestore.go:213-240 | for every order of the boxes: each keeps exactly its unexpired messages, and a box without any is gone |
| MessageStore.Simulates | servers/messagestore.go:51-240 | in every run with a monotone clock, the store and one that never purges have the same live messages, from now on |
| MessageStore.AnswersAreExact | servers/messagestore.go:71-172 | so wherever purges fall, a query answers with the unexpired messages asked for of the store that never purges, in arrival order |
| MessageStore.NeverPurgedIsHistory | servers/messagestore.go:51-210 | that store holds exactly the deliveries that no later call asked to remove |
| MessageStore.AnswersAreHistory | servers/messagestore.go:51-240 | a query answers with exactly the deliveries that are unexpired, asked for and not removed since: nothing comes back, nothing else is lost |
| MessageStore.AnswersAreDeliveries | servers/messagestore.go:51-240 | the same by the calls themselves: the answer is, in order, the messages of exactly those AddMessage calls to the recipient that are less than their lifetime in seconds ago, that the query asks for, and after which no GetAndClear, deleting GetByIDs or Delete asked for their removal |
| Scores.ScoreRecorder.Submit | protocols/jsonproto/services/scores/record.go:109-192 | one submission is one step of the board, with whether it was a new best and the score it is told; the step is described by the next two rows |
| Scores.SubmitRefuses | protocols/jsonproto/services/scores/record.go:113-143 | more than 6 stars, a difficulty above 4, no points, a role above 10 or a percentage outside 1 to 100 changes nothing and is told 0 |
| Scores.SubmitStores | protocols/jsonproto/services/scores/record.go:145-191 | any other submission is stored exactly if the player has no score there or a lower one: in that place, under the old id or a new one, with its own score, percentage, stars and difficulty, band flag and mask for role 10 and 2^role for roles 0 to 9; nothing else changes |
| Scores.ScoreRecorder.NextHighest | protocols/jsonproto/services/scores/record.go:203-207 | the lowest strictly higher score of the song and role, if there is one |
| Scores.ScoreRecorder.Rank | protocols/jsonproto/services/scores/record.go:198-242 | an answer's rank, rival text, best text and slot |
| Scores.ScoreRecorder.RecordAll | protocols/jsonproto/services/scores/record.go:106-192 | the loop's final collection, and for each part whether it was a new best when its turn came and the then current score |
| Scores.ScoreRecorder.RecordScores | protocols/jsonproto/services/scores/record.go:83-292 | nothing happens for an empty request or an invalid PID; otherwise every part is recorded and then answered against the final board, also if lists are short where a part is refused before they are read |
| ScoreHistory.BestIndexIsEarliestBest | protocols/jsonproto/services/scores/record.go:109-192 | the incremental argmax is the first accepted submission of maximal score since the key was last erased |
| ScoreHistory.RunRepresents | protocols/jsonproto/services/scores/record.go:143-191 | in every run of submissions, cleanups and deletions, a key has one document, that of its best submission, or none |
| ScoreHistory.StoredIsEarliestBest | protocols/jsonproto/services/scores/record.go:109-186 | in every run what is stored for a song, player and role has score, percentage, stars and difficulty of the earliest accepted submission of the highest score, the band mask exactly for role 10, and mask 2^role for roles 0 to 9 |
| ScoreHistory.StoredIffSubmitted | protocols/jsonproto/services/scores/record.go:109-192 | something is stored exactly if such a submission exists |
| ScoreHistory.OneStored | protocols/jsonproto/services/scores/record.go:158-186 | and it is the only document |
| ScoreHistory.RequestIsRun | protocols/jsonproto/services/scores/record.go:109-192 | a request is the run of its players' parts, one after the other, each with its own elements of the lists |
| ScoreHistory.BattleStores | protocols/jsonproto/services/scores/battles_record.go:78-108 | a battle score is stored if it is the player's first for the battle, and replaces it if it is higher |
| ScoreHistory.DeletionsDelete | restapi/restapi.go:919 | deleting a player or a battle deletes exactly those scores |
| ScoreHistory.CleanupSparesRecorded | database/housekeeping_tasks.go:102-119 | in every reachable collection neither cleanup pass deletes a recorded score of a song other than 0 |
| InterleavedCleanup.EveryInterleavingIsSound | database/housekeeping_tasks.go:39-69 | however listing, deletions by id and all other operations interleave, no listed id belongs to a song score, and song scores are as without the deletions |
| InterleavedCleanup.DeletionsSpareSongs | database/housekeeping_tasks.go:52-69 | so a deletion of listed ids never deletes a song score, and the stored one is that of its earliest best submission |
| InterleavedCleanup.ImprovedBattleScoreCanBeLost | database/housekeeping_tasks.go:52-69 | a battle score that is listed and then improved is deleted with its improvement |
| ScoreHistory.OrderDoesNotMatter | protocols/jsonproto/services/scores/record.go:164-186 | the stored score is the same for every order of the same submissions |
| ScoreHistory.RunHasDistinctIDs | database/housekeeping_tasks.go:18-19 | in every run documents have distinct ids, so "newest" is well defined |
| ScoreHistory.BattleScoreIsLostIff | database/housekeeping_tasks.go:18-37 | in every reachable collection the duplicate filter deletes a battle score exactly if the player has an equal, newer one in another battle |
| ScoreHistory.BattleScoresCanBeLost | protocols/jsonproto/services/scores/battles_record.go:78-110 | two submissions of one player's equal scores to two battles: the next cleanup deletes the first |
| ScoreCleanup.CleanupDuplicateScores | database/housekeeping_tasks.go:13-74 | for every order of the groups: deleting the ids that the aggregation lists leaves exactly the newest document of each group, in place, and counts what it deleted |
| ScoreCleanup.DupsAreOlder | database/housekeeping_tasks.go:18-37 | sorting by descending id, pushing ids by group and slicing off the first lists exactly the ids of documents that are not the newest of their group |
| ScoreCleanup.CleanupInvalidScores | database/housekeeping_tasks.go:94-124 | the six passes leave exactly the scores with points and, for songs, a song id, a role up to 10, up to 6 stars, a difficulty up to 4 and up to 100 percent |
| ScoreCleanup.KeepsExactlyTheNewest | database/housekeeping_tasks.go:18-69 | a document is left exactly if it is the newest of those that agree with it on the nine fields (battles: on player and score), and exactly one of them is left |
| ScoreCleanup.DeduplicationIsIdempotent | database/housekeeping_tasks.go:13-74 | a second pass deletes nothing |
| Leaderboards.PlayerGet | protocols/jsonproto/services/leaderboards/player.go:227-380 | the position is the number of higher scores of the song and role among the selected PIDs, or 0 without a score; the page has the up to 19 rows from the multiple of 19 below it, each the fields of a document of that song, that role and those PIDs |
| Leaderboards.BoardDocs | protocols/jsonproto/services/leaderboards/player.go:231-249 | the board is exactly the documents of the song and role, with a filter exactly those of its PIDs |
| Leaderboards.PositionCounts | protocols/jsonproto/services/leaderboards/player.go:251-284 | for any board and filter, the position is that count for the player's first document, and 0 if there is none |
| Leaderboards.RankRange | protocols/jsonproto/services/leaderboards/rankrange.go:123-140 | the rows from StartRank on, each with the fields of a document of the song and role: up to EndRank, or all, or a single batch of at most 101 for the other ranges; the database's error below 1 |
| Leaderboards.MaxRank | protocols/jsonproto/services/leaderboards/maxrank.go:63-69 | the number of documents of the song and role |
| Leaderboards.PlayerRanks | protocols/jsonproto/services/leaderboards/playerranks.go:62-95 | for each song one more than the number of strictly higher scores than the player's, or than 0 |
| Leaderboards.RankCounts | protocols/jsonproto/services/leaderboards/playerranks.go:73-95 | that score is the one of the player's last document for the song and role |
| Leaderboards.CountingIsSorting | protocols/jsonproto/services/leaderboards/player.go:258-298 | for any order of ties, the count of higher scores separates the sorted board, and is the first position of the score if and only if the board has it |
| Leaderboards.PageShowsPlayer | protocols/jsonproto/services/leaderboards/player.go:251-298 | without a filter or among friends, the page shows the player's score (or the top one) at the counted rank, with only higher ones before it |
| Leaderboards.RangesAreTheBoard | protocols/jsonproto/services/leaderboards/rankrange.go:123-140 | consecutive ranges from rank 1 concatenate to the whole board |
| Leaderboards.PlayerRanksAgree | protocols/jsonproto/services/leaderboards/playerranks.go:81-95 | in every reachable collection the player page and playerranks use the same score and the same rank for a player who has a score |
| Leaderboards.PlayerRanksWithoutScore | protocols/jsonproto/services/leaderboards/playerranks.go:81-95 | for a player without one, the page is that of rank 1, and playerranks answers one more than the size of the board |
| Leaderboards.InstaRankAgrees | protocols/jsonproto/services/scores/record.go:198-289 | a new best is told the rank that playerranks gives for the player's stored score if and only if no later part of the request overtakes it |
| Leaderboards.InstaRankCanDiffer | protocols/jsonproto/services/scores/record.go:109-289 | a request with one player's 100 and then 200 points is told rank 2 for a score that is stored at rank 1 |
| Aggregates.PlayerPage | protocols/jsonproto/services/leaderboards/player.go:134-225 | the page starts at a multiple of 19, has up to 19 rows with the sums of their players' scores, and has the player's row if and only if the player has a matching score |
| Aggregates.TotalRange | protocols/jsonproto/services/leaderboards/rankrange.go:83-122 | rows StartRank to EndRank, each with the sum of its player's scores, and an error for every other range |
| Aggregates.TotalMaxRank | protocols/jsonproto/services/leaderboards/maxrank.go:71-114 | the number of distinct PIDs with a matching score, 0 for unknown board types |
| Aggregates.CountedAre | protocols/jsonproto/services/leaderboards/player.go:90-108 | a total counts the scores of songs of the role, for board type 2 those of songs 1001 to 1106 only, of the selected PIDs if there are any |
| Aggregates.PlayersSum | protocols/jsonproto/services/leaderboards/player.go:111-117 | a player's total adds up that player's matched scores and no other's |
| Aggregates.MaxRankIsRows | protocols/jsonproto/services/leaderboards/maxrank.go:91-94 | that number is the number of rows on the board |
| Aggregates.TotalsConserve | protocols/jsonproto/services/leaderboards/player.go:111-117 | the totals sum to the sum of all matched scores |
| Aggregates.RangesListEveryPlayerOnce | protocols/jsonproto/services/leaderboards/rankrange.go:97-111 | consecutive ranges up to the maximal rank list every matched player once, with the sum of the player's scores, with ranks 1 to n in descending order |
| Accomplishments.AccomplishmentsDocument.Record | protocols/jsonproto/services/accomplishment/record.go:87-159 | all 32 boards updated at the index of the first, or all appended to |
| Accomplishments.AccomplishmentsDocument.Cleanup | database/housekeeping_tasks.go:250-303 | every board loses exactly the entries of banned PIDs; nothing is written if there are none |
| Accomplishments.RecordKeepsPlaces | protocols/jsonproto/services/accomplishment/record.go:87-159 | recording leaves the entries of others in their places on all boards, and a new PID comes last |
| Accomplishments.CleanupKeepsOrder | database/housekeeping_tasks.go:261-303 | the cleanup keeps the others in their order |
| Accomplishments.RecordKeepsAligned | protocols/jsonproto/services/accomplishment/record.go:87-159 | recording keeps the boards equally long with the same distinct PID at each index |
| Accomplishments.CleanupKeepsAligned | database/housekeeping_tasks.go:261-303 | so does the cleanup of banned users |
| Accomplishments.BoardsAreLastRecords | protocols/jsonproto/services/accomplishment/record.go:87-159 | in every run each board shows a PID at exactly one index with its last recorded value since it was last cleaned out, or nowhere |
| GatheringCodec.PatchState | servers/setstate.go:58-62 | the four byte stores are the little-endian state at offset 0x1C and touch nothing else |
| GatheringCodec.HeadLayout | serialization/gathering/gathering_deserializer.go:19-23 | the first 16 bytes of a gathering are its three ids and two limits, little-endian |
| GatheringCodec.MiddleLayout | serialization/gathering/gathering_deserializer.go:24-33 | the next 22 are policy, argument, flags, state, description and public flag |
| GatheringCodec.PropertyLayout | serialization/gathering/gathering_deserializer.go:34-39 | the next 24 are the first six properties |
| GatheringCodec.LastLayout | serialization/gathering/gathering_deserializer.go:40-45 | the last 24 are the other five and the buffer |
| GatheringCodec.PatchCommutesWithParse | servers/setstate.go:58-62 | patching the bytes is setting the parsed gathering's state, for every state, and nothing else |
| GatheringCodec.SpliceCommutesWithParse | servers/customfind.go:218-221 | the spliced bytes have the same length and parse to the same gathering with owner and host replaced |
| GatheringStore.Gatherings.RegisterGathering | servers/registergathering.go:40-74 | the client's (and on Wii its machine's) gatherings are replaced by one new private one |
| GatheringStore.Gatherings.UpdateGathering | servers/updategathering.go:30-86 | one step of the collection with its outcome: bytes that do not parse, an unknown id and a foreign gathering (GatheringWrites.OwnerIff) change nothing; else GatheringWrites.UpdateWrites says what is written |
| GatheringStore.Gatherings.SetGatheringState | servers/setstate.go:35-73 | one step with its outcome: unknown and foreign gatherings (GatheringWrites.OwnerIff) are refused; else bytes and column get the state (GatheringWrites.SetStateWrites) |
| GatheringStore.Gatherings.TerminateGathering | servers/terminategathering.go:30-58 | one step with its outcome: unknown and foreign gatherings (GatheringWrites.OwnerIff) are refused; else that one gathering is removed (GatheringWrites.TerminateRemoves) |
| GatheringStore.Gatherings.TransferOnLookup | servers/lookuporcreateaccount.go:97-145 | on Wii the account's gatherings are cleared, then its machine's become the account's |
| GatheringStore.Gatherings.PruneOldSessions | database/housekeeping_tasks.go:76-92 | gatherings not updated for an hour are deleted |
| GatheringWrites.OwnerIff | servers/updategathering.go:52-65 | update, SetState and terminate are refused for the owner's sake exactly if the client is not the creator and either has no machine or its machine neither registered the gathering nor has its creator as master user |
| GatheringWrites.OtherOutcomes | servers/updategathering.go:30-50 | the other refusals are those of bytes under 86 and of an id nobody has, and a refused call changes nothing |
| GatheringWrites.OthersStay | servers/terminategathering.go:41-57 | the three calls of a client without a machine leave every gathering of another creator in place and equal |
| GatheringWrites.UpdateWrites | servers/updategathering.go:71-86 | an update sets contents, public byte, time and creator of the first gathering with the id, drops its machine unless a master user sent it, and leaves id, state, console type and all other gatherings |
| GatheringWrites.SetStateWrites | servers/setstate.go:56-73 | SetState sets bytes 28 to 31, the column and the time of that gathering, and nothing else |
| GatheringWrites.TerminateRemoves | servers/terminategathering.go:54-57 | terminating removes that gathering and keeps the order of the others |
| GatheringWrites.RegisterWrites | servers/registergathering.go:47-74 | registering keeps, in order, exactly the gatherings that are neither the creator's nor (on Wii) its machine's, and adds one with state 0, public 0 and the given bytes |
| GatheringWrites.LookupWrites | servers/lookuporcreateaccount.go:112-137 | a Wii lookup drops the account's gatherings and gives it those of the machine; another console's changes nothing |
| GatheringWrites.PruneKeeps | database/housekeeping_tasks.go:76-92 | pruning keeps, in order, exactly the gatherings updated in the last 3600 s |
| GatheringWrites.StrangersCannotTouch | servers/terminategathering.go:41-57 | in every run of calls by clients who are neither its creator nor act for its machine, and that do not find it an hour old, a gathering stays as it was, byte for byte |
| GatheringWrites.PublicBytesAndMachines | servers/updategathering.go:71-89 | in every run a public gathering has at least 86 bytes whose byte 37 is its column, and two gatherings never have the same machine |
| GatheringStore.EveryRunIsSound | servers/updategathering.go:71-89 | in every run public gatherings have at least 86 bytes whose byte 37 is the public column, and each machine id is on at most one gathering |
| GatheringStore.RegisterLeavesOne | servers/registergathering.go:37-74 | after a registration exactly one gathering has its creator, and on Wii exactly one its machine |
| GatheringStore.LookupLeavesAtMostOne | servers/lookuporcreateaccount.go:115-137 | after a Wii lookup at most one gathering has that account as creator, and none that machine |
| GatheringStore.ColumnAndBytes | servers/setstate.go:58-73 | in every run, whatever handlers are interleaved and whatever ids are drawn, the column is the state of the last accepted SetState that reached the gathering, or 0, and the bytes have the state of its registration, last update or SetState |
| GatheringStore.StateAgreesIff | servers/updategathering.go:71-82 | in every run, a gathering's column and bytes have the same state exactly if the state last sent for it is the state last set |
| GatheringStore.StateColumnCanLag | servers/updategathering.go:71-82 | a run that leaves a public gathering with bytes in state 2 and the column at 0 |
| Matchmaking.CustomFind | servers/customfind.go:44-222 | offers are a rearrangement of the sample, each another creator's, under 5 minutes old, not in a song or on song select, console-compatible and safe to slice, in non-increasing similarity; none whose creator shares a song is behind one whose creator shares none |
| Matchmaking.SortByScore | servers/customfind.go:178-181 | a permutation in non-increasing score |
| Matchmaking.ScoreAll | servers/customfind.go:165-176 | each score is the number of parts of the creator's song list that, trimmed, are among the searcher's songs, and 0 for an unknown creator |
| Matchmaking.SimilarityCounts | servers/customfind.go:150-176 | so it is the number of places of the creator's list whose part, trimmed, is a non-empty part of the searcher's list, trimmed |
| Matchmaking.SharersArePositive | servers/customfind.go:165-176 | it is positive exactly if there is such a part |
| Matchmaking.SplitIsBetweenCommas | servers/customfind.go:152 | the parts have no commas and, with commas between them, are the list |
| Matchmaking.TrimIs | servers/customfind.go:154 | trimming takes all the white space off both ends and nothing else |
| Matchmaking.CandidatesAre | servers/customfind.go:44-89 | the query finds exactly the others' public gatherings under 300 s old, in no song or song select, of a matching console |
| Matchmaking.SampledMaySee | servers/customfind.go:44-89 | the query's filter admits only gatherings the searcher may see, all of them at least 86 bytes long |
| Matchmaking.EntriesParse | servers/customfind.go:203-222 | the entries are, in the order of the offers, those of exactly the offers whose creator is a user: the offer's bytes with the PID of the last user of that name twice in bytes 4 to 11, and the two lengths |
| Matchmaking.EntryReads | servers/customfind.go:213-222 | such an entry parses to the offered gathering, owned and hosted by that user |
| Matchmaking.HeaderIsHonestIff | servers/customfind.go:201-212 | the count written first is the number of entries if and only if every offer's creator is a user |
| Matchmaking.InSongIsOffered | servers/customfind.go:56-65 | a run after which a gathering whose bytes say "in song" passes the query of a searcher |
| Matchmaking.CountCanExceedEntries | servers/customfind.go:202-211 | a run after which a searcher is told of one gathering and sent none |
| TextMessage.ReadBufferString | serialization/message/textmessage_deserializer.go:34-51 | the string without trailing zeros and the offset after it; without enough bytes an error, with the offset before or after the length; never reading out of bounds |
| TextMessage.Deserialize | serialization/message/textmessage_deserializer.go:54-130 | the parser, on every input, within bounds |
| TextMessage.StringIff | serialization/message/textmessage_deserializer.go:34-51 | a string is read exactly if its length and that many bytes are there; it is those bytes up to the zeros at their end |
| TextMessage.RefusedIff | serialization/message/textmessage_deserializer.go:54-130 | each of the errors before the strings, by the number of bytes behind the type name, and then the first string that cannot be read |
| TextMessage.Serialize | serialization/message/textmessage_deserializer.go:133-169 | the encoding, with its two length fields modulo 2^32 |
| TextMessage.EnvelopeLayout | serialization/message/textmessage_deserializer.go:155-163 | "TextMessage" with length 12 and terminator, then the number of bytes behind the first length field and behind the second, modulo 2^32 |
| TextMessage.FixedLayout | serialization/message/textmessage_deserializer.go:138-145 | the eight fixed fields at offsets 24 to 59 of every message |
| TextMessage.StringLayout | serialization/message/textmessage_deserializer.go:146-150 | behind them subject, sender and body, each with its length and terminator |
| TextMessage.ParseOfEncoding | serialization/message/textmessage_deserializer.go:54-169 | serialized messages whose string lengths fit their prefixes parse to the message without its strings' trailing zeros |
| TextMessage.LongIsLost | serialization/message/textmessage_deserializer.go:26-51 | with a string whose length does not fit its prefix, the message is never read back |
| TextMessage.RoundTripIff | serialization/message/textmessage_deserializer.go:54-169 | a message survives serialization if and only if its strings' lengths fit their prefixes and none of them ends in a zero byte |
| TextMessage.ReserializationIsStable | serialization/message/textmessage_deserializer.go:54-169 | every message accepted from fewer than 2^31 bytes is accepted again, and is the same, after it is serialized |
| NPTicket.TicketBytes | authentication/npticket.go:39-71 | the ticket piece by piece, footer last |
| NPTicket.TicketLayout | authentication/npticket.go:39-71 | the fields of the header and of the footer's frame at their offsets in the bytes of every ticket |
| NPTicket.FooterLayout | authentication/npticket.go:74-96 | the fields of the footer at their offsets, with the signature behind them |
| NPTicket.Deserialize | authentication/npticket.go:99-155 | the parser, with its six errors, within bounds |
| NPTicket.AcceptedIff | authentication/npticket.go:99-155 | data is accepted exactly if it is long enough for the body, footer and signature sizes in it; otherwise each error has its exact condition |
| NPTicket.EncodingOfParsed | authentication/npticket.go:39-155 | the bytes of an accepted ticket are the data it was read from, up to the end of the signature |
| NPTicket.ParseOfEncoding | authentication/npticket.go:99-155 | a ticket whose sizes match its parts parses back to itself |
| NPTicket.RoundTripIff | authentication/npticket.go:39-155 | and only such a ticket does |
| ClientStore.ClientInfo.Push | utils/clientInfo.go:57-81 | the array shifted in place: the PID moves or is appended to the end, and the oldest is dropped when full |
| ClientStore.ClientStore.PushPID | utils/clientInfo.go:49-82 | pushes to that client's array only, or reports an unknown client |
| ClientStore.ClientStore.AddClient | utils/clientInfo.go:37-46 | a new client with an empty array; a known client is left alone |
| ClientStore.ClientStore.IsValidPID | utils/clientInfo.go:85-101 | whether the PID is in the client's array |
| ClientStore.ClientStore.RemoveClient | utils/clientInfo.go:104-108 | the client is gone and no other is touched |
| PidStack.StackIsRecent | utils/clientInfo.go:57-81 | after any pushes the array is the last eight distinct PIDs in the order of their last pushes |
| PidStack.OnStackIff | utils/clientInfo.go:85-101 | a PID is in it if and only if it was pushed and fewer than eight others were pushed since |
| ClientStore.ViewIsHistory | utils/clientInfo.go:37-108 | in every run of the store each client's array is that of its pushes since it was added |
| ClientStore.ValidIff | utils/clientInfo.go:85-101 | in every run a PID is valid for an address if and only if fewer than eight other PIDs were pushed for it since |

## Left out

- The MongoDB driver, RMC and HTTP framing, logging, files, station URLs and database errors; a request does what it does when the database answers.
- ValidateClientPID and the PID checks in front of the handlers: the PID check is a parameter of RecordScores, the others are left out.
- ConfigCache.BanPlayer: does not model how a duration is parsed from text; user names fold as ASCII, and time has no precision of the database's.
- IsPIDBanned: it is IsUsernameBanned on the name of the PID's user.
- GetFriendsForPID: one set built from a list; the friend set is a parameter of the boards.
- KerberosKey.KerberosKeyCache.DeriveKerberosKey: the hash is a parameter, and callers are taken not to write into the shared key bytes.
- ConsoleTypeCache.FetchPids: user documents that fail to decode are not modelled.
- ConfigCache.ActiveBanIsOld: ban and unban are one write each; two administrators unbanning at once can lose a ban pushed between the read and the write.
- Marshaler.UnmarshalRequest: fields are integers, strings and slices of them; JSON text, numbers beyond 2^53, other field kinds and the type-information caches are left out.
- Marshaler.NormalizeJson: starts at the two lists; the shape checks of the nested arrays around them are left out.
- MessageStore.MessageStore.PurgeExpired: the ticker that calls it is left out, and every operation holds the lock for its whole length, as in the code.
- Scores.ScoreRecorder.RecordScores: every list element that is read exists, since the code panics otherwise; two requests do not interleave.
- Leaderboards.PlayerGet: names, friend marks and other decoration of a row are left out, as in the other leaderboard services; pages centre on the same set of friends or consoles throughout a call.
- Leaderboards.PageShowsPlayer: not claimed for a console's board without the player's console, where the page is the one the score would be on; CountingIsSorting says when it shows it.
- Aggregates.PlayerPage: totals that a filter by friends or console selects; an empty console set drops the filter, which is modelled as it is.
- Setlist and battle boards, acc_maxrank and the accomplishment boards' pages: they repeat the same queries or filter on fields that are not there.
- Battle expiry, banned users' scores and invalid users: plain deletions.
- Accomplishments.AccomplishmentsDocument.Record: the 32 boards are a list in one order instead of named fields.
- GatheringStore.Gatherings.RegisterGathering: the random id is a parameter; ids may collide, as they may in the code.
- TextMessage.ParseOfEncoding: does not say what a message with a string of 2^32 - 1 bytes or more parses to, only (LongIsLost) that it is not the message.
- GatheringStore.Gatherings.TransferOnLookup: the rest of the account lookup, which creates users and sets the client's PID, is left out.
- GatheringStore.Gatherings.SetGatheringState: on contents shorter than 32 bytes the code's index panics; the model reports this and leaves the store as it was.
- Matchmaking.CustomFind: the random sample is a parameter, at most ten picks; white space is trimmed as ASCII.
- TextMessage.Deserialize: inputs of 2^63 bytes and more, whose offsets would overflow.
- SerializeUserMessage: a prefix of Serialize with another type name.
- NPTicket.Deserialize: signature verification.
- Counters, profanity checks, link codes, stats, bands and characters: simple reads and writes.
