# Verified models of ini-node

ini-node is a Go full node with a desktop wallet, forked from btcd. This project models the parts of it
that keep intricate state, and proves in Dafny what those parts are for. `dafny verify dfyconfig.toml`
checks all of it.

Parts of the program that compute are modelled by functions. Parts that change state in place are classes
and methods with loops. Each such method is proved to do to its state what a function on values says, and
the theorems over whole runs are then about those functions.

- **Address manager** (`AddrTables`, `AddrTableProofs`, `AddrRuns`, `AddrEffects`, `AddrImage`, `AddrLoad`,
  `AddrManager`).
  The new buckets, the tried lists, the index and its reference counts and counters; adding, expiring,
  promoting and drawing addresses; the peers file, and what loading a saved one or any other brings about.
- **Peers of the server** (`PeerTables`, `PeerState`, `PeerLifecycle`, `PeerPresence`). The three peer tables with their
  group and IP tallies, admission and eviction, and the life of every peer as a step system: any
  interleaving of the lifecycle goroutines, the message goroutines, operator queries and the event loop.
- **Committed filter checkpoints** (`CfCheckpt`). The shared cache of filter headers, with the array
  behind a Go slice modelled as such.
- **Websocket notifications** (`QueueRelay`, `Watching`, `Notifications`, `Rescan`, `RescanChain`,
  `RescanAsked`). The
  unbounded relay, the two-way request indexes, blocks as they connect, and rescans of a chain that
  reorganizes meanwhile. When a rescan catches up with live notifications is proved exactly.
- **Wallet** (`Coins`, `WalletKeys`, `Payments`). Coin selection, the keys and signatures of the three
  kinds of address, payments and token operations.
- **RPC server** (`LongPoll`, `TemplateId`, `SearchPaging`). Long polling for block templates, template
  identifiers, and paging through the transactions of an address.

`Common` holds what the modules share. Clocks, random draws, map iteration order, hash functions, the
database's answers and the network are parameters, so every statement holds for all of them.

## What turned out not to hold

The model follows the code where the code and its comments differ, or where an expected property fails. Each
failure has an input that shows it, and the exact condition.

- A new bucket may hold 65 addresses, not 64: the size test in `updateAddress` is made before the insert
  and is strict. `BucketOf65` is a run that fills one, and `OverSizeIff` says which step does. Expiry drops
  the eldest remaining address as well as the bad ones, although its comment says that happens only when
  nothing is bad (`ExpireDropsBoth`).
- A report of an address may set its last-seen time back: an older report with services not known before does
  (`SeenGoesBackIff`, `SeenBackExample`).
- `reset` does not clear the address counters, and the loader's sanity checks miss keys listed twice or in
  the wrong list. `LoadInvIff` says for every file whether the tables are consistent after it.
  `FailedLoadExample` is a file after which `GetAddress` never returns, `UntidyExample` one that loads
  without an error and leaves inconsistent tables.
- The peer limit is not an invariant (`OverBudgetIff`). While an inbound peer that was asked to leave has
  not left, it lets in one outbound peer after the other (`LetInAgain`, `SameVictimTwice`).
- The comment on `peerAdded` says the sync manager hears of a departure only for peers registered with it.
  `DepartureWithoutArrival` is a run that shows otherwise. `DepartureRule` gives the exact rule.
- A checkpoint request that stops half way can spoil the shared cache through the array it shares with
  the grown slice. `AfterInvIff` says exactly when, and `SpoiltRun` is a run with the wrong reply.
- An output that pays a public key, directly or by bare multisig, is looked up by its encoded address when
  a block is connected and by the key's text in a rescan (`PubKeyExample`). A rescan therefore agrees with
  live notifications exactly when that makes no difference (`RescanMatchesIff`).
- During a rescan, a block that has left the best chain is a plain error, not the database error that
  starts a recovery (`LeftTheChain`, `NoRecovery`). An open rescan whose recovery finds no more blocks ends
  without registering its client for live notifications (`DryExample`), and `RescanIsSound` says exactly
  when. A rescan whose last block was replaced waits as long as no higher block comes (`WaitsOn`).
- Sums of payment amounts wrap around at 64 bits. Value is conserved if and only if they do not
  (`SentConservesIff`, `WrappedSumExample`). A token operation with a negative marker amount may pay less
  than its fee (`TokenConservesIff`, `NegativeMarkerExample`).
- A template identifier with a negative time does not decode (`RoundTripIff`).
- A page whose end wraps around at 32 bits may slice the memory pool's list backwards and panic, or, from
  the newest end, load too few levels of the index (`CrashesExample`, `FallsShortExample`). `Search` says
  exactly when. Such counts need memory for as many results, which the handler allocates first.

## Model

| member | source | states |
|---|---|---|
| `AddrRuns.RunKeepsInv` | backend/addrmgr/addrmanager.go:166-1020 | In every run of locked operations from a new manager, or from any consistent one, the index, buckets, tried lists, reference counts and both counters stay consistent. |
| `AddrRuns.ApplyKeepsInv` | backend/addrmgr/addrmanager.go:867-1020 | Each single operation (add, attempt, connected, good, set services) keeps the table invariant. |
| `AddrRuns.RunBounds` | backend/addrmgr/addrmanager.go:228-237 | In every state of every run the counters add up to the index size, new buckets hold at most 65 addresses and tried lists at most 256, and an untried address has between one and eight references. |
| `AddrRuns.OverSizeIff` | backend/addrmgr/addrmanager.go:228-236 | From tables with no bucket over 64, an operation leads to one of 65 if and only if it adds an address that goes on to a bucket, to a bucket of 64 that does not hold it. |
| `AddrRuns.BucketOf65` | backend/addrmgr/addrmanager.go:228-236 | A run from the empty manager after which a bucket holds 65 addresses. |
| `AddrRuns.ExpireDropsBoth` | backend/addrmgr/addrmanager.go:244-280 | Expiry takes out of a bucket exactly the bad entries and, if any is not bad, one more. |
| `AddrRuns.ForgottenOnlyByExpiry` | backend/addrmgr/addrmanager.go:244-280 | An address leaves the index only by its last reference, when another is added to an over-full bucket holding it, and it was bad or the eldest of the rest. |
| `AddrRuns.TriedIsKept` | backend/addrmgr/addrmanager.go:913-999 | No operation makes the manager forget a tried address. |
| `AddrRuns.GoodIsTried` | backend/addrmgr/addrmanager.go:913-999 | After Good a known address is in its tried list, and no address and no count has been gained or lost. |
| `AddrEffects.GoodRecords` | backend/addrmgr/addrmanager.go:913-999 | After Good a known address, tried before or not, has no failed attempts, was last attempted and last successful now, is tried with no references, and is otherwise as it was. |
| `AddrEffects.GoodStays` | backend/addrmgr/addrmanager.go:931-934 | Good on an address that is tried already moves nothing and touches no other address. |
| `AddrEffects.GoodAppends` | backend/addrmgr/addrmanager.go:936-967 | While the tried list has room, Good takes an address out of all its new buckets to the end of the list and touches no other address. |
| `AddrEffects.GoodDisplaces` | backend/addrmgr/addrmanager.go:969-998 | When the list is full, its first eldest entry gives its place to the address and is new again with one reference, in its own bucket if that holds fewer than 64 others and else in the first that held the address; no other address is touched. |
| `AddrEffects.AddIgnores` | backend/addrmgr/addrmanager.go:166-171 | An address that cannot be routed to changes nothing. |
| `AddrEffects.AddNotesNew` | backend/addrmgr/addrmanager.go:208-236 | A new address is noted as reported, never tried, with one reference, in its own bucket and no other. |
| `AddrEffects.AddNotesKnown` | backend/addrmgr/addrmanager.go:173-236 | A known address keeps what was tried of it; its services add up; its time becomes the report's if that is later or has new services; it gains a bucket and a reference exactly if it goes on to one that does not hold it. |
| `AddrEffects.SeenGoesBackIff` | backend/addrmgr/addrmanager.go:181-192 | The last-seen time of a known address moves back if and only if an older report has services not known before. |
| `AddrEffects.SeenBackExample` | backend/addrmgr/addrmanager.go:181-192 | An address seen at 100 whose last-seen time becomes 50. |
| `AddrEffects.AddTouches` | backend/addrmgr/addrmanager.go:166-280 | Any other address keeps its entry and buckets, unless it expires from the over-full bucket: then it loses that bucket and one reference, and leaves the index exactly with its last. |
| `AddrEffects.AddPicksEldest` | backend/addrmgr/addrmanager.go:244-280 | Besides the bad ones, exactly one address expires, not bad and as old as any that is not bad; none if all are bad. |
| `AddrEffects.AttemptCounts` | backend/addrmgr/addrmanager.go:867-883 | An attempt adds one to the count and sets its time, on that address alone. |
| `AddrEffects.ConnectedRefreshes` | backend/addrmgr/addrmanager.go:888-908 | Afterwards the last-seen time is at most twenty minutes behind, and was changed only if it was more; nothing else changes. |
| `AddrEffects.ServicesReplaced` | backend/addrmgr/addrmanager.go:1002-1020 | The services of that address are those given; nothing else changes. |
| `AddrEffects.BadIff` | backend/addrmgr/knownaddress.go:77-113 | An address is bad if and only if it was not attempted in the last minute and is ten minutes ahead of time, a month old, without success after three attempts, or without success in a week after ten. |
| `AddrEffects.SourcesShareBuckets` | backend/addrmgr/addrmanager.go:127-129 | All addresses reported by sources of one group share 64 new buckets. |
| `AddrEffects.GroupSharesLists` | backend/addrmgr/addrmanager.go:123-125 | All addresses of one group share eight tried lists. |
| `AddrTableProofs.ExpireMakesRoom` | backend/addrmgr/addrmanager.go:244-280 | Expiry removes at least one address from any bucket that is not empty. |
| `AddrTableProofs.ExpireKeepsOthers` | backend/addrmgr/addrmanager.go:244-280 | Expiry leaves every address outside the bucket as it was. |
| `AddrTableProofs.DropRefsKeepsInv` | backend/addrmgr/addrmanager.go:244-280 | Dropping any set of members from a bucket keeps reference counts, index and counters consistent. |
| `AddrTableProofs.UpdateKeepsInv` | backend/addrmgr/addrmanager.go:166-240 | Noting an address, with or without insertion and expiry, keeps the table invariant for every draw. |
| `AddrTableProofs.PromoteKeepsInv` | backend/addrmgr/addrmanager.go:913-999 | Good keeps the table invariant, whether the tried list has room or an entry is displaced. |
| `AddrTableProofs.NewEntryHasHome` | backend/addrmgr/addrmanager.go:938-957 | An untried address is always found in some new bucket, so the early return for one that is not is never taken. |
| `AddrTableProofs.RoomForDisplaced` | backend/addrmgr/addrmanager.go:973-998 | The entry displaced from a tried list goes to a new bucket with room: its own, or the one just left. |
| `AddrTableProofs.FirstEldestIsFirst` | backend/addrmgr/addrmanager.go:285-297 | The tried entry picked is the eldest of its list, and the first of those equally old. |
| `AddrTableProofs.SomeDrawHits` | backend/addrmgr/addrmanager.go:794-859 | Whenever an address is known, some draw ends the loop of GetAddress, whichever table the coin chooses. |
| `AddrImage.RoundTrip` | backend/addrmgr/addrmanager.go:363-549 | Loading a saved file succeeds and restores every key, bucket, list, reference count, flag and counter, and the invariant. |
| `AddrImage.SameTablesInv` | backend/addrmgr/addrmanager.go:363-549 | The invariant depends only on what the file restores. |
| `AddrImage.ResetInvIff` | backend/addrmgr/addrmanager.go:708-720 | The tables are consistent after reset if and only if both counters were zero. |
| `AddrImage.FailedLoadInvIff` | backend/addrmgr/addrmanager.go:425-442 | After a failed load the tables are consistent if and only if it gave up before counting an address. |
| `AddrImage.FailedLoadExample` | backend/addrmgr/addrmanager.go:794-859 | A file that fails to load and leaves no address but a count above zero, so that no draw of GetAddress ever succeeds. |
| `AddrLoad.LoadSucceedsIff` | backend/addrmgr/addrmanager.go:444-549 | For every file of the right shape: loading succeeds if and only if it is not too new, its addresses parse, every key listed is among them, and each is listed among the new or the tried and not both. |
| `AddrLoad.LoadInvIff` | backend/addrmgr/addrmanager.go:425-549 | For every file of the right shape: the tables after loading it are consistent if and only if it is complete and lists no place twice, no bucket, list or key too much and each tried key where its hash puts it, or the load gave up before placing a key. |
| `AddrLoad.UntidyExample` | backend/addrmgr/addrmanager.go:531-546 | A file with a tried key listed twice, which passes both sanity checks and leaves inconsistent tables. |
| `AddrLoad.LoadedFrom` | backend/addrmgr/addrmanager.go:470-503 | A loaded address has the attempts and times of the last one saved under its key, and its services, which are those of a full node in a file of the first version; the times it was seen come from the clock. |
| `AddrLoad.LoadRemembers` | backend/addrmgr/addrmanager.go:505-529 | Placing the keys in buckets and lists changes nothing of the addresses but their references and flags. |
| `AddrManager.AddrManager.constructor` | backend/addrmgr/addrmanager.go:1207-1218 | A new manager views as the empty tables. |
| `AddrManager.AddrManager.UpdateAddress` | backend/addrmgr/addrmanager.go:166-240 | Does to the tables what Update says, sharing entries between index and buckets, and keeps the invariant. |
| `AddrManager.AddrManager.ExpireNew` | backend/addrmgr/addrmanager.go:244-280 | Drops the bad entries of a bucket and one eldest of the rest, as Expire says. |
| `AddrManager.AddrManager.PickTried` | backend/addrmgr/addrmanager.go:285-297 | Returns the index of the first eldest entry of a tried list. |
| `AddrManager.AddrManager.Good` | backend/addrmgr/addrmanager.go:913-999 | Does to the tables what Promote says and keeps the invariant; the shared entry objects stay coherent. |
| `AddrManager.AddrManager.Attempt` | backend/addrmgr/addrmanager.go:867-883 | Records an attempt on a known address and changes nothing else. |
| `AddrManager.AddrManager.Connected` | backend/addrmgr/addrmanager.go:888-908 | Refreshes the timestamp of a known address when more than twenty minutes old, and changes nothing else. |
| `AddrManager.AddrManager.SetServices` | backend/addrmgr/addrmanager.go:1002-1020 | Sets the services of a known address and changes nothing else. |
| `AddrManager.AddrManager.GetAddress` | backend/addrmgr/addrmanager.go:794-859 | Returns nothing exactly when no address is known or no draw given lands; otherwise a live entry of the table chosen. |
| `AddrManager.AddrManager.FoundIsLive` | backend/addrmgr/addrmanager.go:794-859 | An entry found in a bucket or a tried list is the one the index holds, in the table it was drawn from. |
| `AddrManager.AddrManager.GetAddresses` | backend/addrmgr/addrmanager.go:689-704 | Lists each known address exactly once. |
| `AddrManager.AddrManager.AddressCache` | backend/addrmgr/addrmanager.go:667-685 | Returns the share of the known addresses the protocol allows, all of them known and none twice. |
| `AddrManager.AddrManager.SavePeers` | backend/addrmgr/addrmanager.go:363-408 | Writes an image of the tables: every entry, and every bucket and list by keys. |
| `AddrManager.AddrManager.DeserializePeers` | backend/addrmgr/addrmanager.go:444-549 | Does what Load says, entry by entry, and reports success exactly when Load does. |
| `PeerTables.HandleAddKeepsInv` | backend/server.go:1918-2109 | Admission keeps the three tables disjoint and the group and IP tallies exact. |
| `PeerTables.HandleDoneKeepsInv` | backend/server.go:2113-2170 | A departure keeps the tallies exact and leaves the peer out of its table. |
| `PeerTables.DropPersistentKeepsInv` | backend/server.go:2361-2372 | Removing a persistent peer on request keeps the tallies exact. |
| `PeerTables.DropAllKeepsInv` | backend/server.go:2395-2424 | Disconnecting every matching outbound peer keeps the tallies exact. |
| `PeerTables.TalliesNonNegative` | backend/server.go:278-297 | No group or IP tally is ever negative. |
| `PeerTables.AcceptedIff` | backend/server.go:1918-2066 | A peer is let in if and only if it is connected, its agent wanted, the server not shutting down, its host parses and has no running ban; an inbound peer not whitelisted shares its IP with fewer connected peers than the limit, an outbound one its address with none; and there is room, or it is outbound and some inbound peer is not whitelisted. |
| `PeerTables.AddLeaves` | backend/server.go:1918-2081 | An expired ban of the host is lifted exactly when the first checks are passed; a peer let in is in the table of its kind and nothing else changes; one that is not is disconnected if it was connected; one let in on a full server costs another its place. |
| `PeerTables.RunningBan` | backend/server.go:1943-1949 | A ban that is still running keeps the peer out and the tables as they are. |
| `PeerTables.OverBudgetIff` | backend/server.go:2008-2060 | The peer count is over the limit after an add if and only if it was before, or was at it and the peer was admissible. |
| `PeerTables.LetInAgain` | backend/server.go:2026-2053 | On a full server an inbound peer already asked to leave lets in every further outbound peer, and each raises the count. |
| `PeerTables.SameVictimTwice` | backend/server.go:2026-2053 | A server limited to one peer that ends up with three: the second outbound peer comes when the inbound one is disconnected and its departure not yet handled. |
| `PeerTables.EvictedIsInbound` | backend/server.go:2008-2060 | Only an inbound peer that is not whitelisted is evicted, and it stays in the tables until it is done. |
| `PeerTables.InboundWithinBudget` | backend/server.go:2008-2060 | An inbound peer is admitted only within the limit. |
| `PeerTables.AddOutcome` | backend/server.go:1918-2109 | An add leaves the tables untouched, or lifts an expired ban, or also enters the peer; nothing else. |
| `PeerState.PeerState.constructor` | backend/server.go:228-241 | New peer tables are empty and consistent. |
| `PeerState.PeerState.TrackOutbound` | backend/server.go:278-285 | Adds the peer to its group and IP tallies. |
| `PeerState.PeerState.UntrackOutbound` | backend/server.go:287-295 | Takes an outbound peer that has an id out of its tallies; a tally that reaches zero stays as zero. |
| `PeerState.PeerState.HandleAddPeerMsg` | backend/server.go:1918-2109 | Accepts exactly the admissible peers, does to the tables what HandleAdd says for the victim it picked, and disconnects the same peers. |
| `PeerState.PeerState.HandleDonePeerMsg` | backend/server.go:2113-2170 | Does to the tables what HandleDone says. |
| `PeerState.PeerState.RemoveNode` | backend/server.go:2361-2372 | Removes one matching persistent peer with its tallies, if there is one. |
| `PeerState.PeerState.DisconnectNode` | backend/server.go:2395-2424 | Removes one matching inbound peer; failing that, every matching outbound peer, with their tallies, and no other. |
| `PeerLifecycle.NextKeepsInv` | backend/server.go:2590-2725 | Every step of every goroutine keeps the system invariant: for each peer, events handled, drained and queued are those it sent, in order. |
| `PeerLifecycle.RunKeepsInv` | backend/server.go:2590-2725 | The invariant holds in every state of every interleaving. |
| `PeerLifecycle.EventsInOrder` | backend/server.go:2590-2623 | A peer is handled as added before done and each at most once; its handshake slot is released at most once, and exactly once when its goroutine has finished. |
| `PeerLifecycle.SyncCallsInOrder` | backend/server.go:2113-2170 | The sync manager hears of a peer at most one arrival and then at most one departure. |
| `PeerLifecycle.ArrivalIffAdmissible` | backend/server.go:1918-2109 | In every run, once a peer's add has been handled, the sync manager has heard of its arrival if and only if the peer was admissible by the tables and configuration at that moment. |
| `PeerLifecycle.DepartureIffSent` | backend/server.go:2113-2170 | In every run, once its done has been handled, it has heard of its departure if and only if the peer had sent its add. |
| `PeerLifecycle.DepartureRule` | backend/server.go:2113-2170 | In every run, a departure heard of is of a peer whose add was handled before, and its arrival was heard of, earlier, if and only if the peer was admissible then. |
| `PeerLifecycle.HistoryGrows` | backend/server.go:2628-2725 | What has been handled for a peer is never undone. |
| `PeerLifecycle.GoneForGood` | backend/server.go:2113-2170 | Once its departure has been handled, a peer is in none of the tables, then and ever after. |
| `PeerLifecycle.TalliesAlwaysRight` | backend/server.go:278-295 | In every state of every run each tally equals the number of outbound and persistent peers it counts. |
| `PeerLifecycle.DepartureWithoutArrival` | backend/server.go:410-417 | A run in which the sync manager hears of a departure and never of an arrival. |
| `PeerPresence.ConnectedIsPlaced` | backend/server.go:1918-2170 | In every state of every run, a connected peer whose add has been handled and whose done has not is in the tables and the server is running: whoever was turned away, removed by an operator or present at shutdown has been disconnected. |
| `CfCheckpt.AgreeBelow` | backend/server.go:1305-1314 | Two chains that share an interval block share all earlier ones, so the search for the fork may stop at the last match. |
| `CfCheckpt.ReplyIsFresh` | backend/server.go:1224-1372 | A reply built from the cached prefix and new lookups equals a fresh lookup of every header. |
| `CfCheckpt.AfterInvIff` | backend/server.go:1284-1372 | The cache holds one chain with its right headers after a request if and only if the request does not stop part of the way through entries it overwrites in place. |
| `CfCheckpt.CompletesIff` | backend/server.go:1305-1357 | A request is answered if and only if the lookup does not fail and the header of every interval block is on file or cached at its place. |
| `CfCheckpt.CacheAfter` | backend/server.go:1267-1371 | The cache becomes that of a longer request that is answered; of a longer one that is not, it takes the headers up to the first missing one if the array behind it has room; otherwise it stays. |
| `CfCheckpt.SpoiltReply` | backend/server.go:1340-1351 | A spoilt cache answers the chain it held before with a header of the other chain. |
| `CfCheckpt.SpoiltRun` | backend/server.go:1284-1351 | A run of four requests from an empty cache, the third of which stops half way, whose last reply has a header of the wrong chain. |
| `CfCheckpt.RunIsFresh` | backend/server.go:1224-1372 | Over any sequence of requests for forking chains, none of which spoils the cache, every completed reply is fresh. |
| `CfCheckpt.Server.OnGetCFCheckpt` | backend/server.go:1224-1372 | The method on the shared array answers exactly when the lookup does not fail and every header is on file or cached at its place, with fresh headers, and leaves the cache as After says. |
| `QueueRelay.RelayIsFifo` | backend/rpcwebsocket.go:152-194 | In every schedule the items delivered, followed by the queue, are those that arrived, in order; the queue has exactly the items that could not be passed on directly and have not been taken since; while the direct path is open everything has been delivered. |
| `QueueRelay.QueueHandler` | backend/rpcwebsocket.go:152-194 | The loop stops at the first close or quit, having delivered all of what arrived before but the items that wait, and holding those. |
| `Watching.WatchedAfter` | backend/rpcwebsocket.go:463-473 | After any block, a client watches an outpoint if and only if it did before and the block does not spend it, or some transaction pays it to a watched address and no later one spends it. |
| `Watching.NothingSpentIsWatched` | backend/rpcwebsocket.go:463-473 | After a block with parents before children, nobody watches an outpoint the block spends. |
| `Watching.WatchesAfter` | backend/rpcwebsocket.go:463-548 | After any message, exactly who watches an outpoint: requests and payments to watched addresses add, spends in blocks, withdrawals and leaving clients take away. |
| `Watching.WatchesAddressAfter` | backend/rpcwebsocket.go:511-534 | After any message, exactly who watches an address. |
| `Watching.SubscribedAfter` | backend/rpcwebsocket.go:495-542 | After any message, exactly who wants blocks, who wants new transactions and who is here. |
| `Watching.StaysNowhere` | backend/rpcwebsocket.go:511-524 | A client in none of the maps gets into one only by a message of its own. |
| `Watching.LeaversAreForgotten` | backend/rpcwebsocket.go:438-562 | In every run of messages, a client that unregistered and registered nothing since is in none of the maps. |
| `Notifications.Watch.Add` | backend/rpcwebsocket.go:842-858 | Adds one pair and keeps both directions of the index in agreement, with no empty list. |
| `Notifications.Watch.Remove` | backend/rpcwebsocket.go:891-911 | Removes one pair, and the list with its last client; both directions stay in agreement. |
| `Notifications.Watch.AddAll` | backend/rpcwebsocket.go:1083-1100 | Adds exactly the pairs of one client and the keys given. |
| `Notifications.Watch.RemoveClient` | backend/rpcwebsocket.go:511-524 | Removes exactly the pairs of one client; nothing of it is left in either direction. |
| `Notifications.NotificationManager.NotifyForTxIns` | backend/rpcwebsocket.go:1036-1069 | Exactly the clients that watch an input are told, each once; in a block their requests for the inputs go, and no others. |
| `Notifications.NotificationManager.NotifyForTxOuts` | backend/rpcwebsocket.go:947-993 | Exactly the clients that watch an address paid are told, each once, and watch the outputs from then on. |
| `Notifications.NotificationManager.AddSpentRequests` | backend/rpcwebsocket.go:842-875 | Adds the requests; of every mempool transaction that spends one of the outpoints, everyone who watches an input is told; that adds and removes no request, and the recursion ends. |
| `Notifications.NotificationManager.NotifyForTx` | backend/rpcwebsocket.go:1021-1030 | Both halves together: the pairs watched afterwards, and one notice of each kind to exactly the clients due. |
| `Notifications.NotificationManager.ConnectBlock` | backend/rpcwebsocket.go:463-473 | The pairs watched become those of BlockStep, also when the block is skipped because nobody watches; of each transaction, in order, exactly the clients that watch an input when its turn comes and those that watch an address it pays are told, once each. |
| `Notifications.NotificationManager.HandleMessage` | backend/rpcwebsocket.go:438-562 | Every message changes the state exactly as Handle says and leads to exactly the notices due: of a block, of an accepted transaction, of mempool spends of outpoints newly watched, and otherwise none. |
| `Rescan.ScanInputs` | backend/rpcwebsocket.go:2276-2340 | All inputs are taken out of the unspent set, and a redeeming notice is due exactly when an input spends from it or from a watched address. |
| `Rescan.ScanOutputs` | backend/rpcwebsocket.go:2342-2381 | Exactly the outputs to watched addresses are added, with one receiving notice exactly when there is one. |
| `Rescan.RescanBlock` | backend/rpcwebsocket.go:2244-2383 | The unspent set and the notices are those of the block taken transaction by transaction; a client that leaves has received the first of them and no more. |
| `Rescan.ScannedAfter` | backend/rpcwebsocket.go:2244-2383 | After a rescan of any transactions an outpoint is unspent if and only if it was and none spends it, or one pays it to an address of interest by its text and no later one spends it. |
| `Rescan.NewsIff` | backend/rpcwebsocket.go:2276-2381 | Of each transaction in order a client is told that it redeems if an input spends what is unspent at that point or proves to spend from an address of interest, then that it receives if an output pays one, once each. |
| `Rescan.TxMatchesIff` | backend/rpcwebsocket.go:2337-2381 | After one transaction rescan and live notifications agree if and only if each output is of interest by both renderings or neither, or was watched and is not spent. |
| `Rescan.RescanMatchesIff` | backend/rpcwebsocket.go:2244-2383 | A rescan leaves unspent exactly what a client registered all along would be watching, if and only if the rendering of addresses makes no difference at any outpoint. |
| `Rescan.SameInterestMatches` | backend/rpcwebsocket.go:2337-2381 | If every output is of interest by both renderings or by neither, a rescan leaves unspent exactly what a client registered all along would be watching. |
| `Rescan.PubKeyExample` | backend/rpcwebsocket.go:2342-2353 | An output to a public key that is watched live and missed by a rescan, or the other way round. |
| `RescanChain.RecoverFromReorg` | backend/rpcwebsocket.go:2520-2549 | Takes the branches of Recover: a fresh range, checked to continue the last block scanned. |
| `RescanChain.ScanBlockChunks` | backend/rpcwebsocket.go:2567-2753 | The loops, with the list a recovery replaces, end as Rescanned says for every sequence of chain views. |
| `RescanChain.RescanIsSound` | backend/rpcwebsocket.go:2567-2753 | However the chain changes, the blocks scanned are one path of parents and children from the first height, and the unspent set is theirs; the client is registered only when the last block is the tip or none was scanned; an open rescan that finishes has registered it if and only if its last two answers were not a missing block and a chain that ends there. |
| `RescanAsked.RescanEnds` | backend/rpcwebsocket.go:2567-2753 | However the chain changes, every question put to it follows from the last answer, and the blocks scanned are those asked for and found. The rescan ends as disconnected, as reorganized or with a database error if and only if the answer to its last question is one that calls for it; it registers its client or runs dry likewise. |
| `RescanAsked.RecoveryGoesOn` | backend/rpcwebsocket.go:2520-2549 | A recovery whose first block is found and goes on from the last one scanned is followed by the scan of that block. |
| `RescanChain.NoRecovery` | backend/rpcwebsocket.go:2651-2698 | While the database misses no block of the best chain, whether or not it fails otherwise, no reorganization starts a recovery. |
| `RescanChain.LeftTheChain` | backend/rpcwebsocket.go:2651-2664 | A block that has left the best chain ends the rescan with an error. |
| `RescanChain.WaitsOn` | backend/rpcwebsocket.go:2604-2648 | A rescan does not end while the chain has no higher block and its tip is not the last block scanned. |
| `RescanChain.DryExample` | backend/rpcwebsocket.go:2674-2698 | An open rescan that ends at the tip, by a recovery, and does not register its client. |
| `RescanChain.SteadyScan` | backend/rpcwebsocket.go:2588-2612 | On a chain that does not change, a finished rescan has scanned exactly the range asked for, whatever the chunk size. |
| `RescanChain.QuietRescanFinishes` | backend/rpcwebsocket.go:2567-2753 | On a chain that does not change, with every block on file and a client that stays, a rescan ends within two answers for each block asked for and two more; it has scanned just those blocks, and has registered its client if and only if it is open and the chain ends before its last height. |
| `RescanChain.CatchingUpMatchesIff` | backend/rpcwebsocket.go:2612-2636 | What a rescan registers after any path of blocks is what its client would be watching had it been registered before the first, if and only if the rendering of addresses makes no difference at any outpoint of the path. |
| `Coins.SortIsStable` | frontend/gosend.go:641-643 | The sorted coins are the same coins in descending order, those of equal value in their old order. |
| `Coins.LargestAreWorthMost` | frontend/gosend.go:641-643 | No selection of coins is worth more than as many of the largest. |
| `Coins.SelectCoins` | frontend/gosend.go:641-664 | The coins chosen cover the need and no smaller selection from the wallet does; once all scripts decode, selection is insufficient if and only if no selection at all covers the need. |
| `Coins.WalletCoversIff` | frontend/gosend.go:661-664 | With no negative coins, no selection covers the need if and only if the whole wallet does not. |
| `WalletKeys.PayToInjective` | frontend/goaddress.go:143-149 | The three standard scripts never coincide, so each falls into one case of signing and names one hash. |
| `WalletKeys.UnlocksIff` | frontend/gosend.go:426-502 | A key unlocks a standard output if and only if the output pays one of the three addresses derived from the key. |
| `WalletKeys.WalletAddressVariants` | frontend/goaddress.go:92-112 | Lists exactly the addresses of all three types at every index, index zero included, if all keys derive. |
| `WalletKeys.AddressIndexFor` | frontend/goaddress.go:118-139 | Finds the first index one of whose addresses this is; with all keys derived, it fails only for foreign addresses. |
| `WalletKeys.FoundKeyUnlocks` | frontend/goaddress.go:118-149 | The key of whatever index derives an address unlocks the outputs that pay the address. |
| `Payments.ConservesIff` | frontend/gosend.go:368-391 | Inputs equal outputs plus fee plus a donation below dust, made only without change, if and only if the sum asked for fits 64 bits. |
| `Payments.WrapIsCongruent` | frontend/gosend.go:368-391 | A 64-bit sum differs from the exact one by a multiple of two to the power of 64. |
| `Payments.BuildAndSign` | frontend/gosend.go:312-420 | Succeeds exactly when payments, fee, addresses, funds and keys allow; then the outputs are the payments in order and the change last, which is what 64-bit arithmetic leaves of the inputs if that is no dust and absent otherwise, and each input is signed. |
| `Payments.BuiltConservesIff` | frontend/gosend.go:312-420 | What is built conserves value if and only if the sum asked for fits 64 bits. |
| `Payments.MapKeys` | frontend/gosend.go:666-681 | Every address involved is mapped to a key that derives it; for wallet addresses this never fails. |
| `Payments.ChangeComesBack` | frontend/gosend.go:683-687 | The change address is the native witness address of the wallet's first key, one of those the wallet can spend from. |
| `Payments.OwnCoinsUnlock` | frontend/gosend.go:400-409 | With keys of the wallet for its own coins, signing succeeds and every input unlocks its output. |
| `Payments.Send` | frontend/gosend.go:623-706 | From a wallet in order, a payment with good outputs goes through if and only if its 64-bit need is positive and some selection of coins covers it; then the inputs are fewest and every one unlocks. |
| `Payments.SentConservesIff` | frontend/gosend.go:623-706 | What is sent conserves value if and only if the sum asked for fits 64 bits. |
| `Payments.SendWrapped` | frontend/gosend.go:623-706 | From a wallet in order, payments that wrap around to a need some selection covers are sent, and value is not conserved. |
| `Payments.WrappedSumExample` | frontend/gosend.go:641-664 | Three payments that need one satoshi after wrapping around; a wallet in order with one ordinary coin sends them, paying out more than 2^64. |
| `Payments.TokenConservesIff` | frontend/gotoken.go:472-500 | A token transaction conserves value if and only if its marker amount is not negative, or the coins exceed the need by less than dust and cover the fee. |
| `Payments.TokenSentConservesIff` | frontend/gotoken.go:400-546 | The same of what a token operation sends. |
| `Payments.TokenPays` | frontend/gotoken.go:472-546 | The outputs of a token operation are the marker amount to the marker's address if there is one, the data without value, and the change to the primary address if it is at least 546; the change is what the inputs hold beyond fee and marker amount. |
| `Payments.NegativeMarkerExample` | frontend/gotoken.go:420-426 | A negative marker amount for which the fee is not paid in full. |
| `Payments.SendToken` | frontend/gotoken.go:400-546 | From a wallet in order, a token operation goes through if and only if its fee is not negative, its data fits, its marker has an address, its 64-bit need is positive and some selection of coins covers it; then the coins are fewest, the outputs are marker, data and change in this order, and every input unlocks. |
| `LongPoll.ClosesExactlyStale` | backend/rpcserver.go:1524-1566 | A notification closes a waiting channel if and only if its template is for another hash or older than the time given. |
| `LongPoll.NotifyWaits` | backend/rpcserver.go:1524-1566 | Exactly the waits that are not stale are left, on their old channels. |
| `LongPoll.NotifyKeepsInv` | backend/rpcserver.go:1524-1566 | Waiting channels stay open and distinct and no list is left empty; no channel is closed that was closed before. |
| `LongPoll.RegisterWaits` | backend/rpcserver.go:1610-1629 | A client gets the channel others wait on for the same template, or a new one; all other waits are unchanged. |
| `LongPoll.AlwaysInv` | backend/rpcserver.go:1524-1629 | The invariant holds after every sequence of registrations and notifications. |
| `LongPoll.ClosedExactlyWhenStale` | backend/rpcserver.go:1524-1629 | In every run, a channel handed out is closed if and only if a notification since then made its template stale; until then everyone who asks gets the same channel. |
| `LongPoll.GbtWorkState.TemplateUpdateChan` | backend/rpcserver.go:1610-1629 | Registers as Register says and returns the channel waited on. |
| `LongPoll.GbtWorkState.NotifyLongPollers` | backend/rpcserver.go:1524-1566 | Does what Notify says, closing only open channels. |
| `LongPoll.GbtWorkState.NotifyBlockConnected` | backend/rpcserver.go:1571-1578 | Notifies for the new block with the time of the last memory pool update. |
| `LongPoll.GbtWorkState.NotifyMempoolTx` | backend/rpcserver.go:1584-1601 | Notifies for the current previous hash exactly when there is a template and it is more than a minute old. |
| `TemplateId.RoundTripIff` | backend/rpcserver.go:1493-1518 | An identifier decodes to its hash and time if and only if the time is not negative. |
| `SearchPaging.FetchEntries` | backend/blockchain/indexers/addrindex.go:262-343 | Loading only the levels needed, the entries are one page of the whole index from either end, and the number skipped is right, unless the 32-bit sum wraps in a search from the newest end. |
| `SearchPaging.FetchMempool` | backend/rpcserver.go:3355-3373 | A page of the memory pool transactions and the number skipped; it panics if and only if the skip is within the list and the end wraps. |
| `SearchPaging.Search` | backend/rpcserver.go:3435-3535 | A count there is no memory for panics. Otherwise the answer is one page of the index followed by the memory pool, or of the memory pool followed by the index reversed, whenever skip and count together fit 32 bits; beyond that, if and only if the request neither slices backwards nor loads too few levels, and exactly which requests do. |
| `SearchPaging.PageIs` | backend/blockchain/indexers/addrindex.go:296-343 | A page holds the entries from the skip on, as many as asked for or as there are. |
| `SearchPaging.CrashesExample` | backend/rpcserver.go:3355-3373 | A skip of one with the largest count, and one transaction in the memory pool: the end wraps around to zero and the search panics, from either end. |
| `SearchPaging.FallsShortExample` | backend/blockchain/indexers/addrindex.go:269-286 | A skip of one with the largest count, whose sum wraps around to zero: no level is loaded although an entry is due. |
| `SearchPaging.PagesJoin` | backend/rpcserver.go:3435-3535 | While the listing stays the same, consecutive pages join up to one page, with nothing lost or repeated. |

## Left out

- The cryptography, scripts and encodings themselves: hashing, signatures, address encoding and hexadecimal text are parameters with the round trips one expects of them.
- Expire: one clock reading serves a whole expiry, while the code reads the clock again for each entry; a bad entry could turn good between two of them.
- The choice of bucket by hash: the address manager is proved for every hash function that stays within the bucket counts.
- GetAddress: the weighting of candidates by their chance is a draw, so how likely an address is to be returned is not modelled.
- AddrImage.RoundTrip: timestamps of loaded entries come from the clock rather than the file, because the file's own timestamps are written and not read back.
- Local addresses and reachability of the address manager, and DNS seeding.
- Relaying, broadcasting and the remaining queries of the event loop: they do not change the peer tables.
- Peer versions: the identifier is set with the version message in one step, and messages after the handshake are not modelled.
- OnGetCFCheckpt: the index lookup of interval hashes is an input, and the locks around the cache are taken to serialize requests.
- QueueHandler: one item waits in the select at a time, as in the code; how long it waits is not modelled.
- NotificationManager: the order of redeeming against receiving notices to one client, block notices, filtered blocks and the new transaction notices are not modelled.
- Failures to marshal a notification are left out in Notifications and Rescan.
- ScanBlockChunks: a client that disconnects in the middle of a block is noticed at the next block; progress notices are left out.
- Rescans by block list and by filter.
- SelectCoins: sums of the wallet's own coins are exact, because the coins of one chain stay below 64 bits.
- Send: gathering the coins from the node and broadcasting the transaction are left out, and so is a transaction identifier that does not parse.
- SendToken: the payload's script is an input, absent when the payload does not decode or is too long.
- Search: of counts of 2^32 and more only the allocation is promised; the memory there is for results is an input, and the index is taken to stay below 2^32 bytes.
- Template generation and block submission: only the waiting for templates is modelled.
