# fauxchange service layer: verified model

A Dafny 4.11 model of the parts of the venue's service layer that carry state or
arithmetic, with proofs about every run of them. `dafny verify dfyconfig.toml` checks
the whole project.

| file | what it models |
|---|---|
| `Words.dfy`, `Collections.dfy`, `Text.dfy` | 64-bit words, sums over maps, ordered listings, trimming, splitting and decimal numbers |
| `SplitMix.dfy` | FNV-1a hashing, the SplitMix64 finaliser, keyed streams |
| `Envelope.dfy` | the committed command and outcome, cut down to what the service layer reads |
| `L2Book.dfy`, `FillAlgebra.dfy` | the price-level aggregate of one instrument as a value, and the algebra of folding fills |
| `TradePairing.dfy`, `MarketData.dfy`, `Subscription.dfy` | trade prints, messages, the mutable aggregate and the manager that folds committed events |
| `Commits.dfy` | one committed event, command by command: whom it moves, which orders leave and rest, what is enqueued |
| `Replication.dfy`, `BookRuns.dfy`, `Gateway.dfy` | runs of events, when the aggregate is exact over them, the published delta stream, the client mirror, the connection filter |
| `RateLimits.dfy`, `BucketLog.dfy` | the sliding-window limiter, and one bucket's pruned log against its whole admission history |
| `LimiterInterleaving.dfy`, `LimiterAlone.dfy`, `LimiterRace.dfy` | the limiter's locking under any interleaving, its agreement with the one-request form when a request runs alone, and a schedule on which racing decisions overspend |
| `Accounts.dfy`, `Admission.dfy` | the account registry and seeding, tickets and admission |
| `Sessions.dfy`, `Access.dfy`, `Surfaces.dfy` | the whole credential plane as one transition system, who is let in and served along its runs, and whose budget each surface charges |
| `OwnerHash.dfy`, `OwnerIds.dfy`, `HexCodec.dfy`, `OperationalTime.dfy`, `Redaction.dfy`, `Ladder.dfy` | the configuration transformations |

How it is put together. Code that updates state in place is a class or a method with
loops, and its contract ties the new state to a function of the old one (`Commit`,
`Check`, `Seed`, `Admit`, ...). What the source promises is then proved about those
functions over all inputs and all runs. A run is a sequence of events, operations or
scheduled steps of any length.

## What is proved

* **Commits.** Which instrument each command moves, which orders an outcome removes and
  rests, when an event is published and what is enqueued, each in the event's own fields.
* **Order-book index.** Over any run, each instrument's levels are exactly the sums of
  its resting orders if and only if every order comes to rest under an id not resting
  then and with a level sum that fits 64 bits (or in one coincidence that is named). The
  aggregate follows every committed outcome if and only if no command without a contract
  symbol removed an order that rested on the instrument.
* **Replication.** Sequences step by one; snapshot plus deltas gives the aggregate at
  every level except those a market maker touched after the last publication; overlap is
  harmless without market-maker events and is what the connection filter removes with
  them. When an unfiltered or depth-limited client is right is stated exactly.
* **Rate limiting.** A decision agrees with the full admission history if and only if no
  admission pruned before it is younger than the window, under every interleaving of
  requests and sweeps; the same condition is also stated in clock reads alone. Where
  decisions agree no window holds more than the limit, and they agree when they reach a
  bucket in the order of their clock reads, so on every nondecreasing clock when requests
  are taken one at a time. The retry hint is exact, the key ceiling holds under every
  interleaving, and a request that runs alone does what the one-request form says.
* **Credentials.** One account has one budget over all surfaces, as long as the decisions
  on its key agree with its history. Revocation is permanent, and what a revoked account
  still gets is exactly what its open sockets serve until their next heartbeat. A ticket
  works once and grants what its bearer would. Seeding is idempotent from any later world.
* **Streams.** The finaliser is a bijection, 2^64 consecutive draws are distinct, and two
  keyed streams agree at a draw exactly when they agree everywhere.
* **Configuration.** Owner hashes keep ASCII ids apart up to 32 bytes and any ids up to
  31, and both bounds are exact; printers and parsers are inverse; scrubbing is
  idempotent, and exactly which messages it hides literals of is proved; contract ladders
  are strictly ordered and do not depend on listing order.

## Where the code and its own comments differ

The model follows the code.

* A kill control, a venue-wide eviction and a mass cancel that is not for one book have no
  contract symbol, so `on_committed_event` returns before folding them
  (src/subscription.rs:503-509), although the comment at src/subscription.rs:328-334
  says that a kill emits the removals. Such an event leaves the aggregate right exactly
  when none of its ids rests there (`BookRuns.SweepMissedIff`, over runs
  `BookRuns.RunFollowsIff`); `BookRuns.SweptDepthLeft` gives the depth left behind.
* Resting an id that already rests overwrites the order without taking its quantity off
  its level (src/subscription.rs:147-170): `L2Book.RestAgreesIff`, over runs
  `BookRuns.RunExactIff`.
* A request reads its clock before it takes its bucket's lock (src/auth.rs:1030-1041), so
  racing requests may decide out of the order of their clock reads, and then more
  admissions than the limit can fall into one window although the clock never goes
  backwards: `LimiterRace.RacingDecisionsOverspend`. Exactly when a decision miscounts is
  `LimiterInterleaving.InterleavedDecisionAgreesIff`, and in clock reads
  `LimiterInterleaving.InterleavedMiscountsIff`.
* `keyed` separates seeds for a fixed domain and domains for a fixed seed, but not pairs:
  two pairs with the same exclusive or give the same stream (`SplitMix.KeyedCollidesIff`).
* `OperationalTime::parse` accepts a plus sign in each field, which its comment does not
  mention (`OperationalTime.SpellingIgnored`).
* Mixing the id length into an owner hash separates trailing zero bytes only modulo 256
  (`OwnerHash.LengthSeparatesIff`). From 33 bytes on distinct ids collide
  (`OwnerHash.ExchangeCollides`, `OwnerIds.LongerAsciiCollide`), and beyond ASCII from 32
  bytes on (`OwnerIds.Utf8PairCollides`).
* Scrubbing hides what literals hold exactly when a secret key is named outside quotes,
  or the literals are all empty and the last one is surely closed
  (`Redaction.HidesLiteralsIff`).
* A control frame on an open WebSocket is not checked against the revocation epoch
  (src/gateway/ws/mod.rs:600-623): a revoked admin is served until the socket's next
  heartbeat (`Access.RevokedServedIff`, `Access.RevokedAdminStillServed`,
  `Access.RevocationIsPermanent`).

## Model

| member | source | states |
|---|---|---|
| SplitMix.Fnv1a64 | src/rng.rs:64-73 | the hashing loop computes the FNV-1a fold of the bytes |
| SplitMix.FnvStepInjective | src/rng.rs:66-71 | one absorbed byte changes the hash differently for each start value and for each byte |
| SplitMix.FnvSeparatesOneByte | src/rng.rs:64-73 | two keys that differ in one byte hash alike only if that byte is the same |
| SplitMix.FnvDetermined | src/rng.rs:64-73 | undoing the prime on a longer hash and XOR-ing with the shorter one gives the last byte back, from the offset basis on: XOR first, then multiply |
| SplitMix.MixBijective | src/rng.rs:79-85 | the finaliser is a bijection on 64-bit words, with an explicit two-sided inverse |
| SplitMix.MixDetermined | src/rng.rs:79-85 | undoing the three shifts and two multipliers, by the inverses of the literal constants, gives the input back |
| SplitMix.KeyedCollidesIff | src/rng.rs:116-122 | for fixed keys two seedings collide exactly when seed and domain have the same exclusive or |
| SplitMix.KeyedInjective | src/rng.rs:116-122 | `keyed` is injective in the seed and injective in the domain |
| SplitMix.KeyedSeparatesKeys | src/rng.rs:116-122 | key tuples that differ in one place seed alike exactly when those two keys hash alike |
| SplitMix.KeyedFoldsInOrder | src/rng.rs:116-122 | the keys fold in order, each by its hash, from the mixed seed and domain |
| SplitMix.SplitMix64.NextU64 | src/rng.rs:126-131 | a call adds the increment modulo 2^64 and returns the finaliser of the new state: draw n of the stream after n draws |
| SplitMix.StateClosedForm | src/rng.rs:126-131 | after n draws the state is the seed plus n increments modulo 2^64 |
| SplitMix.DrawClosedForm | src/rng.rs:126-131 | draw n is the finaliser of the seed plus n + 1 increments modulo 2^64 |
| SplitMix.DrawsRepeatIff | src/rng.rs:126-131 | two draws of one stream are equal exactly when 2^64 divides their distance: full period, all distinct |
| SplitMix.StreamsMeetIff | src/rng.rs:126-131 | two streams agree at a draw index exactly when their seeds agree, so they differ at every index otherwise |
| SplitMix.KeyedStreamsMeetIff | src/rng.rs:116-131 | two keyed streams meet at an index exactly when their seed and domain mix to the same word |
| SplitMix.KeyByteMovesEveryDraw | src/rng.rs:116-131 | changing one byte of one key changes every draw of the stream |
| L2Book.LevelCoversOrder | src/subscription.rs:177-192 | a level in agreement covers each of its orders, so a reduction is never clamped |
| L2Book.ReductionsAgree | src/subscription.rs:177-222 | consuming and removing keep the levels an exact index of the orders |
| L2Book.RestAgreesIffFresh | src/subscription.rs:147-170 | resting keeps the index exact if and only if the id is not already resting |
| L2Book.RestAgreesIffFits | src/subscription.rs:147-170 | for a fresh id the index stays exact if and only if the level sum fits 64 bits |
| L2Book.RestAgreesIff | src/subscription.rs:147-170 | one rest keeps the index exact if and only if its id is fresh and the level sum fits, or it replaces an order at its own level and the clamped sum happens to be right |
| L2Book.AgreeingBooksEqual | src/subscription.rs:147-222 | an aggregate whose levels are exact is determined by its resting orders |
| L2Book.FoldAgrees | src/subscription.rs:238-351 | any list of effects with fresh, capped rests keeps the index exact |
| L2Book.FoldAgreesIff | src/subscription.rs:238-351 | folding effects of which only the last may rest keeps the index exact if and only if that rest is exact |
| L2Book.UntouchedUnchanged | src/subscription.rs:238-360 | a level that is not in the touched set keeps its quantity |
| FillAlgebra.ConsumedIsFold | src/subscription.rs:197-233 | folding maker fills one by one leaves each maker its remainder after the sum of its fills |
| FillAlgebra.FillOrderIrrelevant | src/subscription.rs:227-233 | on any aggregate, in agreement or not, permuting a fill list changes neither the state nor the touched set |
| FillAlgebra.EachMakerLoses | src/subscription.rs:197-213 | each maker loses the smaller of its fills' sum and what it had; nobody else loses anything |
| FillAlgebra.AddConserves | src/subscription.rs:240-266 | resting quantity after a limit add, plus consumed and removed, is the quantity before plus the new remainder |
| FillAlgebra.ReplaceConserves | src/subscription.rs:280-322 | the same balance over a replace, cancel leg included |
| TradePairing.PairTrades | src/subscription.rs:737-769 | the pairing loop emits the prints of the first-seen ids with what their legs accumulated |
| TradePairing.TradesNameCompleteMatches | src/subscription.rs:737-769 | prints name exactly the ids with both legs, once each, in first-occurrence order |
| TradePairing.WellPairedTrades | src/subscription.rs:737-769 | with one maker and one taker leg per id every id is printed with its two order ids, price and quantity |
| TradePairing.PrintsLastLegs | src/subscription.rs:737-769 | an id with both legs prints the price and quantity of its last leg, and the order ids of its last maker and last taker |
| TradePairing.FirstSeenInOrder | src/subscription.rs:737-769 | prints come in the order in which their ids first occur |
| TradePairing.TradedQuantityConserved | src/subscription.rs:737-769 | printed quantity equals the makers' total and the takers' total |
| MarketData.ChangesListTouched | src/subscription.rs:352-359 | a change list holds every touched level once, bids before asks and prices ascending, with its resulting quantity |
| Subscription.InstrumentState.RestOrder | src/subscription.rs:147-170 | the new aggregate and touched set are those of one rest effect |
| Subscription.InstrumentState.ReduceAt | src/subscription.rs:177-192 | lowers one level, clamped at zero, and drops it when empty |
| Subscription.InstrumentState.ReduceOrder | src/subscription.rs:197-213 | the new aggregate and touched set are those of one consume effect |
| Subscription.InstrumentState.RemoveOrder | src/subscription.rs:217-222 | the new aggregate and touched set are those of one remove effect |
| Subscription.InstrumentState.ConsumeMakerFills | src/subscription.rs:227-233 | folds every maker leg in order and skips taker legs |
| Subscription.InstrumentState.Apply | src/subscription.rs:238-360 | folds the effects of a committed outcome and lists every touched level with its resulting quantity |
| Subscription.InstrumentState.FoldEvent | src/subscription.rs:522-548 | assigns the next sequence only when a non-market-maker event touched the book |
| Subscription.InstrumentState.Snapshot | src/subscription.rs:365-394 | each side lists as many levels as there are up to the depth, entry i being the level with exactly i better ones, at its quantity and the current sequence |
| MarketData.BestListUnique | src/subscription.rs:365-394 | only one listing has the levels with 0, 1, 2, ... better ones up to the depth, so the snapshot's contract fixes it |
| Subscription.OrderbookSubscriptionManager.OnCommittedEvent | src/subscription.rs:502-563 | one event moves the venue by `Commit` and enqueues exactly `Messages`; symbol-less commands are not folded |
| Commits.CommitMoves | src/subscription.rs:690-702 | adds, cancels, replaces, status changes and mass cancels over one book move the instrument they name and no other; every other command moves none |
| Commits.CommitPublishes | src/subscription.rs:502-563 | an event is published iff it moved the instrument, touched a level and is not a market-maker order: then one delta with the next sequence and the touched levels as they are afterwards |
| Commits.AddedOrders | src/subscription.rs:240-266 | after a limit add makers have lost their fills, self-trade legs are gone and the remainder rests, a buy among the bids and a sell among the asks |
| Commits.ReplacedOrders | src/subscription.rs:280-322 | after a replace the old order is gone iff its cancel succeeded, and the new one is placed unless it was refused |
| Commits.OtherOutcomes | src/subscription.rs:268-351 | which orders a market order, a cancel, a mass cancel, a control and an eviction remove; nothing else removes or rests any |
| Commits.MakerLegConsumes | src/subscription.rs:197-233 | a maker leg takes its quantity off its order, which leaves when nothing remains |
| Commits.TakerLegsIgnored | src/subscription.rs:227-233 | taker legs leave every order as it is |
| Commits.CancelCommitted | src/subscription.rs:277-279 | a committed cancel takes the order and its remainder off the book and, unless it is the market maker's, sends exactly one delta with the level's new quantity |
| Commits.EventEnqueues | src/subscription.rs:511-606 | what an event enqueues, in order: the delta, then the legs of an add, market order or crossing replace and their trades, or the price of a simulation step |
| Subscription.OrderbookSubscriptionManager.OrderbookSnapshot | src/subscription.rs:480-492 | the snapshot of an instrument, or the empty one at sequence zero |
| Subscription.OrderbookSubscriptionManager.EmitFillsAndTrades | src/subscription.rs:567-606 | enqueues one print per leg and then the paired trades, when the underlying is known |
| Commits.LegPrinted | src/subscription.rs:567-606 | print i carries leg i's execution id, liquidity, side, quantity and price, under the event's sequence and time |
| Replication.RunRefinesOrderMap | src/subscription.rs:147-360 | over every admissible run the levels are exactly the sums of the plain order map, with no empty level and no spent order |
| BookRuns.EventAgreesIff | src/subscription.rs:502-563 | a committed event keeps the index exact if and only if what it rests on this instrument is exact |
| BookRuns.RunExactIff | src/subscription.rs:147-360 | over any run of any length and quantities the index stays exact if and only if every order that comes to rest does so exactly |
| BookRuns.SweepMissedIff | src/subscription.rs:503-509 | after a symbol-less removing event the aggregate is the folded book if and only if none of the removed ids rests there |
| BookRuns.SweptDepthLeft | src/subscription.rs:503-509 | such an event leaves too much at each level by exactly the resting quantity of the orders it removed there |
| BookRuns.RunFollowsIff | src/subscription.rs:502-563 | over any run the aggregate follows every outcome if and only if no symbol-less event removed an order resting on the instrument |
| BookRuns.SweptDepthStays | src/subscription.rs:328-344 | a kill, an eviction and a mass cancel over an underlying each leave a resting order's depth shown |
| Replication.SentCarriesStream | src/subscription.rs:502-563 | the deltas among all enqueued messages are exactly the instrument's published stream |
| Replication.StreamIsGapFree | src/subscription.rs:529-548 | deltas are numbered consecutively from the sequence before the run to the one after it |
| Replication.SnapshotIsFaithful | src/subscription.rs:365-394 | loading a full snapshot shows exactly the aggregate |
| Replication.SnapshotShows | src/subscription.rs:365-394 | loading a snapshot shows exactly the levels with fewer better ones than the depth |
| Replication.SnapshotBestFirst | src/subscription.rs:365-394 | each side is listed best first and a depth limit keeps a prefix of the full listing |
| Replication.StreamShowsLastPublication | src/subscription.rs:352-359 | after a stream a mirror shows each level as it was at its last publication |
| Replication.SnapshotThenDeltas | src/subscription.rs:502-563 | snapshot plus deltas agrees at every level no market-maker event touched after its last publication |
| Replication.CutClientIff | src/subscription.rs:502-563 | a depth-limited client is right at a level without later market-maker events if and only if it was published since, was among the depth or was empty |
| Replication.OverlapConverges | src/subscription.rs:529-559 | without market-maker events an overlapping stream leaves the mirror equal to the aggregate |
| Replication.CatchUpToleratesOverlap | src/subscription.rs:529-559 | a contiguous part of the stream starting at or before the snapshot's sequence plus one gives exactly the final aggregate |
| Gateway.Connection.SubscribeOrderbook | src/gateway/ws/mod.rs:642-675 | subscribing sends a snapshot and starts the baseline at its sequence, unless the subscription cap is reached |
| Gateway.Connection.Filter | src/gateway/ws/mod.rs:857-875 | forwards subscribed messages, and deltas only above the rising baseline |
| Gateway.ForwardsWhen | src/gateway/ws/mod.rs:857-996 | which subscription forwards each kind of message, deltas only above the baseline, and how the baseline moves |
| Gateway.FilterForwardsUncovered | src/gateway/ws/mod.rs:857-875 | of everything enqueued the connection forwards exactly the deltas its snapshot does not cover |
| Gateway.GatewayClientConverges | src/gateway/ws/mod.rs:642-875 | whatever else the connection is subscribed to, the mirror behind the gateway agrees at every level no market-maker event touched after its last publication |
| Gateway.UnfilteredOverlapIff | src/gateway/ws/mod.rs:865-873 | without the filter a level is right if and only if its quantity at its last publication in the overlapping stream is still current |
| Gateway.UnfilteredOverlapCanRegress | src/gateway/ws/mod.rs:865-873 | an instance: a delta the snapshot covers puts back the quantity from before a market-maker update |
| RateLimits.RateLimiter.DecideBucket | src/auth.rs:1084-1129 | pruning and deciding one log gives the specified decision and log |
| RateLimits.RateLimiter.CheckAndRecordStatus | src/auth.rs:1029-1073 | one request gives the specified decision and tracked logs: tracked key, new key, sweep, capacity refusal |
| RateLimits.RateLimiter.SweepExpired | src/auth.rs:1147-1156 | a sweep drops expired and future times and every key left empty |
| RateLimits.RunRefines | src/auth.rs:1029-1156 | one request at a time, on a nondecreasing clock, every run keeps the logs in agreement with the history and the key count under the ceiling |
| RateLimits.DecisionFollowsHistory | src/auth.rs:1029-1129 | a request is admitted exactly when fewer than the limit of past admissions are younger than the window, or refused when new at a ceiling of live keys |
| RateLimits.WhoseBudget | src/auth.rs:999-1005 | a peer and a reader have the read budget, a trader the trade budget, an admin the admin budget: the limit advertised and the one that admits |
| RateLimits.DecisionAdvertises | src/auth.rs:1084-1129 | the advertised reset is one window after the oldest young admission, or after now, and the retry hint is the time to it |
| RateLimits.RetryHintExact | src/auth.rs:1099-1129 | after a denial every retry before the advertised reset is denied and one is admitted exactly from the reset on |
| BucketLog.DecisionAgreesIff | src/auth.rs:1084-1129 | a decision counts the history exactly if and only if no admission pruned before is younger than the window |
| BucketLog.MiscountsIff | src/auth.rs:1084-1156 | a decision counts too few exactly when an admission in its window was since reached by an operation whose clock read was a whole window past it, or by a sweep whose read was before it |
| BucketLog.AgreeingBudgeted | src/auth.rs:1084-1156 | as long as decisions agree with the history no half-open interval of one window holds more admissions than the limit |
| BucketLog.InOrderAgrees | src/auth.rs:1084-1156 | decisions and sweeps that reach a bucket in clock order all agree with the history |
| BucketLog.MonotoneInOrder | src/auth.rs:1029-1156 | requests and sweeps taken one at a time on a nondecreasing clock reach every bucket in clock order |
| BucketLog.BudgetHolds | src/auth.rs:1029-1156 | over every run in which a key's bucket is reached in clock order no half-open interval of one window holds more than its limit |
| BucketLog.MonotoneClockRun | src/auth.rs:1029-1156 | one request at a time on a nondecreasing clock from the empty limiter: every next decision follows the history, no window exceeds the limit, the keys stay within the ceiling |
| LimiterInterleaving.CeilingHolds | src/auth.rs:1029-1073 | under every schedule the tracked keys stay within the ceiling, buckets within their limits, and no tracked key is refused for capacity |
| LimiterInterleaving.GateIsReleased | src/auth.rs:1043-1073 | the gate holder can always move and each of its moves brings the release nearer |
| LimiterInterleaving.ScheduleFollowsTrace | src/auth.rs:1029-1156 | under any schedule what a key is admitted and its log are what its bucket's decisions and sweeps make them |
| LimiterAlone.AloneIsSequential | src/auth.rs:1029-1073 | a request whose thread runs alone leaves exactly the logs one sequential request leaves, the gate free and every other thread where it was |
| LimiterInterleaving.InterleavedDecisionAgreesIff | src/auth.rs:1029-1129 | after any schedule a decision counts the history exactly if and only if no admission pruned before is younger than the window |
| LimiterInterleaving.InterleavedMiscountsIff | src/auth.rs:1029-1156 | the same condition in clock reads after any schedule |
| LimiterInterleaving.InterleavedBudget | src/auth.rs:1029-1156 | on every schedule whose decisions for a key agree with its history no window holds more of its admissions than the limit |
| LimiterInterleaving.InterleavedBudgetInOrder | src/auth.rs:1029-1156 | in particular on every schedule where a key's decisions and sweeps happen in the order of their clock reads |
| LimiterRace.RacingDecisionsOverspend | src/auth.rs:1030-1041 | a schedule from the empty limiter, on a clock that never goes backwards, that admits three in one window at limit two |
| Accounts.TierDecidesPermission | src/auth.rs:166-172 | a non-empty permission set grants exactly what its highest permission grants |
| Accounts.GrantsWhen | src/auth.rs:166-172 | admin is granted to admins, trade to traders and admins, read to any non-empty permission set |
| Accounts.AccountRegistry.InsertAccount | src/auth.rs:1727-1752 | inserts into both indices, or refuses reserved and duplicate identities leaving the registry unchanged |
| Accounts.InsertsIff | src/auth.rs:1727-1752 | an account is accepted iff neither its id nor its owner is the market maker's and neither its id nor its username is taken; which refusal otherwise, and both indices afterwards |
| Accounts.AccountRegistry.ProvisionAccount | src/auth.rs:1681-1711 | hashes the password first, then inserts at epoch zero |
| Accounts.ProvisionStores | src/auth.rs:1681-1711 | a provisioned account has the fields provisioned, epoch zero, and a password hash only when a password was given |
| Accounts.AccountRegistry.RevokeAccount | src/auth.rs:1894-1904 | bumps the epoch of a known account, pinned at the top of the word |
| Accounts.RevokeRaises | src/auth.rs:1894-1904 | the epoch of the one account rises by one, stopping at the largest word; nothing else changes |
| Accounts.MintsIff | src/auth.rs:1777-1813 | a mint succeeds iff the presented text is the gate's secret, the account is known at epoch zero, the expiry fits and signing succeeds; its claims are the account's |
| Accounts.AccountRegistry.VerifyPassword | src/auth.rs:1846-1891 | accepts on the stored hash of the account with that username and stores a rehash when asked |
| Accounts.VerifyStores | src/auth.rs:1846-1891 | a rejected login changes nothing, an accepted one at most the stored hash of that account, to the rehash asked for |
| Accounts.AccountRegistry.AccountByFixUsername | src/auth.rs:1841-1844 | finds the account that holds a username, and none only when none does |
| Accounts.VerifyAcceptsIff | src/auth.rs:1846-1891 | a password check accepts exactly for the account that holds the username and a hash the hasher accepts, whatever its epoch |
| Accounts.RegistryRunKeeps | src/auth.rs:1727-1904 | every run keeps the two indices inverse and only grows: nothing reassigned, permissions fixed, epochs never falling |
| Accounts.ReachableCoherent | src/auth.rs:1727-1752 | in every reachable registry the indices are mutually inverse and no reserved identity appears |
| Accounts.ProvisionSeedAccounts | src/seed.rs:193-221 | the seeding loop gives the specified registry and counts, or the error of the first failing provision |
| Accounts.SeedingCounts | src/seed.rs:193-221 | the two counts split the provisions and the first is the number of accounts added |
| Accounts.SeedingAddsNamed | src/seed.rs:193-221 | afterwards the accounts are those from before and those named |
| Accounts.SeededAsNamed | src/seed.rs:193-221 | a seeding succeeds only if every account it names then has the permissions and the username named |
| Accounts.SeedingIdempotent | src/seed.rs:193-221 | seeding again from any later registry changes nothing and returns (0, n) |
| Accounts.SeedingStopsAt | src/seed.rs:193-221 | a failing seeding keeps exactly what came before the failing provision, and it is a conflict iff that account exists at another shape |
| Admission.WsTicketStore.MintTicket | src/auth.rs:1957-1984 | sweeps, refuses at the ceiling, otherwise stores a ticket that expires after 30 seconds |
| Admission.MintStores | src/auth.rs:1957-1984 | what a mint keeps, drops and stores, ticket by ticket, and when its expiry overflows |
| Admission.WsTicketStore.RedeemTicket | src/auth.rs:1989-1996 | removes the ticket and yields its claims only when it has not expired |
| Admission.RedeemTakesOne | src/auth.rs:1989-1996 | redeeming removes exactly the presented ticket and yields its claims iff its time has not come |
| Admission.MintBounded | src/auth.rs:1957-1984 | the store never passes its ceiling and refuses for it exactly when that many unexpired tickets are out |
| Admission.AuthService.AdmitBearer | src/auth.rs:2145-2216 | the bearer decision: charge first, then token, epoch and permission |
| Admission.HealthIsExempt | src/auth.rs:2145-2216 | exactly the health path is exempt, and it is charged to nobody |
| Admission.AuthService.AdmitWsTicket | src/auth.rs:2249-2302 | the ticket decision: redeem once, charge, then token expiry and epoch |
| Admission.AuthService.RevalidateSession | src/auth.rs:2323-2331 | a session goes on iff its token has not expired and its account is known at the epoch of the token |
| Sessions.OneKeyPerAccount | src/auth.rs:2161-2171 | in every reachable world each surface charges an account's request to that account's one key |
| Surfaces.ChargedTo | src/auth.rs:2145-2302 | whom each request is charged to: the account behind a token, live ticket, socket or FIX session, otherwise the peer, under the account's strongest permission |
| Sessions.WorldRunKeeps | src/auth.rs:1727-2331 | every possible run keeps the registry coherent, credentials and tickets traceable to minted claims, and tallies equal to the limiter's |
| Access.OneAccountOneBudget | src/auth.rs:843-851 | over bearer, ticket, socket and FIX requests together no window holds more than the tier's limit, whenever the decisions on the account's key agree with its history |
| Access.OneAccountOneBudgetInOrder | src/auth.rs:843-851 | in particular when they reach the account's bucket in the order of their clock reads |
| Surfaces.OwnBudget | src/auth.rs:999-1005 | the same bound in the configured fields: admin, trade or read budget by the account's strongest permission |
| Access.BearerAdmittedIff | src/auth.rs:2145-2216 | in reachable worlds a bearer is admitted iff the limiter allows, the token verifies, the account was never revoked and its tier covers the permission |
| Access.BearerRefusedWhy | src/auth.rs:2173-2213 | a refusal is throttled, unauthorized or forbidden exactly by the first check that fails: limiter, token and revocation, tier |
| Surfaces.BearerNeeds | src/auth.rs:2145-2216 | which permissions let a bearer through for read, trade and admin requests |
| Access.ChargedEvenWhenRefused | src/auth.rs:2173-2181 | every bearer request and handshake leaves the limiter as one charged request would, let in or not |
| Access.HandshakeAdmittedIff | src/auth.rs:2249-2302 | in reachable worlds a ticket is admitted iff it is out, unexpired, its token unexpired, the limiter allows and the account was never revoked |
| Surfaces.HandshakeRefusedWhy | src/auth.rs:2249-2302 | a dead ticket is unauthorized whatever the limiter says; behind a live one the limiter comes first, then token expiry and revocation |
| Access.TicketStandsForBearer | src/auth.rs:2221-2248 | a live ticket gets the same answer and the same charge as the bearer it was drawn for |
| Access.ControlServedIff | src/gateway/ws/mod.rs:600-623 | in reachable worlds a control frame is served iff the limiter allows it and the socket's account is an admin's, revoked or not |
| Access.RevokedServedIff | src/gateway/ws/mod.rs:600-675 | a revoked account is served exactly subscriptions and, if an admin's and within budget, control frames on sockets it has open |
| Access.RevokedSessionEnds | src/auth.rs:2323-2331 | revalidation fails for every session of a revoked account |
| Surfaces.SessionGoesOnIff | src/auth.rs:2323-2331 | in reachable worlds a session of a minted token goes on iff the token has not expired and its account was never revoked |
| Surfaces.HeartbeatKeepsIff | src/gateway/ws/mod.rs:335-344 | a heartbeat keeps its socket iff the token has not expired and the account was never revoked, and touches no other socket |
| Surfaces.SocketsOpenAndClose | src/gateway/ws/mod.rs:147-345 | a socket opens for the claims admitted when a slot is free, and is gone once closed; only these and heartbeats change which are open |
| Surfaces.TicketsOut | src/auth.rs:1957-1996 | a request for a ticket that is let in puts the drawn one out for 30 seconds unless 65536 others are live; a handshake takes the presented one back; nothing else changes them |
| Access.RevocationIsPermanent | src/gateway/ws/mod.rs:335-344 | from a revoke on, however the run goes on: served exactly on the sockets open at the revoke without heartbeat or close since, and nothing after one heartbeat of each |
| Access.RevokedAdminStillServed | src/gateway/ws/mod.rs:787-803 | a reachable run in which a revoked admin is served a control frame on an open socket |
| Access.LogonOpensIff | src/gateway/fix/fsm.rs:2056-2092 | a FIX logon opens a session for an account exactly when username, stored hash, zero epoch and comp ids all match |
| Surfaces.LogonLeavesSession | src/gateway/fix/fsm.rs:2056-2092 | a logon the limiter lets through leaves the session it opens, and no other, and stores the rehash its password check asks for |
| Surfaces.FixOrderServedIff | src/gateway/fix/fsm.rs:1984-1995 | a FIX order is taken iff the session's account was never revoked |
| Access.TicketWorksOnce | src/auth.rs:1989-1996 | a presented ticket never admits again, however the run goes on |
| Access.TicketIsBound | src/auth.rs:1957-1996 | however the run goes on, a handshake a ticket wins is for the claims it was drawn for and within 30 seconds |
| Access.ReseedingAnywhere | src/seed.rs:193-221 | in every world reachable after a successful seeding, seeding again changes nothing |
| OwnerHash.DeriveOwner | src/config.rs:2793-2806 | the in-place fold and stir compute the specified owner |
| OwnerHash.RecoveredFromOwner | src/config.rs:2793-2806 | an explicit left inverse recovers every id of at most 31 bytes |
| OwnerHash.OwnerOfShort | src/config.rs:2793-2806 | each byte of the owner of an id of at most 32 bytes in closed form: the id's byte times a power of two modulo 255, with position and length mixed in |
| OwnerHash.OwnersDistinct | src/config.rs:2793-2806 | distinct ids of at most 31 bytes have distinct owners, none the market maker's |
| OwnerHash.ThirtyTwoCollidesIff | src/config.rs:2793-2806 | an id of 32 bytes shares an owner with another id of any length exactly when it is that id's disguise, and with none of 32 bytes but itself |
| OwnerIds.AsciiOwnersDistinct | src/config.rs:2793-2806 | distinct ASCII ids of at most 32 bytes have distinct owners, none the market maker's |
| OwnerIds.LongerAsciiCollide | src/config.rs:2793-2806 | of every length above 32 there are two distinct ASCII ids with one owner |
| OwnerIds.Utf8PairCollides | src/config.rs:2793-2806 | two well-formed UTF-8 ids of 31 and 32 bytes share an owner |
| OwnerHash.LengthSeparatesIff | src/config.rs:2799-2804 | trailing zero bytes change the owner exactly unless their number is a multiple of 256 |
| OwnerHash.ExchangeCollides | src/config.rs:2793-2806 | exchanging two bytes 32 apart never changes the owner |
| HexCodec.HexEncodeLower | src/auth.rs:2015-2024 | the printing loop gives two lower-case digits per byte, high half first |
| HexCodec.ParseOwnerHex | src/config.rs:2762-2785 | the parsing loop fills 32 bytes from 64 digits after trimming, or refuses |
| HexCodec.ParsesIff | src/config.rs:2762-2785 | a text parses to given bytes iff, trimmed and lowered, it is what those bytes print as |
| HexCodec.OwnerPaddingIgnored | src/config.rs:2762-2785 | white space around an owner literal changes nothing |
| Text.WhitespaceIs | src/config.rs:2762-2785 | which characters are trimmed: those Unicode calls white space |
| HexCodec.ParseAfterPrint | src/auth.rs:2015-2024 | printing and parsing back is the identity on 32 bytes |
| HexCodec.PrintAfterParse | src/config.rs:2762-2785 | whatever parses prints as its trimmed, lowered self, and nothing but 64 hex digits parses |
| OperationalTime.FromHmsIff | src/config.rs:822-829 | `from_hms` gives a time exactly when the triple is its hour, minute and second: a bijection onto the 86400 times of day |
| OperationalTime.ParseAfterDisplay | src/config.rs:834-858 | parsing the display form is the identity on all times of day |
| OperationalTime.DisplayDigits | src/config.rs:853-858 | the printed form digit by digit: hours, minutes and seconds, each in two places |
| OperationalTime.ParsesIff | src/config.rs:834-843 | a text parses to a time iff it has three fields that are its hour, minute and second |
| OperationalTime.SpellingIgnored | src/config.rs:834-843 | leading zeros and a plus sign do not change a field's number |
| OperationalTime.TimePaddingIgnored | src/config.rs:834-843 | white space around a time changes nothing |
| Text.DigitAppended | src/config.rs:834-843 | a field's number is read digit by digit in base ten and refused from 2^32 on |
| Text.NotANumber | src/config.rs:834-843 | a field with anything but digits, after at most one leading plus sign, is refused, and so is an empty one |
| Redaction.ScrubSecretLiterals | src/config.rs:1620-1646 | the scrubbing loop renders the message's shape when a secret key is named, else returns it |
| Redaction.NamesSecretIff | src/config.rs:1549-1625 | a message is scrubbed iff one of the four key names occurs in it in any letter case |
| Text.LowerIs | src/config.rs:1621 | letter case is folded for the 26 ASCII letters and for no other character |
| Redaction.NamedLiteralScrubbed | src/config.rs:1620-1646 | a key name outside quotes takes the contents of the literal after it away |
| Redaction.ScrubIdempotent | src/config.rs:1620-1646 | scrubbing twice is scrubbing once |
| Redaction.ScrubKeepsShape | src/config.rs:1620-1646 | all text outside quotes, the places of the literals and which are empty survive |
| Redaction.ScrubBalancesQuotes | src/config.rs:1620-1646 | a scrubbed message has balanced quotes, unterminated literals included |
| Redaction.NothingLeftInQuotes | src/config.rs:1620-1646 | between the quotes of a scrubbed message stands the placeholder or nothing |
| Redaction.ScrubNoninterference | src/config.rs:1615-1646 | messages alike outside quotes that name a key there scrub alike, and named messages scrub alike only then |
| Redaction.HidesLiteralsIff | src/config.rs:1615-1646 | all messages of one shape scrub alike if and only if the shape names a secret key outside quotes or belongs to one message only |
| Ladder.ResolveStyles | src/config.rs:2944-2979 | styles resolve to call before put, each asked for by one of its two names in any letter case, or both when none are listed; refused iff the list is empty or some name is none of the four |
| Ladder.ResolveInstrument | src/config.rs:2811-2897 | resolves exactly the acceptable instruments to their canonical set, and blames a real fault otherwise |
| Ladder.ResolvableIff | src/config.rs:2811-2897 | what makes an instrument acceptable, in its own fields and spellings |
| Ladder.FirstFaultBlamed | src/config.rs:2811-2897 | which fault is blamed, in the order the checks come |
| Ladder.SortDedupIsAscending | src/config.rs:2881-2882 | sorting and dropping repeats lists the distinct expirations once each in order |
| Ladder.CanonicalIsLadder | src/config.rs:2886-2897 | contracts are strictly ordered by expiration, strike and call before put, exactly all combinations, and as many as the product |
| Ladder.CanonicalSpelled | src/config.rs:2881-2979 | a contract is in the ladder iff some listed expiry reads as its expiration, its strike is listed and its style is named |
| Ladder.ListingOrderIrrelevant | src/config.rs:2811-2979 | permuting expirations, strikes or styles changes neither acceptance nor the resolved set |

## Left out

* The matching engine, the actor, the journal, replay, the market maker and the FIX session machine beyond its logon gate and its per-order rate limit: not part of this model.
* Signing and verifying tokens, Argon2 and the random generator: a token is the claims it was minted with, hashing and verification are parameters, a drawn ticket string is new.
* HTTP and WebSocket transport, the bounded broadcast ring with its lagging receivers (everything sent is kept), the connection semaphore and the seed-phase settle polling.
* Floating-point draws in src/rng.rs (`next_unit`, `next_open_unit`, `standard_normal`).
* `error.rs`, the DTO shape checks in `models.rs` (only the order-size cap is used), `main.rs`, `lib.rs`, `ohlc.rs`, benchmarks: tables and wiring.
* TOML, environment and command-line reading, layer overlay, `line_col`, persona float ranges, `parse_expiry_lifecycle`: would add only easy members.
* The symbol and expiry grammars: `Ladder` takes an expiry parser and a contract check as parameters, and an expiry is its date key.
* What an open socket is sent on its own: the broadcast it forwards is `Gateway`, and `Access` counts only what a client asks for on it.
* FIX logon checks that do not touch credentials (heartbeat interval, session lease).
* The manager keeps its aggregates as values and lends one to an `InstrumentState` per event, so locking between concurrent commits of one manager is not modelled.
- Replication.RunRefinesOrderMap: is stated for runs short enough that capped quantities cannot add up past 64 bits, because one order per event at the cap is then below the clamp; `BookRuns.RunExactIff` has neither bound nor cap.
- RateLimits.RunRefines: takes each request as one atomic step; `LimiterInterleaving` has the interleaved steps and states agreement with the history for them, and `LimiterAlone.AloneIsSequential` ties the two together.
- Access.OneAccountOneBudget: takes each request of the credential plane as one atomic step, so a revoke that lands between a request's admission and its handler is not modelled.
- LimiterInterleaving.CeilingHolds: a bucket is pruned and decided in one step under its shard lock, as in the source.
- Ladder.ResolveInstrument: two expirations with one date key are one expiration, because the grammar fixes the instant within a date.
