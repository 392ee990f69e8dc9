# mobydig: the digging and verification pipeline

mobydig digs up the DNS names of containers and services on the Docker networks of a container, resolves them,
pings the addresses found, and shows names, addresses and verdicts grouped by network. This project models the
logic of that pipeline in Dafny and proves what it promises.

| module | what it models |
|---|---|
| `Types` | qualities, qualified and named addresses |
| `AddrCache` | the deduplicating address cache as a class, and `Updated`, the function one update computes |
| `CacheHistory`, `CacheInformed` | the cache over arbitrary sequences of updates, and exactly when everybody waiting is informed |
| `AddrMap` | the table of names as a class, and `Tracked`, the table a whole stream of messages amounts to |
| `DocumentedMap` | the update rule the table's documentation gives, compared with the code's |
| `Pipeline` | the goroutines of the verifier and its pinger as a state machine, one action per step of one goroutine, with bounded channels, the cache's mutex and cancellation |
| `PipelineBase` | invariants of all runs, a bound on the length of runs, freedom from deadlock, cancellation |
| `PipelineSync`, `PipelineTheorems` | uncancelled runs: cache and news stay in step, the shutdown order, the jobs and their verdicts, the length of the news |
| `PipelineTable`, `PipelineLost` | the table an uncancelled run ends with: exactly when the cache is transparent, and a run in which it is not |
| `PipelineStream`, `PipelineTruth` | all runs: monotone news, announcements before results, and where verdicts come from |
| `PipelineFlow`, `PipelineJobs` | all runs: how full channels and pool get, who blocks without a reader, how much of each update was sent; and what becomes of each address |
| `PipelineDrive`, `PipelinePanic` | all runs: steering a run to an input item, and exactly when a send can hit the closed news channel |
| `Ping` | the pinger as a class and the arithmetic of its threshold |
| `DnsPool`, `PoolRuns` | the DNS connection pool as a class, name resolution, and concurrent runs of pool tasks |
| `Digging`, `Digger`, `DiggerProgress` | the digger as a class with its tasks run in turn, and as a state machine with concurrent tasks |
| `Joint`, `JointProgress` | digger and verifier at work together over their bounded channel, with the verifier's cancellation |
| `Names` | building FQDNs from networks and taking them apart |
| `Sorting`, `Display` | sorting in place, and grouping the table's names by network |
| `EndToEnd` | networks, joint runs, table and display plumbed together |

A run is a finite sequence of actions, each enabled in the state it is taken in. Statements about "every run"
quantify over all such sequences, so over all interleavings, all verdicts of the ping oracle and all buffer and
pool sizes of at least one. `cancelled` says whether the context was done at some point of the run.

Statements about safety hold of every input; where an input may not come with verdicts of its own, the statement says
so: `Pipeline.VerdictsFirst` allows them for addresses that are new, `Pipeline.ValidConfig` not at all, which is what
the cache's comment assumes (`verifier/addrcache.go:54-56`) and what the digger sends.

`PipelineTable.CacheIsTransparentExactly` and `PipelineTable.TransparentExactlyUnmissed` are the central results: they
say exactly when the table made from the verifier's complete news is the one made from pinging every name's every
address separately, whatever the interleaving; for inputs without verdicts it always is
(`PipelineTable.CacheIsTransparent`). What is sent about a pair is governed by `CacheInformed.Missed`: a verdict that
raised the address did not find the name waiting, and the name was not presented again. The same `Updated`
function specifies the cache's class and is what the state machine does when a goroutine takes the mutex; the
history of these calls (`calls`) makes every concurrent run a sequence of updates to which `CacheHistory` applies.

The functions that say what happens in one step, about which the lemmas below speak, follow the source like this:
`AddrCache.Updated` is `verifier/addrcache.go:45-126`; `Pipeline.InputStep` is `Verify`'s own loop and shutdown with the
first half of `validate` (`verifier/verifier.go:71-106`, `ping/ping.go:223-234`); `Pipeline.VerdictStep` is the goroutine
that reads verdicts (`verifier/verifier.go:51-65`); `Pipeline.WorkerStep` is a validation job (`ping/ping.go:234-303`);
`PoolRuns.Apply` is a pool task and the stop (`dnsworker/dnsworker.go:164-193`); `Digger.Apply` is the digging loop, the
resolver callbacks and the stop (`dig/dig.go:64-106`); `AddrMap.Merged` is `dig/addrmap.go:58-90`; `Names.GroupAndLabel`
is `cmd/mobydig/display.go:141-147`.

## Where the code does something else than one might expect

The model follows the code. In these places its documentation or a first reading suggests something different:

- The pinger's documentation (`ping/ping.go:179-181`) compares percentages; the code rounds the required number of
  replies down. The two agree for every number of replies exactly if `count * threshold` is a multiple of 100
  (`Ping.DocumentedExactlyWithoutRemainder`); with the defaults one reply in three passes for 50 percent
  (`Ping.DefaultsAreLenient`).
- A final verdict clears the cache's list of waiting names, so of a second, better verdict the names that were on it
  hear nothing (`CacheInformed.SecondVerdictIsMissed`). For any sequence of updates everybody is informed at all times
  exactly if every verdict that raises a known address comes from a name presented for it before, and after every name
  ever presented for the address was presented again since the last such verdict
  (`CacheInformed.AlwaysInformedExactly`). The verifier never has two verdicts of its own on one address
  (`PipelineTheorems.TwoPhases`).
- The cache assumes that addresses arrive without verdicts. A verdict on a new address does no harm beyond its being
  told to every name of the address (`PipelineTable.CacheIsTransparentExactly`); a verdict on a known address can lose
  the name it comes with (`PipelineLost.LateVerdictLosesName`). In any run on any input a pair stands in the table with
  the best quality of its address exactly if it was not missed (`PipelineTable.BestExactlyUnmissed`).
- Under a done context `Verify` closes the news without waiting for its verdict loop, which may still be about to
  send. Such a run exists exactly if some address first comes in a quality that its ping or a later item can improve:
  not final, or invalid while the ping or another item says verified (`PipelinePanic.PanicExactlyIfImprovable`).
  Without verdicts on the input that is, if the input has an address at all (`PipelinePanic.PanicExactlyWithAddresses`).
  Only cancelled runs are affected (`PipelinePanic.PanicNeedsCancellation`).
- The table's documentation (`dig/addrmap.go:53-57`) lists two changes of a known quality; the code raises any lower
  quality to a higher one, for instance invalid to verified (`DocumentedMap.InvalidIsRaised`). The two differ exactly
  for a message that takes an address from unverified to a verdict or from invalid to verified
  (`DocumentedMap.DepartsExactlyWhenSkipping`, `DocumentedMap.DocumentedExactlyWithoutSkips`), and the verifier's news
  has no such message (`PipelineTable.NewsMakesDocumentedTable`).
- `ResolveName` can hand addresses and an error to its callback together (`DnsPool.PartialResults`).
- The digger's `StopWait` closes the news channel (`Digging.NameDigger.StopWait`; `Digger.InvStep`, by which the channel
  is closed exactly in the last state), which its `New` says never happens (`dig/dig.go:29-30`).
- `DigAndReport` runs the verifier under the context it is given and the digger under one that is never done
  (`cmd/mobydig/digging.go:87-100`). The command passes it such a context as well (`cmd/mobydig/cmdroot.go:46`); with one
  that can be cancelled, the digger can be left blocked for ever exactly if it has more to send than its channel can
  buffer (`JointProgress.LeftBehindExactly`).
- The renderer leaves the first group out of its list of networks as the unnamed one. It is the unnamed one exactly if
  some name is on no network (`Display.UnnamedGroupComesFirst`). The complete table of a digger has such names if it
  has any (`EndToEnd.DisplayedNetworks`), but the flat names are announced last, so a rendering before that can leave
  out a network (`EndToEnd.EarlyDisplayLacksUnnamedGroup`).
- Appending the root dot is not idempotent for a name that ends in an odd number of backslashes
  (`Names.QualifyingTwice`); the digger appends it twice, before and while resolving.

## Model

| member | source | states |
|---|---|---|
| Types.QualifiedAddress.WithNewQuality | types/addr.go:43-86 | the copy keeps the kind of address, its name and its address, and has the new quality |
| AddrCache.Outlet.Offer | verifier/addrcache.go:61-64 | a send in a select with the done context is lost only if the context is done |
| AddrCache.NamedAddressCache.Update | verifier/addrcache.go:45-126 | the cache changes as specified whatever happens to the messages; uncancelled, exactly the specified messages are sent, in order; cancelled, a prefix of them |
| CacheHistory.CachedQualityIsMaximum | verifier/addrcache.go:77-92 | after any sequence of updates the cache knows exactly the presented addresses, each with the highest quality ever presented for it |
| CacheHistory.MessagesCarryCachedQuality | verifier/addrcache.go:61-124 | every message of an update is about the presented address and carries the quality cached at that moment |
| CacheHistory.DeliveredIsMonotone | verifier/addrcache.go:61-124 | for any sequence of updates and any messages lost to a done context, the qualities sent about one address never decrease and never exceed the cached one |
| CacheHistory.StreamIsDeliveredInFull | verifier/addrcache.go:61-124 | losing nothing is the special case that the other theorems call the stream |
| CacheHistory.NewExactlyOncePerAddress | verifier/addrcache.go:37-66 | an update returns true exactly if no earlier update presented its address |
| CacheHistory.WaitingNames | verifier/addrcache.go:77-110 | after any sequence of updates waiting names are distinct and were presented; while there is no final verdict every presented name is waiting |
| CacheInformed.UpdateInformsExactly | verifier/addrcache.go:77-124 | any update keeps every presented pair last told the cached quality, except exactly a verdict that raises a known address while a name presented for it, or the sender, is not on the waiting list |
| CacheInformed.WaitsExactly | verifier/addrcache.go:77-110 | a name waits for news about an address exactly if it was presented for it since the last verdict that raised it |
| CacheInformed.WaitingOrder | verifier/addrcache.go:77-110 | names wait in the order in which they were first presented since the last raising verdict: any presentation of a later one since then has one of each earlier one before it |
| CacheInformed.VerdictTellsInOrder | verifier/addrcache.go:101-124 | a raising verdict sends its messages in that order |
| CacheInformed.AlwaysInformedExactly | verifier/addrcache.go:37-124 | for any sequence of updates every presented pair is at all times last told the cached quality exactly if each raising verdict finds every name ever presented for the address, and its sender, presented since the last one |
| CacheInformed.PairInformedExactly | verifier/addrcache.go:77-124 | for any sequence of updates a pair ends up last told the cached quality, or nothing if never presented, exactly if no raising verdict missed it without its being presented again |
| CacheInformed.SecondVerdictIsMissed | verifier/addrcache.go:104-110 | concrete updates after which a name last heard Invalid while Verified is cached |
| CacheInformed.EveryPairIsInformed | verifier/addrcache.go:70-124 | if each verdict is the only one on its address and carries a presented name, the last message about every presented pair carries the cached quality, and no other pair is mentioned |
| CacheHistory.FewMessagesPerPair | verifier/addrcache.go:77-110 | if each verdict is the only one on its address and carries a presented name, a pair hears both verdicts together at most twice |
| CacheHistory.MessagesPerQuality | verifier/addrcache.go:77-110 | for any sequence of updates a pair hears each non-final quality at most once and each verdict at most twice |
| CacheHistory.StreamIsBounded | verifier/addrcache.go:77-124 | all messages together number at most six times the distinct pairs, however often these are presented, and under that condition at most four times |
| AddrMap.NamedAddressesMap.Update | dig/addrmap.go:58-90 | the table afterwards is the specified merge of the table before and the named address; nothing happens for nil |
| AddrMap.NamedAddressesMap.Track | dig/addrmap.go:92-107 | the table is the fold of what was consumed: all of the stream, or a prefix if the context is done |
| AddrMap.NamedAddressesMap.Get | dig/addrmap.go:31-43 | exactly one set for each name of the table, with that name's addresses |
| AddrMap.TableOrder | dig/addrmap.go:58-90 | after any stream a name has an entry exactly if it is mentioned, and its addresses are distinct and in the order of their first mention |
| AddrMap.FirstSeenInOrder | dig/addrmap.go:67-89 | that order: in front of any mention of an address for a name there is one of every address that precedes it |
| AddrMap.TableIsStrongest | dig/addrmap.go:58-90 | after any stream the table holds an address with a quality for a name exactly if that is the highest quality the stream mentions for the pair |
| AddrMap.SameMessagesSameView | dig/addrmap.go:53-90 | streams with the same messages, in any order and number, make the same table up to the order of addresses |
| AddrMap.PermutedStreamsAgree | dig/addrmap.go:53-90 | in particular permuted streams do |
| DocumentedMap.DepartsExactlyWhenSkipping | dig/addrmap.go:53-77 | one update departs from the documented rule exactly if the address is known and goes from unverified to a verdict or from invalid to verified |
| DocumentedMap.DocumentedExactlyWithoutSkips | dig/addrmap.go:53-90 | for any stream the table is at all times the documented one exactly if no message makes such a step against what the stream said most strongly before |
| DocumentedMap.InvalidIsRaised | dig/addrmap.go:75-77 | two messages after which the table says verified and the documented rule says invalid |
| PipelineBase.EveryRunIsFinite | verifier/verifier.go:51-106 | no run, cancelled or not, has more than (14n+7)(2n+2) steps for n input items, although one verdict can trigger many sends |
| PipelineBase.StuckMeansOver | verifier/addrcache.go:46-66 | an uncancelled run with a willing reader can go on exactly until `Verify` and its goroutine have ended and all news is read: no deadlock, although an update holds the mutex while its sends block on the bounded channels of `PipelineFlow.ChannelsAreBounded` |
| PipelineBase.Completed | verifier/verifier.go:71-106 | every uncancelled run can be completed without a cancellation to one in which the news is closed and read |
| PipelineBase.CancelledVerifyReturns | verifier/verifier.go:73-105 | from any reachable cancelled state, without a reader, every continuation is bounded; one that cannot go on has returned from `Verify` and, unless a send hit the closed news, leaves neither the verdict loop nor a job behind |
| PipelineBase.FanOutIsBounded | verifier/addrcache.go:112-124 | one update of a reachable cache sends at most as many messages as there are input items |
| PipelineBase.StructureStep | verifier/verifier.go:46-107 | in every run one goroutine holds the mutex, the channels are closed in order and after the jobs, and the cache is what the recorded updates make it |
| PipelineSync.SyncedStep | verifier/verifier.go:46-107 | the synchronisation invariant (input position, news, calls, jobs and verdict channel accounted for) survives every step that is not the cancellation |
| PipelineSync.OrderlyStep | verifier/addrcache.go:54-56 | if no input comes with a verdict, every verdict presented to the cache is the first on its address, names a presented pair and was preceded by a Verifying |
| PipelineTheorems.AlwaysSynchronised | verifier/addrcache.go:49-124 | in every state of an uncancelled run an undecided address has exactly the names presented for it waiting, once each, and no pair is mentioned that was not presented; the last message about a presented pair carries the cached quality exactly if no raising verdict missed the pair, and none does if inputs come with verdicts at most for new addresses |
| PipelineTheorems.AlwaysReaching | verifier/addrcache.go:104-110 | if inputs come with verdicts at most for new addresses, every raising verdict of an uncancelled run finds all names of its address waiting |
| PipelineTheorems.OutputPerPairIsBounded | verifier/addrcache.go:70-112 | for every input a pair gets at most one message for each non-final quality and two for each verdict; without verdicts on the input at most two verdicts in all |
| PipelineTheorems.OutputIsBounded | verifier/addrcache.go:70-124 | the news is never longer than the announcements of the input plus six messages per distinct pair, or four without verdicts on the input |
| PipelineTheorems.ShutdownOrder | verifier/verifier.go:97-106 | in an uncancelled run nothing is sent on a closed channel and no type assertion fails; once the news is closed all jobs are finished, all their verdicts were presented to the cache and all that follows was sent |
| PipelineTheorems.ValidatedAtMostOnce | verifier/verifier.go:88-92 | at no time two validation jobs for one address, or one for an address not in the input |
| PipelineTheorems.ValidatedExactlyOnce | verifier/verifier.go:88-92 | when `Verify` has returned there was a job for an address exactly if it is in the input |
| PipelineTheorems.TwoPhases | ping/ping.go:223-304 | each job contributes one announcement to the verdict channel and, once finished, one later verdict about the same name and address; nothing else there is about that address |
| PipelineTable.BestIsCached | verifier/addrcache.go:91-112 | when `Verify` has returned the cache holds for each address the best of its ping's verdict and of what the input said about it, whatever the input |
| PipelineTable.StrongestIsBest | verifier/verifier.go:46-107 | for any input the best quality of an address is the strongest message about exactly those input pairs that no raising verdict missed, and about no other pair |
| PipelineTable.CacheIsTransparentExactly | verifier/verifier.go:46-107 | for any input and complete uncancelled run in which no name was missed, which is every run if inputs come with verdicts at most for new addresses, the table made from the news equals the one made from pinging every pair on its own, in any order, exactly if no name shares an address about which the input says something better than its ping for other names only |
| PipelineTable.TransparentExactlyUnmissed | verifier/verifier.go:46-107 | for any input without such foreign verdicts and any complete uncancelled run, the two tables are equal exactly if no name was missed |
| PipelineTable.CacheIsTransparent | verifier/verifier.go:46-107 | without verdicts on the input the two tables are always equal |
| PipelineTable.BestTable | dig/addrmap.go:58-107 | if no name was missed the table has exactly the input's names, each with exactly its addresses, each with its best quality; names without addresses keep an empty entry |
| PipelineTable.BestExactlyUnmissed | dig/addrmap.go:58-107 | for any input and any complete uncancelled run a pair stands in the table with the best quality of its address exactly if it is in the input and was not missed |
| PipelineTable.FinalTable | dig/addrmap.go:58-107 | without verdicts on the input that quality is the ping's verdict |
| PipelineTable.NewsMakesDocumentedTable | dig/addrmap.go:53-57 | in every state of such an uncancelled run no pair has skipped Verifying or changed its verdict, so the table is the one the documented rule makes |
| PipelineLost.LateVerdictLosesName | verifier/addrcache.go:104-112 | a complete uncancelled run in which a name that arrives with a verdict on a known address is missing from the table |
| PipelineStream.NewsIsMonotone | verifier/addrcache.go:57-124 | in every run, also a cancelled one, the qualities sent about an address never decrease, nor exceed the cached quality, which is the highest presented |
| PipelineStream.AnnouncementsPrecedeResults | verifier/verifier.go:78-92 | in every run, if every name arrives announced before its addresses, every name leaves so, despite fan-out from other names' verdicts |
| PipelineFlow.ChannelsAreBounded | verifier/verifier.go:29-43 | in every run neither channel ever holds more than its buffer does, and at most `size` jobs are in a worker's hands |
| PipelineFlow.WaitingMeansFull | verifier/addrcache.go:61-64 | an uncancelled run that nothing but its reader or a cancellation can carry on is over, or its news channel is full and a sender blocked on it |
| PipelineFlow.UnreadNamesBlock | verifier/verifier.go:78-86 | without a reader, of more bare names than the buffer holds just as many as it holds are forwarded, in order, and `Verify` then blocks in the send of the next |
| PipelineFlow.NewsIsDelivered | verifier/addrcache.go:45-126 | in every run up to a panic the news about addresses is, update by update in the order of the mutex, a first part of the messages of each; uncancelled, all of them |
| PipelineJobs.JobsWereAnnounced | ping/ping.go:223-234 | in every run, cancelled or not, each submitted job's address was announced as verifying on the verdict channel, at the position the job remembers, and what the job reports stands behind that and is about the same name and address |
| PipelineJobs.EveryAddressIsHandledOnce | verifier/verifier.go:88-92 | in every run, cancelled or not, the addresses presented to the cache are, each exactly once, those of the jobs, of the one about to become a job, and of the announcements dropped under a done context; uncancelled, none is dropped |
| PipelineJobs.OneJobForEach | verifier/verifier.go:88-92 | also in cancelled runs no two jobs are about the same address |
| PipelineJobs.CancelledMayDropAny | verifier/verifier.go:72-97 | a done context ends nothing by itself, and anything may get lost: for every input and every choice of addresses some cancelled run takes all of the input, presents its addresses and submits pings for just the chosen ones |
| PipelineTruth.VerdictsAreFounded | ping/ping.go:234-303 | in every run on any input, cancelled or not, a verdict on the news is the ping's, or brought by the input, or Invalid after a cancellation |
| PipelineTruth.VerdictsAreTrue | ping/ping.go:183-185 | without verdicts on the input Verified is always the ping's verdict, and so is Invalid unless the context was cancelled |
| PipelineTruth.CancelledPingMayFail | ping/ping.go:234-303 | conversely, for every address of the input some cancelled run reports it invalid, whatever its ping would come to |
| PipelinePanic.PanicExactlyIfImprovable | verifier/verifier.go:97-106 | for any input some run sends on the closed news channel exactly if some address first comes in a quality that is not final, or invalid while its ping or another item says verified |
| PipelinePanic.PanicExactlyWithAddresses | verifier/verifier.go:97-106 | without verdicts on the input: exactly if the input has an item with an address |
| PipelinePanic.PanicNeedsCancellation | verifier/verifier.go:101-106 | every such run is cancelled and the send comes after the return of `Verify` |
| PipelineDrive.Drive | verifier/verifier.go:71-96 | for any number of input items some run deals with just these, handles all that is sent and has no ping begun |
| PipelineDrive.ArmedPanics | verifier/verifier.go:97-106 | cancelled while the verdict loop is about to send, some run closes the news before that send |
| Ping.Pinger.WithThresholdPercentage | ping/ping.go:110-121 | sets the threshold, but refuses one above 100 |
| Ping.Pinger.WithCount | ping/ping.go:88-93 | sets the number of pings and nothing else; 3 is the default |
| Ping.Pinger.Validate | ping/ping.go:223-234 | an address is announced as verifying exactly if its ping is enqueued; only a done context prevents both |
| Ping.Pinger.ValidateStreamContext | ping/ping.go:134-161 | everything read before the context is done is announced and enqueued, in order; of what follows the same subsequence is announced and enqueued |
| Ping.Pinger.ValidateStream | ping/ping.go:123-132 | without a context the whole stream is announced and enqueued, in order |
| Ping.Pinger.Job | ping/ping.go:234-303 | a job puts one verdict on the channel, the subject with verified exactly if there were replies and 100 recv > count threshold - 100, otherwise with invalid, whatever error there was; only a done context may drop it |
| Ping.Pinger.StopWait | ping/ping.go:306-313 | every enqueued job reports before the channel is closed, except for reports dropped under a done context; without one these are exactly the jobs' reports; stopping twice does nothing more |
| Ping.DecisionMeans | ping/ping.go:271-276 | for every outcome of a ping, without the division: verified exactly if it collected replies and 100 recv > count threshold - 100, otherwise invalid, so also if it broke off or never ran |
| Ping.DecisionIsMonotone | ping/ping.go:271-276 | more replies never hurt and a higher threshold never helps |
| Ping.ExtremeThresholds | ping/ping.go:110-112 | at 100 percent every reply is needed, at 0 percent none |
| Ping.DocumentedExactlyWithoutRemainder | ping/ping.go:179-181 | code and documentation agree for all numbers of replies exactly if the division has no remainder |
| DnsPool.Pool.New | dnsworker/dnsworker.go:47-87 | a pool with as many workers as connections comes back exactly if the namespace and all dials succeed; otherwise everything dialled up to the first failure has been closed exactly once |
| DnsPool.Pool.Pop | dnsworker/dnsworker.go:165-174 | the most recently freed connection leaves the list; exactly the empty list makes it panic |
| DnsPool.Pool.Push | dnsworker/dnsworker.go:177-180 | the connection is back at the end of the list |
| DnsPool.Pool.Task | dnsworker/dnsworker.go:162-181 | a task that nobody interferes with leaves the free list as it was |
| DnsPool.Pool.StopWait | dnsworker/dnsworker.go:183-193 | every free connection is closed once and the list is empty |
| DnsPool.Pick | dnsworker/dnsworker.go:141-151 | the addresses of one answer, being those of its A and AAAA records |
| DnsPool.IpsMeans | dnsworker/dnsworker.go:141-151 | an address is picked exactly if the answer has an A or an AAAA record of it |
| DnsPool.IpsKeepOrder | dnsworker/dnsworker.go:141-151 | there are as many picked addresses as A and AAAA records, the k-th being that of the k-th such record |
| DnsPool.ResolveName | dnsworker/dnsworker.go:113-160 | the callback gets the addresses gathered up to the first query not answered, and an error exactly if a query was not answered or there is no address |
| DnsPool.BothQueries | dnsworker/dnsworker.go:121-152 | the second answer's addresses follow the first's, and after a first query without an answer there are none |
| DnsPool.PartialResults | dnsworker/dnsworker.go:136-140 | addresses come together with an error exactly if the first answer has an A or AAAA record and the second query was not answered |
| DnsPool.GatheredMeans | dnsworker/dnsworker.go:121-152 | an address is gathered exactly if an answer has an A or AAAA record of it and no query before that failed |
| PoolRuns.ConnectionsAreConserved | dnsworker/dnsworker.go:164-193 | in every concurrent run free, held and closed connections together are the dialled ones; nothing is closed before the stop, and after it everything is, as often as it was dialled |
| PoolRuns.NoSharing | dnsworker/dnsworker.go:164-181 | no two tasks hold one connection, and a held one is neither free nor closed |
| PoolRuns.WorkersAreBounded | dnsworker/dnsworker.go:162-181 | in every run at most as many tasks are in progress as there are workers |
| PoolRuns.SparesAreNeverUsed | dnsworker/dnsworker.go:165-180 | as the most recently freed connection is taken first, the connections beyond the number of workers, those dialled first, are never taken in any run |
| PoolRuns.PanicExactlyWithTooManyWorkers | dnsworker/dnsworker.go:168-170 | some run reaches the panic exactly if there are more workers than connections |
| PoolRuns.NewPoolNeverPanics | dnsworker/dnsworker.go:47-87 | in no concurrent run of a pool with as many workers as connections, such as `New` makes, does a task panic or share a connection |
| Digging.NameDigger.DigFQDNs | dig/dig.go:64-99 | exactly the names that are announced are enqueued, in order; uncancelled these are all names; each announcement is unverified, has no address, and carries the name or the name and a dot, ending in a dot |
| Digging.NameDigger.DigNetworks | dig/dig.go:53-59 | the names dug are those built from the networks, or the first of them if the context is done |
| Digging.NameDigger.StopWait | dig/dig.go:101-106 | every resolution sends its addresses before the channel is closed, or under a done context the first few of them |
| Digging.ConcurrencyOnlyPermutes | dig/dig.go:64-106 | every complete uncancelled run with concurrent resolvers sends a permutation of what `DigFQDNs` and an uncancelled `StopWait` of the class send |
| Digger.InvStep | dig/dig.go:64-106 | an invariant of every run of the digger: tasks match the announced names, sends stay within the answers, the channel is closed only after all tasks, nothing is sent after it |
| Digger.DiggerAnnouncesFirst | dig/dig.go:68-97 | in every run, also a cancelled one, a name's announcement precedes its addresses and nothing is sent after the close |
| Digger.EverythingIsSent | dig/dig.go:64-106 | a complete uncancelled run sends each announcement and each address found exactly once |
| Digger.StreamIsInterleaved | dig/dig.go:64-97 | every run's stream interleaves the names' messages, those of one name being its announcement and then its addresses in the order found, as far as sent; all of them in a complete uncancelled run |
| Digger.CompleteMeans | dig/dig.go:69-92 | what that amounts to, message by message |
| DiggerProgress.StuckMeansClosed | dig/dig.go:68-106 | with a willing reader a digger can go on exactly until its channel is closed and read |
| DiggerProgress.EveryDigIsFinite | dig/dig.go:68-106 | every run has at most five steps a name, two an address and three more |
| DiggerProgress.DiggerIsBounded | dig/dig.go:31-44 | in every run the channel never holds more than its buffer does, and at most `size` resolutions are in a worker's hands |
| DiggerProgress.Completed | dig/dig.go:64-106 | every uncancelled run of the digger can be completed without a cancellation |
| Joint.VerifierRuns | cmd/mobydig/digging.go:82-100 | the verifier's side of any joint run is a run of the verifier alone on all that the digger sends, although it is handed over item by item |
| Joint.DiggerRuns | cmd/mobydig/digging.go:97-100 | and the digger's side is a run of the digger alone |
| JointProgress.EveryJointRunIsFinite | cmd/mobydig/digging.go:87-100 | no joint run, cancelled or not, exceeds a bound made from the numbers of names and addresses |
| JointProgress.StuckMeansDone | cmd/mobydig/digging.go:87-100 | uncancelled, digger and verifier together can go on exactly until both are done and all news is read |
| JointProgress.Completed | cmd/mobydig/digging.go:87-100 | every uncancelled joint run can be completed without a cancellation |
| JointProgress.LeftBehindExactly | cmd/mobydig/digging.go:97-100 | some joint run ends with the digger blocked for ever exactly if names and addresses outnumber its channel's buffer, and every such run is cancelled |
| Names.AllFQDNsOnAttachedNetworks | dig/mobynet.go:20-33 | all labels qualified by their networks, in order, then each label once on its own, in some order |
| Names.QualifiedInOrder | dig/mobynet.go:22-28 | the qualified label of a network stands where all labels of the networks before and the network's labels before it leave it |
| Names.FqdnMeans | dig/dig.go:69 | a qualified name is the name or the name and a dot, ends in a dot, and is the name itself exactly if that ends in a dot with an even number of backslashes before it |
| Names.QualifyingTwice | dig/dig.go:69 | appending the root dot a second time changes nothing exactly if the name does not end in an odd number of backslashes |
| Names.GroupAndLabelMeans | cmd/mobydig/display.go:137-147 | of a name without its root dot the label is what precedes the first dot, the network what lies between it and the second dot or the end; without a dot there is no network and all is label |
| Names.NetworkNameRoundTrip | cmd/mobydig/display.go:137-154 | parsing the FQDN built from a label and a network recovers both exactly if neither has a dot |
| Names.FlatNameRoundTrip | cmd/mobydig/display.go:137-154 | parsing the FQDN of a label on its own gives no network and the label exactly if it has no dot |
| Names.NamesOfNetwork | dig/mobynet.go:20-33 | for dot-free networks and labels, the built names on a network are exactly its labels qualified by it, and on no network moreover all labels on their own |
| Names.GroupsOfBuiltNames | dig/mobynet.go:20-33 | for dot-free networks and labels, the built names' networks are those with labels and the unnamed one, and none if there are no labels |
| Sorting.SortSlice | cmd/mobydig/display.go:130-134 | sorting in place leaves a sorted permutation, for any weak order |
| Sorting.BelowMeans | cmd/mobydig/display.go:133 | a string is below another exactly if it is a proper beginning of it or has the lesser character where they first differ |
| Sorting.Cut | cmd/mobydig/display.go:158-176 | cutting a sorted slice where the key changes: non-empty groups of one key each, strictly increasing keys, concatenating to the slice |
| Sorting.SortGroups | cmd/mobydig/display.go:178-180 | sorting every group again keeps the partition and permutes each group in its place |
| Sorting.PartitionIsSorted | cmd/mobydig/display.go:157-181 | such groups put together are sorted as a whole |
| Sorting.OneGroupPerKey | cmd/mobydig/display.go:161-173 | there is exactly one group for every key of a member |
| Display.PrecedesIsAnOrder | cmd/mobydig/display.go:125-135 | the less-function on names is a strict weak order that looks at the network first |
| Display.SortFQDNs | cmd/mobydig/display.go:125-135 | sorts in place: afterwards networks ascend, and labels within one network, in the order of strings that `Sorting.BelowMeans` gives |
| Display.TidyPermutesAddresses | cmd/mobydig/display.go:114-123 | sorting a set's addresses keeps its name and permutes its addresses, whose numeric values then ascend |
| Display.GroupNames | cmd/mobydig/display.go:156-181 | non-empty groups of one network each, labels ascending inside, networks strictly ascending from group to group, that concatenate to a permutation of the given sets with sorted addresses; the given slice is sorted in place |
| Display.GroupsAreSorted | cmd/mobydig/display.go:156-181 | the concatenated groups ascend by network, and by label within one network |
| Display.OneGroupPerNetwork | cmd/mobydig/display.go:156-181 | there is a group for a network exactly if some name is on it, and never two |
| Display.GroupMembers | cmd/mobydig/display.go:156-181 | a name is shown in the group of a network exactly if it is on it and among the given names |
| Display.UnnamedGroupComesFirst | cmd/mobydig/display.go:68-76 | the group the renderer skips is the unnamed one exactly if some name is on no network |
| EndToEnd.JointlyAnnouncedFirst | cmd/mobydig/digging.go:82-100 | in every joint run each name is announced on the verifier's news before its addresses |
| EndToEnd.DugAndVerified | cmd/mobydig/digging.go:82-100 | when `Verify` has returned in an uncancelled joint run the table has exactly the names dug for, each with exactly the addresses found for it and their pings' verdicts |
| EndToEnd.ResolvedAndPinged | cmd/mobydig/digging.go:82-100 | and in terms of DNS records and ping replies: just the addresses that answers have A or AAAA records of, each verified exactly if its ping collected replies and 100 recv > count threshold - 100, otherwise invalid |
| EndToEnd.CompleteRunsExist | cmd/mobydig/digging.go:93-100 | every uncancelled joint run leads to such a complete one |
| EndToEnd.DisplayedNetworks | cmd/mobydig/digging.go:93-111 | the final display of dot-free networks has a group for each network with labels and the unnamed one before all others, and no other; without labels it has none |
| EndToEnd.DisplayedNames | cmd/mobydig/display.go:76-95 | each group shows exactly the names built from its network's labels, the unnamed one moreover all labels on their own |
| EndToEnd.DisplayedAddresses | cmd/mobydig/display.go:76-110 | and with each name exactly the addresses found for it, with their pings' verdicts |
| EndToEnd.EarlyDisplayLacksUnnamedGroup | cmd/mobydig/display.go:68-76 | if the first name dug is on a network, a joint run reaches a table whose display starts with that name's network |

## Left out

- Types.QualifiedAddress.WithNewQuality: leaves out the copy's error. Errors are not modelled at all: the cache never stores one, the table never updates one, and `QualifiedAddressValue.WithNewQuality` ignores its argument. Nor is the JSON form of addresses.
- Integer widths: Go's `int` and `uint` are unbounded here, and a `Quality` is one of its four constants; `String` and `IsPending` are not modelled.
- ICMP, DNS exchanges, dialling and namespace switching: parameters that say what came of them. A namespace error is taken to mean that nothing was dialled; an error of the switch during a ping does not change the verdict.
- The `workerpool` library: at most `size` tasks run at a time, submitting never blocks, every task runs once, and stopping waits for all.
- Real time: intervals and timeouts; a running ping or query ends eventually.
- Arrival of input: in `Pipeline` the input is known as a whole; in `Joint` it arrives item by item from the digger.
- Unbuffered channels and empty pools: buffers and pools have at least one place, which the command line enforces (`cmd/mobydig/cmdroot.go:33`).
- Inputs with verdicts on known addresses: `PipelineTable.TransparentExactlyUnmissed` and `PipelineTable.BestExactlyUnmissed` decide every single run on them, in terms of the order in which the cache was called, and `PipelineLost.LateVerdictLosesName` shows a run that goes wrong. For which of these inputs there is such a run at all is not characterised by the input alone; the cache's comment excludes them (`verifier/addrcache.go:54-56`).
- `Verifier.Verify` as a class: its two goroutines are a state machine on values, since what matters about them is their interleaving; the digger's and the pool's concurrency is modelled the same way beside their classes.
- Ping.Pinger.StopWait: runs the jobs in their order on one worker; the order of concurrent workers is the state machine's.
- Digging.NameDigger.StopWait: runs the resolutions in their order on one worker; `Digging.ConcurrencyOnlyPermutes` relates this to concurrent ones.
- AddrMap.NamedAddressesMap.Get: is a snapshot; that its slices are shared with the table and later sorted in place by the display is not modelled.
- Display.GroupNames: sorts the addresses of a set as a value, by a number an address parses to; the parsing is the standard library's.
- Sorting.SortSlice: is an insertion sort; its contract promises only what the standard library's sort does.
- The root dot: `Fqdn` follows the rule of the `miekg/dns` library, which is not part of this model; characters are compared, not bytes.
- The mutexes of the table and of the pool: their methods are atomic.
- Docker client plumbing, the command line, colours, the spinner and all text rendering.
