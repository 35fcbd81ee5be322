# KuzTDS: a Dafny model of the engine's concurrent and rewriting cores

KuzTDS distributes web traffic: an engine picks a stream for every visitor, logs the click,
renders the output, and reloads its configuration while it runs; a cron service does the
periodic chores; an admin panel edits the files both read. This project models the parts of it
whose comments promise something about *every* run or *every* input, and proves those promises,
or proves exactly when they hold.

Goroutines that share memory are step relations: one step is one critical section, one channel
operation with the counter update that follows it, or one Redis script, and the theorems are about
every sequence of steps. The code between the steps is imperative Dafny, classes and loops over
the source's own fields, each method proved against the function that the step relation uses.

| files | source | subject |
|---|---|---|
| `LogBuf*.dfy` | internal/logbuf | the asynchronous log buffer |
| `Ip*.dfy` | internal/ipindex | ranges of addresses: parse, merge, search |
| `Redis.dfy`, `Limits.dfy`, `Router.dfy` | internal/store, internal/router | counters, limits, rotation, stream selection |
| `FetchCache.dfy`, `CacheRuns.dfy` | internal/fetch | the bounded TTL cache |
| `GroupLink.dfy` | cmd/engine, internal/admin, internal/config | group links: the engine against the simulator |
| `Cron*.dfy`, `StatusFile.dfy` | internal/cron | the scheduler and its status file |
| `HotReload.dfy`, `SepList.dfy`, `IpSet.dfy`, `GroupsWatcher.dfy` | cmd/engine, internal/seplist, internal/ipindex | stat, read, publish |
| `Expand.dfy` | internal/render | template macros |
| `ReplaceCI.dfy` | cmd/engine/remote.go | case-insensitive replacement |
| `Offsets.dfy` | internal/geo, internal/router | UTC offsets |
| `Text.dfy`, `Wrappers.dfy` | | the Go string functions used above; an option type |

## What turned out false of the code

Each of these is a lemma with a concrete input, next to the exact condition where there is one.

* A cron interval is the configured one, not below its job's minimum, exactly while it fits in a
  `time.Duration`: nothing bounds `every_minutes` from above, and 153,722,868 minutes wrap to a
  negative interval (`CronConfig.IntervalExact`, `IntervalOverflows`).
* Separation lists lose the extension twice on the way in and once on the way out: `a.dat.dat` is
  never found (`SepList.FoundUnlessTwice`, `TwiceIsLost`).
* A group hidden by a later one with the same ID can still be served by an alias, and the lists that
  only it names are not loaded. Every group that can be served is listed exactly when no hidden group
  has an alias that is nobody's ID and no later group's alias (`GroupsWatcher.ServedListedIff`,
  `ShadowedIsServed`).
* The simulator follows an alias given to two groups to the first of them, the engine to the last
  (`GroupIndex.LookupsAgree`, `SharedAlias`), and goes on choosing after a stream named "-"
  (`GroupLink.PassesAgree`, `PassesDiffer`).
* An offset of less than a minute west of Greenwich prints as "-0", which no filter accepts
  (`Offsets.PrintedIsNormal`, `SliverMatchesNothing`).
* The remark at internal/fetch/fetch.go:54-57, never more expired entries than live ones, holds right
  after a sweep, and at any instant at which the live entries are at least half of `sweepAt`; in a map
  that has reached `sweepAt`, only then (`CacheRuns.RemarkHolds`). Between sweeps it can fail
  (`ExpiredCanOutnumberLive`). The amortisation it is for holds always.
* An exhausted limit key without a TTL is never healed (`Limits.TakeHeals`).
* Keys join a group's ID and the rest with colons: visitor 1 of group `a:b` and visitor `b:1` of group
  `a` would share one counter (`Limits.ColonShares`). Without colons in the IDs nobody does
  (`OneCounterEach`).
* `[RANDNUM-0-9223372036854775807]` always gives 0 (`Expansion.RandNumReaches`).
* Draining beside a live accumulator can lose an event uncounted although `Close` returns nil
  (`LogBufTheorems.GraceLosesAnEvent`). From the closing of the door on this can still happen exactly
  if the accumulator holds an event or can still take one (`LogBufLoss.LossIff`, `NilLiesIff`).
* Such a drain can also store events out of order (`LogBufTheorems.GraceBreaksOrder`): exactly if the
  accumulator and the drain can both come to hold events, which at the closing of the door takes one in
  the accumulator's hands, or that it can take, and one more (`LogBufDisorder.DisorderIff`, `AtTheDoor`).
* An IP list whose fingerprint was recorded by a `Load` that could not read it stays empty, however
  readable it becomes, until its file is changed; in every other case the next undisturbed reload
  publishes the file (`IpSet.LoadThenReload`, `MissedStaysEmpty`).
* A version of a file whose size and modification time were seen before can go unloaded while the file
  stays (`HotReload.SameStampHidesUpdate`): exactly if it has other content than some readable version
  since (`SafeIff`).

## Model

| member | source | states |
|---|---|---|
| LogBufTheorems.Conservation | internal/logbuf/logbuf.go:175-372 | in every reachable state of every interleaving each pushed event is in exactly one place exactly once, nothing else is anywhere, and the four counters are the numbers of events lost for each cause |
| LogBufTheorems.Bounds | internal/logbuf/logbuf.go:141-153 | the channel never exceeds its capacity, the queue never exceeds max(2, capacity/batchSize), and every queued or inserting batch has between 1 and batchSize events |
| LogBufTheorems.ShutdownAccounting | internal/logbuf/logbuf.go:241-288 | once the writer has returned, every event is stored or counted, in identity and in number, exactly when Run has nothing in its hands and nothing in the queue; what may stay in the channel was sent by pushes that straddled the door, after the drain saw it empty |
| LogBufTheorems.CloseNilIsTheTruth | internal/logbuf/logbuf.go:268-287 | Close returns nil only after the writer has returned, so without straddling pushes pushed = stored + Losses exactly when Run has nothing in its hands and nothing in the queue |
| LogBufTheorems.CloseErrorIsLate | internal/logbuf/logbuf.go:270-287 | Close returns an error only past its own deadline, with the drain done and the running insert cancelled |
| LogBufTheorems.DrainTerminates | internal/logbuf/logbuf.go:256-267 | from a shut door on, no schedule takes more events in the drain than the channel held plus the pushes past the check |
| LogBufTheorems.DrainMeasure | internal/logbuf/logbuf.go:256-267 | every step keeps channel length plus straddling pushers from growing, and a drained event lowers it |
| LogBufTheorems.ShutdownNeverStuck | internal/logbuf/logbuf.go:235-288 | while a Close has not returned some goroutine can move without a new call, a deadline or the drain's timer |
| LogBufProgress.ShutdownEnds | internal/logbuf/logbuf.go:235-288 | from a shut door on, no schedule takes more of the steps a shutdown needs than the state had left, plus four for every new caller of Close |
| LogBufProgress.LeftStep | internal/logbuf/logbuf.go:175-372 | no step past the closing of the door adds to what is left to do, and every step of the drain, the writer, the accumulator and a Close caller takes from it |
| LogBufTheorems.GraceFires | internal/logbuf/logbuf.go:251-255 | the branch "the accumulator did not stop" is reachable with Run alive and holding an event |
| LogBufTheorems.GraceBreaksOrder | internal/logbuf/logbuf.go:251-255 | after that branch events can be stored out of order |
| LogBufTheorems.GraceLosesAnEvent | internal/logbuf/logbuf.go:251-255 | after that branch Close can return nil with an event neither stored nor counted |
| LogBufLoss.LossIff | internal/logbuf/logbuf.go:241-269 | from any reachable state past the closing of the door, some schedule ends with the writer gone and an event neither stored nor counted exactly if Run holds an event, can still take one, or has left one to a writer that is gone |
| LogBufLoss.NilLiesIff | internal/logbuf/logbuf.go:241-288 | until the drain is done, on the same condition and on no other some schedule makes Close return nil over such an event |
| LogBufDisorder.DisorderIff | internal/logbuf/logbuf.go:210-269 | from any reachable state past the closing of the door, some schedule stores events out of the order of entry exactly if what is written and waits is out of line, or Run and the drain can both come to hold events |
| LogBufDisorder.AtTheDoor | internal/logbuf/logbuf.go:241-255 | at the closing of the door, and at the start of a drain beside Run, that is: Run holds an event and one more is outside, or Run can take and two are |
| LogBufDisorder.StoredInOrder | internal/logbuf/logbuf.go:210-269 | what is stored is a subsequence of the order of entry in every run past a state that cannot break it, and in every run in which the drain had the channel to itself |
| LogBufRoom.DropIff | internal/logbuf/logbuf.go:306-326 | from any reachable state with the door shut, Run ended and no batch waiting for room, some schedule drops a batch for want of room exactly if the batches the drain has still to queue do not fit; if they fit, none does, whatever deadline has passed before or passes now |
| LogBufRoom.NoDropInTime | internal/logbuf/logbuf.go:306-326 | once Run has ended no batch is dropped, however full the queue, before the deadline of the Close that drains |
| LogBufTheorems.InvStep | internal/logbuf/logbuf.go:175-372 | every step of every goroutine keeps the whole invariant: sizes, conservation, counters, doors, residue, entries, callers, tallies and order |
| LogBufAccounting.ConservedStep | internal/logbuf/logbuf.go:175-372 | every step moves an event from one place to one other, or adds a new one to one place |
| LogBufAccounting.CountedStep | internal/logbuf/logbuf.go:194-201 | every step that loses events adds their number to the counter of the cause |
| LogBufAccounting.SizesStep | internal/logbuf/logbuf.go:141-153 | every step keeps the capacities and the batch sizes |
| LogBufShutdown.DoorsStep | internal/logbuf/logbuf.go:241-269 | every step keeps the order of the four closings |
| LogBufShutdown.ResidueStep | internal/logbuf/logbuf.go:172-187 | the channel holds the last events that entered it, and all that entered after the drain saw it empty straddled the door |
| LogBufShutdown.EntriesStep | internal/logbuf/logbuf.go:175-187 | every step keeps that an event enters the channel at most once, and not while it is still being pushed |
| LogBufShutdown.CallersStep | internal/logbuf/logbuf.go:241-288 | one Close caller runs the body, the others wait for it, nil is returned only past the writer's end, an error only past the deadline and after cancelling the insert |
| LogBufOrder.OrderedStep | internal/logbuf/logbuf.go:210-339 | stored, inserting, queued, held and waiting events together stay a subsequence of the order of entry while the drain has the channel to itself |
| LogBufOrder.InLineStep | internal/logbuf/logbuf.go:210-339 | beside a live accumulator too, as long as Run takes nothing past the drain and the drain queues nothing past Run |
| LogBuf.PushNext | internal/logbuf/logbuf.go:175-187 | a push touches the pushes under way, the channel and the counters, and nothing of the other goroutines |
| LogBuf.RunNext | internal/logbuf/logbuf.go:210-233 | the accumulator touches its own state, the channel, the queue and the counters; of the history, only what was dropped at the queue |
| LogBuf.OnceNext | internal/logbuf/logbuf.go:241-269 | the closing body touches its own state, the channels, the counters and the positions of the Close callers |
| LogBuf.CloserNext | internal/logbuf/logbuf.go:270-287 | a Close caller touches no channel and no counter; of the history, only which pushes straddle the door |
| LogBuf.WriterNext | internal/logbuf/logbuf.go:349-372 | the writer touches its own state, the queue and the counters; of the history, only what was stored or failed |
| LogBufCode.Buffer.constructor | internal/logbuf/logbuf.go:128-167 | the defaults and capacities of a new buffer are those of the protocol's initial state |
| LogBufCode.Buffer.Send | internal/logbuf/logbuf.go:182-186 | the send stores the event if there is room and counts it otherwise, as the protocol's step does |
| LogBufCode.Buffer.Receive | internal/logbuf/logbuf.go:223-227 | the event goes behind what is held, the slice being written in place, and no queued batch changes |
| LogBufCode.Buffer.Take | internal/logbuf/logbuf.go:331-339 | the reader gets a fresh copy of all that was held, and the slice is empty |
| LogBufCode.Buffer.HandOff | internal/logbuf/logbuf.go:293-304 | the batch goes to the queue whole or is counted whole, as the protocol's step does |
| LogBufCode.Buffer.Dequeue | internal/logbuf/logbuf.go:352-361 | what the writer reads is what was handed off first, in order |
| IpLookup.Lookup | internal/ipindex/ipindex.go:43-62 | the binary search hits exactly when a range of the address's family contains it, with that range's label; an invalid address misses |
| IpLookup.Normalize | internal/ipindex/ipindex.go:163-188 | the result covers what the input covers, is sorted with gaps of at least one address, and carries the labels of least ranges |
| IpLookup.Parse | internal/ipindex/ipindex.go:73-102 | the index is the normal form of the ranges the lines name, each under the label in force |
| IpLookup.ParseRange | internal/ipindex/ipindex.go:115-147 | a line is read as the range of its prefix, its two ends in order, or its one address, unmapped |
| IpLookup.LookupIsScan | internal/ipindex/ipindex.go:43-188 | for any file, Lookup hits exactly when some parsed range contains the address |
| IpLookup.LookupIsLineScan | internal/ipindex/ipindex.go:43-188 | for any file, Lookup hits exactly when some line contains the address and starts in its family; if every range keeps to one family, exactly when some line contains it |
| IpLookup.CidrLineIsPrefix | internal/ipindex/ipindex.go:117-123 | a CIDR line contains exactly the addresses that share its first bits, in the family of both its ends (section 3.1 of RFC 4632, section 2.3 of RFC 4291); a prefix that leaves its family over the mapped addresses contains none |
| IpLookup.DashIsInterval | internal/ipindex/ipindex.go:124-139 | a dash line contains exactly the addresses between its ends, both included, in whichever order they are written |
| IpLookup.SingleIsItself | internal/ipindex/ipindex.go:140-146 | a line with one address contains that address and no other; blank, malformed and label lines contain none |
| IpLookup.MappedIsV4 | internal/ipindex/ipindex.go:47-51 | an IPv4-mapped address is answered as the IPv4 address it stands for, out of the IPv4 ranges |
| IpLookup.ParsedAreLines | internal/ipindex/ipindex.go:73-102 | the parsed ranges of a family are exactly those of its lines, each with the text of the last label line before it |
| IpLookup.LookupLabel | internal/ipindex/ipindex.go:159-188 | the label of a hit is that of a least (lo, hi) range of the maximal run of touching ranges that holds the address, ranges that hold no address aside |
| IpLookup.LookupLabelOfRange | internal/ipindex/ipindex.go:159-162 | if touching ranges share labels, it is the label of every range holding the address |
| IpLookup.LookupLabelOfLine | internal/ipindex/ipindex.go:159-162 | if touching ranges share labels, it is the label in force at every line holding the address: the text of the last label line before it, none if there is none |
| IpLookup.CanonicalForm | internal/ipindex/ipindex.go:163-188 | two normal lists covering the same addresses have the same bounds |
| IpLookup.OrderOfLinesIsIrrelevant | internal/ipindex/ipindex.go:73-188 | two files naming the same addresses, in any order, give the same bounds, ranges that hold no address aside |
| IpIndex.MergeCovers | internal/ipindex/ipindex.go:173-187 | merging neither adds nor loses an address |
| IpIndex.MergeSeparated | internal/ipindex/ipindex.go:173-187 | merged ranges are strictly sorted with a gap of at least one address between neighbours, also at the top address |
| IpIndex.MergeMerged | internal/ipindex/ipindex.go:176-184 | every merged range takes the label of a least range inside it, and every input range ends up inside one |
| IpIndex.MergeShares | internal/ipindex/ipindex.go:176-184 | if touching ranges share labels, every range inside a merged one has its label |
| IpIndex.InOrderMerge | internal/ipindex/ipindex.go:163-188 | leaving out the ranges whose ends are out of order, before the merge or after it, gives the same list |
| Cidr.LastAddr | internal/ipindex/ipindex.go:150-157 | the loop sets exactly the host bits, in place |
| Cidr.Masked | internal/ipindex/ipindex.go:122-123 | masking clears exactly the host bits |
| Cidr.RangeIsPrefix | internal/ipindex/ipindex.go:117-157 | between the address with host bits cleared and the one with host bits set lie exactly the addresses agreeing on the prefix |
| Cidr.MappedBlock | internal/ipindex/ipindex.go:117-125 | a prefix that starts among the IPv4-mapped addresses ends among them |
| Cidr.ValueInjective | internal/ipindex/ipindex.go:150-157 | bit strings of one length denote different numbers |
| IpAddr.NextIsSuccessor | internal/ipindex/ipindex.go:177-178 | Next is the address one rank up and there is none past the last of a family |
| IpAddr.RankInjective | internal/ipindex/ipindex.go:54-58 | addresses comparing equal are equal |
| Redis.Apply | internal/store/redis.go:90-119 | a script touches its own key only |
| Redis.Counters.IncrWithTTL | internal/store/redis.go:90-124 | INCR and the expiry are one step on the store |
| Redis.Counters.FirewallCheck | internal/store/redis.go:56-69 | the new counters and the answer are those of the Firewall step, with its defaults |
| Redis.Counters.LoginCheck | internal/store/sessions.go:70-82 | the new counters and the answer are those of the LoginAllow step |
| Redis.Counters.TakeUnit | internal/store/redis.go:134-144 | the new counters and the answer are those of the TakeLimit step, with limitKey's key and TTL |
| Redis.Counters.RotateIndex | internal/store/redis.go:148-157 | the new counters and the index are those of the Rotate step, the index being in range |
| Limits.FixedWindow | internal/store/redis.go:50-69 | over every interleaving any half-open interval of the window's length holds at most 2·max allowed calls per key, whatever the store held before; the window is the rule's, a minute if it has none |
| Limits.HitExpires | internal/store/redis.go:84-94 | right after any hit the key expires within the window, even if it had no TTL |
| Limits.SoonStays | internal/store/redis.go:74-94 | no sequence of calls puts the expiry of a guarded key further off than the window |
| Limits.AllowedExactly | internal/store/redis.go:56-69 | within one lifetime of a key exactly the first max calls are allowed, none refused early |
| Limits.Disabled | internal/store/redis.go:56-62 | a rule without a maximum lets everybody through and counts nobody |
| Limits.OneCounterEach | internal/store/redis.go:56-69 | two calls count on one key exactly if they are one visitor of one group at the firewall, one login key, one stream of one group under one kind of limit and, if daily, on one day, or one rotation: no group's ID having a colon |
| Limits.NobodyElseCounts | internal/store/redis.go:56-69 | whoever has not asked more often than his maximum is never refused, whatever the others ask in between |
| Limits.ColonShares | internal/store/redis.go:63 | with a colon in an ID two visitors share a counter |
| Limits.TakeHeals | internal/store/redis.go:112-119 | the limit script gives a TTL to a key without one exactly when the limit still has room |
| Limits.GrantedPerLife | internal/store/redis.go:96-144 | a limit is granted at most Count times per lifetime of its key, less what the counter already shows |
| Limits.DailyLimit | internal/store/redis.go:159-177 | a daily limit is granted at most Count times per group, stream name and UTC day |
| Limits.PeriodLimit | internal/store/redis.go:159-177 | a limit per period is granted at most Count times per lifetime of its key |
| Limits.DailyOneLife | internal/store/redis.go:175-176 | the 48 hours outlive the day: a daily key is never found expired by a take of its day |
| Limits.DailyKeyTouched | internal/store/redis.go:167-177 | only a daily take of that very day runs on a daily key |
| Limits.DayTextInjective | internal/store/redis.go:175 | different days have different keys |
| Limits.DateIsTheDay | internal/store/redis.go:175 | the date in a daily key is that UTC day's, by the Gregorian rules for months and leap years |
| Limits.RotationCycles | internal/store/redis.go:146-157 | the j-th answer is variant (start + j) mod the number of variants, over every interleaving |
| Limits.RotationIsEven | internal/store/redis.go:146-157 | any mod answers in a row are all different |
| Router.Select | internal/router/router.go:69-83 | the stream returned is the first that is on, passes its filters and has room; every earlier matching one was exhausted; the store changes only by that stream's unit |
| Router.Pick | internal/router/router.go:69-83 | without a limiter, the first stream that is on and passes its filters |
| Router.TurnHonest | internal/router/router.go:241-246 | a Select takes at most one unit, only for the stream it returns, and a refusal changes no counter |
| SelectRuns.DailySelections | cmd/engine/main.go:394-406 | over any concurrent run, the filters of every turn being any, a stream with a daily limit is selected at most Count times per group and UTC day |
| SelectRuns.PeriodSelections | cmd/engine/main.go:394-406 | over any stretch of such a run within one lifetime of the key, a stream with a limit per period is selected at most Count times |
| SelectRuns.CountedUnder | internal/store/redis.go:167-177 | every selection of a limited stream is counted under the key of its kind, day and limit |
| SelectRuns.ServedIsGranted | internal/router/router.go:69-83 | no stream is served more often than its limit was granted, under any key |
| SelectRuns.StepGrants | internal/router/router.go:241-246 | every step serves a limited stream at most as often as it takes a unit, under any key |
| FetchCache.Client.constructor | internal/fetch/fetch.go:42-61 | a new client is an empty cache within its budget |
| FetchCache.Client.Probe | internal/fetch/fetch.go:180-185 | a hit exactly for a key whose entry expires later than now, and then its value |
| FetchCache.Client.SweepExpired | internal/fetch/fetch.go:237-248 | in place, exactly the expired entries go, and size and sweepAt follow |
| FetchCache.Client.StoreValue | internal/fetch/fetch.go:205-233 | the new fields are those of the store step, and a refusal is reported at most once per period |
| FetchCache.StoreConsistent | internal/fetch/fetch.go:205-248 | size stays the sum of key and value lengths and within the budget, and the map within sweepAt |
| FetchCache.StoreKeepsLive | internal/fetch/fetch.go:194-204 | no unexpired entry of another key is removed, and none is changed |
| FetchCache.StoredIff | internal/fetch/fetch.go:196-204 | the value is kept exactly when it fits beside the live entries of the other keys |
| FetchCache.SweepLeaves | internal/fetch/fetch.go:237-248 | a sweep leaves exactly what has not expired, and the next is due at twice that, 1024 at least |
| FetchCache.StoreWalksOnlyIfNeeded | internal/fetch/fetch.go:205-233 | a store into a map that is not full, and whose value fits as it is, changes nothing but its own key |
| CacheRuns.AccountedBytes | internal/fetch/fetch.go:176-248 | over interleaved calls with loads outside the lock, size is the bytes held and never exceeds the budget |
| CacheRuns.ServedWasLoaded | internal/fetch/fetch.go:176-192 | a value served from the cache came from a successful load for that key and was stored with an expiry still ahead |
| CacheRuns.BeginServes | internal/fetch/fetch.go:176-192 | a call is served at once exactly if its key has an entry that expires later than now and it may use the cache; otherwise it loads |
| CacheRuns.KeptIsServed | internal/fetch/fetch.go:176-233 | a value that was kept is served to every later call on its key until it expires or another is stored under the key, whatever the other calls do |
| CacheRuns.AmortisedSweeping | internal/fetch/fetch.go:54-57 | the sweeps that len(c) triggers walk at most twice as many entries as values were stored, and the map never outgrows sweepAt |
| CacheRuns.PaidStore | internal/fetch/fetch.go:205-248 | what a store walks has been saved up since the last sweep |
| CacheRuns.SweepLeavesNoneExpired | internal/fetch/fetch.go:54-57 | right after a sweep no entry is expired |
| CacheRuns.RemarkHolds | internal/fetch/fetch.go:54-57 | in every reachable state and at every instant expired entries do not outnumber live ones if the live are at least half of sweepAt, and in a map that has reached sweepAt only if |
| CacheRuns.ExpiredCanOutnumberLive | internal/fetch/fetch.go:54-57 | later on, expired entries can outnumber live ones |
| GroupIndex.Index | internal/config/groups.go:18-31 | the maps name the last group with each ID and with each non-empty alias |
| GroupIndex.AddAliases | internal/config/groups.go:24-28 | the inner loop moves every alias of the group to it |
| GroupIndex.Groups.constructor | internal/config/groups.go:33-45 | a set built from a list answers for that list |
| GroupIndex.Groups.Get | internal/config/groups.go:62-70 | the last group with that ID, else the last with that alias, else none |
| GroupIndex.Groups.Replace | internal/config/groups.go:84-89 | both maps change to those of the new list |
| GroupIndex.LookupsAgree | internal/config/groups.go:62-70 | engine and simulator find the same group for a key exactly when the first group named so is the only one the engine can mean |
| GroupIndex.DistinctIsClear | internal/config/groups.go:18-31 | distinct non-empty IDs and aliases make every key such |
| GroupIndex.SharedAlias | internal/admin/tools.go:183-196 | an alias of two groups leads the engine to the last and the simulator to the first |
| GroupLink.Follow | cmd/engine/handler.go:286-329 | the engine's loop walks the path of links from the entry group and refuses exactly at a missing, disabled, own or one-too-many link |
| GroupLink.PassOver | cmd/engine/handler.go:296-310 | one turn gives the stream picked, or the group's defaults |
| GroupLink.Search | internal/admin/tools.go:183-196 | find gives the first group with that ID or alias |
| GroupLink.Try | internal/admin/tools.go:238-255 | the simulator's pass and the row it shows for every stream |
| GroupLink.Simulate | internal/admin/tools.go:236-276 | the simulator's loop walks the path by its own lookup and pass, with an error exactly where the link is not allowed |
| GroupLink.PassesAgree | internal/admin/tools.go:247-252 | both passes choose the same stream, redirect and output unless the stream picked is named "-" and another one matches after it |
| GroupLink.PassesDiffer | internal/admin/tools.go:247-252 | in every other group there are outputs for which they differ |
| GroupLink.WalksAgree | internal/admin/tools.go:236-276 | with distinct non-empty names the simulator visits the engine's groups with the same stream, redirect and output at each step, fails exactly when the engine answers trash, and the path has at most MaxGroupHops + 1 steps |
| CronConfig.IntervalExact | internal/cron/config.go:162-187 | the interval is the configured one exactly when that fits in a time.Duration, and then not below the job's minimum |
| CronConfig.IntervalOverflows | internal/cron/config.go:167-187 | one minute more gives a negative interval |
| CronConfig.OwnSettings | internal/cron/config.go:156-207 | each job goes by its own switch, its own setting and its own minimum |
| CronRunner.Runner.constructor | internal/cron/runner.go:137-161 | no status read from the file is left running |
| CronRunner.Runner.Check | internal/cron/runner.go:203-211 | a job is started exactly when it is not busy and is due or requested |
| CronRunner.Runner.Claim | internal/cron/runner.go:244-257 | a busy job is left alone; a free one is marked in both places with its status kept aside |
| CronRunner.Runner.End | internal/cron/runner.go:265-291 | an interrupted run puts the old status back; a completed one records its end, its outcome and the next run; either way the job is free |
| CronTheorems.OneInstance | internal/cron/runner.go:181-184 | in every run at most one instance of each job is alive, and its flag is up exactly while one is |
| CronTheorems.InterruptionRestores | internal/cron/runner.go:266-276 | an interrupted run leaves its job's status as it found it and no other status changed |
| CronTheorems.IntervalKept | internal/cron/runner.go:284-290 | a run nobody requested begins at least the configured interval after the end of the last completed one, and at least the minimum if the setting fits |
| CronTheorems.DueExactly | internal/cron/runner.go:284-290 | in every run a job is due exactly when it is switched on and its interval has passed since the end of its last completed run |
| CronTheorems.TickStartsWhatIsDue | internal/cron/runner.go:203-213 | when a tick has been through its loop, every job that was due or requested, and free when the tick began, has been started |
| CronTheorems.OnlyWhatIsWanted | internal/cron/runner.go:203-213 | a tick starts nothing that is neither requested nor switched on with its time come |
| CronTheorems.RestartIsSeamless | internal/cron/runner.go:142-146 | a restart once all runs have ended changes no status |
| CronTheorems.StepKeeps | internal/cron/runner.go:185-302 | every step keeps one owner per busy job, the flags, the held statuses, the plan and the spacing |
| CronTheorems.CoveredStep | internal/cron/runner.go:203-213 | every step keeps the jobs the loop has passed started and the others untouched |
| StatusFile.NeverStepsBack | internal/cron/runner.go:345-364 | the file holds snapshots of non-decreasing version, each a state that was in memory |
| StatusFile.SaveIsComplete | internal/cron/runner.go:345-364 | a successful save leaves in the file every change made before it was called |
| StatusFile.QuietFileIsCurrent | internal/cron/runner.go:345-364 | once nobody is saving or has unsaved changes, the last save has seen everything, and if it succeeded the file is the state in memory |
| StatusFile.StepKeeps | internal/cron/runner.go:352-364 | every step keeps the file behind the last snapshot, one holder of the lock, and every goroutine's own changes covered by its next snapshot |
| HotReload.NoUpdateLost | cmd/engine/reload.go:61-97 | in a history that hides nothing, whenever the recorded fingerprint is the file's, what is published is the file |
| HotReload.SafeIff | cmd/engine/reload.go:61-97 | no reloader can be out of date under the file's own fingerprint exactly when no version has the fingerprint of an earlier one and other content than a readable version from that one on |
| HotReload.StampBlocks | internal/ipindex/manager.go:103-105 | an idle reloader changes nothing while the file has the recorded fingerprint |
| HotReload.PassCatchesUp | cmd/engine/reload.go:61-97 | in such a history, a pass over an unchanging file publishes it, or changes nothing when it cannot be read |
| HotReload.NeverStepsBack | internal/seplist/seplist.go:139-167 | published versions only move forward |
| HotReload.StepKeeps | internal/ipindex/manager.go:86-125 | the fingerprint is never newer than the content, nor the content than the file |
| HotReload.SameStampHidesUpdate | internal/ipindex/manager.go:103-105 | for every such version there is a schedule after which the older content stays published, whatever the reloader does, until the file is replaced |
| SepList.ReadPairs | internal/seplist/seplist.go:189-210 | the pairs of the lines that have a keyword and a separator, in order |
| SepList.PairOfLine | internal/seplist/seplist.go:189-210 | a line "keyword;output" gives the folded keyword and the output without the space around it |
| SepList.NoPair | internal/seplist/seplist.go:189-210 | exactly the lines without a separator, or without a keyword before it, give nothing |
| SepList.PairsInOrder | internal/seplist/seplist.go:189-210 | lines are read one by one, each to its pair or to nothing, in order |
| SepList.Set.constructor | internal/seplist/seplist.go:61-71 | a new set holds nothing |
| SepList.Set.ReloadOne | internal/seplist/seplist.go:139-167 | content and fingerprint change together, only after a successful reading of a changed file |
| SepList.Set.Load | internal/seplist/seplist.go:77-95 | exactly the new names are registered, each with what its file held when it was read, or empty if it could not be; loaded lists stay as they are |
| SepList.Set.Reload | internal/seplist/seplist.go:125-137 | every list is reloaded as it is found at its moment, and none is added or dropped |
| SepList.EachReloaded | internal/seplist/seplist.go:125-137 | every list ends up as a reload of it alone would leave it |
| SepList.Set.Lookup | internal/seplist/seplist.go:103-121 | the output of the first pair whose keyword occurs in the folded key; "" if there is none, if the list is not registered, or without a key |
| SepList.FoundUnlessTwice | internal/seplist/seplist.go:77-107 | every list is found in a fresh set exactly when no file's name carries the extension twice |
| SepList.TwiceIsLost | internal/seplist/seplist.go:79 | a.dat.dat is not found |
| IpSet.Set.constructor | internal/ipindex/manager.go:35-45 | a new set holds nothing |
| IpSet.Set.Parse | internal/ipindex/manager.go:156-166 | the fingerprint if the file is there, and the index if it can be read too |
| IpSet.Set.Load | internal/ipindex/manager.go:51-66 | each name in turn gets its list, or an empty one, and its fingerprint |
| IpSet.Set.Reload | internal/ipindex/manager.go:86-125 | each list is reloaded as it is found at its three moments; none is added or dropped, and the others are unchanged |
| IpSet.Set.ReloadOne | internal/ipindex/manager.go:94-120 | content and fingerprint of one list change together, only after both looks and the reading succeeded |
| IpSet.EachReloaded | internal/ipindex/manager.go:86-125 | every list ends up as a reload of it alone would leave it |
| IpSet.LoadRegisters | internal/ipindex/manager.go:51-66 | exactly the names are registered, and other lists stay as they are |
| IpSet.EachLoaded | internal/ipindex/manager.go:51-66 | a loaded list holds what its file parses to, and its fingerprint, as found at its last place among the names; it is empty only if the file was absent or unreadable |
| IpSet.ReloadIsPass | internal/ipindex/manager.go:94-120 | one reload of a list, its file replaced before either look or not, is a pass of the protocol |
| IpSet.LoadThenReload | internal/ipindex/manager.go:51-125 | a reload that finds a readable file at all its looks publishes it exactly unless Load recorded its fingerprint without reading it (or it parses to the empty list) |
| IpSet.MissedStaysEmpty | internal/ipindex/manager.go:51-125 | a list so missed stays empty through any number of reloads that find that fingerprint |
| IpSet.UnreadStaysEmpty | internal/ipindex/manager.go:53-62 | one failed reading is enough: an instance of `MissedStaysEmpty` |
| GroupsWatcher.ListFiles | cmd/engine/handler.go:52-95 | exactly the names that the listed groups' streams give, each once |
| GroupsWatcher.Watcher.constructor | cmd/engine/reload.go:46-55 | the watcher starts with the startup lists known, and every IP and separation list that a listed group names registered |
| GroupsWatcher.Watcher.LoadIpLists | cmd/engine/reload.go:79-86 | every name is registered afterwards and none is forgotten; a list not loaded before holds what its file parses to at its moment, with the fingerprint taken then, empty only if the file was absent or unreadable; lists loaded before are not touched |
| GroupsWatcher.Watcher.Publish | cmd/engine/reload.go:93-94 | groups can go live only when the IP and separation lists their listed groups name are registered |
| GroupsWatcher.Watcher.Reload | cmd/engine/reload.go:61-97 | a swap, no change or a failure exactly as the file demands; after a swap every list not loaded before, IP or separation, holds what its file held at its moment; always, every list that a listed group names is registered, and if no hidden group can be served, every list that any served group names; without a swap nothing has changed |
| GroupsWatcher.AllListed | internal/config/groups.go:73-81 | every group is listed exactly when the IDs are distinct |
| GroupsWatcher.ServedListedIff | internal/config/groups.go:62-81 | every group that Get can answer is listed exactly when no hidden group has a non-empty alias that is nobody's ID and no later group's alias |
| GroupsWatcher.CollectedIsListed | cmd/engine/handler.go:52-95 | what is collected for loading is exactly what the listed groups name |
| GroupsWatcher.RegisteredIsFound | cmd/engine/reload.go:79-94 | with the lists of the listed groups registered and no hidden group served, every list named by a group found by any key is there |
| GroupsWatcher.ShadowedIsServed | internal/config/groups.go:62-81 | a group that is not listed can still be served |
| GroupsWatcher.ReloadOneIsPass | internal/seplist/seplist.go:139-167 | one reload of a list, its file replaced in between or not, is a pass of the protocol |
| GroupsWatcher.ReloadIsPass | cmd/engine/reload.go:61-97 | one reload of the groups file, replaced in between or not, is a pass of the protocol |
| Macros.Scalars | internal/render/macros.go:116-145 | the list of names and values, the extra parameters by a loop |
| Macros.ScalarValues | internal/render/macros.go:116-145 | every name stands for its own field, KEY and ORG escaped, PAR-1 to PAR-5 for the parameters there are |
| Macros.ScalarListNames | internal/render/macros.go:116-145 | the names do not depend on the visitor |
| Macros.OneScalar | internal/render/macros.go:114-116 | at most one name fits at a place, so the order of the list does not matter |
| Macros.ScalarOrRand | internal/render/macros.go:41-46 | where a scalar macro stands no RAND pattern fits |
| Macros.OneRand | internal/render/macros.go:41-46 | at most one RAND pattern fits at a place |
| Macros.NumSound | internal/render/macros.go:42 | a match of the RANDNUM pattern is the text of one |
| Macros.NumComplete | internal/render/macros.go:42 | every RANDNUM macro is matched with its bounds |
| Macros.ArgSound | internal/render/macros.go:43-45 | a match of a pattern with an argument is the text of one, without line breaks in the argument |
| Macros.ArgComplete | internal/render/macros.go:43-45 | every such macro is matched, with an argument no longer than any way of writing it |
| Macros.ArgIs | internal/render/macros.go:43-45 | a macro whose argument has no closing bracket is matched with that argument |
| Macros.StrIs | internal/render/macros.go:43 | a text begins with a RANDSTR macro exactly if it is written so, without the flag |
| Macros.LineIs | internal/render/macros.go:44-45 | a text begins with a RANDLINE or RANDDFL macro exactly if it is written so, with the flag or not |
| Spans.SplitTiles | internal/render/macros.go:64-83 | the spans lie one after the other on the template to its end, a macro wherever one begins |
| Spans.TilingUnique | internal/render/macros.go:64-83 | and there is no other way to cut it |
| Spans.OutputIsRender | internal/render/macros.go:64-83 | cutting and writing at once is writing the spans one after the other |
| Expansion.Expand | internal/render/macros.go:64-83 | the output is the span-by-span concatenation of characters and values, the spans being those of the template alone |
| Expansion.Turn | internal/render/macros.go:67-81 | one turn of the loop writes one span |
| Expansion.MacroValue | internal/render/macros.go:88-112 | the macro at the start of the text, its length and its value, or none |
| Expansion.ValueIsVerbatim | internal/render/macros.go:48-63 | at any place of any template, a scalar macro is written as its value whatever that contains, and the pass goes on behind it in the template |
| Expansion.ExpandsInPlace | internal/render/macros.go:48-83 | a template with a scalar macro and no bracket before it expands to what stands before it, the value, and the expansion of the rest where it stands |
| Expansion.RandStrLoop | internal/render/macros.go:192-202 | count characters, each drawn from the set |
| Expansion.RandStrReaches | internal/render/macros.go:192-202 | every text over the characters can be drawn |
| Expansion.RandNumInRange | internal/render/macros.go:182-189 | the number is between the bounds, in whichever order |
| Expansion.RandNumReaches | internal/render/macros.go:171-189 | every number between them can be drawn exactly when an int can count them |
| Expansion.NumExpands | internal/render/macros.go:64-189 | wherever it stands, RANDNUM is written as a number between its bounds, and the pass goes on behind it |
| Expansion.ArgExpands | internal/render/macros.go:64-202 | wherever they stand, RANDSTR is written as that many characters out of what its argument expands to, RANDLINE and RANDDFL as what the data file gives, and the pass goes on behind them |
| ReplaceCI.AsciiLower | cmd/engine/remote.go:172-185 | every ASCII capital, and nothing else, is folded, in a copy made at the first one |
| ReplaceCI.ReplaceAscii | cmd/engine/remote.go:143-158 | the folded-copy loop gives the leftmost non-overlapping case-insensitive replacement of the original bytes |
| ReplaceCI.Replace | cmd/engine/remote.go:136-159 | the empty, the non-ASCII and the ASCII find each take their path |
| ReplaceCI.FoldTells | cmd/engine/remote.go:170-172 | folded texts are equal exactly when the texts differ in the case of ASCII letters only |
| ReplaceCI.Round | cmd/engine/remote.go:152-156 | a round keeps page and folded copy aligned |
| ReplaceCI.CuttingExists | cmd/engine/remote.go:143-158 | the page is cut into hits and kept bytes, none of which begins a hit, and the result is the pieces with the replacement for every hit |
| ReplaceCI.CuttingUnique | cmd/engine/remote.go:143-158 | there is only one such cutting |
| ReplaceCI.CuttingIsPage | cmd/engine/remote.go:143-158 | its pieces make up the page |
| ReplaceCI.CaseOfFind | cmd/engine/remote.go:126-136 | the case of the text looked for does not matter |
| Offsets.PrintedIsNormal | internal/geo/geo.go:155-207 | the printed form is its own normal form exactly below 15 hours, but for the offsets of less than a minute west |
| Offsets.PrintedInjective | internal/geo/geo.go:155-165 | different whole minutes print differently |
| Offsets.PrintedApart | internal/geo/geo.go:155-165 | equal prints come from one sign and the same minutes |
| Offsets.NormIdempotent | internal/geo/geo.go:177-207 | normalizing a result changes nothing |
| Offsets.WrittenSpells | internal/geo/geo.go:174-207 | h, h:mm, hh:mm and hhmm spell h hours and m minutes |
| Offsets.SpelledIsRead | internal/geo/geo.go:174-207 | signed or not, after UTC or GMT in any case or not, a spelling is read as what it spells |
| Offsets.ZeroByName | internal/geo/geo.go:174-207 | Z, UTC and GMT are zero |
| Offsets.Meaning | internal/geo/geo.go:177-207 | what is accepted is a whole number of minutes under 15 hours |
| Offsets.TzAny | internal/router/router.go:342-359 | some value accepts the visitor's zone or offset |
| Offsets.OffsetsMatchAsNumbers | internal/router/router.go:339-359 | an offset value accepts a visitor exactly when it means the visitor's offset in whole minutes |
| Offsets.SliverMatchesNothing | internal/router/router.go:351-356 | an offset of less than a minute west is accepted by no value |
| Offsets.ZonesMatchByName | internal/router/router.go:342-359 | a value with a slash is compared with the visitor's zone, if known, and nothing else; any other has nothing to do with the zone |
| Text.NumberOfItoa | internal/geo/geo.go:162-164 | a printed number denotes what was printed |

## Left out

- HTTP, cookies, JSON, ClickHouse, Telegram, VirusTotal, MaxMind and file downloads: input, output or foreign code.
- Errors of Redis: the paths that fail open are not modelled; the store answers.
- The filters of a stream before its limit (`Why`): any function of the stream's rules and the visitor, another one at every turn of a concurrent run, except the offset filter. They would add easy members; `/regex/` matching is foreign code.
- Goroutines as memory: the protocols are step relations on values; the classes carry the code of one critical section each, so data races are excluded by assumption, not proved absent.
- LogBufRoom.DropIff: in states where the drain is not already waiting for room; a waiting batch is dropped exactly if its deadline comes first, and `LogBufRoom.NoDropInTime` covers the time before.
- LogBufTheorems.ShutdownNeverStuck: some step is always possible, and there are finitely many (`LogBufProgress.ShutdownEnds`); that the scheduler takes it is not modelled. `InsertEvents` stores a batch whole or fails.
- Text forms of addresses (`netip.ParseAddr`, `ParsePrefix`) and IPv6 zones: lines arrive parsed or malformed.
- Limits.FixedWindow: windows are in milliseconds and do not overflow; the number of seconds of a rule is not wrapped to 64 bits.
- Limits.OneCounterEach: group IDs have no colon (`Limits.ColonShares`); the text of an address is any string, one text for one visitor.
- Limits.DailyLimit: a take reaches Redis less than a day after its caller read the clock, and the key did not already exist with an expiry inside the day.
- Router.Select: alone on the store, with one reading of each clock and one filter function for the whole call, as is Router.TurnHonest; `SelectRuns` has the concurrent form with a reading and a filter per turn.
- CacheRuns.AmortisedSweeping: sweeps triggered by the budget are not counted, as in the source's claim.
- GroupLink.WalksAgree: no limiter, and one set of groups for the whole walk; a reload between two hops is not modelled, and the visitor is given.
- GroupLink.PassesAgree: for given outputs one direction; the converse is over all outputs (`PassesDiffer`).
- CronTheorems.IntervalKept: the clock does not run backwards. A request for a busy job is dropped by the source, so no claim is made that requests are kept.
- CronRunner.Runner.Check: what `exec` does, the request file and the panic handler are parameters.
- StatusFile.QuietFileIsCurrent: if the last save failed the file may or may not be current.
- A crash between a change and its save: what the next process reads is one of the versions of `NeverStepsBack`, no more is claimed.
- HotReload.NoUpdateLost: asks for a safe history (`SafeIff`); atomic replacement, one reloader per file and a consistent start are modelled as given. The watcher's startup, which takes the fingerprint after the configuration was loaded, is not modelled; what `Load` does after a read error is `IpSet.LoadThenReload`.
- SepList.Set.Lookup: `strings.ToLower` is any function, in `SepList.PairOfLine` too.
- GroupsWatcher.Watcher.Reload: separation lists are those whose names do not end in the extension, because the others are never found (`SepList.FoundUnlessTwice`); that every served group's lists are found asks that no hidden group is served (`ServedListedIff`).
- IpSet.EachReloaded: the names are different, as the keys of the map are.
- IpSet.Set.Load: what a list parses to is any type; the index itself is the subject of `Ip*.dfy`.
- Expansion.Expand: `url.QueryEscape`, the expansion of scalar macros inside a RAND argument (which does rescan, internal/render/macros.go:150-160), the random draws and the lines of data files are parameters.
- ReplaceCI.Replace: a find that is not ASCII goes to the regular expression, any function here.
- Offsets.TzAny: zone names are compared by any function, the source's Unicode folding included.
- Macro file access (`underDir`, `pickLines`), remote values, bot detection, sessions other than `LoginAllow`, antiflood uniqueness (`Unique`): left out, mostly single branches.
