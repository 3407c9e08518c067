# traintime-api: verified models

Dafny models of the parts of traintime-api whose correctness is hard to see from one function,
with proofs of what each part is for. `dafny verify dfyconfig.toml` checks everything.

| part | modules | source |
|---|---|---|
| per-pod cache and its lazy sweep | `Cache`, `Freshness` | `server/src/cache.rs`, `core/src/cache.rs` |
| single-flight fetch protocol | `Inflight*` | `server/src/fetch.rs` |
| formation strings | `Formation*` | `core/src/formation.rs` |
| Memcached client: framing, pool, skip window | `Memcached*`, `Utf8` | `server/src/memcached.rs` |
| stop events: XML search, fields, twins | `Ojp*` | `core/src/ojp.rs` |
| alerts of the monitor | `Monitor` | `monitor/src/index.js` |
| station table difference | `Diff`, `DiffSql` | `scripts/diff_stations.py` |

**How the concurrent parts are modelled.** `Inflight` and `MemcachedPool` are step machines: any
number of calls, each with a program counter, take atomic steps in any order, between steps of the
clock, of other pods and of the Memcached peer. A step ends where the source locks, unlocks, awaits or
reads the clock. `Reachable` means reachable by some run from the empty state, so every theorem
over reachable states is one over all runs. Some fields of the states are marked as history: they record
the past so that theorems can speak of it, and no step reads them. The classes `InflightPod.Pod` and
`MemcachedClient.Client` hold the same state in fields and update it in place. Their `Valid()` says
that some run leads to the state; every method keeps it, does the step of the same name and promises
what that step achieves.

**Units.** Instants of the server are nanoseconds, those of the Worker and the monitor
milliseconds, TTLs whole seconds. Bytes are characters below 256. Regular expressions are hand-written
matchers of the same language over ASCII letters and digits.

**Induction.** Lemmas with a precondition carry `{:induction false}`: none of them needs automatic
induction, and the hypothesis Dafny 4.11 adds for it takes the precondition to be meaningful for values
of other types too.

**What was found.**

- The comment at `server/src/fetch.rs:31-33` promises one upstream call per cache key per pod. The
  lookup is not under the lock, so a call that misses before a store may fetch again just after it:
  `InflightProgress.SecondFetchIsPossible` builds such a run for every key, TTL and value. What holds
  instead is exact: a call that holds the lock fetches if and only if no call leads its key, whatever
  has been stored (`InflightTheorems.FetchesIff`), and a live store of the key only shows that the
  call looked up before it (`InflightTheorems.RefetchBound`).
- The sweep goes by fetch time, not by expiry. With a TTL above 300 s it drops live entries, and
  300 s is exactly the bound up to which no sweep can be observed: `Cache.TtlBoundIsExact`.
- `mark_failed` reads the clock before it takes the lock, so of two racing failures the older stamp
  may be written last and end the skip window early: `MemcachedPoolTheorems.RacingFailuresCutTheWindow`.
  `MemcachedPoolTheorems.WindowHoldsIff` says exactly when a window holds.
- Between 300 s and 301 s of age the Worker still serves a stale payload and the server does not. The
  Worker also cuts both clocks to milliseconds before it subtracts, so just before a full second its age
  may be one second too many. `Freshness.RuntimesAgree` says exactly when the two agree.
- Clearing the last wagon's `no_passage_after` (`core/src/formation.rs:189-192`) never changes anything:
  `Formation.BuildWagons` proves the wagons equal before and after.

## Model

| member | source | states |
|---|---|---|
| `Cache.Cache.Lookup` | server/src/cache.rs:41-48 | the shared cache's answer wins; otherwise a live entry of this pod and nothing else, with TTLs of at most 300 s that of a cache that never forgets |
| `Cache.Cache.Get` | server/src/cache.rs:59-65 | a value exactly while its expiry lies in the future; it is the latest put of its key, and with TTLs of at most 300 s every live latest put is returned |
| `Cache.Cache.GetStale` | server/src/cache.rs:69-77 | a value and its age in whole seconds exactly up to the given age, fresh entries included; it is the latest put of its key, and inside 300 s every such put is returned after the last sweep |
| `Cache.Cache.PutAt` | server/src/cache.rs:83-97 | the put is appended to the run of puts the map replays; the map is swept first if it held more than 4096 entries and then keeps exactly the recent keys and the new one |
| `Cache.SweptOnlyOld` | server/src/cache.rs:83-97 | over any run of puts, what the cache holds is what a map that never forgets holds, and whatever is missing was stamped 300 s or more before the last sweep |
| `Cache.LatestIsLast` | server/src/cache.rs:83-97 | the never-forgetting map holds the last put of each key |
| `Cache.GetRefinesHistory` | server/src/cache.rs:59-97 | with TTLs of at most 300 s, `get` answers at every instant as the map that never forgets |
| `Cache.GetStaleRefinesHistory` | server/src/cache.rs:69-97 | `get_stale` with a maximal age of at most 300 s answers as that map if and only if not at the instant of a sweep for an entry exactly 300 s old |
| `Cache.GetStaleRefinesHistoryAfterSweep` | server/src/cache.rs:69-97 | strictly after the last sweep `get_stale` always answers as that map |
| `Cache.TtlBoundIsExact` | server/src/cache.rs:83-97 | no sweep is ever visible through `get` if and only if TTLs are at most 300 s |
| `Cache.SweepDropsLiveEntry` | server/src/cache.rs:85-88 | for every longer TTL there is a run of puts after which a live entry is gone |
| `Cache.SweepingPutKeepsExactlyRecent` | server/src/cache.rs:83-97 | after a put that sweeps, the keys are exactly those stamped inside the 300 s before it and the new one |
| `Cache.MemoryBound` | server/src/cache.rs:83-97 | after every put of any run the map holds at most 4097 entries, or exactly as many as there are keys stamped inside the window; up to 4096 entries nothing is dropped |
| `Cache.KeptWhileRecent` | server/src/cache.rs:83-97 | while a put is younger than 300 s its key stays, under that put or a later one of the key |
| `Cache.StaleWhileRecent` | server/src/cache.rs:69-97 | for as long, `get_stale` returns that put's value or a later one's, with its age |
| `Freshness.RuntimesAgree` | core/src/cache.rs:24-33 | for one entry at one instant, any TTL and clocks cut to milliseconds, the Worker and the server give the same verdict if and only if the Worker's age in seconds is right and the entry is not past its TTL strictly between 300 s and 301 s, or that age is one too many without reaching the TTL or with both calling the entry gone |
| `Freshness.WorkerAge` | core/src/cache.rs:25 | the difference of the two cut clocks is the age in whole seconds or, less than a millisecond before the next second, one more |
| `Freshness.WorkerServesLonger` | core/src/cache.rs:24-33 | strictly above 300 s, while the Worker counts 300 s, it serves the payload as stale and the server has none |
| `Freshness.SkewedClocks` | core/src/cache.rs:25 | a fetch time ahead of the clock counts as age zero: fresh for every positive TTL, stale with age 0 for TTL 0, and the server's `get_stale` finds it with age 0 |
| `InflightPod.Pod.Look` | server/src/fetch.rs:49-58 | the call becomes leader of its key, listed under a Notify of its own, if and only if no call leads the key; otherwise it finds the Notify of the call that does and will notify it |
| `InflightPod.Pod.Enable` | server/src/fetch.rs:50-52 | the call is registered with a leader of its own key that has yet to notify |
| `InflightPod.Pod.Land` | server/src/fetch.rs:62-64 | the value, fetched for the key, becomes the latest store of the key, stamped no earlier than any before it |
| `InflightPod.Pod.Remove` | server/src/fetch.rs:65 | the entry removed is the leader's own, and no call is left between finding that entry and registering on it |
| `InflightPod.Pod.NotifyWaiters` | server/src/fetch.rs:66-70 | the calls woken are exactly those that wait for this leader, all of them for its key, and no other Notify changes |
| `InflightPod.Pod.Wake` | server/src/fetch.rs:53-55 | a woken call goes on to look for a live entry, with the error "upstream unavailable" should it find nothing |
| `InflightPod.Pod.FromCacheFresh` | server/src/fetch.rs:74-77 | a value returned is the latest store of the key and alive; with TTLs of at most 300 s a live one is always returned |
| `InflightPod.Pod.FromCacheStale` | server/src/fetch.rs:78-81 | the call returns the latest store of its key with its age of at most 300 s, or fails with nothing stored for its key in the last 300 s |
| `InflightPod.Pod.Act` | server/src/fetch.rs:40-82 | every step of every call keeps the pod in a state some run leads to, and the total of steps the calls have left falls |
| `InflightPod.Pod.LookUp` | server/src/fetch.rs:45-47 | a local hit is the latest store of the key and alive; with TTLs of at most 300 s a live one is always found |
| `InflightPod.Pod.Acquire` | server/src/fetch.rs:48-65 | the call that takes the lock is then the only one in a critical section |
| `InflightPod.Pod.Cached` | server/src/fetch.rs:40-82 | a call with no other under way returns the shared answer, else a live entry, else what upstream answers: a success is stored with its stamp and returned, after a failure the last payload of at most 300 s is returned as stale |
| `InflightOwnership.OwnershipKept` | server/src/fetch.rs:48-66 | every step keeps the lock's owner, the leaders, their Notifies and the listed keys in one-to-one agreement |
| `InflightWaiters.WaitersKept` | server/src/fetch.rs:49-66 | every step keeps each waiter registered with a leader that has yet to notify, or woken |
| `InflightStores.StoreKept` | server/src/fetch.rs:45-82 | every step keeps the cache equal to the replay of the puts made, each of them a value fetched for its key |
| `InflightTheorems.MutualExclusion` | server/src/fetch.rs:48-66 | at most one call per key lies between insert and remove |
| `InflightTheorems.KeysAreTheLedKeys` | server/src/fetch.rs:57-65 | the map lists exactly the keys being led, each under its own leader's Notify |
| `InflightTheorems.RemoveTakesOwnEntry` | server/src/fetch.rs:65 | a leader removes its own entry, and no call is then between finding that entry and registering on it |
| `InflightTheorems.NotifyWakesExactlyOwnWaiters` | server/src/fetch.rs:66 | notifying wakes every waiter of the leader's own Notify and no waiter of another leader, even of one that has started over on the same key |
| `InflightTheorems.NoLostWakeup` | server/src/fetch.rs:49-66 | every waiting call has been woken, or is registered with a leader that will still notify it |
| `InflightTheorems.ReturnsOnlyFetched` | server/src/fetch.rs:40-82 | every value returned for a key was fetched successfully for that key by this pod, and no stale value is older than 300 s; only an answer of the shared cache may have been fetched by another pod |
| `InflightTheorems.StoresAreSerialised` | server/src/fetch.rs:57-65 | stores to one key carry stamps that never go back |
| `InflightTheorems.LeaderStoredBeforeWaking` | server/src/fetch.rs:61-66 | when a waiter of a successful leader reads the cache, that leader's value has been stored |
| `InflightTheorems.WaiterReadsCached` | server/src/fetch.rs:53-55 | inside that store's TTL and 300 s of its stamp the waiter gets that value or a later store's as Cached, whatever is stored or swept meanwhile and whatever TTLs other keys use |
| `InflightRetries.WokenReadsCached` | server/src/fetch.rs:53-77 | from the moment it is woken: inside that store's TTL and 300 s of its stamp, the waiter's own next two steps return that value or a later store's as Cached |
| `InflightRetries.WaiterMissesOnlyExpired` | server/src/fetch.rs:53-82 | under any interleaving, a waiter of a successful leader that returns a stale answer or an error had first looked for a live entry, at an instant at which its leader's store was past its TTL or 300 s |
| `InflightRetries.WaiterResult` | server/src/fetch.rs:54-82 | a waiter never returns as Fresh, and fails with "upstream unavailable" only |
| `InflightRetries.LeaderResult` | server/src/fetch.rs:61-82 | a leader returns what it fetched as Fresh; after an error it returns a cached or stale answer or that very error |
| `InflightTheorems.WaiterNeverFailsInsideWindow` | server/src/fetch.rs:74-82 | within 300 s of that store the second read never fails: it returns that value or a later one with an age no greater than that store's |
| `InflightTheorems.RefetchBound` | server/src/fetch.rs:45-61 | a call that goes on to fetch although a store to its key was made looked the key up before that store, or at least a TTL, or 300 s if that is less, after its stamp |
| `InflightTheorems.FetchesIff` | server/src/fetch.rs:48-58 | a call that holds the lock fetches if and only if no call leads its key; with a store of the key still sure to be found, it looked the key up before that store |
| `InflightProgress.Progress` | server/src/fetch.rs:40-71 | while a call has not returned, some call can take a step |
| `InflightProgress.StepsAreBounded` | server/src/fetch.rs:40-71 | without new calls every schedule is finite: a measure falls with every step of a call |
| `InflightProgress.ExhaustedMeansReturned` | server/src/fetch.rs:40-71 | a schedule that can go no further has brought every call back |
| `InflightProgress.EveryCallReturns` | server/src/fetch.rs:40-71 | from every reachable state all calls can be brought back |
| `InflightProgress.SecondFetchIsPossible` | server/src/fetch.rs:31-48 | for every key, TTL and value a run in which two calls of one pod fetch the key at one instant, the second after the first has stored it |
| `FormationToken.MatchIsSound` | core/src/formation.rs:83-86 | a match is one way the token can be written |
| `FormationToken.MatchIsComplete` | core/src/formation.rs:83-86 | every token of the grammar matches, with the groups it was written from |
| `FormationToken.MatchIffRendered` | core/src/formation.rs:83-86 | a token matches with given groups if and only if they are what it is written from, so the groups are unique |
| `FormationToken.FirstKindIsUnique` | core/src/formation.rs:83-86 | 12 is never read as 1, nor FA as F: what follows a type is never part of a longer one |
| `FormationToken.MatchRendered` | core/src/formation.rs:83-86 | a parenthesis before the type with no status in between is read in the first of its two places, and means the same |
| `FormationToken.KindsAreLiteral` | core/src/formation.rs:84 | the fourteen types as they are written |
| `Text.TrimTakesBlanks` | core/src/formation.rs:99 | trimming takes exactly the blanks around a text |
| `Text.CharactersAre` | core/src/formation.rs:101 | the characters that count as blanks, digits and letters, by number |
| `Text.ParseBelowIs` | core/src/formation.rs:121 | digits are a number below a bound if and only if they are zeros and that number in decimal |
| `Formation.TakeMarks` | core/src/formation.rs:99-114 | a leading and a trailing sector mark, and the token without them |
| `Formation.MarksAre` | core/src/formation.rs:100-114 | a token is its leading mark, its body and its trailing mark again, a mark being an @ and one letter in either case; a mark is missing only where none stands |
| `Formation.ParseFormationShortString` | core/src/formation.rs:82-195 | the loops over tokens and vehicles compute the sectors of the left-to-right scan and the wagons of the declarative reading, whose fields `FormationWagons.WagonIsWritten` states |
| `Formation.BuildWagons` | core/src/formation.rs:138-192 | the loop with one vehicle of lookahead and a carried flag computes the declarative wagons, whose fields and boundaries `FormationWagons` states, and clearing the last flag changes nothing |
| `Formation.BlockedMeans` | core/src/formation.rs:139-152 | passage between p and q is shut if and only if some vehicle in [p, q) closes or some vehicle in (p, q] opens |
| `Formation.BoundaryMeans` | core/src/formation.rs:138-192 | a wagon has no passage after it if and only if there is a next passenger wagon and passage between the two is shut |
| `Formation.PassengersAreAll` | core/src/formation.rs:142-146 | the wagons are exactly the vehicles that are not LK, D, F or X |
| `Formation.FeaturesAreNamed` | core/src/formation.rs:154-173 | the features a car has are named, each once and in the fixed order, `bike` last |
| `FormationRoundTrip.PrintParseRoundTrip` | core/src/formation.rs:72-136 | printing any list of vehicles and parsing it, with marks and offers in either case, brackets, blanks around tokens and any numbers, yields the distinct sectors in order of first appearance and the wagons of those vehicles, each in the sector of the last mark before it; a number from 2^32 on counts as none |
| `FormationWagons.WagonIsWritten` | core/src/formation.rs:138-187 | the wagon of a passenger car written in some slot is the next in order: its position counts the cars before it, its number is the one written or else the position, with the flag, first class means type 1, W1 or 12, mixed 12, closed a `-`, and the features are exactly those of its type, status and offers, in the fixed order |
| `FormationWagons.BoundaryIsWritten` | core/src/formation.rs:138-192 | it has no passage after it if and only if a further passenger car was written and some vehicle from the one to the other was written with a parenthesis on the side that faces the other |
| `FormationRoundTrip.DistinctHasEachOnce` | core/src/formation.rs:91-96 | every sector met is listed exactly once |
| `FormationRoundTrip.DistinctKeepsOrder` | core/src/formation.rs:91-96 | in the order of first appearance |
| `FormationRewrites.BracketsAreIdle` | core/src/formation.rs:98-99 | in text without whitespace, removing the square brackets changes neither sectors nor wagons |
| `FormationRewrites.UnknownTokenIsIdle` | core/src/formation.rs:98-132 | a token without marks that the grammar does not know changes neither sectors nor wagons |
| `FormationRewrites.InsertedFillerParses` | core/src/formation.rs:138-146 | nor does inserting an LK, D, F or X token without marks or parentheses between two tokens |
| `FormationRewrites.LeadingFillerParses` | core/src/formation.rs:138-146 | nor in front |
| `FormationRewrites.TrailingFillerParses` | core/src/formation.rs:138-146 | nor at the end |
| `FormationRewrites.PlainTypesAreFillers` | core/src/formation.rs:77-78 | the four types written on their own are such tokens |
| `FormationRewrites.PaddingIsIdle` | core/src/formation.rs:138-146 | for vehicles: inserting one that is no passenger car and shuts nothing keeps all wagons and boundaries |
| `FormationRewrites.TrailingMarkMoves` | core/src/formation.rs:100-135 | a trailing `@S` may as well lead the next token, if that has no mark in front |
| `FormationRewrites.MirrorReversesCars` | core/src/formation.rs:140-188 | reversing the vehicles and swapping their ends reverses the wagons |
| `FormationRewrites.MirrorReversesBoundaries` | core/src/formation.rs:140-152 | and mirrors every boundary between neighbours |
| `MemcachedConn.Conn.ReadLine` | server/src/memcached.rs:132-138 | takes exactly one line off the stream, or what is left when the peer has closed, and fails on an empty closed stream or invalid UTF-8 |
| `MemcachedConn.Conn.GetOn` | server/src/memcached.rs:155-178 | sends exactly the request, and takes exactly one reply off the stream, fails or waits as the wire reading says |
| `MemcachedConn.Conn.GetReply` | server/src/memcached.rs:159-177 | takes exactly one reply to a `get` off the stream, fails or waits as the wire reading says |
| `MemcachedConn.Conn.SetOn` | server/src/memcached.rs:180-189 | the same for `set`, accepting STORED only |
| `MemcachedWire.GetRequestReadsBack` | server/src/memcached.rs:155-158 | the peer reads a request back as its key, and takes no byte more, if and only if the key is not empty, holds neither space nor newline and does not end in a carriage return |
| `MemcachedWire.SetRequestReadsBack` | server/src/memcached.rs:180-184 | for every valid key, TTL and value, even one holding line ends or END, the peer reads back exactly these |
| `MemcachedWire.HitReadsBack` | server/src/memcached.rs:159-177 | a hit with any bytes for a value yields that value, or an error if it is not UTF-8, and nothing beyond the reply is taken |
| `MemcachedWire.MissReadsBack` | server/src/memcached.rs:159-162 | a miss yields none and nothing beyond the reply is taken |
| `MemcachedWire.StoredReadsBack` | server/src/memcached.rs:185-186 | STORED is accepted and nothing beyond the reply is taken |
| `MemcachedWire.GetReplyStays` | server/src/memcached.rs:159-177 | a reply read in full reads the same when more bytes follow |
| `MemcachedGrammar.GetReplyIs` | server/src/memcached.rs:132-177 | on any stream of bytes: END is a miss; a hit is a header with a length in its fourth word, a value of that length in valid UTF-8, any two bytes and END; nothing else is accepted, and only what is cut short is waited for |
| `MemcachedGrammar.SetReplyIs` | server/src/memcached.rs:132-188 | on any stream: only the line STORED is accepted, and only a line cut short is waited for |
| `MemcachedGrammar.LineIs` | server/src/memcached.rs:132-138 | a line goes up to the first newline or, once the peer has closed, to the end, must be valid UTF-8 and loses all its line ends |
| `Utf8.ValidIffEncoded` | server/src/memcached.rs:175 | valid UTF-8 is exactly what encodes a sequence of Unicode scalar values |
| `MemcachedSession.SessionIsMap` | server/src/memcached.rs:155-189 | over any session of valid operations the bytes exchanged carry exactly the operations of a map with eviction, and no reply leaves a byte unread |
| `MemcachedReplies.ErrorReplyIsRefused` | server/src/memcached.rs:164-188 | an error line is never taken for an answer, wherever it is cut |
| `MemcachedReplies.AnswerIsWhole` | server/src/memcached.rs:155-189 | whatever part of a conforming reply has arrived, reading it gives nothing or the answer of the whole reply, leaves nothing unread, and needed all of it unless the peer closed |
| `MemcachedReplies.ValueMeansHit` | server/src/memcached.rs:163-177 | a value is only ever given by a hit for the command's own key |
| `MemcachedReplies.ExpectedReplies` | server/src/memcached.rs:155-189 | for every key of 1 to 250 bytes without control bytes, spaces or DEL, the replies spelled out byte by byte are ones the peer may send and are taken for what they say |
| `MemcachedReplies.AcceptedIsPlain` | server/src/memcached.rs:48-63 | exactly such keys are sent, with a set only for a TTL of at least 1 |
| `MemcachedClient.Client.PassGate` | server/src/memcached.rs:65-75 | the call passes if and only if no failure was recorded or 30 s have passed since the stamp of the failure written last |
| `MemcachedClient.Client.Start` | server/src/memcached.rs:48-63 | a call goes on to the gate if and only if its key is 1 to 250 bytes without control bytes, spaces or DEL and, for a set, its TTL is at least 1 |
| `MemcachedClient.Client.Pop` | server/src/memcached.rs:91-96 | the connection pooled last is taken; it has no unread byte, none on its way and no unanswered command, and no other call uses it |
| `MemcachedClient.Client.Push` | server/src/memcached.rs:99-103 | the pool then holds at most eight connections, all different and all in sync, this one among them if and only if there were fewer than eight |
| `MemcachedClient.Client.MarkFailed` | server/src/memcached.rs:77-79 | from then on a call passes the gate exactly from 30 s after this stamp, until another failure is recorded |
| `MemcachedClient.Client.Act` | server/src/memcached.rs:83-118 | every step of every call keeps the client in a state some run leads to, and the total of steps the calls have left falls |
| `MemcachedClient.Client.Receive` | server/src/memcached.rs:97-98 | read off the connection by the reply readers, an answer accepted is what the reply to this very call gives, and leaves the connection in sync |
| `MemcachedClient.Client.GiveUp` | server/src/memcached.rs:107-116 | a connection whose call failed or timed out is dropped: neither pooled nor used by another call |
| `MemcachedClient.Client.Call` | server/src/memcached.rs:48-118 | a call with a plain key and a positive TTL, outside the 30 s window and over an open connection, returns exactly what the peer's reply gives; a result is never anything else; other keys and calls inside the window touch no connection; every other call without a result records a failure; the pool stays in sync |
| `MemcachedPoolProofs.StepKeeps` | server/src/memcached.rs:65-118 | every step of a call, the peer, the network or the clock keeps connections, calls, pool and window in agreement |
| `MemcachedPoolTheorems.IdleInSync` | server/src/memcached.rs:91-103 | a pooled connection has no unread byte, none on its way and no unanswered command |
| `MemcachedPoolTheorems.PoolIsBounded` | server/src/memcached.rs:99-102 | the pool never holds more than 8 connections, nor one twice |
| `MemcachedPoolTheorems.ExclusiveUse` | server/src/memcached.rs:91-103 | no two calls use one connection, and none uses a pooled one |
| `MemcachedPoolTheorems.ReturnsItsOwnReply` | server/src/memcached.rs:83-118 | a call that succeeds returns what the peer's reply to that very call says; a value comes from a hit for its own key |
| `MemcachedPoolTheorems.RefusedIsNeverSent` | server/src/memcached.rs:48-63 | calls with an empty key, one of more than 250 bytes or one holding a control byte, a space or DEL, and sets with a zero TTL, never leave their first step |
| `MemcachedPoolTheorems.NeverStuck` | server/src/memcached.rs:83-118 | every unfinished call can proceed or be timed out |
| `MemcachedPoolProgress.StepsAreBounded` | server/src/memcached.rs:83-118 | without new calls every schedule of the calls is finite, whatever the peer, the network and the clock do |
| `MemcachedPoolProgress.ExhaustedMeansReturned` | server/src/memcached.rs:83-118 | a schedule that can go no further has brought every call back |
| `MemcachedPoolTheorems.GateIsExact` | server/src/memcached.rs:65-79 | a call passes the gate if and only if no failure was recorded or 30 s have passed since the stamp of the failure written last |
| `MemcachedPoolTheorems.WindowHoldsIff` | server/src/memcached.rs:65-79 | inside the 30 s after a failure every call at the gate is refused if and only if the failure written last is not an older one |
| `MemcachedPoolTheorems.RacingFailuresCutTheWindow` | server/src/memcached.rs:77-79 | a run in which a call passes 1 s after a failure, because an older failure was written later |
| `OjpXml.XmlBlocks` | core/src/ojp.rs:93-107 | the loop yields, for every opening tag from left to right and not overlapping, the text up to the first closing tag after it |
| `OjpXml.FindClose` | core/src/ojp.rs:96-102 | the end of the leftmost closing tag |
| `OjpXml.EveryTagHasItsBlock` | core/src/ojp.rs:93-107 | an opening tag anywhere outside another tag has its block, also inside a block of the same name |
| `OjpXml.BlocksAfter` | core/src/ojp.rs:93-107 | and the blocks of what follows a text come after those that start in it |
| `OjpXml.LeafTextIs` | core/src/ojp.rs:86-90 | the text of a leaf is that of the leftmost opening tag followed by text without tags and right after it the closing tag, trimmed, and there is none only if no such place exists |
| `OjpXml.CloseEndIs` | core/src/ojp.rs:96-102 | the end found is that of the leftmost closing tag, if there is one |
| `OjpItems.LexBlocks` | core/src/ojp.rs:93-107 | on text made of tags and words, `xml_blocks` finds exactly the blocks of the tag sequence |
| `OjpItems.LeafTakes` | core/src/ojp.rs:86-90 | an opening tag, text without tags and its closing tag yield the trimmed text |
| `OjpItems.BlocksStartEarly` | core/src/ojp.rs:92-107 | if names in front of an element merely start like its own, the first block may start there but ends with the element |
| `OjpTags.NameStarts` | core/src/ojp.rs:95 | of all names searched for, only StopEventResult starts like another (StopEvent) and ServiceDeparture (Service), folding case |
| `OjpTags.NameOpens` | core/src/ojp.rs:86-113 | an opening tag with any attributes matches exactly the patterns of its own name and of those it starts with |
| `OjpTags.NamespacedOpens` | core/src/ojp.rs:86-97 | also behind a namespace prefix |
| `OjpTags.NameCloses` | core/src/ojp.rs:86-113 | a closing tag matches its own name only |
| `OjpTags.NamespacedCloses` | core/src/ojp.rs:86-97 | also behind a namespace prefix |
| `OjpTags.OpeningsAre` | core/src/ojp.rs:86-113 | `xml_text` opens at the exact name, `xml_blocks` at the name in any case, both with or without a namespace, `xml_lang_text` at Text in any case without one; whatever follows the name |
| `OjpTags.ClosingsAre` | core/src/ojp.rs:86-113 | closing tags are the whole name, in the same cases and with the same namespaces |
| `OjpFinding.FindChild` | core/src/ojp.rs:93-107 | the first block of a name is the first child element of that name, if nothing else in sight opens like it |
| `OjpFinding.FindText` | core/src/ojp.rs:86-113 | the text found for a name is that of the first such child |
| `OjpTheorem.EarlyBlock` | core/src/ojp.rs:125-137 | the first block of a name ends with the first child of that name, wherever it starts |
| `OjpTheorem.ServiceBlock` | core/src/ojp.rs:132-137 | the service found is the event's, preceded at most by a tail of the call that opens none of the names looked up in it |
| `OjpTheorem.CallScope` | core/src/ojp.rs:169-175 | departure and quays are looked up in the stop of the call, in the call without one, or in the event without a call |
| `OjpTheorem.ResultIsRead` | core/src/ojp.rs:125-207 | from every result, with services and calls in any number and order, any attributes and namespaces, and in between any markup that does not open or close a name where that is looked up, the fields extracted are those the result says; without an event or a service there is none |
| `OjpTheorem.DocumentIsRead` | core/src/ojp.rs:118-230 | in every document, whose results may be surrounded by anything that does not open like a result, all results are found, in order, and read for what they say |
| `OjpTheorem.OtherCallsAreAllowed` | core/src/ojp.rs:132-207 | other calls with stops, departures and quays of their own may stand around the call and the service |
| `OjpWritten.WrittenIsRead` | core/src/ojp.rs:118-230 | any list of events written out with any texts free of `<`, the call before or after the service, is read back to exactly its fields, trimmed |
| `OjpBoards.BoardMeans` | core/src/ojp.rs:139-267 | whatever the results say: events share a row if and only if both have a journey and their operating day and journey, joined by a bar, are the same text; each row shows the first of the latest of them, with destination, category, number, platform, platform change, departure, delay, train number and operator stated from the texts; rows are sorted and no event is missing |
| `OjpBoards.DocumentBoard` | core/src/ojp.rs:118-267 | for every document, the board is that of what its results say |
| `OjpText.TextBoard` | core/src/ojp.rs:118-267 | for every list of events, the board of the text with the element names spelled out is that of the events |
| `OjpEvents.ParseStopEvents` | core/src/ojp.rs:118-231 | the loop over the results computes the board that `OjpBoards` and `OjpText` describe |
| `OjpEvents.DelayMeans` | core/src/ojp.rs:203-207 | a delay is shown if and only if the estimate is at least 30 s late, and is the nearest number of minutes |
| `OjpEvents.DepartureMeans` | core/src/ojp.rs:197-202 | the departure is the timetabled time in whole seconds |
| `OjpTwins.KeepLatestPerJourney` | core/src/ojp.rs:243-267 | the loop with its index map and replacement in place, and the sort, compute the declarative collapse |
| `OjpTwins.Best` | core/src/ojp.rs:252-257 | of the events that share a key, the first with the latest departure |
| `OjpTwins.RowIsBest` | core/src/ojp.rs:243-267 | every row is an unkeyed event or the best of its key |
| `OjpTwins.OneRowEach` | core/src/ojp.rs:243-267 | every unkeyed event and every key has exactly one row |
| `OjpTwins.KeysAreDistinct` | core/src/ojp.rs:238-240 | no two rows share a key |
| `OjpTwins.RowsAreSorted` | core/src/ojp.rs:265 | rows are sorted by departure, and rows that depart together by the first occurrence of their keys |
| `OjpTwins.LeadsOn` | core/src/ojp.rs:247-263 | the index map leads every key seen to its own row, also after a replacement in place |
| `Monitor.Worker.RunChecks` | monitor/src/index.js:42-53 | each check delivers a push if and only if it lands and the runs and delivered alerts of that check make one due; other checks are untouched, and no unchanged state is written |
| `Monitor.Worker.StepChecks` | monitor/src/index.js:42-53 | whatever is stored, every check reads afterwards as if its next state had been written |
| `Monitor.PushedWhenDue` | monitor/src/index.js:172-200 | for every history of runs, a push is attempted if and only if it is due by the runs and the alerts delivered so far: recovered on a green run of an announced outage, a reminder on a failing run of one at hour 8 unless the last reminder bears that date, down on a failing run after a failing run otherwise |
| `Monitor.MissingCount` | monitor/src/index.js:193 | a stored state without a count of failures is read as if the count were zero |
| `Monitor.AlertsAreWellFormed` | monitor/src/index.js:174-200 | whatever lands and whatever does not, the delivered pushes of a check form a prefix of (down reminder* recovered)* |
| `Monitor.AlertsAreDue` | monitor/src/index.js:172-200 | every delivered down ends two failing runs in a row, every reminder falls on a failing run at eight, every recovered on a green run |
| `Monitor.OneReminderPerDay` | monitor/src/index.js:185-191 | successive delivered reminders bear different dates, and when dates do not go back no two bear the same |
| `Monitor.RemindedIsLast` | monitor/src/index.js:187-189 | the stored date is that of the last reminder delivered |
| `Monitor.SinceIsLastChange` | monitor/src/index.js:178-197 | the stored instant is that of the last down or recovered delivered |
| `Monitor.DeliveryCatchesUp` | monitor/src/index.js:45-48 | after a run whose pushes land, the check is down if and only if that run failed and the one before did too or the check was down already |
| `Monitor.StatusFollowsStreak` | monitor/src/index.js:172-200 | when all pushes land, a check is down exactly from its second failing run in a row to its next green one |
| `Monitor.UndeliveredIsSentAgain` | monitor/src/index.js:45-48 | a push that did not land is sent again by the next run with the same outcome, a reminder if and only if that run is still in its hour and unreminded |
| `Diff.LoadIsLast` | scripts/diff_stations.py:15-25 | loading keeps one row per id, the last one |
| `Diff.DiffReachesTarget` | scripts/diff_stations.py:42-56 | the statements executed on the current table yield exactly the target table |
| `Diff.OnlyChangesAreWritten` | scripts/diff_stations.py:46-47 | an id is written if and only if its row differs, and then exactly once |
| `Diff.BatchesAreBounded` | scripts/diff_stations.py:37-39 | every statement writes between 1 and 500 rows, and exactly 500 unless it is the last of its kind |
| `Diff.ChunksCover` | scripts/diff_stations.py:37-39 | the batches in order are the items |
| `DiffSql.QuoteReadsBack` | scripts/diff_stations.py:28-29 | every string survives quoting, whatever quotes it holds |
| `DiffSql.ValuesReadBack` | scripts/diff_stations.py:32-34 | a printed row is read back in front of anything |
| `DiffSql.ScriptReadsBack` | scripts/diff_stations.py:49-56 | a printed script is read back to its statements |
| `DiffSql.MainReachesTarget` | scripts/diff_stations.py:42-56 | from the two files as they are, the printed script, read back and executed on the current table, gives exactly the target table |

## Left out

- Cancellation or panic of a leader between insert and remove: the source has no guard, so the key would stay listed. The results in `InflightProgress` assume that fetches finish and leaders run to completion.
- InflightTheorems.WaiterReadsCached: the calls for one key use one TTL, as the configured one is for departure keys and 300 s for formation keys; beyond 300 s of the stamp a sweep may drop the entry (`Cache.SweepDropsLiveEntry`).
- InflightTheorems.RefetchBound: under the same condition on the calls for that key.
- InflightTheorems.ReturnsOnlyFetched: what the shared cache answers is any value this pod or another has fetched for the key; how long Memcached keeps it is not modelled.
- MemcachedWire.SetRequestReadsBack: the peer is a reader of the two commands this client sends; other clients, and Memcached's limit on the size of values, are not modelled.
- MemcachedConn.Conn.GetOn: a length within two of the largest `usize` would overflow `len + 2`; the model's integers do not.
- The timeout of 50 ms: in the model it may strike at any step that talks to the peer.
- FormationRewrites.BracketsAreIdle: text with whitespace, where the source trims before it removes brackets.
- OjpXml.XmlBlocks: case folding is that of ASCII; the regex crate also folds the long s and the Kelvin sign. The cache of compiled patterns has no observable effect and is left out.
- OjpEvents.ParseStopEvents: the timestamp parser is an arbitrary function to whole milliseconds or not-a-number; instants so large that a float or an `i64` cannot hold them are not modelled.
- OjpTheorem.DocumentIsRead: markup that opens or closes a name where the parser looks for it, such as a tag starting like JourneyRef in front of the service, is read as that name and is excluded; elements whose known parts are nested otherwise than in the shapes count as such markup.
- DiffSql.MainReachesTarget: latitudes and longitudes are numerals, one for each number; float printing and parsing are not modelled.
- Monitor.Worker.RunChecks: the store is a map read back at once, and states are records rather than JSON text; a state stored by other hands with its fields in another order would be written once more. Probes, parity and message wording are inputs.
- The store that follows a fetch also writes the shared cache, and a client is made from an address: neither is modelled.
- HTTP routing, CORS, authentication, rate limits, D1, the Workers Cache API, JSON, time zones and sockets: plumbing over libraries.
- `core/src/geo.rs`, `core/src/stations.rs`, `core/src/auth.rs`, `core/src/reqlog.rs`, `core/src/favourites.rs`, `operator_ref_to_evu`, `extract_train_number`: short functions that would only add easy members.
