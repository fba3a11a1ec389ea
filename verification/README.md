# Aura Redis data plane: model and proofs

A Dafny model of the C data plane of aura-redis (`native/src`) with proofs of what it keeps and what it
promises. `dafny verify dfyconfig.toml` checks the whole project.

## What is modelled

**The keyspace** (`Keyspace.Store`, after `ArCore`). A class whose methods are the store calls of the C
code: lookups that free due entries, SET with its options, APPEND, RENAME, the EXPIRE family, pins, the
typed HASH, LIST and ZSET commands, FLUSHDB, SCAN, KEYS and DBSIZE, the sampling eviction kernels and
the guarded eviction loops, active expiry, rehash, promotion, demotion and the migration between the
`flat` and `hot_cold` layouts. Its fields are those of `ArCore` that matter: two chained tables, the key
counts per tier, the hand-kept counters, the settings, the clock, the connections. The numbers `rand()`
gives are an arbitrary sequence fixed when the store is made, of which each sampled bucket takes the next.

- `Chains` holds the chained hash table (FNV-1a bucket, linking at the head, relinking loops), used for
  the keyspace and for the fields of a hash; `Tiers` the pair of tables with the counters and the bucket
  walk; `Values` the stored values and the bytes they are charged for; `Watching` the WATCH state of
  the connections and the two touch loops.
- `Reference` is the independent definition: the plain map from keys to records (value, deadline, pin)
  that a client is promised, with every data command as a function on that map. The store's methods are
  proved against it: `Follows(before, cmd, now, exact, after, reply)` says that the state afterwards is the
  reference state, short of records that were due (and, unless `exact`, of unpinned records that were
  evicted), and that the reply is the reference reply, or the error of a write whose new key was itself
  evicted.
- `Eviction` defines the sampling kernels and the guarded loops as functions of the tiers and the random
  sequence. The store's methods are proved to compute them, and the lemmas there say which entry a round
  frees and how far a loop gets; `Flooding` builds the store on which the loop of a typed write gives up.
- `Usage` says what the victims mean to a client. The ghost field `leak.marks` keeps, by the invariant, the
  access age and the frequency of every linked entry; along every run under one kernel these are what the
  run's own requests and replies say: the GETs that hit since the key was created, and its last use.
- `Laws` ties commands to later ones through replies alone, on the reference: when a key dies after SET PX
  or PEXPIRE, what KEEPTTL keeps, what HGET, LRANGE and ZSCORE show after a write. None of the functions
  the reference is made of occurs in these statements, so they hold it to account as well.
- `Positions` says where iteration meets a key. Every store method states which keys it can move back.
- `Accounting` says what the counters add up to.

**Transactions** (`Server`). Dispatch for any number of clients with WATCH, UNWATCH, MULTI, EXEC and
DISCARD. `Served` says, request by request, what becomes of one moment, `Run` that a run is made of such
steps, and the theorems are about every run: which commands an EXEC runs and in what order, what a watch
that was kept guarantees, and what must have happened when an EXEC aborts. The ghost field `since` of the
store holds the moment the last request began and the keys it named; by the invariant it explains every flag
set since. `Caching` proves what a cache may be trusted for while anything is evicted.

**Iteration.** `Scanning` and `HashScan` take whole SCAN and HSCAN walks from a store or a hash in use, its
own commands between the pages, and prove what the walk returns; `Glob` proves that the iterative pattern
matcher means the recursive one.

**Typed values in place.** `LinkedLists` is the doubly linked list with its node operations, proved
against the list functions of `Lists`; `SortedArrays` the sorted array with its memmoves, proved against
the insertion functions of `SortedSets`, which in turn stand for a map from members to scores. Scores are
64-bit IEEE patterns ordered as C orders doubles, NaN included.

**Formats.** `Resp` is the command codec and the read loop (sections "Arrays" and "Bulk strings" of the
Redis serialization protocol specification), once as written and once with one return value repaired;
`Arrivals` the bounded read buffer in front of it; `Rdb` the snapshot format and `Snapshots` its loops over
a store and a file; `Sync` the stream a master sends and what a replica makes of it, and `Replicas` its
loops; `Listing` the walk both share. `Wire`, `Files` and `SyncBytes` state the commands, the snapshot file
and the sync stream byte by byte, in numbers and without the constants of the codecs. `Slowlog` is the ring
of slow commands.

## Where the code falls short of its evident intent

- A buffer that ends exactly where a bulk string should begin is refused, not incomplete
  (`native/src/ar_server.c:540`). `Resp.VariantsDiffer` and `Resp.PrefixVerdict` say exactly which buffers
  are affected, `Resp.ChunksMatterWhen` exactly which chunkings of a stream, `Resp.HeaderAlone` gives the
  shortest case, and `Resp.ChunksDoNotMatter` proves the repaired parser immune.
- LREM that empties a list frees the key before the removed nodes were uncounted
  (`native/src/ar_types.c:958-962`): their bytes stay charged. The ghost field `leak` follows them;
  `Keyspace.Store.LRem` says exactly when it grows, and every other counter stays exact.
- FLUSHDB keeps the counter of pinned keys (`native/src/ar_core.c:1544-1549`); also in `leak`.
- UNWATCH inside MULTI runs at once (`native/src/ar_server.c:939-943`), as `Server.Dispatch` states.
- EXPIRE with a value of 0 or less clears the deadline instead of deleting the key
  (`native/src/ar_core.c:1094-1097`); `Reference.OnFound` follows the code.
- SYNC does not clear the replica: `Sync.StreamArrives` says what the stream leaves under every key,
  `Sync.MergesWhen` when an existing record becomes the master's (a list never does, it grows), and
  `Sync.RebuildsWhen` when the whole keyspace does.
- A record with more than 31 fields or members or 62 elements, or whose command reaches 16 MiB, cannot be
  synced: `Sync.SyncArrivesWhen`. `Arrivals.ArrivesWhen` says which commands can arrive at all.
- SAVE writes what loading refuses: `Rdb.LoadsWhen` gives the exact limits.
- The eviction loop after a typed write gives up at 4096 rounds: `Eviction.Guards` says for which key
  counts it suffices, and `Flooding.RunGivesUp` runs it on a store where it does not.
- Changing slowlog-max-len makes SLOWLOG GET show wrong entries, exactly as `Slowlog.ResizedShows` says.
- A running SCAN can miss a key that is promoted or folded behind its cursor, exactly when
  `Scanning.PromotedReturned` and `Scanning.FoldedReturned` say so. The default settings promote on GET,
  SET and APPEND.
- ZADD accepts NaN, which breaks the order of the array: `SortedSets.OrderSurvives` says for which sets of
  scores it cannot. The ghost set `leak.unruly` names the keys under which that may have happened; every
  other sorted set of a store is in order, by its invariant.

## Model

| member | source | states |
|---|---|---|
| Reference.StepSameLive | native/src/ar_core.c:475-519 | No command can tell whether a due record has been freed yet: same reply, same visible keyspace. |
| Reference.FollowsFilled | native/src/ar_types.c:1220-1223 | After any command that follows the reference, evictions included, no key holds an empty collection if none did before. |
| Keyspace.Store.constructor | native/src/ar_core.c:942-996 | A new store satisfies the whole invariant, is flat and empty, and evicts nothing. |
| Chains.FindInTable | native/src/ar_core.c:461-473 | Walking one chain finds what the table holds for a key. |
| Chains.NodeFound | native/src/ar_core.c:526-538 | Every node of a chain is the one lookup finds for its key, in the bucket its hash names, and no key is linked twice. |
| Chains.Relink | native/src/ar_core.c:826-855 | Relinking a table into another with no key in common keeps every key, value and sum of sizes, each node in the bucket its hash names. |
| Chains.Doubled | native/src/ar_core.c:678-696 | A rehash keeps every lookup and every sum, at twice the size. |
| Keyspace.Store.FindLive | native/src/ar_core.c:475-519 | Lookup returns the live entry and its tier; a due one is freed, uncounted and its watchers notified. |
| Keyspace.Store.FreeEntry | native/src/ar_core.c:567-600 | Freeing removes exactly one key from exactly one tier, lowers every counter by its share and notifies watchers. |
| Keyspace.Store.Set | native/src/ar_core.c:712-797 | SET with NX, XX, EX, PX, EXAT, PXAT or KEEPTTL follows the reference; one that succeeds is noted as a use of k and no other key; it ends where the eviction loop ends that starts from the keyspace with the write made; no other key is moved back, and k only if new or promoted. |
| Laws.SetPx | native/src/ar_core.c:1067-1079 | After SET PX n at time t, and any commands that do not write the key: until t + n PTTL counts down to that moment, TTL rounds it up and GET shows the value; from t + n on all three find nothing. |
| Laws.SetPxAt | native/src/ar_server.c:1271-1275 | After SET PXAT n the key dies in the same way at exactly n. |
| Laws.SetPlain | native/src/ar_core.c:712-797 | After a plain SET the key never dies by itself, whatever deadline it had. |
| Laws.SecondsAreThousands | native/src/ar_core.c:1054-1102 | EX, EXAT, EXPIRE and EXPIREAT of n do exactly what PX, PXAT, PEXPIRE and PEXPIREAT of 1000 n do. |
| Laws.KeepTtl | native/src/ar_server.c:1276-1286 | After SET KEEPTTL on a live key, PTTL and TTL reply at every later time what they would have replied without it, and GET shows the new value as long as the key lives. |
| Laws.KeepNothing | native/src/ar_server.c:1276-1286 | On a missing key SET KEEPTTL is a plain SET. |
| Laws.SetGuards | native/src/ar_server.c:1254-1258 | SET without a guard, with a positive time or none, always succeeds; NX acts as that SET if and only if PTTL finds no key, XX if and only if it finds one; otherwise the reply is nil and nothing changes. |
| Keyspace.Store.SetEx | native/src/ar_core.c:712-797 | Overwriting keeps the pin and sets value and deadline exactly; creating gives an unpinned record; whatever else goes was due or evicted. |
| Keyspace.Store.Read | native/src/ar_core.c:1224-1267 | GET replies as the reference and loses nothing live, although it may promote, demote and free due entries; a hit is noted as a use of the key, with the frequency its kernel gives it, and a miss as none. |
| Keyspace.Store.Del | native/src/ar_core.c:1275-1286 | DEL follows the reference. |
| Keyspace.Store.Append | native/src/ar_core.c:1295-1345 | APPEND follows the reference: new value, kept deadline and pin, and the new length as reply, evicting or not, except that a key it created may be evicted at once. |
| Laws.Appends | native/src/ar_core.c:1295-1345 | APPEND to a string replies the length of what GET showed and the argument together; afterwards GET shows the two joined, and PTTL is as it was. |
| Laws.AppendsNew | native/src/ar_core.c:1295-1345 | On a missing key APPEND leaves what a plain SET leaves. |
| Laws.Deletes | native/src/ar_core.c:1275-1286 | DEL replies 1 if and only if the key was there, which then is gone; every other key shows what it showed. |
| Keyspace.Store.Rename | native/src/ar_core.c:1347-1416 | RENAME and RENAMENX move value, deadline and pin, free a live or due destination, and reply as the reference; a sorted set keeps its order. |
| Laws.Renames | native/src/ar_core.c:1347-1416 | After RENAME the new name shows in GET and PTTL, at every later time, what the old one would have, UNPIN replies what it would have for the old one, which is gone; RENAMENX is that if and only if the new name was free. |
| Keyspace.Store.Expire | native/src/ar_core.c:1086-1102 | EXPIRE, PEXPIRE, EXPIREAT and PEXPIREAT follow the reference, clearing the deadline for values of 0 or less. |
| Laws.PExpire | native/src/ar_core.c:1120-1135 | After an accepted PEXPIRE n at t and any commands that do not write the key, it dies at t + n and GET shows until then what it showed at t; for n of 0 or less it never dies. |
| Laws.PExpireAt | native/src/ar_core.c:1173-1189 | PEXPIREAT n: the same with the moment n. |
| Laws.ExpiresWhen | native/src/ar_core.c:1086-1102 | EXPIRE in any form replies 1 if and only if PTTL finds the key, and otherwise replies 0 and changes nothing. |
| Keyspace.Store.TimeLeft | native/src/ar_core.c:1104-1118 | TTL and PTTL reply -2, -1, or the time left, seconds rounded up. |
| Keyspace.Store.Pin | native/src/ar_core.c:1913-1940 | PIN and UNPIN follow the reference and keep the pin counter. |
| Laws.PinsStay | native/src/ar_core.c:712-797 | A command other than PIN, UNPIN, RENAME and FLUSHDB leaves the key it names as pinned as it found it, and a key it makes unpinned. |
| Laws.PinThenUnpin | native/src/ar_core.c:1913-1940 | PIN replies 1 if and only if PTTL finds the key, after which UNPIN replies 1 as long as it lives; after UNPIN it replies 0; neither changes what GET and PTTL show. |
| Keyspace.Store.FlushDb | native/src/ar_core.c:1520-1552 | FLUSHDB empties both tiers, dirties every watcher and resets every counter but that of pins. |
| Keyspace.Store.Demote | native/src/ar_core.c:620-649 | Demoting puts the entry, unchanged, in the cold tier and takes it out of the hot one; every other entry stays in its tier, the key counts follow, and no key moves back. |
| Keyspace.Store.Promote | native/src/ar_core.c:661-676 | Promoting puts the entry, unchanged, in the hot tier and takes it out of the cold one; every other entry stays in its tier and no other key moves back. |
| Keyspace.Store.SetLayout | native/src/ar_core.c:805-891 | Migrating in either direction leaves every record as it was; to flat, every entry is in one table, doubled at most once. |
| Keyspace.Store.RehashIfNeeded | native/src/ar_core.c:698-710 | Exactly a tier with more keys than buckets is doubled; every lookup in either tier is as it was. |
| Keyspace.Store.PickColdest | native/src/ar_core.c:620-642 | Sampling for a demotion returns the best of the hot entries offered by the buckets drawn, up to 64 buckets and 16 entries, none only if they offered none. |
| Keyspace.Store.MaybeDemoteHot | native/src/ar_core.c:651-659 | Demotions repeat while the hot tier is over its soft cap, at most 64 times, each moving such an entry; no record changes and no key moves back. |
| Eviction.ColdestIs | native/src/ar_core.c:620-642 | The entry demoted is in the hot tier and no entry sampled with it was used longer ago. |
| Eviction.CooledMeans | native/src/ar_core.c:651-659 | Unless 64 buckets in a row were empty, cooling ends with exactly the larger of the cap and 64 keys fewer, if there were more than the cap. |
| Eviction.OfferStops | native/src/ar_core.c:620-642 | The sampling for a demotion ends with exactly 16 entries or with all its buckets drawn, and takes no more. |
| Keyspace.Store.DefaultCap | native/src/ar_core.c:605-618 | With the default settings the soft cap of the hot tier is a quarter of the keys, and 256 below 1028 keys. |
| Keyspace.Store.ActiveExpire | native/src/ar_core.c:1192-1222 | A sweep frees the first due entry of each of the buckets drawn, returns how many it freed, and removes nothing that is not due. |
| Eviction.BetterIsPrecedes | native/src/ar_core.c:69-141 | The replacement test of each kernel is the strict order of its preference: access age; frequency; deadline; or protection. |
| Eviction.BestIs | native/src/ar_core.c:69-141 | The entry the comparisons leave is the first of the samples that none precedes in the kernel's order. |
| Eviction.VisitYields | native/src/ar_core.c:224-273 | A sampled bucket yields exactly its entries that are neither due nor pinned, in order, as many as there is room for. |
| Keyspace.Store.SamplePick | native/src/ar_core.c:224-273 | Sampling visits the buckets the random sequence names, at most 128 and until it has enough, and remembers the best of the entries they offered, none if they offered none. |
| Keyspace.Store.EvictOne | native/src/ar_core.c:323-407 | An eviction frees exactly the victim of one such round besides due entries, and fails exactly if the round sampled nothing; pinned live keys are never lost. |
| Eviction.RoundFacts | native/src/ar_core.c:323-407 | A round frees due entries and at most one other, its victim, which was linked, live, unpinned and among the samples; it has none if and only if it sampled nothing. |
| Usage.RunLives | native/src/ar_core.c:144-200 | Along every run under one kernel, from the requests and replies alone: under lfu the frequency of every key is the smaller of 255 and 5 and its GET hits since it was created; under slru and tinylfu it is protected if and only if it was hit since its last string write; the access ages order the keys as their last uses did. |
| Usage.VictimIs | native/src/ar_core.c:69-141 | So the victim of a round has, of all its samples, the fewest hits (lfu), no hit since its last write (slru, tinylfu), the first deadline (ttl_aware), and among equals the longest time since its last use. |
| Usage.EvictAfterRun | native/src/ar_core.c:323-407 | evict_one after any run from an empty store: it evicts such a key, which then is gone, and fails if and only if it sampled none. |
| Keyspace.Store.MaybeEvict | native/src/ar_core.c:444-459 | The loop repeats such rounds while over the limit and under its guard; below 1,000,000 keys (4096 after a typed write) it ends within the limit or with a round that sampled nothing. |
| Eviction.LoopReaches | native/src/ar_core.c:444-459 | With at least as many rounds as keys (one more if bytes are leaked) the loop ends within the limit or with a round that sampled nothing, whatever the keyspace and the random numbers. |
| Eviction.StarvedMeans | native/src/ar_core.c:224-273 | A loop that ended so did because 128 sampled buckets in a row held nothing that may be evicted, or there were no keys. |
| Eviction.SufficesWhen | native/src/ar_core.c:444-459 | With nothing due, pinned or leaked, a loop is sure to suffice for n keys if and only if its guard allows n rounds; beyond, a keyspace and random numbers are built on which every round evicts and the loop still ends over the limit. |
| Eviction.Guards | native/src/ar_types.c:97-110 | So the loop of a typed write suffices exactly up to 4096 keys, the loop of a string write up to 1,000,000. |
| Flooding.GivesUp | native/src/ar_types.c:97-110 | On a store filled while nothing was evicted, with more than 4096 keys, the typed loop ends over the limit for every random sequence, and for some sequence only its guard stopped it. |
| Flooding.RunGivesUp | native/src/ar_types.c:97-110 | The loop run on that store, made by CONFIG SET maxmemory, SETs and a change of policy: it started from those n keys, ended where its rounds end, and is over the limit. |
| Accounting.CountersAgree | native/src/ar_types.c:28-94 | In every reachable state the key counter is the number of keys, split exactly by type and by tier; used memory is the sum of bytes by type and of key, payload and entry sizes plus the leak; TTL and deadline counters are exact; pins up to FLUSHDB. |
| Accounting.ChargedFor | native/src/ar_types.c:28-94 | What used memory counts for an entry, in bytes: 80 and the key; the bytes of a string; 24, 8 a bucket and 40 and its two strings a field of a hash; 24 and 32 and its bytes an element of a list; 24, 24 a place and the members of a sorted set. |
| Tiers.FreedAccounted | native/src/ar_core.c:567-600 | Freeing an entry lowers every counter by exactly its weight: no saturating subtraction saturates. |
| Tiers.AdjustedAccounted | native/src/ar_core.c:19-40 | Rewriting an entry with its counters adjusted by the difference keeps them exact. |
| Keyspace.ConsistentRenamed | native/src/ar_core.c:1371-1405 | Relinking under a new key adjusts memory by the difference in key length and keeps all counters and the placement. |
| Keyspace.ConsistentDrained | native/src/ar_types.c:958-962 | LREM to empty leaves exactly the bytes of the removed nodes charged. |
| Keyspace.Store.GetOrCreate | native/src/ar_types.c:285-367 | The entry handed out is the live one of the right type or a new empty one; a wrong type changes nothing; a new key may be lost only to eviction. |
| Values.SetHash | native/src/ar_types.c:416-447 | HSET's loop sets every field and counts the new ones; the table afterwards has the first of its doublings that is at least the number of fields, and by the invariant on hashes always had. |
| Values.DropHash | native/src/ar_types.c:493-510 | HDEL's loop removes exactly the given fields and counts them; the table keeps its size. |
| Keyspace.Store.HSet | native/src/ar_types.c:400-462 | HSET follows the reference, evicting or not, keeps all counters, and ends where the typed eviction loop ends that starts from the keyspace with the write made. |
| Keyspace.Store.HDel | native/src/ar_types.c:482-527 | HDEL follows the reference; an emptied hash is deleted with its key. |
| Laws.HSetThenGet | native/src/ar_types.c:400-462 | After HSET, HGET shows the last value given for a field, and for a field not named what it showed before. |
| Laws.HSetCounts | native/src/ar_types.c:416-447 | HSET replies how many of the fields it names HGET did not find before. |
| Laws.HDelThenGet | native/src/ar_types.c:482-527 | After HDEL, HGET finds none of the fields named and shows the others as before. |
| Laws.HDelCounts | native/src/ar_types.c:482-527 | HDEL replies how many of the fields it names HGET found before. |
| Keyspace.Store.HGet | native/src/ar_types.c:464-480 | HGET follows the reference. |
| Keyspace.Store.Push | native/src/ar_types.c:731-788 | LPUSH and RPUSH follow the reference, with the same bound on the eviction that ends them. |
| Keyspace.Store.Pop | native/src/ar_types.c:790-841 | LPOP and RPOP return and remove the end item; an emptied list is deleted. |
| Keyspace.Store.LRem | native/src/ar_types.c:893-972 | LREM follows the reference; a list shortened but not emptied is noted as used; the leak grows, by the bytes of the list's nodes, if and only if a live list was emptied. |
| Keyspace.Store.LTrim | native/src/ar_types.c:974-1047 | LTRIM keeps exactly the slice LRANGE would return and deletes the key exactly when that is empty. |
| Keyspace.Store.LRange | native/src/ar_server.c:2784-2836 | LRANGE follows the reference. |
| Laws.PushShows | native/src/ar_types.c:731-788 | After LPUSH, LRANGE 0 -1 shows the values pushed, last one first, and then what it showed before; after RPUSH what it showed and then the values in order; the reply is the length. |
| Laws.PopShows | native/src/ar_types.c:790-841 | LPOP replies the first element LRANGE 0 -1 shows, RPOP the last, and LRANGE shows the others afterwards. |
| Laws.RemShows | native/src/ar_types.c:893-972 | LREM, as LRANGE 0 -1 shows it before and after: copies go from the shortest prefix (count above 0) or suffix (below 0) that holds as many as asked for, or everywhere (0); the others stand in order, and the reply is how many went. |
| Lists.TakenFromHead | native/src/ar_types.c:908-930 | LREM with count above 0: with p the shortest prefix that holds as many copies as asked for, or all there are, what remains is the elements of that prefix that are not copies, in order, and then everything after it. |
| Lists.TakenFromTail | native/src/ar_types.c:934-956 | LREM with count below 0: the same from the shortest suffix. |
| Lists.TakenEverywhere | native/src/ar_types.c:908-930 | LREM with count 0 leaves exactly the elements that are not copies, in order. |
| Lists.PushThenPop | native/src/ar_types.c:746-822 | What is pushed at an end is what is popped there, and leaves the list as it was. |
| Lists.SliceLaws | native/src/ar_server.c:2784-2836 | LRANGE takes both ends of an index pair within the list; a negative index counts from the end, -1 being the last; what lies beyond an end is cut off there; a start beyond its stop gives nothing. |
| Keyspace.Store.ZAdd | native/src/ar_types.c:1090-1166 | ZADD follows the reference: scores updated, the number of new members as reply, refused as a whole past 4096 members; with the same bound on the eviction that ends it. The stored array stays in order unless a NaN is among the scores, and only this key can be affected. |
| Keyspace.Store.ZRem | native/src/ar_types.c:1192-1225 | ZREM follows the reference; an emptied set is deleted, and what is left of the array stays in order. |
| Keyspace.Store.ZScore | native/src/ar_types.c:1168-1190 | ZSCORE follows the reference. |
| Laws.ZAddThenScore | native/src/ar_types.c:1121-1152 | After ZADD, ZSCORE shows the last score given for a member, and for a member not named what it showed before. |
| Laws.ZAddCounts | native/src/ar_types.c:1121-1152 | ZADD replies how many of the members it names ZSCORE did not find before. |
| Laws.ZRemThenScore | native/src/ar_types.c:1192-1225 | After ZREM, ZSCORE finds none of the members named and shows the others as before. |
| Laws.ZRemCounts | native/src/ar_types.c:1192-1225 | ZREM replies how many of the members it names ZSCORE found before. |
| Lists.RemMirrors | native/src/ar_types.c:934-956 | LREM with a negative count is reverse, LREM with the positive count, reverse. |
| Lists.RemovedCounts | native/src/ar_types.c:893-956 | LREM removes exactly min(count, occurrences) copies, all for 0, and touches the multiplicity of nothing else. |
| LinkedLists.LinkedList.Push | native/src/ar_types.c:746-774 | The linking loop keeps head, tail, both link directions and length coherent and adds the values in order. |
| LinkedLists.LinkedList.Pop | native/src/ar_types.c:806-822 | Unlinking an end node keeps the list coherent and returns that item. |
| LinkedLists.LinkedList.Unlink | native/src/ar_types.c:915-924 | Taking out any node joins its neighbours and nothing else. |
| LinkedLists.LinkedList.Remove | native/src/ar_types.c:908-956 | Both scans of LREM leave a coherent list equal to what the list function of the same count leaves (see Lists.TakenFromHead and Lists.TakenFromTail), and count what they took. |
| LinkedLists.LinkedList.Trim | native/src/ar_types.c:988-1036 | LTRIM's two loops leave exactly LRANGE's slice, or report that nothing is kept. |
| LinkedLists.LinkedList.Range | native/src/ar_server.c:2811-2835 | LRANGE's walk along the nodes returns the slice. |
| SortedSets.RunIs | native/src/ar_types.c:1090-1166 | Over every run of ZADD and ZREM the array has unique members, at most 4096, equals the run's map from members to scores, and stays strictly ascending while no score is NaN. |
| SortedSets.OrderDetermined | native/src/ar_types.c:1051-1066 | The order of the array is determined by its map: same members and scores, same array. |
| SortedSets.OrderOfMembers | native/src/ar_types.c:1051-1066 | The order of the array in numbers: by what the doubles stand for, from their sign, exponent and fraction, zeros alike; among equals by the first byte in which the members differ, a prefix first. |
| SortedSets.RefusedWhen | native/src/ar_types.c:1105-1120 | A batch is refused, and changes nothing, if and only if it has new members and with them there would be more than 4096, one named twice counted twice. |
| SortedSets.OrderSurvives | native/src/ar_types.c:1135-1139 | Every run of ZADD and ZREM with scores from a given set leaves the array ordered if and only if the set has no NaN or all its other scores compare equal. |
| SortedArrays.Compare | native/src/ar_types.c:1051-1066 | zcmp is the order by score, then by bytes, then by length. |
| SortedArrays.SortedArray.AddOne | native/src/ar_types.c:1121-1152 | Removing, growing, placing and memmove in place insert the member where the order puts it, and grow the array as Values.CapacityIs says. |
| Values.CapacityIs | native/src/ar_types.c:1068-1088 | ZADD leaves the array as large as it is while the members fit, and else makes it the first of its doublings, from 8 if it had no place, that holds them all. |
| SortedArrays.SortedArray.Add | native/src/ar_types.c:1105-1152 | ZADD in place is the batch insertion, refused exactly when the pre-count would pass 4096, and returns the number of new members. |
| SortedArrays.SortedArray.Remove | native/src/ar_types.c:1205-1214 | ZREM in place removes exactly the given members and counts them. |
| Server.RunQuiet | native/src/ar_core.c:461-536 | With eviction off, every run of commands mixed with migrations, rehashes, promotions, demotions and expiry sweeps gives the replies of the plain map. |
| Server.Execute | native/src/ar_core.c:540-565 | Each data command follows the reference; it dirties a connection only if that watches a key the reference writes, or one that expired or was evicted; and only a NaN, or RENAME of a key that had one, can leave a sorted set out of order. |
| Watching.WatchTouch | native/src/ar_core.c:540-555 | Touching a key sets the dirty flag of exactly the open connections that watch it. |
| Watching.WatchTouchAll | native/src/ar_core.c:557-565 | Touching all sets the dirty flag of exactly the open connections that watch anything. |
| Server.WatchKeys | native/src/ar_server.c:912-938 | WATCH adds the keys not watched yet, in order and each remembered as it is now, and nothing else changes; it is refused exactly when a 65th would be needed, and keeps those added. |
| Server.WatchesWhen | native/src/ar_server.c:912-938 | WATCH is accepted if and only if the keys watched and those named are together at most 64 different ones. |
| Server.Dispatch | native/src/ar_server.c:912-1021 | What each request makes of connections, keyspace and reply: EXEC aborts exactly when the connection is dirty and otherwise runs the whole queue with nothing in between; UNWATCH takes effect even inside MULTI; queueing changes nothing else; a clean watch afterwards was clean before and its key unchanged; and a connection becomes dirty only if it watches a key the request wrote or one that is gone after it. |
| Server.ExecRuns | native/src/ar_server.c:965-1019 | Along every run: if a client's MULTI was accepted and it gave no DISCARD, EXEC or close until an EXEC that ran, that EXEC ran exactly the commands the client sent and had queued in between, in the order it sent them; with eviction off the p-th reply is the plain map's to the p-th of them, after those before it. |
| Server.QueuesWhen | native/src/ar_server.c:1001-1019 | A command inside MULTI is queued if and only if fewer than 128 are and it has at most 32 words. |
| Server.Serve | native/src/ar_server.c:965-1021 | Along every interleaving of clients every step is one request served as Dispatch says, from the first moment of the store to the last; if no NaN was ever added, every stored sorted set is in order at the end. |
| Server.WatchedUnchanged | native/src/ar_core.c:540-600 | Along every run, a key watched without a break on a connection still clean holds the type, payload and deadline it held at any moment since. |
| Server.CompareAndSet | native/src/ar_server.c:965-1021 | Along every run: if a client's WATCH of a key was accepted, it did not give its watches up before its EXEC, and that EXEC ran, the key holds at EXEC what it held at WATCH. |
| Server.AbortsBecause | native/src/ar_core.c:540-600 | Why an EXEC aborts: since any moment at which its connection was clean, some request wrote a key that the connection watched then and still watches at EXEC, or left such a key gone. |
| Server.OrderKept | native/src/ar_types.c:1121-1152 | Along every run without a NaN among the scores, no sorted set is ever out of order. |
| Server.QueueQuietly | native/src/ar_server.c:985-1015 | With eviction off, the replies of an EXEC are those of its queue run on the plain map, alone. |
| Caching.CacheRun | native/src/ar_core.c:475-519 | In every run of cache commands with any victims, kernels, limits and layouts, a hit is the value the history remembers for the key and not past its known deadline. |
| Caching.MemoIsLatest | native/src/ar_core.c:712-797 | What the history remembers is the value of a SET that took effect and was not followed by another, by DEL or by FLUSHDB. |
| Caching.LatestIsMemo | native/src/ar_core.c:1224-1267 | And every such SET is what it remembers. |
| Caching.PinnedRun | native/src/ar_core.c:69-141 | A pinned key not yet due keeps its record through every run on other keys, with any built-in kernels, limits, layouts and victims. |
| Positions.DoubledSlot | native/src/ar_core.c:678-696 | Doubling sends a key to its old bucket or half a table further on, never back. |
| Positions.PromotedPending | native/src/ar_core.c:661-676 | A key still to come at a cursor is still to come after its promotion if and only if the cursor has not passed its hot bucket; every other key is. |
| Positions.FoldedPending | native/src/ar_core.c:826-855 | Folding the cold tier into the hot one leaves a key to come still to come if and only if it was hot or the cursor has not passed its new bucket, the doubling that may follow included. |
| Scanning.ScanAmid | native/src/ar_core.c:2068-2146 | A whole SCAN walk over a store in use, with commands, migrations, sweeps, settings and evictions between its pages: it returns every selected key that stays linked, is not due at any page, and is not moved back behind the cursor. |
| Scanning.OnlyPromotion | native/src/ar_core.c:747-750 | A command moves a live key back only if it is the new name of a RENAME, or a cold key that GET, SET or APPEND promotes. |
| Scanning.PromotedReturned | native/src/ar_core.c:661-676 | A cold key promoted while still to come is returned by the rest of the walk, read quietly, if and only if the cursor has not passed its hot bucket. |
| Scanning.FoldedReturned | native/src/ar_core.c:826-855 | The same for a migration to flat: every hot key is returned, a cold one if and only if the cursor has not passed its new bucket. |
| Scanning.QuietOnce | native/src/ar_core.c:2068-2146 | On a store only read, a walk returns every selected live key exactly once and nothing else. |
| Keyspace.SelectedWhen | native/src/ar_core.c:2079-2081 | SCAN, KEYS and HSCAN select every key without a pattern, and else exactly those that can be cut as Glob.MatchesWhen says. |
| Keyspace.Store.Scan | native/src/ar_core.c:2068-2146 | A page returns exactly the selected live keys of its buckets, each once, and frees due ones; the next cursor is exactly the old one and the count (10 if below 1, at most 10,000), or 0 at the end of the table. |
| Keyspace.Store.KeysMatching | native/src/ar_core.c:2148-2198 | KEYS returns every selected live key exactly once. |
| Keyspace.Store.DbSize | native/src/ar_core.c:2201-2229 | DBSIZE is the number of live keys. |
| HashScan.HScan | native/src/ar_types.c:657-727 | A page returns exactly the selected fields of its buckets, each once; the next cursor is exactly the old one and the count (10 if below 1, at most 10,000), or 0 at the end of the table. |
| HashScan.HScanAmid | native/src/ar_types.c:657-727 | A whole HSCAN walk, with fields set and deleted between its pages and the table doubling as it must, returns every selected field that is in the hash throughout. |
| Glob.GlobMatch | native/src/ar_core.c:1975-2001 | The iterative matcher returns true exactly when the recursive meaning of star and question mark matches, and terminates. |
| Glob.LaterPlaceAddsNothing | native/src/ar_core.c:1975-2001 | Remembering only the last star loses nothing. |
| Glob.MatchesWhen | native/src/ar_core.c:1975-2001 | A pattern matches a string if and only if the string can be cut into one piece for each byte of the pattern: anything for a star, one byte for a question mark, that byte for any other. |
| Resp.RoundTrip | native/src/ar_server.c:593-640 | Parsing an encoded command of at most 64 arguments of at most 16 MiB, followed by anything, returns its arguments and consumes exactly its bytes. |
| Resp.Refused | native/src/ar_server.c:623 | A command with more or longer arguments is refused, not misread. |
| Wire.EncodeIs | native/src/ar_server.c:257-273 | A command as written, in bytes: 42, the decimal number of arguments, 13 10, and for each argument 36, its decimal length, 13 10, its bytes, 13 10. |
| Wire.ReadsWhen | native/src/ar_server.c:538-640 | The parser takes a command off the front of a buffer if and only if the buffer begins with one, leading zeros and limits included, and then exactly that one. |
| Resp.Pipelined | native/src/ar_server.c:3426-3465 | A buffer of commands dispatches them in order and goes on with the tail. |
| Resp.ParseBulkAt | native/src/ar_server.c:538-589 | The index loop of parse_bulk computes the bulk parser used above. |
| Resp.ParseCommandAt | native/src/ar_server.c:593-640 | The index loop of parse_command computes the command parser used above. |
| Resp.ProcessReads | native/src/ar_server.c:3420-3467 | The read loop dispatches the parsed commands in order, keeps exactly the unparsed tail and stops at a refusal. |
| Resp.VariantsDiffer | native/src/ar_server.c:540 | The code and the parser with one return value repaired differ exactly on buffers that end at an element boundary, where the one refuses and the other waits. |
| Resp.PrefixVerdict | native/src/ar_server.c:538-640 | Every strict prefix of a command is incomplete, except that the code refuses those ending exactly before a bulk. |
| Resp.ChunksDoNotMatter | native/src/ar_server.c:3420-3467 | With the repaired return value, every chunking of every stream dispatches the same commands and is refused in the same case. |
| Resp.ChunksMatterWhen | native/src/ar_server.c:3420-3467 | The code reads a chunked stream as the repaired parser does if and only if no chunk ends at such a boundary. |
| Resp.HeaderAlone | native/src/ar_server.c:540 | A command arriving as header and rest closes the connection. |
| Arrivals.ReceiveIsFeed | native/src/ar_server.c:3469-3528 | Unless a burst fills the read buffer its limit makes no difference; if one does, the connection is closed. |
| Arrivals.TakenFits | native/src/ar_server.c:3420-3528 | However a stream of commands arrives, if the connection stays open every command was dispatched, once and in order, and each was under the limits. |
| Arrivals.ArrivesWhen | native/src/ar_server.c:3469-3528 | A stream of commands can arrive whole in some bursts if and only if each has at most 64 arguments and is under 16 MiB encoded. |
| Rdb.BlobRead | native/src/ar_rdb.c:83-97 | A byte string written is read back up to 16 MiB and refused beyond, although it was written. |
| Rdb.LERoundTrip | native/src/ar_rdb.c:24-81 | Little-endian integers that fit are read back. |
| Rdb.RebuiltDeadline | native/src/ar_rdb.c:314-324 | A loaded record keeps its data; a string its exact deadline; a collection's deadline is never early and less than 1000 ms late. |
| Rdb.RoundTrip | native/src/ar_rdb.c:221-260 | The dump of a store, loaded into an empty one, gives exactly the records still live, rebuilt, a sorted set seen as its map; every entry is loaded or skipped; nothing after the dump is read. |
| Rdb.LoadSkims | native/src/ar_rdb.c:589-646 | Any file that loads is used up to the same byte whatever it is loaded into, and loaded plus skipped is its count. |
| Rdb.OneAlike | native/src/ar_rdb.c:327-374 | Skipping an expired record consumes exactly the bytes loading it would. |
| Rdb.DumpSkims | native/src/ar_rdb.c:603-633 | A dump is consumed exactly to its last byte if within the limits, and refused otherwise. |
| Rdb.LoadsWhen | native/src/ar_rdb.c:427-587 | A dump loads into an empty store if and only if every byte string is at most 16 MiB, every collection at most 1,000,000 items and there are at most 10,000,000 entries. |
| Rdb.PrefixFails | native/src/ar_rdb.c:427-587 | Every strict prefix of a dump fails to load, whatever the store holds. |
| Rdb.DumpSpoils | native/src/ar_rdb.c:221-260 | Read back, a dump has a NaN score under exactly the keys that were written with one. |
| Listing.LiveEntriesAre | native/src/ar_rdb.c:206-219 | The walk over both tiers meets every live record exactly once. |
| Listing.ItemsRebuild | native/src/ar_rdb.c:136-184 | The items of a stored collection, put one by one into an empty one, rebuild it, list order included. |
| Snapshots.Save | native/src/ar_rdb.c:221-260 | The saving loops write exactly the dump of the live entries, or fail exactly when a byte string is over 2 GiB. |
| Snapshots.LoadFile | native/src/ar_rdb.c:589-646 | The loading loops over a real store: a load that succeeds has consumed a well-formed file and counted every entry; with eviction off it succeeds exactly when the format says so and leaves the keyspace it says; only keys with a NaN in the file can be out of order that were not before. |
| Files.FileIs | native/src/ar_rdb.c:221-260 | The file in bytes and numbers: the magic, version 2, the count, and for each record its type byte (0 string, 1 hash, 2 list, 3 sorted set), key, deadline and items, every length little-endian. |
| Files.SaveBytes | native/src/ar_rdb.c:221-260 | SAVE writes exactly those bytes, for every store. |
| Files.SaveOne | native/src/ar_rdb.c:136-184 | For a store with one live key, of any of the four kinds with one item and byte strings under 256 bytes, every byte of the file spelled out from the key, the deadline and the stored value. |
| Files.LoadOneFile | native/src/ar_rdb.c:427-587 | Loading exactly those bytes leaves a record of that kind and data under the key, with its deadline (of a collection late by less than a second), and every other key as it was. |
| Snapshots.SaveAndLoad | native/src/ar_rdb.c:221-260 | Saved from one store and loaded into a fresh one, every key still live has its rebuilt record and no other key exists; a sorted set without NaN comes back in order, the same array if and only if the one written was in order. |
| Sync.SyncedDeadline | native/src/ar_server.c:309-324 | A synced deadline is never early and, beyond the delay, less than 1000 ms late. |
| Sync.EntryArrives | native/src/ar_server.c:326-400 | The commands for an entry, if they can arrive, leave under its key exactly the record merged into what the replica held there, and change nothing else. |
| Sync.AcceptedWhen | native/src/ar_server.c:3469-3528 | They can arrive if and only if the entry has at most 31 fields or members, 62 elements, and each of its commands is under 16 MiB encoded. |
| Sync.MergesWhen | native/src/ar_server.c:326-400 | Syncing onto an existing record gives the master's, pins aside, if and only if the master's is a string, or both are hashes or both sorted sets, the replica's has no field or member the master's lacks, and it has no deadline that the master's does not replace. |
| Sync.StreamArrives | native/src/ar_server.c:403-439 | The stream merges every entry sent into what the replica holds under its key, and leaves every other key as it was. |
| Sync.SyncMerges | native/src/ar_server.c:403-439 | Whatever bursts the stream arrives in and whatever the replica holds: if the connection stays open, the replica has its keyspace with the master's live keyspace merged into it. |
| Sync.SyncArrivesWhen | native/src/ar_server.c:3469-3528 | The stream can arrive whole if and only if every live entry is within those limits. |
| Sync.EmptyRebuilds | native/src/ar_server.c:403-439 | On an empty replica the merged keyspace is the master's live keyspace, record for record. |
| Sync.RebuildsWhen | native/src/ar_server.c:403-439 | On any other it is so, pins aside, if and only if the replica has no other live key and takes the master's record under each key it has. |
| Replicas.FullSync | native/src/ar_server.c:403-439 | The sending loops write exactly that stream. |
| SyncBytes.FullSyncBytes | native/src/ar_server.c:309-439 | A full sync sends, for every store, exactly the bytes of SET, SET with EX, HSET, RPUSH, ZADD and EXPIRE commands spelled out from the live entries, names and lengths in numbers. |
| Replicas.Replay | native/src/ar_server.c:3420-3528 | The replica's loop, reading the stream in any bursts, says whether the connection stayed open with every command understood, and with eviction off leaves its store as the commands dispatched leave the plain map. |
| Replicas.SyncReplica | native/src/ar_server.c:1023-1033 | From one store to another, whatever it holds and in whatever bursts the stream arrives: it is taken whole exactly if the connection stays open, and then, with eviction off, the master's live keyspace is merged into the replica's; a sorted set the two then share, under a key where the replica never had a NaN, is in order there, the same array if and only if the master's is in order. |
| Slowlog.PushKeeps | native/src/ar_server.c:705-730 | With a fixed length, pushing keeps the newest min(length, pushes) entries where GET looks for them. |
| Slowlog.ResizedShows | native/src/ar_server.c:1985-1995 | After changing the length, GET shows the newest entries if and only if it shows none, the length is the same, or the ring has not wrapped and its newest entry lies within the new length. |
| Slowlog.ResizeLoses | native/src/ar_server.c:1985-1995 | Raising the length from 2 to 3 after three pushes makes GET show a slot never written. |
| Slowlog.NewestDescends | native/src/ar_server.c:3329-3356 | What GET shows has strictly descending ids. |
| Slowlog.Clipped | native/src/ar_server.c:705-730 | What is recorded of a command: its first 8 arguments, and the first 47 bytes of each. |
| Slowlog.Ring.Push | native/src/ar_server.c:705-730 | A push records the command with the next id and keeps the ring in order. |
| Slowlog.Ring.Reset | native/src/ar_server.c:3299-3305 | RESET puts the ring in order from any state. |
| Slowlog.Ring.Get | native/src/ar_server.c:3306-3356 | GET returns exactly the newest entries pushed since RESET, newest first, while the ring is in order. |
| Slowlog.Ring.SetMaxLen | native/src/ar_server.c:1985-1995 | CONFIG SET clips the length only; the ring stays in order if it has not wrapped and its next write lies within the new length. |

## Left out

- Keyspace.Store.Push: if the key just pushed to is itself evicted, the code reads the length from freed memory; the model returns the length before the eviction.
- Keyspace.Store.ZAdd: batches of at most 4096 members, as a command has at most 64 arguments; the store call itself would leave an empty set behind when it refuses a larger one.
- Keyspace.Store.SetPromoteOnGet: of the layout settings only this one can be changed; the cap of the hot tier keeps its default.
- Keyspace.Store.SetLayout: adaptive layout choice is not modelled, only the two migrations.
- Keyspace.Store.FindLive: does not search the cold tier again after freeing a due entry of the hot tier, because no key is ever in both.
- Rdb.RoundTrip: one clock reading for the whole load; the code reads the clock again for each EXPIRE.
- Sync.SyncMerges: one clock reading at the sender and one at the replica; printing and reading scores is assumed to be exact and short, NaN excepted.
- Snapshots.LoadFile: which of the loaded records are evicted again is not stated when eviction is on.
- Replicas.SyncReplica: nor which of the synced ones, when the replica evicts while it syncs.
- Server.OrderKept: a key that once had a NaN is not trusted again before FLUSHDB, even if it is deleted and written anew.
- Caching.CacheRun: says nothing about a deadline after SET KEEPTTL, which keeps nothing if the key had been evicted.
- Server.RunQuiet: the clock does not run backwards.
- LinkedLists and SortedArrays: the keyspace holds these values as sequences; the two modules prove that the pointer and array operations compute the functions it uses, but a store is not built from their objects.
- Chains: a chain is a sequence rather than nodes with next pointers, so reuse of freed memory is not expressed; the two walks that free while they walk are proved on the chain as it was.
- The clock is read once per command; the code reads it again per sampled entry.
- Bucket masks are taken as remainders; table sizes are kept powers of two, which makes them equal.
- Counters, ids, deadlines and integer arguments are unbounded; the "none yet" of the sampling loops is an option value instead of a maximal integer.
- INCR, DECR, INCRBY, HINCRBY, STRLEN, EXISTS, LLEN, LINDEX, HLEN, HEXISTS, ZCARD, the ZRANGE family, MSET, MGET, GETSET, SETNX, SETEX and PSETEX: further members of the same kinds.
- Administrative requests inside MULTI, and errors inside a queued command other than the ones the reference names.
- Partial writes and idle timeouts; a burst is what one read loop takes before the socket is empty.
- Access times, frequencies, hit and operation counts, big-key statistics, explain and shadow counters beyond what victim choice needs.
- Eviction plugins and the random eviction entry point, which ignores pins.
- File renaming, fsync, fork and BGSAVE; allocation failure.
- Sockets, TLS, authentication, publish/subscribe, configuration text, the policy agent and its prefixes.
