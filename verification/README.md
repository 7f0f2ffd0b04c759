# Verified model of btcfind

btcfind looks for the private keys of funded Bitcoin addresses. It reads a table of addresses and balances,
builds a compact index from it, caches the index in a binary file, generates keys in parallel, looks each key up,
and keeps account of the search: in a session file on one machine, or at a coordinator when a cluster of workers
takes part. This project models that pipeline in Dafny and proves what the parts promise together.

`dafny verify dfyconfig.toml` checks everything.

## What is modelled

| module | source | content |
|---|---|---|
| Bytes, Common, Decimal, Bitcoin | package bitcoin, encoding/binary, strconv | bytes, hashes and their order, little-endian words, decimal numerals, formats and lookup keys |
| Bloom, FundedSets | funded/sets.go | sorted arrays with Bloom filters, binary search, in-place sorting, `Match` and `BalanceForMatch` |
| Builder | funded/builder.go | a class that accumulates rows in maps; two independent sorted traversals; the index as a refinement of the rows |
| TsvParse | funded/parse.go | the row parser, with 64-bit wrap-around, against a declarative row syntax |
| CacheCodec, CacheFormat | funded/cache.go, funded/mmap.go | the byte layout, the writer's buffers, the decoder; which bytes it accepts at all, whoever wrote them |
| CacheStore | funded/load.go, funded/download.go | a class for the directory; `Load` over every history of downloads, loads, failed and crashed writes |
| RateLimiter | coordinator/limits.go | a class whose buckets are compacted in place, against the complete call history |
| ProcessWallet, SearchRun, ForeverExits, ResumedRuns, BoundedRun | search/process.go, search/run.go | one key; the forever loop with checkpoints and five exits, and where exactly it stops; chains of resumed runs; the bounded loop |
| WorkerPool | search/workers.go | n generators, a bounded channel and a consumer as a step system over a heap of batches |
| LazyDerivation | search/workers.go, bitcoin/lookup.go | staged and eager derivation against the keys that each format calls for |
| Numerals, Base58, Bits, Bech32Checksum, Bech32, Address | bitcoin/encode.go, bitcoin/decode.go | the address printer and parser, down to the Base58 digits and the Bech32 polynomial |
| Bech32Words, AddressPieces, AddressVectors | bitcoin/encode.go | the Bech32 checksum on 32-bit words, equal to the one on bits; with it, the printed strings of four published addresses |
| ListedAddresses, SearchResults | funded, bitcoin, search | the table's text against reported hits, end to end |
| WorkerCounters, Coordinator, Cluster | worker/run.go, coordinator/lobby.go, coordinator/hits.go | a search call's atomic counters; the coordinator as a class and over every run of calls; both with the network between them |

Code that changes state in place is a class or a method over an array; threads are step systems in which every
interleaving is a run; clocks, random numbers, batches, failures and crashes are arguments or events. Elliptic curves, the hash functions and
the Bloom library are parameters.

## Main results

1. *Loading.* After any history of downloads (which remove only the default cache), loads at any thresholds, cache
   writes that fail or stop after any number of bytes, and removed files, `Load` answers every `Match` and
   `BalanceForMatch` as the rows of the installed table do (`CacheStore.LoadCorrect`). Down to the text:
   a format is reported exactly when the address that would be printed for it stands in a row with enough
   balance and no enabled earlier format's does (`ListedAddresses.MatchIffListed`).
2. *Index.* Hash and balance arrays come from two unordered traversals and two sorts, yet lookups are the maximum over
   duplicate rows (`Builder.IndexRefinement`).
3. *Cache file.* Decoding undoes encoding, appended bytes change nothing, every strict prefix is rejected. Of arbitrary bytes, written by whomever,
   exactly those are accepted that hold the magic, version 3, the expected time and threshold and sections of the stated lengths, and
   every hash, balance and filter is then the one that stands at its place (`CacheFormat.DecodesExactly`). What a load leaves behind is what the
   next load of the same table and threshold returns, without touching the directory (`CacheStore.CacheIsUsed`).
4. *Rate limiter.* Which intervals hold at most `limit` allowed calls, exactly, in terms of limit, window and clock skew
   (`RateLimiter.LimitHoldsIff`); with readings in order every window does, and a call is allowed exactly when there is room.
5. *End to end.* In a search over generated wallets, bounded or forever, key number i gives a hit exactly when the table lists an address
   of it in an enabled format - the address of hash160 of its public key, of hash160 of `00 14` and that hash, or of its taproot key - (except
   taproot whose key was skipped), or when its taproot key was skipped and the table lists the address of the all-zero taproot key. In the
   first case the report carries the right index, the key's own address and the greatest listed balance; in the second it is false
   (`SearchResults.CallsReportListed`, with `SearchResults.LoadedReady` for the index).
6. *Search.* Conservation over every script of a forever run; where it stops and why, for every script
   (`ForeverExits.StopsExactly`); a kill loses exactly what was counted since the latest saved checkpoint; gap-free numbering over
   chains of resumed runs; pool safety.
7. *Addresses.* The parser accepts exactly the strings that the printer produces (`Address.AddressIff`). The checksum leaves 1 for version 0 and
   0x2bc830a3 for version 1 on every input (`Bech32Checksum.ChecksumResidue`), and the printer gives the published addresses of a P2WPKH, a P2TR,
   a P2PKH and a P2SH key (`AddressVectors`).
8. *Cluster.* The coordinator's total never exceeds the keys counted and the deltas delivered again; in the end the exact gap between it and the
   keys really tried is known (`Cluster.TotalAgainstTried`); the first report of an address by a listed worker is always logged, in every state of the run
   (`Coordinator.FirstReportLogged`), and none is logged twice; a worker is listed exactly as long as it was never silent.

## Where the code falls short of what one might expect

Each is proved, with the exact condition under which the expectation holds and a concrete input at which it fails:

- A hook error ends a forever run after its key was processed but before it was counted, so the next run gives the same
  index to another key (`ResumedRuns.FailedHookRepeatsIndex`). Over a chain of runs the indexes are 1, 2, 3, ... exactly when every
  run after one that ended this way is cancelled before its first wallet (`ResumedRuns.NoGapOrRepeatIff`).
- When the append to the wallet log fails, the address is already remembered, so every later report of it is dropped
  as a duplicate until the next start of a run (`Coordinator.LostHit`, `Coordinator.FailedHitIsLost`).
- When only the final sync fails, the block is in the log but is not counted (`Coordinator.UncountedBlock`); hits equal logged
  blocks exactly when no sync failed (`Coordinator.CoordinatorRuns`).
- Staged derivation can miss a listed taproot key (`LazyDerivation.StagedMissesTaproot`). It differs from eager derivation exactly when the
  taproot key was skipped and exactly one of the real key and the all-zero key is listed (`LazyDerivation.LazyVersusEager`).
- A skipped taproot key is looked up as 32 zero bytes. If the table lists the address of that key, which anyone can fund, every key whose taproot key
  is skipped is reported as a taproot hit with that address's balance (`LazyDerivation.StagedInventsTaproot`). A hit is a true report
  exactly when its taproot key was not skipped or the zero key is not listed (`SearchResults.ProcessFinds`).
- The coordinator's total is not the number of keys tried: it also holds the session bases of the workers and repeated deliveries, and lacks
  dropped deltas and the keys after each search's latest progress report. It equals the keys tried exactly when these cancel out
  (`Cluster.TotalAgainstTried`).
- The rate limiter reads its clock before it takes its lock, so the readings of a key may fall back by some skew. For a limit of two or
  more the limit then holds exactly in intervals no longer than the window less the skew (`RateLimiter.LimitHoldsIff`); the readings
  0, 0, 10, 5 pass a limit of two within one window of ten (`RateLimiter.OutOfOrderExceedsLimit`). A limit of one is not affected.

Two more observations: `MaxKeys` 0 means no cap, so such a run never ends without error (`SearchRun.ForeverConserves`, part
`Capped`); and a balance of 2^63 or more wraps to a negative int and back, so every 64-bit unsigned balance is still read as written, and
larger numerals modulo 2^64 (`TsvParse.ParsedRowIff`).

## Model

| member | source | states |
|---|---|---|
| FundedSets.SearchFinds | funded/sets.go:171-194 | on a strictly sorted slice the binary search stops exactly at the key |
| FundedSets.BucketLookup | funded/sets.go:156-205 | for an aligned bucket whose filter, if present, has no false negatives: filter plus binary search, and binary search alone, are membership, and the balance found is the one stored for the hash, 0 otherwise |
| FundedSets.BuildBloom | funded/sets.go:118-139 | the filter is sized for the slice and holds exactly the positions of its hashes; none for an empty slice |
| FundedSets.FilterCovers | funded/sets.go:118-139 | a built filter answers yes for each of its hashes, for every hash family |
| FundedSets.BuildBlooms | funded/sets.go:82-116 | every bucket gets the filter of its own hashes; hashes, balances and everything else stay |
| FundedSets.EnsureBlooms | funded/sets.go:62-80 | incomplete filters are completed; complete sets are returned as they are |
| FundedSets.SortSlice | funded/sets.go:46-60 | the array is sorted in place and keeps its elements |
| FundedSets.Sort | funded/sets.go:46-60 | hashes are sorted, balances are not moved, and sets whose hashes are strictly sorted do not change at all |
| FundedSets.SortIsIdentity | funded/load.go:71-73 | whatever the sorting algorithm, a strictly sorted slice comes back unchanged |
| FundedSets.SortedDistinctPermutation | funded/builder.go:93-102 | any sorted rearrangement of distinct hashes is strictly sorted, so iteration order and instability cannot show |
| Bytes.StrictlySortedUnique | funded/builder.go:93-111 | a set of hashes has one strictly sorted enumeration, the reason why two separate sorts agree |
| Bytes.LittleEndian | funded/cache.go:59-85 | four bytes count for 1, 2^8, 2^16 and 2^24, eight bytes as two such words, the low one first |
| Builder.Builder.Add | funded/builder.go:33-53 | the four maps keep summarising all rows added so far: a hash is present exactly when a qualifying row lists it, with the greatest such balance; undecodable addresses are collected |
| Builder.Builder.AddEntry | funded/builder.go:33-53 | one row is filtered by threshold, decoded and merged into the map of its kind only |
| Builder.Builder.MergeEntry | funded/builder.go:55-75 | only the map of the row's kind changes, only for hashes of its width, and never to a smaller balance |
| Builder.MapsStep | funded/builder.go:33-75 | merging one row takes a summary of the rows to a summary of the rows and that row |
| Builder.SortedKeys | funded/builder.go:93-102 | from an arbitrary iteration order, the strictly sorted keys of the map |
| Builder.SortedBalances | funded/builder.go:104-111 | balance i belongs to key i of every sorted enumeration of the same map |
| Builder.BuildBucket | funded/builder.go:78-91 | the separately built hash and balance arrays are aligned with the map |
| Builder.Builder.Build | funded/builder.go:78-91 | all four buckets are aligned with their maps; undecodable addresses and threshold are carried over |
| Builder.IndexRefinement | funded/sets.go:207-243 | over an index of the rows' summary every Match and BalanceForMatch answers as the rows do |
| Builder.MatchRefinement | funded/sets.go:225-243 | Match returns a kind exactly when it is the first enabled one, in fixed order, whose hash a qualifying row lists |
| Builder.LookupRefinement | funded/sets.go:186-223 | a bucket lookup is presence in a qualifying row and BalanceForMatch the maximum over duplicate rows |
| Builder.MatchIsFirst | funded/sets.go:225-243 | Match is the first kind in the fixed order that is enabled and found |
| TsvParse.ParseIntBytes | funded/parse.go:20-32 | succeeds exactly on non-empty digit strings, with the numeral's value wrapped to a 64-bit int |
| TsvParse.ParseTSVLine | funded/parse.go:6-18 | accepts and returns exactly what the row specification says |
| TsvParse.ParsedRowIff | funded/parse.go:6-32 | the accepted lines are exactly address, tab, blanks, digits, blanks, with the Unicode blanks that bytes.TrimSpace removes and the numeral's value modulo 2^64 |
| TsvParse.SpaceCodes | funded/parse.go:6-18 | the blanks that are trimmed are the 25 code points of White_Space |
| TsvParse.RowRoundTrip | funded/parse.go:6-32 | a row written with any tab-free address and any 64-bit unsigned balance is read back |
| CacheCodec.WriteSlice | funded/cache.go:289-323 | the buffer filled entry by entry is the concatenation of the entries |
| CacheCodec.WriteCache | funded/cache.go:96-167 | the bytes written are magic, version, mtime, threshold, counts, four hash arrays, four balance arrays and four filters, in this order |
| CacheCodec.DecodeTo | funded/cache.go:179-273 | on success, for arbitrary bytes, the final offset lies behind the header and within the data; which bytes succeed is CacheFormat.DecodesExactly |
| CacheFormat.DecodesExactly | funded/cache.go:179-273 | for arbitrary bytes: accepted exactly when magic, version 3, the expected time and the expected threshold stand in the first 40 bytes and all sections and filter records fit; each bucket is then read from its place, entry by entry, and Other is empty |
| CacheCodec.ViewAt | funded/mmap.go:75-112 | a view is either refused or ends within the data |
| CacheCodec.ReadBloomAt | funded/mmap.go:114-132 | a filter record is either refused or ends within the data |
| CacheCodec.HeaderRoundTrip | funded/cache.go:59-85 | the header of a written file parses to its mtime, normalised threshold and counts |
| CacheCodec.NanosRoundTrip | funded/cache.go:59-85 | a negative modification time survives its unsigned encoding |
| CacheCodec.CacheRoundTrip | funded/cache.go:96-167 | decoding the written bytes, with anything appended, gives the same hashes, balances and filters with Other dropped and threshold 0 read as 30000; the file's own header suffices |
| CacheCodec.AcceptedOnlyUnderOwnHeader | funded/cache.go:179-200 | a written file decodes under its own mtime and threshold, consuming all of it, and under no other, with the error the code gives |
| CacheCodec.AppendInvariant | funded/cache.go:179-273 | on any accepted data, appending bytes changes neither the result nor the offset reached |
| CacheCodec.StrictPrefixRejected | funded/cache.go:179-273 | every strict prefix of a written file is rejected under every expectation |
| CacheCodec.TruncationRejected | funded/cache.go:179-273 | any data that the decoder consumes entirely or rejects has only rejected strict prefixes |
| CacheStore.CachePathInjective | funded/cache.go:32-37 | two thresholds share a cache file exactly when they are equal, 0 standing for 30000 |
| CacheStore.CachePathExamples | funded/cache.go:32-37 | threshold 0 and 30000 share funded.cache; threshold 546 has funded.546.cache |
| CacheStore.TmpIsNoCache | funded/cache.go:96-167 | a temporary file left by a crash is never taken for the cache of any threshold |
| CacheStore.Store.RemoveDefaultCache | funded/cache.go:276-287 | no cache of the default threshold is left, and the cache of every other threshold is present exactly as before, with the same content |
| CacheStore.Store.WriteCacheFile | funded/cache.go:96-167 | the encoding reaches the cache path by rename, or not at all; a crash leaves any prefix in the temporary file |
| CacheStore.Store.ScanRows | funded/load.go:89-125 | the builder holds exactly the rows of the lines that parse |
| CacheStore.TableRowsIff | funded/load.go:89-125 | a row belongs to the table exactly when some line other than the first parses to it |
| CacheStore.Store.ParseTsv | funded/load.go:89-125 | a cold parse yields an index of the table at the threshold, without filters, or the scan error |
| CacheStore.Store.Load | funded/load.go:19-87 | no table, cache hit, hit with filters completed and written back, or cold parse and write: exactly the cases of the load step |
| CacheStore.CachedIndexesTable | funded/load.go:19-56 | a cache hit is an index of the table of that very mtime at the requested threshold |
| CacheStore.WriteKeepsFaithful | funded/cache.go:96-167 | every outcome of a cache write leaves only cache files that index the table and threshold their header names |
| CacheStore.LoadKeepsFaithful | funded/load.go:19-87 | so does every load |
| CacheStore.HistoryFaithful | funded/load.go:19-87 | so does every history of events |
| CacheStore.LoadCorrect | funded/load.go:19-87 | at any point of any history a load fails exactly without a scannable table, and otherwise answers as a cold parse of the current table at the requested threshold |
| CacheStore.LoadLeavesCache | funded/load.go:19-87 | after a successful load whose write succeeds, the cache of its threshold holds, for that table, the sets returned, with Other dropped |
| CacheStore.CacheIsUsed | funded/load.go:19-56 | until the table is replaced or that cache removed, whatever else is loaded or fails, a load at the same threshold returns those sets from the cache and leaves the directory as it is |
| CacheStore.FreshIsComplete | funded/load.go:58-87 | an index with the filters built for its own hashes needs no completion |
| RateLimiter.RateLimiter.Allow | coordinator/limits.go:29-53 | the call is recorded with its answer, the buckets stay those the history determines, other keys are untouched |
| RateLimiter.Compact | coordinator/limits.go:36-43 | compaction in place keeps exactly the times after the cutoff, in order |
| RateLimiter.NewRateLimiter | coordinator/limits.go:18-27 | a limiter exists exactly for a positive limit and starts empty |
| RateLimiter.BucketKeepsSurvivors | coordinator/limits.go:36-43 | for every history, ordered or not, the bucket loses no allowed call that no cutoff has passed |
| RateLimiter.AllowedIffFewSurvivors | coordinator/limits.go:45-52 | for every history a call is allowed exactly when fewer than limit survivors remain |
| RateLimiter.AllowedIffRoom | coordinator/limits.go:29-53 | with the readings of its key in order, a call is allowed exactly when fewer than limit allowed calls of the complete history lie in the window |
| RateLimiter.SlidingWindow | coordinator/limits.go:29-53 | if no reading of a key lies more than skew behind an earlier one of that key, at most limit of its allowed calls lie in every (t - (window - skew), t]; skew 0 is the window itself |
| RateLimiter.SingleCallWindow | coordinator/limits.go:29-53 | a limit of one holds in every window for readings in any order |
| RateLimiter.LimitHoldsIff | coordinator/limits.go:29-53 | the limit holds in all intervals of a length, over all histories of a skew, exactly when the length is not positive or at most window - skew, or at most window for a limit of one |
| RateLimiter.TooMany | coordinator/limits.go:33-45 | past that length, for every limit, window and skew, a history with limit + 1 allowed calls in one interval |
| RateLimiter.BucketBounded | coordinator/limits.go:45-52 | no bucket ever holds more than limit times |
| RateLimiter.OutOfOrderExceedsLimit | coordinator/limits.go:33-35 | the readings 0, 0, 10, 5 under a limit of two and a window of ten: three calls are admitted within the interval (-5, 5] |
| ProcessWallet.RealEventIff | search/process.go:11-59 | without injection, a real event is fired exactly when an enabled format is listed, for the first such format and with the greatest listed balance |
| ProcessWallet.ProcessExactly | search/process.go:11-59 | for every configuration and key index, everything one call does: a failed injection; a real event of the looked-up keys; otherwise, where configured, the simulated event, of the first format, with balance 0 and this index; otherwise nothing; failure exactly when the called hook fails |
| ProcessWallet.InjectionIsRealMatch | search/process.go:61-96 | injecting from a non-empty bucket of an enabled format gives a real match and hence no simulated event |
| ProcessWallet.InjectionReplaces | search/process.go:61-96 | each bucket name replaces the key of its own format by the first hash of its own bucket and no other key |
| ProcessWallet.FailureIff | search/process.go:11-96 | the errors are exactly: an injection that cannot be made, and a failing hook that was called |
| SearchRun.RunForever | search/run.go:95-199 | the loop with its three running totals computes the run of one single counter, for every script |
| SearchRun.RunBatch | search/run.go:137-191 | one batch: base plus processed is preserved across the checkpoint that resets processed |
| SearchRun.ForeverConserves | search/run.go:95-199 | over all checkpoints and exits: consecutive indexes, session equals base plus processed and base hits plus hits, progress never falls, the cap is never passed and a run without error stops exactly at it; after an exit whose write fails, or a kill, the file is what the latest saved checkpoint left |
| SearchRun.ForeverFollowsStream | search/run.go:122-169 | the wallets processed are a prefix of those received, in order, and none of them had cancellation noticed before it |
| ForeverExits.StopsExactly | search/run.go:111-172 | for every script: the run is still going on exactly when every round passes, and has then counted every wallet; otherwise it ends in the first round that does not pass, with the exit and the number of keys which that round gives: cancellation before the cap, the cap before the wallet, a failing call last |
| SearchRun.CrashLosesOnlySince | search/run.go:180-191 | a run killed at any point leaves exactly the totals at its latest saved checkpoint, or the old file without one, and loses only the keys and hits counted since |
| SearchRun.SavedPersists | search/run.go:180-191 | once a checkpoint is saved, nothing the loop meets later leaves the file behind its keys or hits |
| SearchRun.CappedRunEnds | search/run.go:122-172 | a capped run that keeps receiving non-empty batches and is not cancelled stops at exactly the cap, unless a call fails |
| SearchRun.CallsAtMostOneEach | search/process.go:11-96 | in a run of either kind at most one injection and at most one simulated event occur, and real events are the hits |
| SearchRun.AtMostOneSimulatedOrInjected | search/run.go:95-199 | so in a forever run, where moreover all hits are counted unless a hook failed |
| SearchRun.NothingUnreportedIff | search/run.go:174-179 | the last progress total is that of the latest round that reports; it equals the session's total exactly when no key was counted since |
| ResumedRuns.ChainTotals | search/run.go:208-269 | over resumed runs whose writes succeed the file carries the sums of all runs |
| ResumedRuns.ProcessesIff | search/run.go:111-161 | a run processes a key at all exactly when its script brings a wallet before any cancellation |
| ResumedRuns.NoGapOrRepeatIff | search/run.go:154-161 | over such a chain the indexes are 1, 2, 3, ... exactly when every run after one that ended on a failing call is cancelled before its first wallet |
| ResumedRuns.FailedHookRepeatsIndex | search/run.go:154-161 | two runs, the first ended by a failing hook at key 1: the second gives index 1 again |
| BoundedRun.RunBounded | search/run.go:43-93 | a bounded run processes a prefix, in order, of the wallets that come before the first cancellation and nothing after it, at most one injected and one simulated; it never exceeds max(0, NumKeys) and completes exactly when it reaches it, fails exactly when a call fails, and otherwise has counted all those wallets, cancelled exactly when the script cancels; it counts the hits of what it processed; with NumKeys non-empty batches and no failure it completes |
| WorkerPool.SentBatchesFixed | search/workers.go:18-42 | no step changes the contents of a batch that was sent |
| WorkerPool.StepKeeps | search/workers.go:18-42 | every step keeps batches unshared and each generator's output equal to processed, in flight, and its own batch, in order |
| WorkerPool.RunKeeps | search/workers.go:18-42 | so does every interleaving |
| WorkerPool.PoolSafety | search/workers.go:18-42 | per generator the processed wallets are a prefix of the generated ones, none is invented, and at most 128*(2n+1) are generated but unprocessed |
| WorkerPool.PoolProgress | search/workers.go:18-42 | at every point of every interleaving: a generator can produce until its batch holds 128, and a batch of 128 can be sent as soon as the channel has room; while it has none, the consumer can take a step |
| LazyDerivation.EagerKeys | bitcoin/lookup.go:20-46 | the key looked up for an enabled format is hash160 of the compressed or the uncompressed key, hash160 of `00 14` and the compressed hash for P2SH, or the taproot key |
| LazyDerivation.SkippedIff | search/workers.go:84-108 | the taproot key is skipped exactly when taproot and another format are enabled, the taproot bucket is not empty, and the filters rule out the real keys of all other enabled formats |
| LazyDerivation.LazyVersusEager | search/workers.go:56-108 | staged and eager derivation match alike exactly unless the taproot key was skipped and exactly one of the real and the all-zero key is listed; other formats are never affected |
| LazyDerivation.LazyNeverInvents | search/workers.go:84-108 | without an all-zero key, staged derivation never invents a match, misses exactly skipped taproot matches, and is complete for taproot-only and taproot-free masks |
| LazyDerivation.StagedMatchIff | search/workers.go:56-108 | for every index: staged derivation matches like eager derivation, except that a skipped taproot key matches exactly when the all-zero key is listed |
| LazyDerivation.StagedMissesTaproot | search/workers.go:84-92 | an index of one taproot key under a mask of legacy and taproot: deriving that very key, eager derivation matches and staged derivation does not |
| LazyDerivation.StagedInventsTaproot | search/workers.go:56-82 | an index of the all-zero key under that mask: deriving another key, eager derivation does not match and staged derivation does |
| Base58.CheckDecodeIff | bitcoin/decode.go:64-81 | a string decodes to a payload and version exactly when it is their Base58Check encoding, for every checksum function |
| Base58.Alphabet | bitcoin/encode.go:59-65 | digit d is printed as character d of the Base58 alphabet |
| Base58.ConvertRoundTrip | bitcoin/encode.go:59-65 | converting digits between any two bases and back returns them, leading zeros included |
| Base58.VersionZeroStartsWithOne | bitcoin/encode.go:59-61 | a version-0 string starts with '1' |
| Base58.VersionFiveStartsWithThree | bitcoin/encode.go:63-65 | every version-5 string of 20 bytes has 34 characters and starts with '3', from 2*58^33 <= 5*256^24 and 6*256^24 <= 3*58^33 |
| Numerals.LeadingDigit | bitcoin/encode.go:63-65 | a number between d*b^k and (d+1)*b^k has k+1 digits, the first of them d |
| Bits.FromFivesIff | bitcoin/decode.go:100-106 | five-bit groups regroup to some bytes exactly when they are those bytes regrouped with zero padding |
| Bech32Checksum.ChecksumUnique | bitcoin/encode.go:94-97 | six groups verify as a version exactly when they are the checksum computed for it |
| Bech32Checksum.ChecksumVerifies | bitcoin/encode.go:94-97 | the computed checksum verifies as its own version and no other |
| Bech32Checksum.ChecksumResidue | bitcoin/encode.go:94-97 | for every prefix and data the polynomial of data and checksum is 1 for version 0 (BIP-173) and 0x2bc830a3 for version 1 (BIP-350) |
| Bech32Words.StepOnWords | bitcoin/encode.go:94-97 | one step of the checksum on strings of bits is one step on 32-bit words with the five generators of BIP-173 |
| Bech32Words.RunOnWords | bitcoin/encode.go:94-97 | so are all steps over any five-bit numbers |
| Bech32.Alphabet | bitcoin/encode.go:94-97 | value v is printed as character v of the Bech32 alphabet |
| Bech32.DecodeOfEncode | bitcoin/decode.go:88-92 | decoding returns prefix, data and version exactly when the string has at most 90 characters |
| Bech32.EncodeOfDecode | bitcoin/decode.go:88-92 | a decoded string without capitals is the encoding of what it decodes to |
| Address.EncodeSegWitAddress | bitcoin/encode.go:83-101 | the buffer of version and regrouped program is encoded as Bech32 for version 0, Bech32m for version 1, and refused otherwise |
| Address.AddressIff | bitcoin/decode.go:59-117 | the parser yields a kind and hash exactly for the string printed for them, with the kind's width |
| AddressVectors.WitnessVector | bitcoin/encode.go:67-73 | the P2WPKH address of BIP-173 |
| AddressVectors.TaprootVector | bitcoin/encode.go:75-81 | the P2TR address of BIP-350 |
| AddressVectors.PubKeyHashVector | bitcoin/encode.go:59-61 | a P2PKH address, for every checksum function that gives its four checksum bytes |
| AddressVectors.ScriptHashVector | bitcoin/encode.go:63-65 | a P2SH address, likewise |
| AddressVectors.VectorsDecode | bitcoin/decode.go:88-117 | the two witness addresses parse to their kinds and keys |
| Address.AddressInjective | bitcoin/encode.go:59-81 | kinds and hashes never share an address string |
| Address.MatchAddressDecodes | bitcoin/encode.go:26-41 | the address printed for a match parses to the bucket and key that were looked up |
| Address.DecodeWitness | bitcoin/decode.go:88-117 | for every witness version, program and checksum variant, what the Bech32 branch answers |
| Address.WrongChecksumRefused | bitcoin/decode.go:109-116 | version 0 under Bech32m and version 1 under Bech32 are refused |
| ListedAddresses.AnswersByAddress | funded/sets.go:225-243 | an index that answers as its rows do reports exactly the first enabled format whose printed address is in a row with enough balance |
| ListedAddresses.MatchIffListed | funded/sets.go:225-243 | after any history a load reports the first enabled format whose printed address the installed table lists with enough balance, and nothing else |
| ListedAddresses.WrittenRowIsFound | funded/load.go:89-125 | a table line with the address printed for a key and enough balance makes that key match, with at least that balance |
| SearchResults.LoadedReady | funded/load.go:19-87 | every successful load of every history leaves an index of the installed table's rows with all filters present |
| SearchResults.ZeroKeyIndexedIff | search/workers.go:56-82 | the all-zero taproot key is in the index exactly when the table lists its address with enough balance |
| SearchResults.EagerFirstListedIff | bitcoin/lookup.go:20-46 | the first listed format of the derived keys is the first enabled one under which the key's real address, computed from its public key, is listed |
| SearchResults.StagedFinds | search/workers.go:56-108 | a staged wallet matches in a format exactly when that is the first enabled one under which the key's real address is listed, taproot excepted when skipped; or in taproot when its key was skipped and the zero key is listed; never both |
| SearchResults.ProcessFinds | search/process.go:11-59 | one key gives a hit exactly when it is findable or a phantom; the event holds its index, the format, the key's own hash and the greatest balance of its address exactly when the key is no phantom, and otherwise reports the zero key with the greatest balance of that address |
| SearchResults.CallsReportListed | search/run.go:64-79 | the same of every key that a search of either kind processes |
| SearchResults.SearchReportsListed | search/run.go:95-199 | in particular of every key of a forever run, under every script |
| WorkerCounters.StepKeeps | worker/run.go:183-256 | every atomic step of hook, ticker and final report keeps the counters balanced against the last total |
| WorkerCounters.CountersConserved | worker/run.go:183-256 | in every interleaving the deltas swapped up to a report never exceed the count posted with it, nor that count the counter; after the final swap they equal the keys counted and the last total |
| WorkerCounters.ReportsLoaded | worker/run.go:196-208 | every run count that is posted is a value the counter had at an earlier moment |
| WorkerCounters.SearchTotalsRise | worker/run.go:221-228 | the totals of a forever run never fall, so the unsigned differences never wrap; the last is at least the session's base and at most base plus processed |
| Coordinator.Server.Register | coordinator/lobby.go:69-98 | a full lobby changes nothing and answers with an empty id; otherwise a waiting entry is added |
| Coordinator.Server.Heartbeat | coordinator/lobby.go:100-116 | a known worker is refreshed and set running or waiting; an unknown one is an error |
| Coordinator.Server.RecordStats | coordinator/lobby.go:118-140 | a known worker's entry and the total are updated, with 64-bit wrap-around; an unknown one is ignored |
| Coordinator.Server.StartRun | coordinator/lobby.go:148-161 | totals, hits and remembered addresses are cleared and every worker set running |
| Coordinator.Server.ResetLobby | coordinator/lobby.go:175-182 | every worker waits again; totals and hits stay |
| Coordinator.Server.PruneStale | coordinator/lobby.go:184-194 | exactly the entries not seen for thirty seconds go |
| Coordinator.Server.AppendWalletHit | coordinator/hits.go:13-42 | the block is whole, torn or missing according to where the append fails, and only a synced whole block succeeds |
| Coordinator.Server.HandleHit | coordinator/hits.go:61-86 | unknown workers and repeated addresses change nothing; otherwise the address is remembered before the append, and only a successful append is counted |
| Coordinator.RunSound | coordinator/lobby.go:69-194 | every run of calls keeps the invariant of lobby, total and hit pipeline |
| Coordinator.CoordinatorRuns | coordinator/hits.go:61-86 | over every run with appends failing in any way: the worker cap holds, no address is logged twice since the last start, hits equal whole blocks exactly when none missed its sync, and logged addresses are remembered ones, all of them exactly when no append of an address broke |
| Coordinator.NewHitLogged | coordinator/hits.go:61-86 | in every sound account a hit of a listed worker with a new address is logged, counted and remembered, whatever the state of the run |
| Coordinator.RememberedIff | coordinator/hits.go:61-86 | over every run of calls an address is remembered exactly when a then listed worker reported it since the latest start |
| Coordinator.FirstReportLogged | coordinator/hits.go:61-86 | over every run of calls, a listed worker's first report of an address since the latest start appends its block and counts it when the write succeeds |
| Coordinator.FailedHitIsLost | coordinator/hits.go:70-82 | after a failed append nothing gives that address a block until the next start of a run |
| Coordinator.LostHit | coordinator/hits.go:70-82 | a worker, a hit whose log cannot be opened, the same hit again: the address is remembered and has no block |
| Coordinator.UncountedBlock | coordinator/hits.go:80-84 | a worker and a hit whose sync fails: one whole block, no hit counted |
| Coordinator.ListedWhileHeard | coordinator/lobby.go:100-194 | over every run of calls a registered worker stays listed exactly as long as at each pruning it had been heard of in the last thirty seconds, and its state, time and key count are those of the latest call that bears on them |
| Coordinator.RunStateIsLatest | coordinator/lobby.go:142-182 | over every run of calls the run state is that of the latest start, stop, end or reset |
| Coordinator.RegisterAdmits | coordinator/lobby.go:69-98 | over every run of calls a new id is admitted exactly when there is no cap or room below it, as a waiting entry seen now, and no other entry changes |
| Cluster.StepSound | coordinator/lobby.go:118-140 | every step of workers, network and coordinator keeps: posted and repeated deltas equal those on their way, accepted in this run, and dropped |
| Cluster.ClusterTotal | coordinator/lobby.go:118-161 | the total never exceeds the keys counted by all search calls and the deltas delivered again; once all have reported and nothing is on its way, total plus dropped is exactly that sum |
| Cluster.TotalAgainstTried | worker/run.go:221-256 | then total, dropped and unreported keys add up to the keys tried, the session bases and the repeated deltas; the total is the keys tried exactly when the rest cancels out |

## Left out

- Elliptic-curve key generation, the taproot tweak, SHA-256 and RIPEMD-160 are parameters of fixed output length.
- HTTP, TLS, authorisation, JSON, command lines, prompts and terminal output.
- Bloom filters: the hash family, the sizing and the library's serialisation are parameters; false-positive rates are out.
- btcutil's base58 and bech32 packages are modelled from their published algorithms (BIP-173, BIP-350); their source is not part of this model.
- CacheStore.LoadCorrect: assumes that a table's modification time determines its content, that tables have fewer than 2^32 lines with filters the library can store, and that directories start without foreign cache files.
- CacheStore.Store.ParseTsv: line splitting belongs to bufio.Scanner; a table is its lines and whether scanning failed.
- CacheStore.Store.Load: mapping the file and reading it decode the same bytes, so both attempts are one; the log messages are out.
- TsvParse.ParseTSVLine: a line is a sequence of Unicode code points; malformed UTF-8 stands for U+FFFD, which is no blank and no digit.
- CacheCodec.ViewAt: the aliasing of a memory-mapped file by its views, unmapping, and alignment; a view is a decoded sequence.
- CacheCodec.WriteCache: the 1 MB write buffer and the file system calls; WriteCacheFile gives their outcomes.
- FundedSets.SortSlice: insertion sort stands for sort.Slice; only its contract is used.
- FundedSets.Sort: sets are a value, so Sort and BuildBlooms return new sets instead of changing fields; the two widths of hash share one bucket type.
- FundedSets.BuildBlooms: the goroutines that build the four filters side by side write separate fields and are run one after another.
- Builder.Builder.Build: the order of undecodable addresses.
- SearchRun.RunForever: best keys per second, timestamps and the failure to remove a session file on reset; totals are unbounded integers.
- ResumedRuns.NoGapOrRepeatIff: one session file at a time; runs in parallel on one file are out.
- SearchResults.CallsReportListed: for every index at which no injection is made.
- ProcessWallet.RealEventIff: the verification and injection-log hooks, which only report.
- WorkerPool.PoolSafety: the cancellation of generators, after which no further step happens.
- RateLimiter.LimitHoldsIff: clock readings are integers, of any unit.
- WorkerCounters.CountersConserved: assumes totals below 2^64; keys per second are out.
- Coordinator.Server.RecordStats: the sum of keys per second, a floating-point sum in map order.
- Coordinator.Server.Register: host name, thread count and version, which are only displayed; the random id is an argument.
- Coordinator.ListedWhileHeard: for ids that are not drawn a second time.
- Cluster.ClusterTotal: totals within 64 bits once all is reported.
- Format-mask printing, match labels, client backoff and package main's copies of code already modelled.
