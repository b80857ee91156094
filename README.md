# digital-twin: a verified model of the telemetry and geolocation core

This project models in Dafny the data side of the *digital-twin* web app, which
shows the Solana network as a 3D city and globe. It covers:

- **Seeded randomness** (`src/utils/random.ts`):
  - `randomFromSeed`, a mulberry32-style mixer giving a number in [0, 1);
  - `hashStringToSeed`, 32-bit FNV-1a over a string's UTF-16 code units.
- **IP geolocation** (`src/services/geolocation.ts`). `getGeoLocation` does the following:
  - it takes at most the first 50 addresses and skips empty ones;
  - it strips a `:port` suffix;
  - it answers from a module-level cache when it can, otherwise it looks the address up;
  - it caches and returns only answers with truthy latitude and longitude.
- **Solana services** (`src/services/solana.ts`):
  - chain statistics, transactions per second and the validator count;
  - the simulated energy figures derived from the validator count;
  - `getNetworkNodes`, which extracts gossip hosts and geolocates them.
- **The telemetry hook** (`src/services/telemetry.ts`):
  - nine state cells;
  - a full refresh (`fetchAll`) and a cluster-only refresh (`refreshClusterNodes`), each split around its await.
- **The expanded map's sidebar** (`src/components/ExpandedGlobalMap.tsx`):
  - the per-country tally of nodes and the five largest countries;
  - the live feed of the first twenty nodes and the count of the rest.
- **The browser's own location** (`src/services/userLocation.ts`):
  - `getUserLocation` merges the caller's options over defaults and settles a promise from the geolocation callbacks;
  - `formatLocationError` turns a rejection into a message.

## Files and modules

- `common.dfy`, module `Common`:
  - `Option` models a JavaScript `null`;
  - `Call` is the outcome of an awaited call: it returned or it threw.
- `random.dfy`, module `Random`:
  - 32-bit words are `bv32`;
  - `Math.imul` is `Imul`;
  - `>>>` is a logical shift.
- `geolocation.dfy`, module `Geolocation`:
  - the loop of `getGeoLocation` as a method of the class `GeoService`, which owns the cache;
  - the method is specified by the function `Visits`, a fold of one iteration (`Visit`) over the examined addresses.
- `solana.dfy`, module `Solana`: the services as functions of what the RPC calls returned, plus `GetNetworkNodes`, which updates the geolocation cache.
- `telemetry.dfy`, module `Telemetry`:
  - the hook as the class `TelemetryHook`, with one field per state cell;
  - each refresh is split into a method before the await and one after it;
  - arbitrary interleavings of these steps are modelled as a `Step` history.
- `globalmap.dfy`, module `GlobalMap`: the tally as a method with a loop, the sort, the top five and the feed as functions.
- `userlocation.dfy`, module `UserLocation`: JavaScript values, options merging, and the settled promise.

## Model

| member | source | states |
|---|---|---|
| Random.RandomNumerator | src/utils/random.ts:1-5 | the mixed 32-bit word read as an unsigned number is below 2^32 |
| Random.RandomFromSeed | src/utils/random.ts:1-6 | the result lies in [0, 1) and is exactly the unsigned mixed word divided by 2^32 |
| Random.RandomDependsOnlyOnSeedModulo | src/utils/random.ts:2 | seeds equal modulo 2^32 give the same first word and the same random number, because every bitwise operator reads `t` modulo 2^32 |
| Random.RandomOfZero | src/utils/random.ts:1-6 | a fixed test vector: seed 0 mixes to 0x4434b462 |
| Random.XorShift14 | src/utils/random.ts:5 | `t ^ (t >>> 14)` loses nothing: `UnshiftXor14` recovers its argument from its result |
| Random.Mix | src/utils/random.ts:3-5 | the mixer after the seed word: the word scrambled by the two reassignments can be recovered from the output |
| Random.HashStringToSeed | src/utils/random.ts:8-16 | the loop returns the unsigned 32-bit FNV-1a hash of the code units, so the result is below 2^32 |
| Random.HashOfEmpty | src/utils/random.ts:10 | the empty string hashes to the FNV offset basis 0x811c9dc5 |
| Random.HashAppend | src/utils/random.ts:11-14 | hashing one more code unit is one xor-then-multiply step on the previous hash |
| Random.HashConcat | src/utils/random.ts:11-14 | the hash of a concatenation continues from the hash of the first part |
| Random.OctetRound | src/utils/random.ts:12-13 | a round on a byte-valued code unit is the byte-wise FNV-1a round |
| Random.OctetString | src/utils/random.ts:12 | the code units of a byte string keep its length, and each unit is below 256 and equals its byte |
| Random.FnvFromIsOctetFnv | src/utils/random.ts:11-14 | continuing the hash over byte-valued code units is byte-wise FNV-1a from the same state |
| Random.HashIsOctetFnv1a | src/utils/random.ts:8-16 | on byte-valued strings the hash is standard 32-bit FNV-1a of the bytes |
| Random.HashTestVectors | src/utils/random.ts:8-16 | the standard FNV-1a test vectors: "a" hashes to 0xe40c292c, "foobar" to 0xbf9cf968 |
| Geolocation.ToGeo | src/services/geolocation.ts:38-44 | a usable answer's record has non-zero latitude and longitude |
| Geolocation.StripPort | src/services/geolocation.ts:26 | `split(':')[0]` is a prefix of the address with no ':', and is all of it or stops at its first ':' |
| Geolocation.StripPortIdempotent | src/services/geolocation.ts:26 | stripping the port twice is stripping it once |
| Geolocation.Examined | src/services/geolocation.ts:19 | `slice(0, 50)` is the prefix of length min(50, n) |
| Geolocation.Visit | src/services/geolocation.ts:22-56 | one iteration: an empty address changes nothing; otherwise the results and the lookups each gain at most one entry at the end, and the cache keeps every key |
| Geolocation.Visits | src/services/geolocation.ts:22-56 | the loop: results and lookups only grow at the end, by at most one per address, and no cache key is ever removed |
| Geolocation.VisitAppends | src/services/geolocation.ts:22-56 | one iteration appends a result only for a cached address or a usable answer, and that result carries the stripped address |
| Geolocation.VisitCache | src/services/geolocation.ts:28-46 | one iteration keeps every cache entry, adds only the stripped address with its usable answer, and requests only an address that was not cached |
| Geolocation.ResultsFollowInputs | src/services/geolocation.ts:22-58 | each result comes from a distinct non-empty input, in increasing input order, and carries that input with its port stripped |
| Geolocation.CacheOnlyGrows | src/services/geolocation.ts:28-46 | the cache keeps its old entries; each new entry was requested, had a usable answer and holds non-zero coordinates; no cached address is requested |
| Geolocation.ResultsAreCached | src/services/geolocation.ts:28-46 | every returned location equals the cache entry for its address afterwards |
| Geolocation.ResultsArePortFree | src/services/geolocation.ts:26-46 | no address in the results contains ':' |
| Geolocation.GeoService.constructor | src/services/geolocation.ts:2 | the cache starts empty, so it holds no zero coordinate |
| Geolocation.GeoService.GetGeoLocation | src/services/geolocation.ts:17-59 | the loop's results, requests and new cache are the fold of one iteration over the first 50 addresses, starting from the old cache; the cache keeps holding only non-zero coordinates, and no result has a zero latitude or longitude |
| Geolocation.CoordinatesStayNonZero | src/services/geolocation.ts:28-46 | from a cache of records with non-zero coordinates, a call leaves such a cache and returns no location with a zero latitude or longitude |
| Geolocation.CallGuarantees | src/services/geolocation.ts:17-59 | one call returns at most min(50, n) results, each port-free and cached, keeps old cache entries, adds only usable requested answers, and never requests a cached address |
| Geolocation.RepeatedCallHitsCache | src/services/geolocation.ts:2-31 | repeating a call with the cache the first call left looks up none of the addresses the first call resolved |
| Solana.RoundDiv | src/services/solana.ts:50 | `Math.round(n / d)` for d > 0: the nearest integer, with halves rounded up |
| Solana.RoundDivUnique | src/services/solana.ts:50 | that nearest integer is the only one within half a unit |
| Solana.GetEnergyStats | src/services/solana.ts:71-85 | null exactly for validator count 0; otherwise carbon "0g", 650 J per transaction, and power `Math.round(v * 500 * 1.2 / 1000)` = round(3v/5) |
| Solana.PowerRounding | src/services/solana.ts:78-82 | the rounded power is within 2/5 kW of the exact value 3v/5 and equals floor((3v + 2)/5) |
| Solana.GetTps | src/services/solana.ts:45-57 | null exactly when the call throws or returns no samples; otherwise the first sample's transactions over its period, rounded, or Infinity or NaN for a zero period |
| Solana.GetValidatorCount | src/services/solana.ts:60-68 | null exactly when the call throws; otherwise the number of current vote accounts, not counting delinquent ones |
| Solana.GetChainStats | src/services/solana.ts:16-42 | null exactly when getSlot or getEpochInfo throws; otherwise slot, epoch and status "Online", with a block time that is null when its own call throws |
| Solana.GossipIps | src/services/solana.ts:92-94 | at most one address per node, none containing ':' |
| Solana.GossipIpsConcat | src/services/solana.ts:92-94 | the filter-then-map distributes over concatenation |
| Solana.GossipIpsMembers | src/services/solana.ts:92-94 | an address is extracted exactly when some node with a gossip address has it as host |
| Solana.GetNetworkNodes | src/services/solana.ts:88-103 | `[]` with the cache untouched when getClusterNodes throws; otherwise exactly getGeoLocation of the gossip hosts; no located node has a zero coordinate, and the cache keeps only non-zero records |
| Solana.NetworkNodesAreGossipHosts | src/services/solana.ts:88-103 | at most 50 located nodes, each for the host of some cluster node's gossip address |
| Telemetry.TelemetryHook.constructor | src/services/telemetry.ts:35-43 | the initial cell values: no data, no addresses, both flags raised |
| Telemetry.TelemetryHook.StartFetchAll | src/services/telemetry.ts:46-47 | raises both loading flags and changes nothing else |
| Telemetry.TelemetryHook.FinishFetchAll | src/services/telemetry.ts:56-66 | writes every cell from the results, with the energy derived from the validator count |
| Telemetry.TelemetryHook.FetchAll | src/services/telemetry.ts:45-67 | after a full refresh every cell holds the new results, the energy matches the validators, both flags are lowered and the time is stamped |
| Telemetry.TelemetryHook.StartRefreshClusterNodes | src/services/telemetry.ts:77 | raises only the cluster flag |
| Telemetry.TelemetryHook.FinishRefreshClusterNodes | src/services/telemetry.ts:78-82 | writes only the cluster cells, the time stamp and the cluster flag |
| Telemetry.TelemetryHook.RefreshClusterNodes | src/services/telemetry.ts:76-83 | a cluster refresh leaves validators, tps, energy, chain statistics and `loading` unchanged |
| Telemetry.RefreshTouchesOnlyCluster | src/services/telemetry.ts:76-83 | the same, for any state |
| Telemetry.FetchAllForgetsPriorState | src/services/telemetry.ts:45-67 | a completed full refresh overwrites every cell, so its outcome does not depend on the prior state |
| Telemetry.RefreshAfterFetchAll | src/services/telemetry.ts:45-83 | a cluster refresh after a full refresh ends where a full refresh with that cluster result would |
| Telemetry.StepKeepsCoherent | src/services/telemetry.ts:45-83 | every half of either refresh keeps the cells coherent: energy matches validators, a lowered flag implies a time stamp, and metadata exists exactly when stamped |
| Telemetry.AlwaysCoherent | src/services/telemetry.ts:45-83 | any interleaving of refresh halves keeps coherence |
| Telemetry.ReachableIsCoherent | src/services/telemetry.ts:35-83 | every state reachable from the initial one is coherent |
| GlobalMap.TallyCountries | src/components/ExpandedGlobalMap.tsx:27-30 | the tally has a key exactly for each country present, holding its number of nodes |
| GlobalMap.DistinctIsTheCountries | src/components/ExpandedGlobalMap.tsx:27-30 | the distinct countries are listed once each, and are exactly those with a node |
| GlobalMap.SumAfterAppend | src/components/ExpandedGlobalMap.tsx:28 | counting one more node adds one to the sum over a repeat-free list holding its country, and nothing otherwise |
| GlobalMap.SumOfAppended | src/components/ExpandedGlobalMap.tsx:27-30 | listing one more country adds its tally to the sum |
| GlobalMap.TalliesSumToNodeCount | src/components/ExpandedGlobalMap.tsx:27-30 | the tallies add up to the number of nodes |
| GlobalMap.Insert | src/components/ExpandedGlobalMap.tsx:33 | insertion adds one entry |
| GlobalMap.SortByCount | src/components/ExpandedGlobalMap.tsx:33 | the sort keeps the number of entries |
| GlobalMap.InsertAddsEntry | src/components/ExpandedGlobalMap.tsx:33 | insertion adds exactly the entry to the multiset |
| GlobalMap.InsertKeepsOrder | src/components/ExpandedGlobalMap.tsx:33 | insertion keeps counts non-increasing |
| GlobalMap.SortByCountSorts | src/components/ExpandedGlobalMap.tsx:33 | the sort orders by descending count and is a permutation |
| GlobalMap.TopCountries | src/components/ExpandedGlobalMap.tsx:32-34 | min(5, n) entries, by non-increasing count, drawn from the entries |
| GlobalMap.TopCountriesAreTheLargest | src/components/ExpandedGlobalMap.tsx:32-34 | at most five entries, by descending count, drawn from the entries, none outweighed by an entry left out |
| GlobalMap.LeftOutIsNoLarger | src/components/ExpandedGlobalMap.tsx:34 | after a descending sort, nothing beyond the first n outweighs anything among them |
| GlobalMap.TopCountriesOfTally | src/components/ExpandedGlobalMap.tsx:27-34 | each listed region carries its own tally, and no unlisted country has more nodes than a listed one |
| GlobalMap.Feed | src/components/ExpandedGlobalMap.tsx:172 | the feed is the first min(20, n) nodes in order |
| GlobalMap.MoreNodes | src/components/ExpandedGlobalMap.tsx:190 | the "more" figure plus the feed's length is the node count, and it is positive exactly when there are over 20 nodes |
| UserLocation.FormatLocationError | src/services/userLocation.ts:34-39 | an object's string `message` when it has one; otherwise "Location request failed." |
| UserLocation.ErrorObject | src/services/userLocation.ts:9 | a new Error has a string message |
| UserLocation.MergeOptions | src/services/userLocation.ts:12-17 | without options the defaults false/10000/60000; otherwise each key the caller gives (even `undefined`) replaces its default |
| UserLocation.MergeOverridesDefaults | src/services/userLocation.ts:12-17 | absent keys take defaults, given values win, and an empty options object equals no options |
| UserLocation.GetUserLocation | src/services/userLocation.ts:7-32 | rejects with "Geolocation is not supported in this browser." without geolocation; otherwise resolves with the position's latitude, longitude and accuracy, or rejects with exactly the error the browser reports |
| UserLocation.RejectionMessages | src/services/userLocation.ts:7-39 | a rejection formats to the unsupported-browser message, to the error's own string message, or to the fallback |

## Left out

- Network I/O (RPC calls, `fetch` to ipapi.co) and the clock are inputs:
  - RPC calls are `Call` outcomes;
  - lookups are a function from address to response;
  - the time stamp is a parameter.
- A function models lookups, so two lookups of one address in one call get the same answer. A real network could answer differently.
- Geolocation.GeoService.GetGeoLocation: runs each call as one uninterrupted step. In the source the loop awaits `fetch` and the 100 ms `sleep`, and `ipCache` is shared by the whole module, so a second call (the map closed and reopened while the first is still running) can interleave at those awaits. Two overlapping calls can then both look up an address that neither has cached yet, and the later `ipCache.set` overwrites the earlier entry. `Geolocation.ResultsAreCached`, `Geolocation.CallGuarantees` and `Geolocation.RepeatedCallHitsCache` hold for calls that do not overlap.
- The console logging and the 60-second `setInterval` polling are not modelled. The 100 ms `sleep` is modelled only as a point where nothing else runs (see the line above). For a call that runs alone, none of them changes a value.
- `Geolocation.GeoService.GetGeoLocation` also returns the addresses it looked up (`requested`). This output is not in the source; it lets the model state which network requests were made.
- Geolocation answer bodies have numeric-or-missing latitude and longitude. Non-numeric JSON values and a missing `city` or `country_name` (`undefined` in the source) are not modelled.
- `Random.HashStringToSeed` makes one `FnvStep` call where the loop body has two statements (xor, then multiply). The step is exactly those two operations.
- `Random.RandomFromSeed` takes integer seeds. The first addition is taken modulo 2^32; for seeds beyond 2^53 or non-integers, JavaScript's floating-point addition is not modelled.
- `Solana.GetTps` does not model floating-point rounding of the division; it rounds the exact quotient.
- `Solana.GetChainStats` leaves out `epochProgress`, a floating-point percentage.
- The `Connection` object and its endpoint constant are not modelled.
- `getClusterNodeIps` is imported by the telemetry hook but is not part of this model. Its result is an input of the telemetry model (`ClusterResult`).
- GlobalMap.TallyCountries: does not model country names that are properties inherited from `Object.prototype` (`__proto__`, `constructor`, `toString`, …). The source counts into a plain `{}`, so for such names `acc[node.country] || 0` reads the inherited value (a function, giving a string tally, or no own key at all for `__proto__`); the model counts every name as an own key. The names come from a geolocation service and are real country names, so these values are not expected.
- `GlobalMap.TopCountriesOfTally` holds for any listing of the tally's entries. The model does not fix JavaScript's property enumeration order, so the order among equal counts is not stated.
- The React rendering of the map, the globe and the panels is not modelled. Only the values the sidebar displays are.
- `UserLocation.GetUserLocation` does not model the actual timeout, high-accuracy or cached-position behaviour of the browser. These are decided by the browser, which is an input.
