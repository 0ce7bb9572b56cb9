# Omnichain gas viewer: balance cache and aggregator

This project models the server side of the omnichain gas viewer, `netlify/functions/api.ts`. The server reports one address's native-token balance on a fixed set of test networks. It has two parts:

- **Cache-aside fetch** (`getBalanceWithCache`). An in-memory cache maps address → network → `{timestamp, balance}`. A lookup reads through the cache only while the entry is younger than 60 000 ms. Otherwise it asks the network client, writes the answer back and returns it. It throws when there is no client, when the answer is empty, or when the provider throws. The cache is not changed in those cases.
- **Aggregator** (`getBalances`). It queries every registered network for one hard-coded address. Each failure becomes a sentinel string for that network only: `'Client not found'` or `'Error fetching balance'`. The per-network results are folded into one object keyed by network.

The modules follow that structure:

- `Decimal` models `toString()` of the raw balance.
- `Clients` holds the registry and `getBalance`.
- `Cache` holds the cache table, its pure lookup/write/hit-test functions and the `BalanceCache` class whose methods update the table in place.
- `Aggregator` holds `getBalances`.

The network client is foreign code. Its balance query is a `Provider` parameter from (client, address) to either a raw amount or "threw". Clock readings are `int` parameters. `getBalanceWithCache` reads the clock twice: `now` at api.ts:32 and `later` inside `writeToCache` at api.ts:26.

The model follows the code as written. Points that are easy to misread:

- The hit test at api.ts:35 also requires `cache.data`. That is an entry under the address key `"data"`. The model keeps this as `DataKey in t`. As a result, no cached balance is ever served unless that key is present (`Cache.NoDataKeyNeverHits`, `Cache.RepeatWithoutDataKeyRefetches`).
- `getBalances` does not go through the cache, despite the comment at api.ts:120. It also ignores any requested address and uses the constant at api.ts:78.
- Per-network results are plain strings with text sentinels. `src/App.tsx:11-16` and `src/App.tsx:43` expect `{balance, error}` objects instead; that mismatch lies outside this model.
- `getBalanceWithCache` signals failure by throwing; the model returns `Result.Failure`.

## Model

| member | source | states |
|---|---|---|
| `Decimal.ToDecimalString` | netlify/functions/api.ts:84 | rendering a raw balance gives a non-empty string of decimal digits with no leading zero; zero is written exactly "0" |
| `Decimal.ParseToDecimalString` | netlify/functions/api.ts:84 | reading the rendered digits back gives the raw balance again |
| `Decimal.ToDecimalStringInjective` | netlify/functions/api.ts:99 | two different raw balances never render to the same string |
| `Clients.SupportedChainsEnumerateRegistry` | netlify/functions/api.ts:63-71 | `supportedChains` lists every registered network exactly once and nothing else |
| `Clients.GetBalance` | netlify/functions/api.ts:80-86 | undefined exactly when the network has no client; rejected exactly when the provider throws; otherwise the provider's amount as a non-empty decimal string |
| `Cache.ReadFromCache` | netlify/functions/api.ts:17-19 | absent exactly when the address has no inner map or the network has no entry under it; otherwise the stored entry itself |
| `Cache.Written` | netlify/functions/api.ts:21-29 | after a write, the pair reads back as `{time, balance}`, replacing any old entry; every other (address, network) pair reads as before; the address keys gain only the written address |
| `Cache.IsHit` | netlify/functions/api.ts:32-35 | a hit needs a stored entry for the pair, an entry under the address key "data", and a timestamp later than one minute before `now` |
| `Cache.CacheAside` | netlify/functions/api.ts:31-53 | one `getBalanceWithCache` step: a failure leaves the table unchanged; a success leaves the cache holding the returned balance for the pair; the table is either unchanged or the fetched balance written at `later` |
| `Cache.BalanceCache.constructor` | netlify/functions/api.ts:15 | the cache starts empty |
| `Cache.BalanceCache.WriteToCache` | netlify/functions/api.ts:21-29 | the table becomes exactly the written table: the inner map is created when missing, then one cell is assigned |
| `Cache.BalanceCache.GetBalanceWithCache` | netlify/functions/api.ts:31-53 | result and new table are those of one cache-aside step, fed the outcome of `getBalance` |
| `Cache.ExpiredEntryMisses` | netlify/functions/api.ts:32-35 | an entry that is 60 000 ms old or older is never served |
| `Cache.HitServesCachedBalance` | netlify/functions/api.ts:35-39 | on a hit the cached balance is returned, the table is unchanged and the provider's outcome plays no part |
| `Cache.MissFetchesAndStores` | netlify/functions/api.ts:40-51 | on a miss the call succeeds exactly when a non-empty balance was fetched, and then returns it and stores it with the second clock reading; on failure the table is unchanged, and the error is the provider's exactly when the provider threw |
| `Cache.NoDataKeyNeverHits` | netlify/functions/api.ts:35 | with no entry under the address key "data", no lookup is a hit |
| `Cache.MissFailsOnlyOnFetchFailure` | netlify/functions/api.ts:43-47 | a miss fails exactly when the network has no client or its provider throws |
| `Cache.RepeatWithinWindowHits` | netlify/functions/api.ts:31-53 | a repeat call within one minute of a successful fetch's write returns the same balance, leaves the table unchanged and ignores the provider, when "data" is (or becomes) an address key |
| `Cache.RepeatWithoutDataKeyRefetches` | netlify/functions/api.ts:35-49 | without the "data" key, a repeat call is decided by the new fetch alone: it succeeds exactly when that fetch gives a non-empty balance, then returns and stores that balance, and otherwise leaves the table unchanged |
| `Cache.FailedRefreshKeepsStaleEntry` | netlify/functions/api.ts:43-47 | when the refresh of an expired entry fails, that entry stays in place, unchanged |
| `Cache.CacheAsideKeepsBalancesNonEmpty` | netlify/functions/api.ts:45-49 | if no stored balance is empty before a call, none is empty after it |
| `Aggregator.NetworkBalance` | netlify/functions/api.ts:92-105 | 'Client not found' exactly when there is no client; 'Error fetching balance' exactly when the provider throws; otherwise the rendered balance |
| `Aggregator.NetworkBalanceIsolated` | netlify/functions/api.ts:97-104 | a network's entry depends only on its own client's answer |
| `Aggregator.GetBalances` | netlify/functions/api.ts:88-117 | the result's keys are exactly the registered networks; each value is that network's own balance or sentinel; 'Client not found' never appears |
| `Aggregator.OneFailureLeavesOthersIntact` | netlify/functions/api.ts:92-114 | changing one network's provider answers, for example into a failure, leaves every other network's entry unchanged |

## Left out

- The network client library. Client construction with the API key (api.ts:61-69) is reduced to `Alchemy(network)`. The balance query (api.ts:83 and api.ts:98) is the `Provider` parameter, a function of client and address. The SDK's `Network` string values are written out as constants; the SDK is not part of this model.
- `Promise.all` and async scheduling (api.ts:92-108). The tasks are evaluated in key order and then folded. Every task writes only its own key, so the order makes no difference.
- Concurrent `getBalanceWithCache` calls for the same pair, whose writes race with last-write-wins. Each call is modelled as one atomic step.
- `Date.now()` (api.ts:26 and api.ts:32). It is replaced by the `now` and `later` parameters. The JavaScript number type of timestamps is taken as an unbounded integer.
- Logging (`console.log`, `console.error`), and the HTTP handler's `JSON.stringify` and `Response` (api.ts:119-126). These are I/O.
- `netlify/functions/chains.ts`. It only serialises `supportedChains`, which is `Clients.SupportedChains` here.
- `src/App.tsx`. It is browser UI and unit conversion, not part of this model.
- Properties inherited from JavaScript's `Object.prototype`. For example, an address or network named `__proto__` or `toString` finds an inherited value rather than `undefined`. Keys are treated as plain dictionary keys.
