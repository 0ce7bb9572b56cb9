/**
 * The in-memory balance cache (`cache`, `readFromCache`, `writeToCache`) and
 * the cache-aside fetch `getBalanceWithCache`. Clock readings (`Date.now()`)
 * are parameters: `now` is read when the lookup starts, `later` when the
 * fetched balance is written back.
 */
module Cache {
  import opened Wrappers
  import opened Clients

  /** The freshness window, in milliseconds. */
  const OneMinute: int := 60000

  /** The address key whose presence the hit test also demands (`cache.data` at api.ts:35). */
  const DataKey: string := "data"

  datatype Entry = Entry(timestamp: int, balance: string)

  /** address -> network -> entry */
  type Table = map<string, map<string, Entry>>

  /** `cache[address]?.[network]` */
  function ReadFromCache(t: Table, address: string, network: string): (r: Option<Entry>)
    ensures r.None? <==> address !in t || network !in t[address]
    ensures r.Some? ==> r.value == t[address][network]
  {
    if address in t && network in t[address] then Some(t[address][network]) else None
  }

  /** The table `writeToCache(address, network, balance)` leaves behind when the clock reads `time`. */
  function Written(t: Table, address: string, network: string, balance: string, time: int): (t': Table)
    ensures ReadFromCache(t', address, network) == Some(Entry(time, balance))
    ensures forall a, n :: (a, n) != (address, network) ==> ReadFromCache(t', a, n) == ReadFromCache(t, a, n)
    ensures t'.Keys == t.Keys + {address}
  {
    var inner := if address in t then t[address] else map[];
    t[address := inner[network := Entry(time, balance)]]
  }

  /**
   * The test of api.ts:35: an entry exists, is younger than one minute, and
   * `cache.data` is set.
   */
  predicate IsHit(t: Table, address: string, network: string, now: int)
    ensures IsHit(t, address, network, now) ==>
              address in t && network in t[address] && DataKey in t &&
              t[address][network].timestamp > now - OneMinute
  {
    var entry := ReadFromCache(t, address, network);
    entry.Some? && now - entry.value.timestamp < OneMinute && DataKey in t
  }

  /** Why `getBalanceWithCache` throws. */
  datatype Thrown =
    | FailedToFetchBalance  // `getBalance` gave `undefined` or an empty string
    | ProviderError         // the provider's own exception, propagated

  /** What one `getBalanceWithCache` call returns and the table it leaves. */
  datatype Step = Step(result: Result<string, Thrown>, table: Table)

  /**
   * One `getBalanceWithCache` call on table `t`, where `fetched` is what
   * `getBalance` would settle to if it were called.
   */
  function CacheAside(t: Table, address: string, network: string, now: int, fetched: Fetch, later: int): (s: Step)
    ensures s.result.Failure? ==> s.table == t
    ensures s.result.Success? ==>
              s.result.value != "" || IsHit(t, address, network, now)
    ensures s.result.Success? ==>
              ReadFromCache(s.table, address, network).Some? &&
              ReadFromCache(s.table, address, network).value.balance == s.result.value
    ensures s.table == t || (fetched.Resolved? && s.table == Written(t, address, network, fetched.balance, later))
  {
    if IsHit(t, address, network, now) then
      Step(Success(t[address][network].balance), t)
    else
      match fetched
      case Rejected => Step(Failure(ProviderError), t)
      case Undefined => Step(Failure(FailedToFetchBalance), t)
      case Resolved(balance) =>
        if balance == "" then Step(Failure(FailedToFetchBalance), t)
        else Step(Success(balance), Written(t, address, network, balance, later))
  }

  /** The process-wide cache object. */
  class BalanceCache {
    var table: Table

    /** `const cache: Cache = {}` */
    constructor ()
      ensures table == map[]
    {
      table := map[];
    }

    method WriteToCache(address: string, network: string, balance: string, now: int)
      modifies this
      ensures table == Written(old(table), address, network, balance, now)
    {
      if address !in table {
        table := table[address := map[]];
      }
      table := table[address := table[address][network := Entry(now, balance)]];
    }

    method GetBalanceWithCache(address: string, network: string, provider: Provider, now: int, later: int)
      returns (r: Result<string, Thrown>)
      modifies this
      ensures Step(r, table) ==
              CacheAside(old(table), address, network, now, GetBalance(address, network, provider), later)
    {
      var cacheEntry := ReadFromCache(table, address, network);
      if cacheEntry.Some? && now - cacheEntry.value.timestamp < OneMinute && DataKey in table {
        return Success(cacheEntry.value.balance);
      }
      var balance := GetBalance(address, network, provider);
      match balance {
        case Rejected =>
          return Failure(ProviderError);
        case Undefined =>
          return Failure(FailedToFetchBalance);
        case Resolved(b) =>
          if b == "" {
            return Failure(FailedToFetchBalance);
          }
          WriteToCache(address, network, b, later);
          return Success(b);
      }
    }
  }

  /** Freshness is strict: an entry one minute old or older is never served. */
  lemma ExpiredEntryMisses(t: Table, address: string, network: string, now: int)
    requires ReadFromCache(t, address, network).Some?
    ensures now - ReadFromCache(t, address, network).value.timestamp >= OneMinute ==> !IsHit(t, address, network, now)
  {
  }

  /** On a hit the cached balance is returned, the table is untouched and the fetch outcome plays no part. */
  lemma HitServesCachedBalance(t: Table, address: string, network: string, now: int, fetched: Fetch, later: int)
    requires IsHit(t, address, network, now)
    ensures CacheAside(t, address, network, now, fetched, later) ==
            Step(Success(ReadFromCache(t, address, network).value.balance), t)
  {
  }

  /** On a miss the call fails and leaves the table alone, or returns the fetched balance and stores it at `later`. */
  lemma MissFetchesAndStores(t: Table, address: string, network: string, now: int, fetched: Fetch, later: int)
    requires !IsHit(t, address, network, now)
    ensures var s := CacheAside(t, address, network, now, fetched, later);
            && (s.result.Success? <==> fetched.Resolved? && fetched.balance != "")
            && (s.result.Failure? ==> s.table == t)
            && (s.result.Failure? ==> (s.result.error == ProviderError <==> fetched.Rejected?))
            && (s.result.Success? ==>
                  s.result.value == fetched.balance &&
                  ReadFromCache(s.table, address, network) == Some(Entry(later, fetched.balance)))
  {
  }

  /** Without an entry under the address key "data", the cache is never read through. */
  lemma NoDataKeyNeverHits(t: Table, address: string, network: string, now: int)
    requires DataKey !in t
    ensures !IsHit(t, address, network, now)
  {
  }

  /**
   * The composed call fails exactly when the network has no client or its
   * provider throws: a fetched balance is never empty.
   */
  lemma MissFailsOnlyOnFetchFailure(t: Table, address: string, network: string, now: int, provider: Provider, later: int)
    requires !IsHit(t, address, network, now)
    ensures var s := CacheAside(t, address, network, now, GetBalance(address, network, provider), later);
            s.result.Failure? <==>
              network !in AlchemyClients || provider(AlchemyClients[network], address).Threw?
  {
    var fetched := GetBalance(address, network, provider);
    MissFetchesAndStores(t, address, network, now, fetched, later);
  }

  /**
   * A second call within one minute of a first call's write returns the same
   * balance without consulting the provider, provided `cache.data` is set
   * (or becomes set by the first write).
   */
  lemma {:induction false} RepeatWithinWindowHits(
    t: Table, address: string, network: string,
    now1: int, fetched1: Fetch, later1: int,
    now2: int, fetched2: Fetch, later2: int)
    requires !IsHit(t, address, network, now1)
    requires CacheAside(t, address, network, now1, fetched1, later1).result.Success?
    requires now2 - later1 < OneMinute
    requires DataKey in t || address == DataKey
    ensures var s1 := CacheAside(t, address, network, now1, fetched1, later1);
            CacheAside(s1.table, address, network, now2, fetched2, later2) == s1
  {
    // The first call writes the pair at `later1` and keeps (or adds) the "data" key,
    // so the second call is a hit on exactly that entry.
  }

  /** Without `cache.data` the repeat is a miss again: its result is whatever the new fetch gives. */
  lemma {:induction false} RepeatWithoutDataKeyRefetches(
    t: Table, address: string, network: string,
    now1: int, fetched1: Fetch, later1: int,
    now2: int, fetched2: Fetch, later2: int)
    requires DataKey !in t && address != DataKey
    ensures var s1 := CacheAside(t, address, network, now1, fetched1, later1);
            var s2 := CacheAside(s1.table, address, network, now2, fetched2, later2);
            && (s2.result.Success? <==> fetched2.Resolved? && fetched2.balance != "")
            && (s2.result.Success? ==>
                  s2.result.value == fetched2.balance &&
                  s2.table == Written(s1.table, address, network, fetched2.balance, later2))
            && (s2.result.Failure? ==> s2.table == s1.table)
  {
    // A write under another address never adds the "data" key, so both calls miss.
  }

  /** A failed refresh of an expired entry keeps that entry in place, unchanged. */
  lemma FailedRefreshKeepsStaleEntry(t: Table, address: string, network: string, now: int, fetched: Fetch, later: int)
    requires ReadFromCache(t, address, network).Some?
    requires now - ReadFromCache(t, address, network).value.timestamp >= OneMinute
    requires CacheAside(t, address, network, now, fetched, later).result.Failure?
    ensures var s := CacheAside(t, address, network, now, fetched, later);
            ReadFromCache(s.table, address, network) == ReadFromCache(t, address, network)
  {
    ExpiredEntryMisses(t, address, network, now);
  }

  /** Every stored balance is a non-empty string. */
  ghost predicate NoEmptyBalance(t: Table) {
    forall a, n :: ReadFromCache(t, a, n).Some? ==> ReadFromCache(t, a, n).value.balance != ""
  }

  /** `getBalanceWithCache` only ever stores non-empty balances. */
  lemma CacheAsideKeepsBalancesNonEmpty(t: Table, address: string, network: string, now: int, fetched: Fetch, later: int)
    requires NoEmptyBalance(t)
    ensures NoEmptyBalance(CacheAside(t, address, network, now, fetched, later).table)
  {
    var s := CacheAside(t, address, network, now, fetched, later);
    if s.table != t {
      forall a, n | ReadFromCache(s.table, a, n).Some?
        ensures ReadFromCache(s.table, a, n).value.balance != ""
      {
        if (a, n) != (address, network) {
          assert ReadFromCache(s.table, a, n) == ReadFromCache(t, a, n);
        }
      }
    }
  }
}
