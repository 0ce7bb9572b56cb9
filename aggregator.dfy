/**
 * `getBalances`: one balance per registered network for the fixed address,
 * each failure turned into a per-network sentinel string. The concurrent
 * `Promise.all` is modelled as the sequential loop it is equivalent to:
 * every task writes its own key.
 */
module Aggregator {
  import opened Decimal
  import opened Clients

  /** The hard-coded address every request is answered for. */
  const Address: string := "0x3a92924f2c8aAA64E7AEF846f73C0463A2f54173"

  const ClientNotFound: string := "Client not found"
  const ErrorFetchingBalance: string := "Error fetching balance"

  /** network -> balance string or sentinel */
  type Balances = map<string, string>

  /** The per-network task: the balance string, or the sentinel for the way it failed. */
  function NetworkBalance(network: string, provider: Provider): (s: string)
    ensures s == ClientNotFound <==> network !in AlchemyClients
    ensures s == ErrorFetchingBalance <==>
              network in AlchemyClients && provider(AlchemyClients[network], Address).Threw?
    ensures network in AlchemyClients && provider(AlchemyClients[network], Address).Raw? ==>
              s == ToDecimalString(provider(AlchemyClients[network], Address).amount)
  {
    if network !in AlchemyClients then ClientNotFound
    else
      match provider(AlchemyClients[network], Address)
      case Raw(amount) =>
        var text := ToDecimalString(amount);
        assert text[0] != ClientNotFound[0] && text[0] != ErrorFetchingBalance[0];
        text
      case Threw => ErrorFetchingBalance
  }

  /** A network's entry depends only on what its own client answers. */
  lemma NetworkBalanceIsolated(network: string, p: Provider, q: Provider)
    requires network in AlchemyClients
    requires p(AlchemyClients[network], Address) == q(AlchemyClients[network], Address)
    ensures NetworkBalance(network, p) == NetworkBalance(network, q)
  {
  }

  method GetBalances(provider: Provider) returns (balances: Balances)
    ensures forall n :: n in balances <==> n in AlchemyClients
    ensures forall n :: n in balances ==> balances[n] == NetworkBalance(n, provider)
    ensures forall n :: n in balances ==> balances[n] != ClientNotFound
  {
    var networks := SupportedChains;
    SupportedChainsEnumerateRegistry();
    // Promise.all: the settled result of each task, in key order
    var results := seq(|networks|, i requires 0 <= i < |networks| => (networks[i], NetworkBalance(networks[i], provider)));
    // reduce: fold the results into one object
    balances := map[];
    for i := 0 to |results|
      invariant forall n :: n in balances <==> n in networks[..i]
      invariant forall n :: n in balances ==> balances[n] == NetworkBalance(n, provider)
    {
      var (network, balance) := results[i];
      balances := balances[network := balance];
    }
    assert networks[..|results|] == networks;
  }

  /**
   * Failure isolation across the whole response: two providers that differ
   * only on one network's client give the same entry for every other network.
   */
  lemma {:induction false} OneFailureLeavesOthersIntact(failed: string, p: Provider, q: Provider)
    requires forall c: Client, a: string :: c != Alchemy(failed) ==> p(c, a) == q(c, a)
    ensures forall n :: n in AlchemyClients && n != failed ==> NetworkBalance(n, p) == NetworkBalance(n, q)
  {
    forall n | n in AlchemyClients && n != failed
      ensures NetworkBalance(n, p) == NetworkBalance(n, q)
    {
      assert AlchemyClients[n] == Alchemy(n);
      NetworkBalanceIsolated(n, p, q);
    }
  }
}
