/**
 * The network client registry (`alchemyClients`, `supportedChains`) and the
 * single-network fetch `getBalance`. The network client itself is foreign
 * code: its balance query is the `Provider` parameter.
 */
module Clients {
  import opened Decimal

  /** Identifiers of the four registered networks (alchemy-sdk `Network` values). */
  const EthSepolia: string := "eth-sepolia"
  const OptSepolia: string := "opt-sepolia"
  const BaseSepolia: string := "base-sepolia"
  const MaticMumbai: string := "polygon-mumbai"

  /** A client handle, configured for one network. */
  datatype Client = Alchemy(network: string)

  /** What one `client.core.getBalance(address)` call produces: a raw amount or a thrown error. */
  datatype RawBalance = Raw(amount: nat) | Threw

  /** The foreign balance query, from a client and an address to its outcome. */
  type Provider = (Client, string) -> RawBalance

  /** The registry, built once from a fixed list and never changed. */
  const AlchemyClients: map<string, Client> :=
    map[EthSepolia := Alchemy(EthSepolia),
        OptSepolia := Alchemy(OptSepolia),
        BaseSepolia := Alchemy(BaseSepolia),
        MaticMumbai := Alchemy(MaticMumbai)]

  /** `Object.keys(alchemyClients)`: the registry's keys in insertion order. */
  const SupportedChains: seq<string> := [EthSepolia, OptSepolia, BaseSepolia, MaticMumbai]

  predicate Distinct(s: seq<string>) {
    forall i, j :: 0 <= i < j < |s| ==> s[i] != s[j]
  }

  /** `supportedChains` lists every registered network exactly once, and nothing else. */
  lemma SupportedChainsEnumerateRegistry()
    ensures Distinct(SupportedChains)
    ensures forall n :: n in SupportedChains <==> n in AlchemyClients
    ensures |SupportedChains| == |AlchemyClients|
  {
    assert AlchemyClients.Keys == {EthSepolia, OptSepolia, BaseSepolia, MaticMumbai};
  }

  /** The settled value of `getBalance(address, network)`. */
  datatype Fetch =
    | Undefined                  // no client registered: the promise resolves to `undefined`
    | Resolved(balance: string)  // the provider's amount rendered as a string
    | Rejected                   // the provider threw: the promise rejects

  function GetBalance(address: string, network: string, provider: Provider): (r: Fetch)
    ensures r.Undefined? <==> network !in AlchemyClients
    ensures r.Rejected? <==> network in AlchemyClients && provider(AlchemyClients[network], address).Threw?
    ensures r.Resolved? ==>
              network in AlchemyClients &&
              provider(AlchemyClients[network], address).Raw? &&
              r.balance == ToDecimalString(provider(AlchemyClients[network], address).amount)
    ensures r.Resolved? ==> r.balance != ""
  {
    if network !in AlchemyClients then Undefined
    else
      match provider(AlchemyClients[network], address)
      case Threw => Rejected
      case Raw(amount) => Resolved(ToDecimalString(amount))
  }
}
