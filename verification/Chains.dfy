// The supported chains, and the "chain:address" keys that several components share.

module Chains {
  import opened Text

  datatype SupportedChain = Optimism | Arbitrum | Base

  function ChainName(chain: SupportedChain): (s: string)
    ensures ':' !in s
  {
    match chain
    case Optimism => "optimism"
    case Arbitrum => "arbitrum"
    case Base => "base"
  }

  /** The key under which a chain's account or asset is stored: casing of the address is dropped. */
  function ChainKey(chain: SupportedChain, address: Address): string {
    ChainName(chain) + ":" + Lower(address)
  }

  /** Keys identify exactly the chain and the case-insensitive address. */
  lemma ChainKeyIdentifies(c1: SupportedChain, a1: Address, c2: SupportedChain, a2: Address)
    ensures ChainKey(c1, a1) == ChainKey(c2, a2) <==> c1 == c2 && Lower(a1) == Lower(a2)
  {
    if ChainKey(c1, a1) == ChainKey(c2, a2) {
      FirstColonSplits(ChainName(c1), Lower(a1), ChainName(c2), Lower(a2));
      assert ChainName(c1)[0] == ChainName(c2)[0];
    }
  }
}
