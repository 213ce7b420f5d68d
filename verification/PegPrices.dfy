// Prices of assets pegged to a reference: which asset follows which, what a peg is worth, when a
// fresh enough reference may stand in for a missing price.

module PegPrices {
  import opened Options
  import opened Text

  datatype PriceSource = Chainlink | AaveOracle | PegSource

  /** `source` is absent for states written by feed updates. */
  datatype FeedState = FeedState(
    answer: int, decimals: int, updatedAt: int, feedAddress: Address, asset: Address, source: Option<PriceSource>)

  /** The one pegged asset of the program and its reference, as lower-cased keys. */
  datatype Pegs = Pegs(usdc: string, usdbc: string)

  ghost predicate PegsOk(p: Pegs) {
    p.usdc != p.usdbc && Lower(p.usdc) == p.usdc && Lower(p.usdbc) == p.usdbc
  }

  /** USDC and USDbC on Base. */
  function BasePegs(): Pegs {
    Pegs("0x833589fcd6edb6e08f4c7c32d4f71b54bda02913", "0xd9aaec86b65d86f6a7b5b1b0c42ffa531710b6ca")
  }

  /** No upper-case letter. */
  predicate IsLower(s: string) {
    forall i :: 0 <= i < |s| ==> !('A' <= s[i] <= 'Z')
  }

  lemma LowerOfLower(s: string)
    requires IsLower(s)
    ensures Lower(s) == s
  {
  }

  lemma LowerParts(a: string, b: string, c: string, d: string, e: string, f: string)
    requires IsLower(a) && IsLower(b) && IsLower(c) && IsLower(d) && IsLower(e) && IsLower(f)
    ensures IsLower(a + b + c + d + e + f)
  {
  }

  lemma UsdcParts()
    ensures "0x833589fcd6edb6e08f4c7c32d4f71b54bda02913"
            == "0x8335" + "89fcd6ed" + "b6e08f4c" + "7c32d4f7" + "1b54bda0" + "2913"
  {
  }

  lemma UsdcIsLower()
    ensures IsLower("0x8335" + "89fcd6ed" + "b6e08f4c" + "7c32d4f7" + "1b54bda0" + "2913")
  {
    LowerParts("0x8335", "89fcd6ed", "b6e08f4c", "7c32d4f7", "1b54bda0", "2913");
  }

  lemma UsdbcParts()
    ensures "0xd9aaec86b65d86f6a7b5b1b0c42ffa531710b6ca"
            == "0xd9aa" + "ec86b65d" + "86f6a7b5" + "b1b0c42f" + "fa531710" + "b6ca"
  {
  }

  lemma UsdbcIsLower()
    ensures IsLower("0xd9aa" + "ec86b65d" + "86f6a7b5" + "b1b0c42f" + "fa531710" + "b6ca")
  {
    LowerParts("0xd9aa", "ec86b65d", "86f6a7b5", "b1b0c42f", "fa531710", "b6ca");
  }

  /** The program's own assets are a proper pair. */
  lemma BasePegsOk()
    ensures PegsOk(BasePegs())
  {
    hide Lower, IsLower;
    UsdcIsLower();
    UsdcParts();
    UsdbcIsLower();
    UsdbcParts();
    LowerOfLower(BasePegs().usdc);
    LowerOfLower(BasePegs().usdbc);
    assert BasePegs().usdc[2] == '8' && BasePegs().usdbc[2] == 'd';
  }

  const DEFAULT_HEARTBEAT_SEC := 3600
  const DEFAULT_PEG_FRESHNESS := 2.5

  /** `now` and the freshness multiplier decide how old a reference may be. */
  datatype Oracle = Oracle(pegs: Pegs, heartbeats: map<string, nat>, pegFreshness: real)

  type Prices = map<string, int>
  type Feeds = map<string, FeedState>

  function PegReference(o: Oracle, key: string): Option<string> {
    if key == o.pegs.usdbc then Some(o.pegs.usdc) else None
  }

  function PegAssetsDerivedFrom(o: Oracle, reference: string): seq<string> {
    if reference == o.pegs.usdc then [o.pegs.usdbc] else []
  }

  /** The peg's price is the reference's, when that is known and above 1. */
  function ResolvePegPrice(o: Oracle, key: string, prices: Prices): Option<int> {
    match PegReference(o, key)
    case None => None
    case Some(reference) =>
      if reference in prices && prices[reference] > 1 then Some(prices[reference]) else None
  }

  function HeartbeatSec(o: Oracle, feed: Address): nat {
    if Lower(feed) in o.heartbeats then o.heartbeats[Lower(feed)] else DEFAULT_HEARTBEAT_SEC
  }

  predicate FreshEnoughForPeg(o: Oracle, feed: FeedState, nowSec: int) {
    (nowSec - feed.updatedAt) as real <= HeartbeatSec(o, feed.feedAddress) as real * o.pegFreshness
  }

  /** A pegged asset may inherit its reference's price: the reference is priced and fresh enough. */
  predicate RelaxesForHealthyPeg(o: Oracle, key: string, prices: Prices, feeds: Feeds, nowSec: int) {
    && key == o.pegs.usdbc
    && o.pegs.usdc in prices && prices[o.pegs.usdc] > 1
    && (o.pegs.usdc in feeds ==>
          var feed := feeds[o.pegs.usdc];
          feed.source == Some(AaveOracle) || feed.source == Some(PegSource) || FreshEnoughForPeg(o, feed, nowSec))
  }

  function EffectivePrice(o: Oracle, key: string, prices: Prices, feeds: Feeds, nowSec: int): (r: Option<int>)
    ensures r.Some? ==> r.value > 1
  {
    if key in prices && prices[key] > 1 then Some(prices[key])
    else if RelaxesForHealthyPeg(o, key, prices, feeds, nowSec) then ResolvePegPrice(o, key, prices)
    else None
  }

  /** Seconds after which a feed's price is stale: one and a half heartbeats. */
  predicate IsStale(o: Oracle, feed: FeedState, nowSec: int) {
    && feed.source != Some(AaveOracle) && feed.source != Some(PegSource)
    && 2 * (nowSec - feed.updatedAt) > 3 * HeartbeatSec(o, feed.feedAddress)
  }

  function WithoutHealthyPegs(o: Oracle, missing: seq<string>, prices: Prices, feeds: Feeds, nowSec: int): seq<string> {
    if missing == [] then []
    else if RelaxesForHealthyPeg(o, missing[0], prices, feeds, nowSec)
    then WithoutHealthyPegs(o, missing[1..], prices, feeds, nowSec)
    else [missing[0]] + WithoutHealthyPegs(o, missing[1..], prices, feeds, nowSec)
  }

  /** Pegs do not chain: no reference is itself pegged, nor derived from another asset. */
  lemma ReferencesAreNotPegged(o: Oracle, key: string)
    requires PegsOk(o.pegs) && PegReference(o, key).Some?
    ensures PegReference(o, PegReference(o, key).value) == None
    ensures key in PegAssetsDerivedFrom(o, PegReference(o, key).value)
    ensures forall r :: key in PegAssetsDerivedFrom(o, r) ==> PegReference(o, key) == Some(r)
  {
  }

  /** A missing price that the gap list forgives is one that resolves: a healthy peg always has a
      price, so nothing reported missing is ever dropped from the report. */
  lemma {:induction false} MissingIsNeverForgiven(o: Oracle, missing: seq<string>, prices: Prices, feeds: Feeds,
      nowSec: int)
    requires forall i :: 0 <= i < |missing| ==> EffectivePrice(o, missing[i], prices, feeds, nowSec).None?
    ensures WithoutHealthyPegs(o, missing, prices, feeds, nowSec) == missing
  {
    if missing != [] {
      assert EffectivePrice(o, missing[0], prices, feeds, nowSec).None?;
      MissingIsNeverForgiven(o, missing[1..], prices, feeds, nowSec);
    }
  }
}
