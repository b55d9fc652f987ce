/**
 * `refreshTokens`: both sources settled, their records concatenated (DexScreener first), merged by
 * address and published to the cache.
 */
module Aggregator {
  import opened Common
  import opened Tokens
  import opened Retry
  import opened Sources
  import opened Merge
  import opened TokenCache

  /** A settled source: its records when it fulfilled, nothing when it was rejected. */
  function Settled(r: Result<seq<Token>, HttpError>): seq<Token> {
    match r
    case Ok(ts) => ts
    case Err(_) => []
  }

  /** The list published by one refresh, given the upstreams' answers. */
  function Refreshed(dexRespond: (string, nat) -> Attempt<DexPayload>, geckoRespond: nat -> Attempt<GeckoPayload>): (r: seq<Token>)
    ensures AllAddressed(r)
  {
    MergeSpec(Settled(DexScreener(dexRespond)) + Settled(GeckoTerminal(geckoRespond)))
  }

  /**
   * `refreshTokens`: fetch both sources, concatenate what settled, merge, publish at `now` and
   * return the length of the merged list.
   */
  method RefreshTokens(store: Cache, dexRespond: (string, nat) -> Attempt<DexPayload>,
                       geckoRespond: nat -> Attempt<GeckoPayload>, now: int) returns (count: nat)
    modifies store
    ensures store.tokens == Refreshed(dexRespond, geckoRespond) && store.lastUpdated == now
    ensures count == |store.tokens|
  {
    var fromDex := FetchDexScreener(dexRespond);
    var fromGecko := FetchGeckoTerminal(geckoRespond);
    var merged := Settled(fromDex) + Settled(fromGecko);
    var final := MergeByAddress(merged);
    store.SetTokens(final, now);
    count := |final|;
  }

  /**
   * The joined list puts every DexScreener record before every GeckoTerminal record, and a
   * rejected source contributes nothing.
   */
  lemma JoinOrder(dex: Result<seq<Token>, HttpError>, gecko: Result<seq<Token>, HttpError>)
    ensures var joined := Settled(dex) + Settled(gecko);
      && (dex.Ok? ==> joined[..|dex.value|] == dex.value)
      && (gecko.Ok? ==> joined[|joined| - |gecko.value|..] == gecko.value)
      && (dex.Err? ==> joined == Settled(gecko))
      && (gecko.Err? ==> joined == Settled(dex))
  {
    var joined := Settled(dex) + Settled(gecko);
    if dex.Err? {
      assert joined == [] + Settled(gecko);
    }
    if gecko.Err? {
      assert joined == Settled(dex) + [];
    }
  }

  /** When both sources are rejected the refresh publishes the empty list. */
  lemma AllSourcesDown(dexRespond: (string, nat) -> Attempt<DexPayload>, geckoRespond: nat -> Attempt<GeckoPayload>)
    requires DexScreener(dexRespond).Err? && GeckoTerminal(geckoRespond).Err?
    ensures Refreshed(dexRespond, geckoRespond) == []
  {
    assert Settled(DexScreener(dexRespond)) + Settled(GeckoTerminal(geckoRespond)) == [];
  }

  /**
   * Every published list has at most 110 records (60 from DexScreener, 50 from GeckoTerminal),
   * at most one per address, none without an address.
   */
  lemma RefreshedShape(dexRespond: (string, nat) -> Attempt<DexPayload>, geckoRespond: nat -> Attempt<GeckoPayload>)
    ensures var r := Refreshed(dexRespond, geckoRespond);
      |r| <= 110 && AllAddressed(r) && DistinctAddresses(r)
  {
    var joined := Settled(DexScreener(dexRespond)) + Settled(GeckoTerminal(geckoRespond));
    DexScreenerBounds(dexRespond);
    match GeckoTerminal(geckoRespond) {
      case Ok(ts) =>
        match Run(geckoRespond).result {
          case Ok(payload) => GeckoTokensBounds(EntriesOf(payload));
          case Err(_) =>
        }
      case Err(_) =>
    }
    MergeSpecShape(joined);
  }
}
