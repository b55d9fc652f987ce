/**
 * The two source adapters of the aggregator: DexScreener (three keyword searches, imperative loops
 * that push normalised records) and GeckoTerminal (one page, `slice`/`map`/`filter`). Each fetches
 * through `getWithRetry` and turns the raw upstream records into `Token`s.
 */
module Sources {
  import opened Common
  import opened Text
  import opened Tokens
  import opened Retry

  /** `name || symbol || "Unknown"`: the token name both adapters store. */
  function DisplayName(name: string, symbol: string): (r: string)
    ensures r != ""
    ensures name != "" ==> r == name
    ensures name == "" && symbol != "" ==> r == symbol
    ensures r == name || r == symbol || r == "Unknown"
  {
    if name != "" then name else if symbol != "" then symbol else "Unknown"
  }

  /** The first `n` elements of `s` (all of them when there are fewer): `s.slice(0, n)`. */
  function Take<T>(s: seq<T>, n: nat): (r: seq<T>)
    ensures |r| == IntMin(|s|, n) && r == s[..|r|]
  {
    if |s| <= n then s else s[..n]
  }

  /** The per-query fetch, one query's attempts as a function of the attempt index. */
  function Responder<T>(respond: (string, nat) -> Attempt<T>, q: string): nat -> Attempt<T> {
    (k: nat) => respond(q, k)
  }

  /** Puts `xs` in front of a successful result; an error stays the error. */
  function Prepend<T>(xs: seq<T>, r: Result<seq<T>, HttpError>): Result<seq<T>, HttpError> {
    match r
    case Ok(ys) => Ok(xs + ys)
    case Err(e) => Err(e)
  }

  // ---------------------------------------------------------------- DexScreener

  /** The `baseToken` of a pair; a missing field is the empty string. */
  datatype BaseToken = BaseToken(address: string, name: string, symbol: string)

  /** One element of a DexScreener search response's `pairs`, with its numbers already normalised. */
  datatype DexPair = DexPair(
    chainId: string,
    baseToken: Option<BaseToken>,
    priceNative: real,
    fdv: real,
    volumeH24: real,
    liquidityBase: real,
    buysH24: real,
    sellsH24: real,
    priceChangeH1: real)

  /** The `pairs` of one search response, or `None` when that field is not an array. */
  type DexPayload = Option<seq<DexPair>>

  /** The search keywords, queried in this order. */
  const DexQueries: seq<string> := ["solana", "raydium", "pump"]
  /** How many pairs of each search response are looked at. */
  const DexPairsPerQuery: nat := 20

  /** A pair is kept only when its base token has a non-empty address. */
  predicate HasBaseAddress(p: DexPair)
  {
    p.baseToken.Some? && p.baseToken.value.address != ""
  }

  /** The record pushed for a pair whose base token has an address. */
  function NormalizeDexPair(p: DexPair): (t: Token)
    requires HasBaseAddress(p)
    ensures t.address == p.baseToken.value.address && t.address != ""
    ensures t.name != "" && t.source == "dexscreener"
  {
    var base := p.baseToken.value;
    Token(
      address := base.address,
      name := DisplayName(base.name, base.symbol),
      ticker := base.symbol,
      priceSol := p.priceNative,
      marketCapSol := p.fdv / 1000000000.0,
      volumeSol := p.volumeH24,
      liquiditySol := p.liquidityBase,
      transactionCount := p.buysH24 + p.sellsH24,
      priceChange1h := p.priceChangeH1,
      protocol := "DexScreener:" + Upper(p.chainId),
      source := "dexscreener")
  }

  /** The records pushed for `pairs`, in order: one per pair with a base address. */
  function DexTokens(pairs: seq<DexPair>): (r: seq<Token>)
    ensures |r| <= |pairs| && AllAddressed(r)
  {
    if pairs == [] then []
    else
      var init, last := pairs[..|pairs| - 1], pairs[|pairs| - 1];
      assert pairs == init + [last];
      DexTokens(init) + (if HasBaseAddress(last) then [NormalizeDexPair(last)] else [])
  }

  /** The pairs with a base address, in order. */
  function AddressedPairs(pairs: seq<DexPair>): (r: seq<DexPair>)
    ensures |r| <= |pairs|
    ensures forall p :: p in r <==> p in pairs && HasBaseAddress(p)
  {
    if pairs == [] then []
    else
      var init, last := pairs[..|pairs| - 1], pairs[|pairs| - 1];
      assert pairs == init + [last];
      AddressedPairs(init) + (if HasBaseAddress(last) then [last] else [])
  }

  /**
   * The records of `pairs` are exactly one per pair with a base address, in pair order, each
   * addressed, named and tagged; every such pair contributes its record, and every record comes
   * from such a pair.
   */
  lemma {:induction false} DexTokensSpec(pairs: seq<DexPair>)
    ensures var r := DexTokens(pairs);
      && |r| == |AddressedPairs(pairs)| <= |pairs|
      && (forall k :: 0 <= k < |r| ==> r[k] == NormalizeDexPair(AddressedPairs(pairs)[k]))
      && (forall k :: 0 <= k < |r| ==> r[k].address != "" && r[k].name != "" && r[k].source == "dexscreener")
      && (forall p :: p in pairs && HasBaseAddress(p) ==> NormalizeDexPair(p) in r)
      && (forall t :: t in r ==> exists p :: p in pairs && HasBaseAddress(p) && NormalizeDexPair(p) == t)
  {
    if pairs != [] {
      var init, last := pairs[..|pairs| - 1], pairs[|pairs| - 1];
      assert pairs == init + [last];
      DexTokensSpec(init);
    }
  }

  /** The `pairs` array of a search response, empty when the payload has none. */
  function PairsOf(payload: DexPayload): seq<DexPair> {
    match payload
    case None => []
    case Some(ps) => ps
  }

  /** What one search contributes: the records of its first 20 pairs. */
  function DexQueryTokens(payload: DexPayload): (r: seq<Token>)
    ensures |r| <= DexPairsPerQuery && AllAddressed(r)
  {
    DexTokens(Take(PairsOf(payload), DexPairsPerQuery))
  }

  /** The searches `qs` in order; the first one that fails after its retries rejects the whole source. */
  function DexFrom(respond: (string, nat) -> Attempt<DexPayload>, qs: seq<string>): (r: Result<seq<Token>, HttpError>)
    decreases |qs|
    ensures r.Ok? ==> |r.value| <= DexPairsPerQuery * |qs| && AllAddressed(r.value)
    ensures qs != [] && Run(Responder(respond, qs[0])).result.Err? ==> r == Err(Run(Responder(respond, qs[0])).result.error)
  {
    if qs == [] then Ok([])
    else
      match Run(Responder(respond, qs[0])).result
      case Err(e) => Err(e)
      case Ok(payload) => Prepend(DexQueryTokens(payload), DexFrom(respond, qs[1..]))
  }

  /** The specification of `fetchDexScreener`. */
  function DexScreener(respond: (string, nat) -> Attempt<DexPayload>): (r: Result<seq<Token>, HttpError>)
    ensures r.Ok? ==> |r.value| <= 60 && AllAddressed(r.value)
  {
    DexFrom(respond, DexQueries)
  }

  /** The inner loop of `fetchDexScreener`: pushes the record of every pair with a base address. */
  method PushPairs(all: seq<Token>, pairs: seq<DexPair>) returns (all': seq<Token>)
    ensures all' == all + DexTokens(pairs)
  {
    all' := all;
    for j := 0 to |pairs|
      invariant all' == all + DexTokens(pairs[..j])
    {
      assert pairs[..j + 1][..j] == pairs[..j];
      var p := pairs[j];
      if !HasBaseAddress(p) {
        continue;
      }
      all' := all' + [NormalizeDexPair(p)];
    }
    assert pairs[..|pairs|] == pairs;
  }

  /** One more successful search moves its records from the pending result into the list. */
  lemma DexFromStep(respond: (string, nat) -> Attempt<DexPayload>, all: seq<Token>, qs: seq<string>, payload: DexPayload)
    requires qs != [] && Run(Responder(respond, qs[0])).result == Ok(payload)
    ensures Prepend(all, DexFrom(respond, qs)) == Prepend(all + DexQueryTokens(payload), DexFrom(respond, qs[1..]))
  {
    match DexFrom(respond, qs[1..]) {
      case Ok(ys) => assert all + (DexQueryTokens(payload) + ys) == all + DexQueryTokens(payload) + ys;
      case Err(_) =>
    }
  }

  /** `fetchDexScreener`: the three searches, each retried, their kept pairs pushed into one list. */
  method FetchDexScreener(respond: (string, nat) -> Attempt<DexPayload>) returns (r: Result<seq<Token>, HttpError>)
    ensures r == DexScreener(respond)
  {
    var all: seq<Token> := [];
    assert DexQueries[0..] == DexQueries;
    match DexScreener(respond) {
      case Ok(ys) => assert [] + ys == ys;
      case Err(_) =>
    }
    for i := 0 to |DexQueries|
      invariant DexScreener(respond) == Prepend(all, DexFrom(respond, DexQueries[i..]))
    {
      var q := DexQueries[i];
      var run := GetWithRetry(Responder(respond, q));
      assert DexQueries[i..][0] == q && DexQueries[i..][1..] == DexQueries[i + 1..];
      if run.result.Err? {
        return Err(run.result.error);
      }
      DexFromStep(respond, all, DexQueries[i..], run.result.value);
      all := PushPairs(all, Take(PairsOf(run.result.value), DexPairsPerQuery));
    }
    assert all + [] == all;
    return Ok(all);
  }

  /** What `qs` searches yield on success: at most 20 records each, every one addressed, named and tagged. */
  lemma {:induction false} DexFromBounds(respond: (string, nat) -> Attempt<DexPayload>, qs: seq<string>)
    ensures var r := DexFrom(respond, qs);
      r.Ok? ==> && |r.value| <= DexPairsPerQuery * |qs|
                && forall k :: 0 <= k < |r.value| ==>
                     r.value[k].address != "" && r.value[k].name != "" && r.value[k].source == "dexscreener"
    decreases |qs|
  {
    if qs != [] {
      DexFromBounds(respond, qs[1..]);
      match Run(Responder(respond, qs[0])).result {
        case Ok(payload) =>
          DexTokensSpec(Take(PairsOf(payload), DexPairsPerQuery));
        case Err(_) =>
      }
    }
  }

  /**
   * DexScreener yields at most 20 records for each of its 3 queries, only for pairs with a base
   * address, every one named and tagged.
   */
  lemma DexScreenerBounds(respond: (string, nat) -> Attempt<DexPayload>)
    ensures var r := DexScreener(respond);
      r.Ok? ==> && |r.value| <= 60
                && forall k :: 0 <= k < |r.value| ==>
                     r.value[k].address != "" && r.value[k].name != "" && r.value[k].source == "dexscreener"
  {
    DexFromBounds(respond, DexQueries);
  }

  /** A search that fails after its retries rejects the whole DexScreener source. */
  lemma {:induction false} DexSearchFailureRejects(respond: (string, nat) -> Attempt<DexPayload>, i: nat)
    requires i < |DexQueries|
    requires forall k :: 0 <= k < i ==> Run(Responder(respond, DexQueries[k])).result.Ok?
    requires Run(Responder(respond, DexQueries[i])).result.Err?
    ensures DexScreener(respond) == Err(Run(Responder(respond, DexQueries[i])).result.error)
  {
    var qs := DexQueries;
    assert qs[1..][1..] == qs[2..];
    if i == 0 {
    } else if i == 1 {
      assert Run(Responder(respond, qs[0])).result.Ok?;
    } else {
      assert Run(Responder(respond, qs[0])).result.Ok?;
      assert Run(Responder(respond, qs[1])).result.Ok?;
    }
  }

  // ---------------------------------------------------------------- GeckoTerminal

  /** The `attributes` of one GeckoTerminal token; a missing object is the all-empty record. */
  datatype GeckoAttributes = GeckoAttributes(
    address: string,
    tokenAddress: string,
    name: string,
    symbol: string,
    priceNative: real,
    marketCap: real,
    volume24h: real,
    liquidity: real,
    transactions24h: real,
    priceChange1h: real)

  /** One element of the response's `data`. */
  datatype GeckoEntry = GeckoEntry(id: string, attributes: GeckoAttributes)

  /** The `data` of the response, or `None` when that field is not an array. */
  type GeckoPayload = Option<seq<GeckoEntry>>

  /** How many entries of the page are looked at. */
  const GeckoTokenLimit: nat := 50

  /** `address || token_address || id || ""`. */
  function GeckoAddress(e: GeckoEntry): (r: string)
    ensures r == "" <==> e.attributes.address == "" && e.attributes.tokenAddress == "" && e.id == ""
  {
    var a := e.attributes;
    if a.address != "" then a.address
    else if a.tokenAddress != "" then a.tokenAddress
    else e.id
  }

  function NormalizeGecko(e: GeckoEntry): (t: Token)
    ensures t.address == GeckoAddress(e) && t.name != "" && t.source == "geckoterminal"
  {
    var a := e.attributes;
    Token(
      address := GeckoAddress(e),
      name := DisplayName(a.name, a.symbol),
      ticker := a.symbol,
      priceSol := a.priceNative,
      marketCapSol := a.marketCap,
      volumeSol := a.volume24h,
      liquiditySol := a.liquidity,
      transactionCount := a.transactions24h,
      priceChange1h := a.priceChange1h,
      protocol := "GeckoTerminal:SOL",
      source := "geckoterminal")
  }

  /** `.filter(t => t.token_address)`, in order (see `KeepAddressedAppend` and `KeepAddressedSingleton`). */
  function KeepAddressed(ts: seq<Token>): (r: seq<Token>)
    ensures |r| <= |ts| && AllAddressed(r)
    ensures forall t :: t in r <==> t in ts && t.address != ""
  {
    if ts == [] then []
    else if ts[0].address != "" then [ts[0]] + KeepAddressed(ts[1..])
    else KeepAddressed(ts[1..])
  }

  /** Filtering distributes over concatenation, so the filter keeps the input order and multiplicity. */
  lemma {:induction false} KeepAddressedAppend(xs: seq<Token>, ys: seq<Token>)
    ensures KeepAddressed(xs + ys) == KeepAddressed(xs) + KeepAddressed(ys)
  {
    if xs != [] {
      assert (xs + ys)[0] == xs[0];
      assert (xs + ys)[1..] == xs[1..] + ys;
      KeepAddressedAppend(xs[1..], ys);
      var head := if xs[0].address != "" then [xs[0]] else [];
      assert KeepAddressed(xs + ys) == head + KeepAddressed(xs[1..] + ys);
      assert KeepAddressed(xs) == head + KeepAddressed(xs[1..]);
    } else {
      assert xs + ys == ys;
    }
  }

  /** A single record is kept exactly when it has an address. */
  lemma KeepAddressedSingleton(t: Token)
    ensures KeepAddressed([t]) == if t.address != "" then [t] else []
  {
    assert [t][1..] == [];
  }

  /** The `data` array of the token page, empty when the payload has none. */
  function EntriesOf(payload: GeckoPayload): seq<GeckoEntry> {
    match payload
    case None => []
    case Some(es) => es
  }

  /** What one page yields: its first 50 entries normalised, the unaddressed ones dropped. */
  function GeckoTokens(entries: seq<GeckoEntry>): (r: seq<Token>)
    ensures |r| <= GeckoTokenLimit && AllAddressed(r)
  {
    var top := Take(entries, GeckoTokenLimit);
    KeepAddressed(seq(|top|, i requires 0 <= i < |top| => NormalizeGecko(top[i])))
  }

  /** The specification of `fetchGeckoTerminal`. */
  function GeckoTerminal(respond: nat -> Attempt<GeckoPayload>): (r: Result<seq<Token>, HttpError>)
    ensures Run(respond).result.Err? ==> r == Err(Run(respond).result.error)
    ensures r.Ok? ==> |r.value| <= GeckoTokenLimit && AllAddressed(r.value)
  {
    match Run(respond).result
    case Err(e) => Err(e)
    case Ok(payload) => Ok(GeckoTokens(EntriesOf(payload)))
  }

  /** `fetchGeckoTerminal`: one retried request, then the pure normalisation of its page. */
  method FetchGeckoTerminal(respond: nat -> Attempt<GeckoPayload>) returns (r: Result<seq<Token>, HttpError>)
    ensures r == GeckoTerminal(respond)
  {
    var run := GetWithRetry(respond);
    match run.result {
      case Err(e) => r := Err(e);
      case Ok(payload) => r := Ok(GeckoTokens(EntriesOf(payload)));
    }
  }

  /**
   * GeckoTerminal yields at most 50 records, each with a non-empty address and a name, and keeps
   * every one of the first 50 entries that has an address.
   */
  lemma GeckoTokensBounds(entries: seq<GeckoEntry>)
    ensures var r := GeckoTokens(entries);
      && |r| <= GeckoTokenLimit
      && (forall k :: 0 <= k < |r| ==> r[k].address != "" && r[k].name != "" && r[k].source == "geckoterminal")
      && (forall i :: 0 <= i < |entries| && i < GeckoTokenLimit && GeckoAddress(entries[i]) != "" ==>
            NormalizeGecko(entries[i]) in r)
  {
    var top := Take(entries, GeckoTokenLimit);
    var mapped := seq(|top|, i requires 0 <= i < |top| => NormalizeGecko(top[i]));
    var r := GeckoTokens(entries);
    forall k | 0 <= k < |r|
      ensures r[k].name != "" && r[k].source == "geckoterminal"
    {
      assert r[k] in mapped;
    }
    forall i | 0 <= i < |entries| && i < GeckoTokenLimit && GeckoAddress(entries[i]) != ""
      ensures NormalizeGecko(entries[i]) in r
    {
      assert mapped[i] == NormalizeGecko(entries[i]);
    }
  }
}
