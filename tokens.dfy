/** The normalised token record every source adapter produces and the merge, cache and API pass around. */
module Tokens {

  /**
   * One token as the source's objects carry it (`token_address`, `token_name`, ...). Numeric fields
   * are already normalised numbers (a missing upstream value is 0); the empty string stands for a
   * missing or empty string field, which JavaScript's `||` treats alike.
   */
  datatype Token = Token(
    address: string,
    name: string,
    ticker: string,
    priceSol: real,
    marketCapSol: real,
    volumeSol: real,
    liquiditySol: real,
    transactionCount: real,
    priceChange1h: real,
    protocol: string,
    source: string)

  /** No two records share an address. */
  predicate DistinctAddresses(items: seq<Token>) {
    forall i, j :: 0 <= i < j < |items| ==> items[i].address != items[j].address
  }

  /** Every record carries a non-empty address. */
  predicate AllAddressed(items: seq<Token>) {
    forall i :: 0 <= i < |items| ==> items[i].address != ""
  }
}
