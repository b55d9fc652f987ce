/** The in-memory snapshot store: the merged token list and the time it was published. */
module TokenCache {
  import opened Tokens

  /** What `getTokens` hands out. */
  datatype Snapshot = Snapshot(items: seq<Token>, lastUpdated: int)

  /** The module-level `cache` object; `lastUpdated` is in milliseconds since the epoch. */
  class Cache {
    var tokens: seq<Token>
    var lastUpdated: int

    /** Before any publication the cache holds no items and a zero timestamp. */
    constructor ()
      ensures tokens == [] && lastUpdated == 0
    {
      tokens := [];
      lastUpdated := 0;
    }

    /** `getTokens`: a plain read of both fields (it modifies nothing). */
    method GetTokens() returns (s: Snapshot)
      ensures s.items == tokens && s.lastUpdated == lastUpdated
    {
      s := Snapshot(tokens, lastUpdated);
    }

    /** `setTokens`, with the clock reading `now` passed in for `Date.now()`: replaces both fields. */
    method SetTokens(ts: seq<Token>, now: int)
      modifies this
      ensures tokens == ts && lastUpdated == now
    {
      tokens := ts;
      lastUpdated := now;
    }
  }

  /** A read after a publication sees exactly what was published, and when. */
  method PublishThenRead(c: Cache, ts: seq<Token>, now: int) returns (s: Snapshot)
    modifies c
    ensures s == Snapshot(ts, now)
  {
    c.SetTokens(ts, now);
    s := c.GetTokens();
  }
}
