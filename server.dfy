/**
 * The poll step of the server (`pollOnce`): refresh, read the cache, diff each item's price
 * against the previous address-to-price map, replace that map, and broadcast the changes when
 * there are any. Also the summary sent to a newly connected subscriber.
 */
module Server {
  import opened Common
  import opened Tokens
  import opened Retry
  import opened Sources
  import opened TokenCache
  import opened Aggregator

  /** One element of `changes`: the address, its new price, and new minus previous price. */
  datatype Change = Change(address: string, priceSol: real, delta: real)

  /** The `price_updates` message handed to `broadcast`. */
  datatype PriceUpdates = PriceUpdates(lastUpdated: int, changes: seq<Change>)

  /** The `snapshot` message sent on connection: a timestamp and a count, not the items. */
  datatype SnapshotSummary = SnapshotSummary(lastUpdated: int, count: nat)

  /** The entry emitted for `t`, if its address had a different price before. */
  function ChangeFor(prev: map<string, real>, t: Token): (r: seq<Change>)
    ensures |r| <= 1
    ensures r != [] <==> t.address in prev && prev[t.address] != t.priceSol
    ensures r != [] ==> r[0].address == t.address && r[0].priceSol == t.priceSol
                        && prev[t.address] + r[0].delta == t.priceSol
  {
    if t.address in prev && prev[t.address] != t.priceSol
    then [Change(t.address, t.priceSol, t.priceSol - prev[t.address])]
    else []
  }

  /** The change list of one poll, in the order of the items. */
  function ChangesOf(prev: map<string, real>, items: seq<Token>): (r: seq<Change>)
    ensures |r| <= |items|
  {
    if items == [] then []
    else ChangesOf(prev, items[..|items| - 1]) + ChangeFor(prev, items[|items| - 1])
  }

  /** `nextSnapshot`: every item's address mapped to its price, a later item overriding an earlier one. */
  function PriceMap(items: seq<Token>): (r: map<string, real>)
    ensures forall i :: 0 <= i < |items| ==> items[i].address in r
    ensures items != [] ==> r[items[|items| - 1].address] == items[|items| - 1].priceSol
  {
    if items == [] then map[]
    else PriceMap(items[..|items| - 1])[items[|items| - 1].address := items[|items| - 1].priceSol]
  }

  /** The loop of `pollOnce`: looks each item up in `prev`, records its price, collects the changes. */
  method DetectChanges(prev: map<string, real>, items: seq<Token>) returns (changes: seq<Change>, next: map<string, real>)
    ensures changes == ChangesOf(prev, items) && next == PriceMap(items)
  {
    changes, next := [], map[];
    for i := 0 to |items|
      invariant changes == ChangesOf(prev, items[..i])
      invariant next == PriceMap(items[..i])
    {
      assert items[..i + 1][..i] == items[..i];
      var t := items[i];
      next := next[t.address := t.priceSol];
      if t.address in prev && prev[t.address] != t.priceSol {
        changes := changes + [Change(t.address, t.priceSol, t.priceSol - prev[t.address])];
      }
    }
    assert items[..|items|] == items;
  }

  /** The poll loop's memory: the address-to-price map of the previous poll. */
  class Poller {
    var lastSnapshot: map<string, real>

    /** At start-up no price is remembered. */
    constructor ()
      ensures lastSnapshot == map[]
    {
      lastSnapshot := map[];
    }

    /**
     * `pollOnce`: refresh the cache at `now`, diff its items against the remembered prices,
     * remember the new prices, and return the broadcast message, if any.
     */
    method PollOnce(store: Cache, dexRespond: (string, nat) -> Attempt<DexPayload>,
                    geckoRespond: nat -> Attempt<GeckoPayload>, now: int) returns (broadcast: Option<PriceUpdates>)
      modifies this, store
      ensures store.tokens == Refreshed(dexRespond, geckoRespond) && store.lastUpdated == now
      ensures lastSnapshot == PriceMap(store.tokens)
      ensures var changes := ChangesOf(old(lastSnapshot), store.tokens);
        broadcast == if changes == [] then None else Some(PriceUpdates(now, changes))
    {
      var _ := RefreshTokens(store, dexRespond, geckoRespond, now);
      var snapshot := store.GetTokens();
      var changes, nextSnapshot := DetectChanges(lastSnapshot, snapshot.items);
      lastSnapshot := nextSnapshot;
      if |changes| > 0 {
        broadcast := Some(PriceUpdates(snapshot.lastUpdated, changes));
      } else {
        broadcast := None;
      }
    }
  }

  /** The connection handler: the count of cached items and their timestamp. */
  method OnConnection(store: Cache) returns (summary: SnapshotSummary)
    ensures summary.count == |store.tokens| && summary.lastUpdated == store.lastUpdated
  {
    var s := store.GetTokens();
    summary := SnapshotSummary(s.lastUpdated, |s.items|);
  }

  // ---------------------------------------------------------------- properties of the diff

  /**
   * `c` is an entry for an address remembered with a different price, carrying the new price of an
   * item with that address and the difference of new and previous price.
   */
  predicate Justified(prev: map<string, real>, items: seq<Token>, c: Change) {
    && c.address in prev
    && c.priceSol != prev[c.address]
    && c.delta == c.priceSol - prev[c.address]
    && exists i :: 0 <= i < |items| && items[i].address == c.address && items[i].priceSol == c.priceSol
  }

  /** Every entry is justified; in particular, addresses seen for the first time produce no entry. */
  lemma {:induction false} ChangesSound(prev: map<string, real>, items: seq<Token>)
    ensures forall c :: c in ChangesOf(prev, items) ==> Justified(prev, items, c)
  {
    if items != [] {
      var n := |items|;
      var init := items[..n - 1];
      ChangesSound(prev, init);
      forall c | c in ChangesOf(prev, items)
        ensures Justified(prev, items, c)
      {
        if c in ChangesOf(prev, init) {
          assert Justified(prev, init, c);
          var i :| 0 <= i < |init| && init[i].address == c.address && init[i].priceSol == c.priceSol;
          assert items[i] == init[i];
        } else {
          assert c in ChangeFor(prev, items[n - 1]);
          assert items[n - 1].address == c.address;
        }
      }
    }
  }

  /** Every item whose address was remembered with a different price produces its entry. */
  lemma {:induction false} ChangesComplete(prev: map<string, real>, items: seq<Token>)
    ensures forall i :: 0 <= i < |items| && items[i].address in prev && prev[items[i].address] != items[i].priceSol ==>
      Change(items[i].address, items[i].priceSol, items[i].priceSol - prev[items[i].address]) in ChangesOf(prev, items)
  {
    if items != [] {
      var init := items[..|items| - 1];
      ChangesComplete(prev, init);
      assert forall i :: 0 <= i < |init| ==> items[i] == init[i];
    }
  }

  /** The entries follow the order of the items: the diff distributes over concatenation. */
  lemma {:induction false} ChangesAppend(prev: map<string, real>, a: seq<Token>, b: seq<Token>)
    ensures ChangesOf(prev, a + b) == ChangesOf(prev, a) + ChangesOf(prev, b)
    decreases |b|
  {
    if b == [] {
      assert a + b == a;
    } else {
      var init, last := b[..|b| - 1], b[|b| - 1];
      ChangesAppend(prev, a, init);
      assert (a + b)[..|a + b| - 1] == a + init;
      assert (a + b)[|a + b| - 1] == last;
      assert ChangesOf(prev, a + b) == ChangesOf(prev, a + init) + ChangeFor(prev, last);
      assert ChangesOf(prev, b) == ChangesOf(prev, init) + ChangeFor(prev, last);
    }
  }

  /**
   * The new map has exactly the items' addresses as keys (so a vanished address is dropped
   * without an entry), each with the price of its last item.
   */
  lemma {:induction false} PriceMapSpec(items: seq<Token>)
    ensures forall a :: a in PriceMap(items) <==> exists i :: 0 <= i < |items| && items[i].address == a
    ensures forall i :: 0 <= i < |items| && (forall j :: i < j < |items| ==> items[j].address != items[i].address) ==>
      PriceMap(items)[items[i].address] == items[i].priceSol
  {
    if items != [] {
      var init := items[..|items| - 1];
      PriceMapSpec(init);
      assert forall i :: 0 <= i < |init| ==> items[i] == init[i];
    }
  }

  /** With distinct addresses (as after a merge) the new map holds every item's own price. */
  lemma PriceMapOfDistinct(items: seq<Token>)
    requires DistinctAddresses(items)
    ensures forall i :: 0 <= i < |items| ==>
              items[i].address in PriceMap(items) && PriceMap(items)[items[i].address] == items[i].priceSol
  {
    PriceMapSpec(items);
  }

  /**
   * ADDR1 moves from 1.0 to 1.2 and ADDR2 is new: one entry, for ADDR1, with delta 0.2 (exact
   * in this model, whose numbers are reals).
   */
  lemma PriceMoveScenario(t1: Token, t2: Token)
    requires t1.address == "ADDR1" && t1.priceSol == 1.2 && t2.address == "ADDR2"
    ensures ChangesOf(map["ADDR1" := 1.0], [t1, t2]) == [Change("ADDR1", 1.2, 0.2)]
  {
    var prev := map["ADDR1" := 1.0];
    assert "ADDR2" != "ADDR1";
    assert [t1, t2][..1] == [t1] && [t1][..0] == [];
    assert ChangeFor(prev, t1) == [Change("ADDR1", 1.2, 0.2)];
    assert ChangeFor(prev, t2) == [];
    assert ChangesOf(prev, [t1]) == [] + ChangeFor(prev, t1);
  }
}
