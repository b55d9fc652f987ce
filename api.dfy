/**
 * The query logic of the REST handlers: `GET /api/health` and the search, sort and pagination of
 * `GET /api/tokens`, with the Express request and response reduced to values.
 */
module Api {
  import opened Common
  import opened Text
  import opened Tokens
  import opened TokenCache

  // ---------------------------------------------------------------------------------------------
  // Health
  // ---------------------------------------------------------------------------------------------

  /** The body of `GET /api/health`. */
  datatype HealthReport = HealthReport(ok: bool, lastUpdated: int, count: nat)

  /** `GET /api/health`: reports the cached timestamp and the number of cached records. */
  method Health(store: Cache) returns (h: HealthReport)
    ensures h.ok
    ensures h.lastUpdated == store.lastUpdated
    ensures h.count == |store.tokens|
  {
    var snap := store.GetTokens();
    h := HealthReport(true, snap.lastUpdated, |snap.items|);
  }

  // ---------------------------------------------------------------------------------------------
  // Search
  // ---------------------------------------------------------------------------------------------

  /** The query string as the handler uses it: trimmed, then lower-cased (a missing `q` is ""). */
  function NormalizeQuery(raw: string): (q: string)
    ensures |q| <= |raw|
    ensures forall i :: 0 <= i < |q| ==> !IsUpper(q[i])
  {
    Lower(Trim(raw))
  }

  /** The test of the filter: the lower-cased name, ticker or address contains `q`. */
  predicate MatchesQuery(t: Token, q: string)
    ensures q == "" ==> MatchesQuery(t, q)
    ensures MatchesQuery(t, q) ==> |q| <= |t.name| || |q| <= |t.ticker| || |q| <= |t.address|
  {
    assert q == "" ==> OccursAt(Lower(t.name), q, 0);
    Contains(Lower(t.name), q) || Contains(Lower(t.ticker), q) || Contains(Lower(t.address), q)
  }

  /** `items.filter(t => MatchesQuery(t, q))`. */
  function FilterMatching(items: seq<Token>, q: string): (r: seq<Token>)
    ensures |r| <= |items|
    ensures forall t :: t in r <==> t in items && MatchesQuery(t, q)
  {
    if items == [] then []
    else if MatchesQuery(items[0], q) then [items[0]] + FilterMatching(items[1..], q)
    else FilterMatching(items[1..], q)
  }

  /** The search step: no filtering at all for an empty normalised query. */
  function Search(items: seq<Token>, raw: string): (r: seq<Token>)
    ensures |r| <= |items|
    ensures NormalizeQuery(raw) == "" ==> r == items
    ensures forall t :: t in r <==> t in items && MatchesQuery(t, NormalizeQuery(raw))
  {
    var q := NormalizeQuery(raw);
    if q == "" then
      EmptyQueryMatchesAll(items);
      items
    else FilterMatching(items, q)
  }

  /** The empty string occurs in every string, so every record matches the empty query. */
  lemma EmptyQueryMatchesAll(items: seq<Token>)
    ensures forall t :: t in items ==> MatchesQuery(t, "")
  {
    forall t | t in items
      ensures MatchesQuery(t, "")
    {
      assert OccursAt(Lower(t.name), "", 0);
    }
  }

  /** Filtering distributes over concatenation: the filter keeps the input order. */
  lemma {:induction false} FilterMatchingAppend(xs: seq<Token>, ys: seq<Token>, q: string)
    ensures FilterMatching(xs + ys, q) == FilterMatching(xs, q) + FilterMatching(ys, q)
  {
    if xs != [] {
      assert (xs + ys)[0] == xs[0];
      assert (xs + ys)[1..] == xs[1..] + ys;
      FilterMatchingAppend(xs[1..], ys, q);
    } else {
      assert xs + ys == ys;
    }
  }

  /** A record that matches is kept, and one that does not is dropped (with `FilterMatchingAppend`, the subsequence). */
  lemma FilterMatchingSingleton(t: Token, q: string)
    ensures FilterMatching([t], q) == if MatchesQuery(t, q) then [t] else []
  {
    assert [t][1..] == [];
  }

  /** Lower-casing commutes with removing leading whitespace: whitespace is not a letter. */
  lemma {:induction false} LowerTrimStart(s: string)
    ensures Lower(TrimStart(s)) == TrimStart(Lower(s))
  {
    if s != [] && IsSpace(s[0]) {
      assert Lower(s)[0] == s[0];
      assert Lower(s)[1..] == Lower(s[1..]);
      LowerTrimStart(s[1..]);
    } else if s != [] {
      assert !IsSpace(Lower(s)[0]);
    }
  }

  /** Lower-casing commutes with removing trailing whitespace. */
  lemma {:induction false} LowerTrimEnd(s: string)
    ensures Lower(TrimEnd(s)) == TrimEnd(Lower(s))
  {
    if s != [] && IsSpace(s[|s| - 1]) {
      assert Lower(s)[|s| - 1] == s[|s| - 1];
      assert Lower(s)[..|s| - 1] == Lower(s[..|s| - 1]);
      LowerTrimEnd(s[..|s| - 1]);
    } else if s != [] {
      assert !IsSpace(Lower(s)[|s| - 1]);
    }
  }

  /** The normalised query depends only on the lower-cased raw query. */
  lemma NormalizeQueryIgnoresCase(raw1: string, raw2: string)
    requires Lower(raw1) == Lower(raw2)
    ensures NormalizeQuery(raw1) == NormalizeQuery(raw2)
  {
    LowerTrimStart(raw1);
    LowerTrimEnd(TrimStart(raw1));
    LowerTrimStart(raw2);
    LowerTrimEnd(TrimStart(raw2));
  }

  /** The search is case-insensitive in its query: queries equal up to ASCII case give the same result. */
  lemma SearchIgnoresQueryCase(items: seq<Token>, raw1: string, raw2: string)
    requires Lower(raw1) == Lower(raw2)
    ensures Search(items, raw1) == Search(items, raw2)
  {
    NormalizeQueryIgnoresCase(raw1, raw2);
  }

  // ---------------------------------------------------------------------------------------------
  // Sorting
  // ---------------------------------------------------------------------------------------------

  /** The six whitelisted sort keys. */
  datatype SortKey = PriceSol | MarketCapSol | VolumeSol | LiquiditySol | TransactionCount | PriceChange1h

  /** The query-string spelling of each key (the record's field name). */
  function KeyName(k: SortKey): string {
    match k
    case PriceSol => "price_sol"
    case MarketCapSol => "market_cap_sol"
    case VolumeSol => "volume_sol"
    case LiquiditySol => "liquidity_sol"
    case TransactionCount => "transaction_count"
    case PriceChange1h => "price_1hr_change"
  }

  /** `sortable.has(sortKey)`: a key exactly when `s` is one of the six names. */
  function ParseSortKey(s: string): (r: Option<SortKey>)
    ensures r.Some? ==> KeyName(r.value) == s
    ensures r.None? ==> forall k :: KeyName(k) != s
  {
    if s == "price_sol" then Some(PriceSol)
    else if s == "market_cap_sol" then Some(MarketCapSol)
    else if s == "volume_sol" then Some(VolumeSol)
    else if s == "liquidity_sol" then Some(LiquiditySol)
    else if s == "transaction_count" then Some(TransactionCount)
    else if s == "price_1hr_change" then Some(PriceChange1h)
    else None
  }

  /** Every whitelisted name is recognised as its own key. */
  lemma KeyNameRoundTrip(k: SortKey)
    ensures ParseSortKey(KeyName(k)) == Some(k)
  {
    match k
    case PriceSol =>
    case MarketCapSol =>
    case VolumeSol =>
    case LiquiditySol =>
    case TransactionCount =>
    case PriceChange1h =>
  }

  /** The field a key selects. */
  function KeyValue(t: Token, k: SortKey): real {
    match k
    case PriceSol => t.priceSol
    case MarketCapSol => t.marketCapSol
    case VolumeSol => t.volumeSol
    case LiquiditySol => t.liquiditySol
    case TransactionCount => t.transactionCount
    case PriceChange1h => t.priceChange1h
  }

  /** The direction: ascending exactly when `dir`, lower-cased, is "asc"; a missing `dir` means "desc". */
  function IsAscending(dirRaw: string): (r: bool)
    ensures r <==> Lower(dirRaw) == "asc"
  {
    var dir := Lower(if dirRaw == "" then "desc" else dirRaw);
    assert dirRaw == "" ==> dir[0] == 'd';
    dir == "asc"
  }

  /** `x` may come before `y`: the comparator returns a value `<= 0` for them. */
  predicate InOrder(x: Token, y: Token, k: SortKey, ascending: bool) {
    if ascending then KeyValue(x, k) <= KeyValue(y, k) else KeyValue(x, k) >= KeyValue(y, k)
  }

  /** Non-decreasing (ascending) or non-increasing (descending) on the key. */
  predicate SortedBy(s: seq<Token>, k: SortKey, ascending: bool) {
    forall i, j :: 0 <= i < j < |s| ==> InOrder(s[i], s[j], k, ascending)
  }

  /** `s` is `orig` rearranged into the comparator's order. */
  predicate IsSortingOf(s: seq<Token>, orig: seq<Token>, k: SortKey, ascending: bool) {
    SortedBy(s, k, ascending) && multiset(s) == multiset(orig)
  }

  /** `data.sort(cmp)` on the handler's copy: an insertion sort by adjacent swaps. */
  method SortInPlace(a: array<Token>, k: SortKey, ascending: bool)
    modifies a
    ensures SortedBy(a[..], k, ascending)
    ensures multiset(a[..]) == multiset(old(a[..]))
  {
    var i := 0;
    while i < a.Length
      invariant 0 <= i <= a.Length
      invariant SortedBy(a[..i], k, ascending)
      invariant multiset(a[..]) == multiset(old(a[..]))
    {
      InsertLast(a, i, k, ascending);
      i := i + 1;
    }
    assert a[..a.Length] == a[..];
  }

  /** One pass of the insertion sort: moves `a[i]` left into the sorted prefix `a[..i]`. */
  method InsertLast(a: array<Token>, i: nat, k: SortKey, ascending: bool)
    requires i < a.Length
    requires SortedBy(a[..i], k, ascending)
    modifies a
    ensures SortedBy(a[..i + 1], k, ascending)
    ensures multiset(a[..]) == multiset(old(a[..]))
  {
    InsertingStart(a[..], i, k, ascending);
    var j := i;
    while j > 0 && !InOrder(a[j - 1], a[j], k, ascending)
      invariant 0 <= j <= i
      invariant Inserting(a[..], j, i, k, ascending)
      invariant multiset(a[..]) == multiset(old(a[..]))
    {
      ghost var before := a[..];
      a[j - 1], a[j] := a[j], a[j - 1];
      assert a[..] == before[j - 1 := before[j]][j := before[j - 1]];
      InsertingSwap(before, j, i, k, ascending);
      j := j - 1;
    }
    InsertingDone(a[..], j, i, k, ascending);
  }

  /**
   * The state inside one insertion pass: `s[..i + 1]` without the moving record at `j` is sorted,
   * and the moving record may come before everything to its right.
   */
  predicate Inserting(s: seq<Token>, j: nat, i: nat, k: SortKey, ascending: bool)
    requires j <= i < |s|
  {
    && (forall p, q :: 0 <= p < q <= i && p != j && q != j ==> InOrder(s[p], s[q], k, ascending))
    && (forall q :: j < q <= i ==> InOrder(s[j], s[q], k, ascending))
  }

  lemma InsertingStart(s: seq<Token>, i: nat, k: SortKey, ascending: bool)
    requires i < |s| && SortedBy(s[..i], k, ascending)
    ensures Inserting(s, i, i, k, ascending)
  {
    forall p, q | 0 <= p < q <= i && p != i && q != i
      ensures InOrder(s[p], s[q], k, ascending)
    {
      assert s[..i][p] == s[p] && s[..i][q] == s[q];
    }
  }

  /** Swapping the moving record with a left neighbour it must precede keeps the pass's state. */
  lemma InsertingSwap(s: seq<Token>, j: nat, i: nat, k: SortKey, ascending: bool)
    requires 0 < j <= i < |s| && Inserting(s, j, i, k, ascending)
    requires !InOrder(s[j - 1], s[j], k, ascending)
    ensures Inserting(s[j - 1 := s[j]][j := s[j - 1]], j - 1, i, k, ascending)
  {
  }

  /** The pass ends sorted once the moving record reaches the front or a neighbour it may follow. */
  lemma InsertingDone(s: seq<Token>, j: nat, i: nat, k: SortKey, ascending: bool)
    requires j <= i < |s| && Inserting(s, j, i, k, ascending)
    requires j == 0 || InOrder(s[j - 1], s[j], k, ascending)
    ensures SortedBy(s[..i + 1], k, ascending)
  {
    forall p, q | 0 <= p < q < i + 1
      ensures InOrder(s[p], s[q], k, ascending)
    {
      if q == j && p < j - 1 {
        assert InOrder(s[p], s[j - 1], k, ascending);
      }
    }
  }

  // ---------------------------------------------------------------------------------------------
  // Pagination
  // ---------------------------------------------------------------------------------------------

  /** `Math.max(1, Math.min(200, Number(pageSize || 50)))` for an integer (or missing) parameter. */
  function ClampPageSize(raw: Option<int>): (r: int)
    ensures 1 <= r <= 200
    ensures raw.None? ==> r == 50
    ensures raw.Some? && 1 <= raw.value <= 200 ==> r == raw.value
    ensures raw.Some? && raw.value < 1 ==> r == 1
    ensures raw.Some? && raw.value > 200 ==> r == 200
  {
    IntMax(1, IntMin(200, match raw case None => 50 case Some(n) => n))
  }

  /** `Math.max(1, Number(page || 1))` for an integer (or missing) parameter. */
  function ClampPage(raw: Option<int>): (r: int)
    ensures r >= 1
    ensures raw.None? ==> r == 1
    ensures raw.Some? && raw.value >= 1 ==> r == raw.value
    ensures raw.Some? && raw.value < 1 ==> r == 1
  {
    IntMax(1, match raw case None => 1 case Some(n) => n)
  }

  /** The index of the first record of a page: `(page - 1) * pageSize`. */
  function PageStart(page: int, pageSize: int): (r: int)
    requires page >= 1 && pageSize >= 1
    ensures r >= 0
  {
    (page - 1) * pageSize
  }

  /** `data.slice(start, start + pageSize)` with `start` the page's first index. */
  function PageSlice<T>(data: seq<T>, page: int, pageSize: int): (r: seq<T>)
    requires page >= 1 && pageSize >= 1
    ensures |r| == IntMin(pageSize, IntMax(0, |data| - PageStart(page, pageSize)))
    ensures forall i :: 0 <= i < |r| ==> r[i] == data[PageStart(page, pageSize) + i]
  {
    var start := PageStart(page, pageSize);
    if start >= |data| then [] else data[start..IntMin(start + pageSize, |data|)]
  }

  /** The first `n` pages, one after another. */
  function Pages<T>(data: seq<T>, n: nat, pageSize: int): seq<T>
    requires pageSize >= 1
  {
    if n == 0 then [] else Pages(data, n - 1, pageSize) + PageSlice(data, n, pageSize)
  }

  /**
   * Pages tile the list: the first `n` pages are exactly its first `n * pageSize` records, that is,
   * the records before the start of page `n + 1`.
   */
  lemma {:induction false} PagesPrefix<T>(data: seq<T>, n: nat, pageSize: int)
    requires pageSize >= 1
    ensures Pages(data, n, pageSize) == data[..IntMin(PageStart(n + 1, pageSize), |data|)]
  {
    if n > 0 {
      PagesPrefix(data, n - 1, pageSize);
      PageStartStep(n, pageSize);
      PageSliceRange(data, n, pageSize);
      PrefixExtend(data, PageStart(n, pageSize), pageSize);
    }
  }

  /** The records before `lo` followed by the next `count` records are the records before `lo + count`. */
  lemma PrefixExtend<T>(data: seq<T>, lo: int, count: int)
    requires lo >= 0 && count >= 1
    ensures data[..IntMin(lo, |data|)] + data[IntMin(lo, |data|)..IntMin(lo + count, |data|)]
            == data[..IntMin(lo + count, |data|)]
  {
  }

  /** A page is the slice of the list between its clamped bounds. */
  lemma PageSliceRange<T>(data: seq<T>, page: int, pageSize: int)
    requires page >= 1 && pageSize >= 1
    ensures var start := PageStart(page, pageSize);
      PageSlice(data, page, pageSize) == data[IntMin(start, |data|)..IntMin(start + pageSize, |data|)]
  {
  }

  /** Page `n + 1` starts `pageSize` records after page `n`. */
  lemma PageStartStep(n: nat, pageSize: int)
    requires n > 0 && pageSize >= 1
    ensures PageStart(n + 1, pageSize) == PageStart(n, pageSize) + pageSize
  {
  }

  /** A page past the end of the list is empty. */
  lemma PageBeyondEnd<T>(data: seq<T>, page: int, pageSize: int)
    requires page >= 1 && pageSize >= 1
    requires PageStart(page, pageSize) >= |data|
    ensures PageSlice(data, page, pageSize) == []
  {
  }

  // ---------------------------------------------------------------------------------------------
  // The listing handler
  // ---------------------------------------------------------------------------------------------

  /** The query parameters of `GET /api/tokens`; "" and `None` stand for a missing parameter. */
  datatype TokenQuery = TokenQuery(q: string, sort: string, dir: string, page: Option<int>, pageSize: Option<int>)

  /** The body of `GET /api/tokens`. */
  datatype TokensResponse = TokensResponse(
    ok: bool, lastUpdated: int, total: nat, page: int, pageSize: int, items: seq<Token>)

  /**
   * `GET /api/tokens`: searches a copy of the cached list, sorts it when the key is whitelisted,
   * and returns one page of it. The cache itself is not modified.
   */
  method ListTokens(store: Cache, query: TokenQuery) returns (resp: TokensResponse)
    ensures resp.ok && resp.lastUpdated == store.lastUpdated
    ensures resp.total == |Search(store.tokens, query.q)|
    ensures resp.page == ClampPage(query.page) && resp.pageSize == ClampPageSize(query.pageSize)
    ensures ParseSortKey(query.sort).None? ==>
              resp.items == PageSlice(Search(store.tokens, query.q), resp.page, resp.pageSize)
    ensures ParseSortKey(query.sort).Some? ==>
              exists ordered ::
                && IsSortingOf(ordered, Search(store.tokens, query.q), ParseSortKey(query.sort).value, IsAscending(query.dir))
                && resp.items == PageSlice(ordered, resp.page, resp.pageSize)
  {
    var snap := store.GetTokens();
    var filtered := Search(snap.items, query.q);
    var key := ParseSortKey(query.sort);
    var ascending := IsAscending(query.dir);
    var pageSize := ClampPageSize(query.pageSize);
    var page := ClampPage(query.page);
    var data := filtered;
    if key.Some? {
      data := SortedCopy(filtered, key.value, ascending);
      assert IsSortingOf(data, filtered, key.value, ascending);
    }
    resp := TokensResponse(true, snap.lastUpdated, |data|, page, pageSize, PageSlice(data, page, pageSize));
  }

  /** `let data = items.slice()` then `data.sort(cmp)`: the records in the comparator's order, on a fresh copy. */
  method SortedCopy(items: seq<Token>, k: SortKey, ascending: bool) returns (sorted: seq<Token>)
    ensures |sorted| == |items| && IsSortingOf(sorted, items, k, ascending)
  {
    var copy := new Token[|items|](i requires 0 <= i < |items| => items[i]);
    assert copy[..] == items;
    SortInPlace(copy, k, ascending);
    sorted := copy[..];
  }

  /** Every listed record comes from the cache and matches the normalised query. */
  lemma ListedRecordsMatch(items: seq<Token>, raw: string, ordered: seq<Token>, page: int, pageSize: int)
    requires page >= 1 && pageSize >= 1
    requires multiset(ordered) == multiset(Search(items, raw))
    ensures forall t :: t in PageSlice(ordered, page, pageSize) ==> t in items && MatchesQuery(t, NormalizeQuery(raw))
  {
    forall t | t in PageSlice(ordered, page, pageSize)
      ensures t in items && MatchesQuery(t, NormalizeQuery(raw))
    {
      var r := PageSlice(ordered, page, pageSize);
      var i :| 0 <= i < |r| && r[i] == t;
      assert t in ordered;
      assert t in multiset(Search(items, raw));
    }
  }
}
