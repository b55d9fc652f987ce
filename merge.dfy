/**
 * `mergeByAddress`: the records of all sources folded into one record per `token_address`, in the
 * order in which the addresses first occur (the insertion order of a JavaScript `Map`).
 *
 * The specification is stated per address: the occurrences of an address, in input order, are
 * folded with `Combine`; the lemmas say what that fold computes field by field.
 */
module Merge {
  import opened Common
  import opened Tokens

  /**
   * The entry after one more occurrence `t` of its address: the first non-empty string and the
   * first non-zero price and price change are kept, the scale figures take the maximum, and the
   * sources are joined with a comma. The address and every other field come from `prev`.
   */
  function Combine(prev: Token, t: Token): (r: Token)
    ensures r.address == prev.address
    ensures forall f :: Scale(r, f) >= Scale(prev, f) && Scale(r, f) >= Scale(t, f)
    ensures forall f :: Scale(r, f) == Scale(prev, f) || Scale(r, f) == Scale(t, f)
    ensures forall f :: Value(r, f) == if Value(prev, f) != 0.0 then Value(prev, f) else Value(t, f)
    ensures forall f :: Label(r, f) == if Label(prev, f) != "" then Label(prev, f) else Label(t, f)
    ensures r.source == prev.source + "," + t.source
  {
    prev.(
      name := if prev.name != "" then prev.name else t.name,
      ticker := if prev.ticker != "" then prev.ticker else t.ticker,
      priceSol := if prev.priceSol != 0.0 then prev.priceSol else t.priceSol,
      marketCapSol := Max(prev.marketCapSol, t.marketCapSol),
      volumeSol := Max(prev.volumeSol, t.volumeSol),
      liquiditySol := Max(prev.liquiditySol, t.liquiditySol),
      transactionCount := Max(prev.transactionCount, t.transactionCount),
      priceChange1h := if prev.priceChange1h != 0.0 then prev.priceChange1h else t.priceChange1h,
      protocol := if prev.protocol != "" then prev.protocol else t.protocol,
      source := prev.source + "," + t.source)
  }

  /** The occurrences of address `a` in `list`, in input order. */
  function Occurrences(list: seq<Token>, a: string): (r: seq<Token>)
    ensures |r| <= |list|
    ensures forall k :: 0 <= k < |r| ==> r[k].address == a
  {
    if list == [] then []
    else
      var init, last := list[..|list| - 1], list[|list| - 1];
      Occurrences(init, a) + (if last.address == a then [last] else [])
  }

  /** The distinct non-empty addresses of `list`, each where it first occurs. */
  function FirstOccurrences(list: seq<Token>): (r: seq<string>)
    ensures forall a :: a in r ==> |Occurrences(list, a)| > 0
    ensures "" !in r
  {
    if list == [] then []
    else
      var keys, a := FirstOccurrences(list[..|list| - 1]), list[|list| - 1].address;
      if a != "" && a !in keys then keys + [a] else keys
  }

  /** The index at which address `a` first occurs in `list` (`|list|` when it does not). */
  function IndexOf(list: seq<Token>, a: string): (r: nat)
    ensures r <= |list|
    ensures r < |list| ==> list[r].address == a
    ensures forall q :: 0 <= q < r && q < |list| ==> list[q].address != a
  {
    if list == [] then 0
    else
      var i := IndexOf(list[..|list| - 1], a);
      if i < |list| - 1 then i
      else if list[|list| - 1].address == a then |list| - 1
      else |list|
  }

  /** The fold of `Combine` over the occurrences of one address; the first one seeds the entry. */
  function MergeGroup(group: seq<Token>): (r: Token)
    requires |group| > 0
    ensures r.address == group[0].address
  {
    if |group| == 1 then group[0]
    else Combine(MergeGroup(group[..|group| - 1]), group[|group| - 1])
  }

  /** The specification of `mergeByAddress`: one merged record per address, in first-occurrence order. */
  function MergeSpec(list: seq<Token>): (r: seq<Token>)
    ensures |r| == |FirstOccurrences(list)|
    ensures forall i :: 0 <= i < |r| ==> r[i].address == FirstOccurrences(list)[i]
    ensures AllAddressed(r)
  {
    var keys := FirstOccurrences(list);
    seq(|keys|, i requires 0 <= i < |keys| => MergeGroup(Occurrences(list, keys[i])))
  }

  /** Extending the input by one record appends its address to the keys when that address is new. */
  lemma FirstOccurrencesStep(list: seq<Token>, i: nat)
    requires i < |list|
    ensures var keys, a := FirstOccurrences(list[..i]), list[i].address;
      FirstOccurrences(list[..i + 1]) == if a != "" && a !in keys then keys + [a] else keys
  {
    assert list[..i + 1][..i] == list[..i];
  }

  /** Folding one more occurrence into a group combines it into the group's merged record. */
  lemma MergeGroupSnoc(group: seq<Token>, t: Token)
    ensures |group| == 0 ==> MergeGroup(group + [t]) == t
    ensures |group| > 0 ==> MergeGroup(group + [t]) == Combine(MergeGroup(group), t)
  {
    assert (group + [t])[..|group|] == group;
  }

  /** The state of the `mergeByAddress` loop once it has read the first `i` records of `list`. */
  ghost predicate EntriesAfter(list: seq<Token>, i: nat, entries: map<string, Token>, keys: seq<string>)
    requires i <= |list|
  {
    && keys == FirstOccurrences(list[..i])
    && "" !in entries
    && (forall a :: a in entries <==> a in keys)
    && (forall a :: a in entries ==> entries[a] == MergeGroup(Occurrences(list[..i], a)))
    && (forall a :: a != "" && a !in entries ==> |Occurrences(list[..i], a)| == 0)
  }

  /** The map after reading record `t`: skipped without an address, seeded when new, else combined. */
  function Absorb(entries: map<string, Token>, t: Token): map<string, Token> {
    if t.address == "" then entries
    else if t.address in entries then entries[t.address := Combine(entries[t.address], t)]
    else entries[t.address := t]
  }

  /** The insertion order after reading record `t`: a new non-empty address is appended. */
  function AbsorbKey(entries: map<string, Token>, keys: seq<string>, t: Token): seq<string> {
    if t.address != "" && t.address !in entries then keys + [t.address] else keys
  }

  /** Reading record `list[i]` extends the occurrences of address `a` by that record when it has address `a`. */
  lemma OccurrencesStepAt(list: seq<Token>, i: nat, a: string)
    requires i < |list|
    ensures Occurrences(list[..i + 1], a) == Occurrences(list[..i], a) + (if list[i].address == a then [list[i]] else [])
  {
    assert list[..i + 1][..i] == list[..i];
  }

  /** The entry of one address after reading `list[i]` is the fold of its occurrences so far. */
  lemma AbsorbValueAt(list: seq<Token>, i: nat, entries: map<string, Token>, a: string)
    requires i < |list| && a != "" && a in Absorb(entries, list[i])
    requires a in entries ==> |Occurrences(list[..i], a)| > 0 && entries[a] == MergeGroup(Occurrences(list[..i], a))
    requires a !in entries ==> |Occurrences(list[..i], a)| == 0
    ensures |Occurrences(list[..i + 1], a)| > 0 && Absorb(entries, list[i])[a] == MergeGroup(Occurrences(list[..i + 1], a))
  {
    OccurrencesStepAt(list, i, a);
    var t := list[i];
    var g := Occurrences(list[..i], a);
    if a != t.address {
      assert Occurrences(list[..i + 1], a) == g + [] == g;
    } else {
      MergeGroupSnoc(g, t);
      assert Occurrences(list[..i + 1], a) == g + [t];
    }
  }

  /** Reading one more record keeps the loop's state. */
  lemma AbsorbStep(list: seq<Token>, i: nat, entries: map<string, Token>, keys: seq<string>)
    requires i < |list| && EntriesAfter(list, i, entries, keys)
    ensures EntriesAfter(list, i + 1, Absorb(entries, list[i]), AbsorbKey(entries, keys, list[i]))
  {
    FirstOccurrencesStep(list, i);
    var t := list[i];
    var after := Absorb(entries, t);
    assert "" !in after;
    forall a | a in after
      ensures after[a] == MergeGroup(Occurrences(list[..i + 1], a))
    {
      AbsorbValueAt(list, i, entries, a);
    }
    forall a | a != "" && a !in after
      ensures |Occurrences(list[..i + 1], a)| == 0
    {
      OccurrencesStepAt(list, i, a);
    }
  }

  /**
   * The loop of `mergeByAddress`: the map's entries and its keys in insertion order. An address
   * seen for the first time is seeded with a copy of its record; a later one is combined into it.
   */
  method BuildEntries(list: seq<Token>) returns (entries: map<string, Token>, keys: seq<string>)
    ensures keys == FirstOccurrences(list)
    ensures forall a :: a in entries <==> a in keys
    ensures forall a :: a in entries ==> entries[a] == MergeGroup(Occurrences(list, a))
  {
    entries, keys := map[], [];
    assert list[..0] == [];
    for i := 0 to |list|
      invariant EntriesAfter(list, i, entries, keys)
    {
      AbsorbStep(list, i, entries, keys);
      ghost var next, nextKeys := Absorb(entries, list[i]), AbsorbKey(entries, keys, list[i]);
      var t := list[i];
      var key := t.address;
      if key != "" {
        if key !in entries {
          entries := entries[key := t];
          keys := keys + [key];
        } else {
          var prev := entries[key];
          entries := entries[key := Combine(prev, t)];
        }
      }
      assert entries == next && keys == nextKeys;
    }
    assert list[..|list|] == list;
  }

  /** `mergeByAddress`: the map built in one pass, then its values in insertion order (`Array.from`). */
  method MergeByAddress(list: seq<Token>) returns (merged: seq<Token>)
    ensures merged == MergeSpec(list)
  {
    var entries, keys := BuildEntries(list);
    merged := seq(|keys|, j requires 0 <= j < |keys| && keys[j] in entries => entries[keys[j]]);
    forall j | 0 <= j < |keys|
      ensures merged[j] == MergeGroup(Occurrences(list, keys[j]))
    {
      assert keys[j] in entries;
    }
  }

  // ---------------------------------------------------------------- the field-level policy

  /** The figures the merge takes the maximum of. */
  datatype ScaleField = MarketCap | Volume | Liquidity | TransactionCount

  function Scale(t: Token, f: ScaleField): real {
    match f
    case MarketCap => t.marketCapSol
    case Volume => t.volumeSol
    case Liquidity => t.liquiditySol
    case TransactionCount => t.transactionCount
  }

  /** The figures where the first non-zero value wins. */
  datatype ValueField = Price | PriceChange

  function Value(t: Token, f: ValueField): real {
    match f
    case Price => t.priceSol
    case PriceChange => t.priceChange1h
  }

  /** The strings where the first non-empty value wins. */
  datatype LabelField = Name | Ticker | Protocol

  function Label(t: Token, f: LabelField): string {
    match f
    case Name => t.name
    case Ticker => t.ticker
    case Protocol => t.protocol
  }

  /** `_source` strings of `group` joined with commas, in order. */
  function JoinSources(group: seq<Token>): string
    requires |group| > 0
  {
    if |group| == 1 then group[0].source else group[0].source + "," + JoinSources(group[1..])
  }

  /** The merged record keeps the address of its first occurrence. */
  lemma {:induction false} MergeGroupAddress(group: seq<Token>)
    requires |group| > 0
    ensures MergeGroup(group).address == group[0].address
  {
    if |group| > 1 {
      MergeGroupAddress(group[..|group| - 1]);
    }
  }

  /** Market cap, volume, liquidity and transaction count are the maximum over the occurrences. */
  lemma {:induction false} MergeGroupMax(group: seq<Token>, f: ScaleField)
    requires |group| > 0
    ensures forall j :: 0 <= j < |group| ==> Scale(group[j], f) <= Scale(MergeGroup(group), f)
    ensures exists j :: 0 <= j < |group| && Scale(group[j], f) == Scale(MergeGroup(group), f)
  {
    var n := |group|;
    if n > 1 {
      var init, last := group[..n - 1], group[n - 1];
      MergeGroupMax(init, f);
      var j :| 0 <= j < |init| && Scale(init[j], f) == Scale(MergeGroup(init), f);
      assert MergeGroup(group) == Combine(MergeGroup(init), last);
      var m := Scale(MergeGroup(group), f);
      assert m == Max(Scale(MergeGroup(init), f), Scale(last, f));
      forall k | 0 <= k < n
        ensures Scale(group[k], f) <= m
      {
        if k < n - 1 {
          assert group[k] == init[k];
        }
      }
      if Scale(MergeGroup(init), f) < Scale(last, f) {
        assert Scale(group[n - 1], f) == m;
      } else {
        assert group[j] == init[j];
        assert Scale(group[j], f) == m;
      }
    } else {
      assert Scale(group[0], f) == Scale(MergeGroup(group), f);
    }
  }

  /** Every occurrence before index `i` has a zero value in field `f`. */
  predicate ZeroBefore(group: seq<Token>, f: ValueField, i: nat)
    requires i <= |group|
  {
    forall j :: 0 <= j < i ==> Value(group[j], f) == 0.0
  }

  /** Every occurrence before index `i` has an empty string in field `f`. */
  predicate EmptyBefore(group: seq<Token>, f: LabelField, i: nat)
    requires i <= |group|
  {
    forall j :: 0 <= j < i ==> Label(group[j], f) == ""
  }

  /**
   * Price and price change are the first non-zero value among the occurrences, and 0 when every
   * occurrence has 0.
   */
  lemma {:induction false} MergeGroupFirstNonZero(group: seq<Token>, f: ValueField)
    requires |group| > 0
    ensures ZeroBefore(group, f, |group|) ==> Value(MergeGroup(group), f) == 0.0
    ensures forall i :: 0 <= i < |group| && Value(group[i], f) != 0.0 && ZeroBefore(group, f, i)
              ==> Value(MergeGroup(group), f) == Value(group[i], f)
  {
    var n := |group|;
    if n > 1 {
      var init, last := group[..n - 1], group[n - 1];
      MergeGroupFirstNonZero(init, f);
      assert MergeGroup(group) == Combine(MergeGroup(init), last);
      assert forall k :: 0 <= k < n - 1 ==> group[k] == init[k];
      if ZeroBefore(group, f, n) {
        assert ZeroBefore(init, f, n - 1);
      }
      forall i | 0 <= i < n && Value(group[i], f) != 0.0 && ZeroBefore(group, f, i)
        ensures Value(MergeGroup(group), f) == Value(group[i], f)
      {
        if i < n - 1 {
          assert ZeroBefore(init, f, i);
        } else {
          assert ZeroBefore(init, f, n - 1);
        }
      }
    }
  }

  /** Name, ticker and protocol are the first non-empty value among the occurrences ("" when none). */
  lemma {:induction false} MergeGroupFirstNonEmpty(group: seq<Token>, f: LabelField)
    requires |group| > 0
    ensures EmptyBefore(group, f, |group|) ==> Label(MergeGroup(group), f) == ""
    ensures forall i :: 0 <= i < |group| && Label(group[i], f) != "" && EmptyBefore(group, f, i)
              ==> Label(MergeGroup(group), f) == Label(group[i], f)
  {
    var n := |group|;
    if n > 1 {
      var init, last := group[..n - 1], group[n - 1];
      MergeGroupFirstNonEmpty(init, f);
      assert MergeGroup(group) == Combine(MergeGroup(init), last);
      assert forall k :: 0 <= k < n - 1 ==> group[k] == init[k];
      if EmptyBefore(group, f, n) {
        assert EmptyBefore(init, f, n - 1);
      }
      forall i | 0 <= i < n && Label(group[i], f) != "" && EmptyBefore(group, f, i)
        ensures Label(MergeGroup(group), f) == Label(group[i], f)
      {
        if i < n - 1 {
          assert EmptyBefore(init, f, i);
        } else {
          assert EmptyBefore(init, f, n - 1);
        }
      }
    }
  }

  /** Joining one more source at the end of a group. */
  lemma {:induction false} JoinSourcesSnoc(group: seq<Token>, t: Token)
    requires |group| > 0
    ensures JoinSources(group + [t]) == JoinSources(group) + "," + t.source
  {
    if |group| > 1 {
      assert (group + [t])[1..] == group[1..] + [t];
      JoinSourcesSnoc(group[1..], t);
    } else {
      assert (group + [t])[1..] == [t];
    }
  }

  /** `_source` of the merged record is the comma-join of all occurrences' sources, in input order. */
  lemma {:induction false} MergeGroupSources(group: seq<Token>)
    requires |group| > 0
    ensures MergeGroup(group).source == JoinSources(group)
  {
    var n := |group|;
    if n > 1 {
      var init, last := group[..n - 1], group[n - 1];
      MergeGroupSources(init);
      JoinSourcesSnoc(init, last);
      assert init + [last] == group;
    }
  }

  // ---------------------------------------------------------------- keys and occurrences

  /** The occurrences of `a` are exactly the records of `list` with address `a`. */
  lemma {:induction false} OccurrencesSpec(list: seq<Token>, a: string)
    ensures forall t :: t in Occurrences(list, a) <==> t in list && t.address == a
  {
    if list != [] {
      var init, last := list[..|list| - 1], list[|list| - 1];
      OccurrencesSpec(init, a);
      assert list == init + [last];
    }
  }

  /** Occurrences distribute over concatenation, so they keep the input order. */
  lemma {:induction false} OccurrencesAppend(l1: seq<Token>, l2: seq<Token>, a: string)
    ensures Occurrences(l1 + l2, a) == Occurrences(l1, a) + Occurrences(l2, a)
    decreases |l2|
  {
    if l2 == [] {
      assert l1 + l2 == l1;
    } else {
      var init, last := l2[..|l2| - 1], l2[|l2| - 1];
      OccurrencesAppend(l1, init, a);
      assert (l1 + l2)[..|l1 + l2| - 1] == l1 + init;
    }
  }

  /**
   * The keys are the non-empty addresses that occur in `list`, each once, ordered by the index of
   * their first occurrence.
   */
  lemma {:induction false} FirstOccurrencesSpec(list: seq<Token>)
    ensures var r := FirstOccurrences(list);
      && |r| <= |list|
      && (forall a :: a in r <==> a != "" && IndexOf(list, a) < |list|)
      && (forall i, j :: 0 <= i < j < |r| ==> IndexOf(list, r[i]) < IndexOf(list, r[j]))
  {
    if list != [] {
      var init, last := list[..|list| - 1], list[|list| - 1];
      FirstOccurrencesSpec(init);
      var keys := FirstOccurrences(init);
      forall b | IndexOf(init, b) < |init|
        ensures IndexOf(list, b) == IndexOf(init, b)
      {
      }
      forall b | IndexOf(init, b) == |init|
        ensures IndexOf(list, b) == (if last.address == b then |init| else |list|)
      {
      }
    }
  }

  /** The keys are distinct and non-empty. */
  lemma FirstOccurrencesDistinct(list: seq<Token>)
    ensures var r := FirstOccurrences(list);
      forall i, j :: 0 <= i < |r| && 0 <= j < |r| && i != j ==> r[i] != r[j] && r[i] != ""
  {
    FirstOccurrencesSpec(list);
    var r := FirstOccurrences(list);
    assert forall i :: 0 <= i < |r| ==> r[i] in r;
  }

  // ---------------------------------------------------------------- the merged list

  /**
   * One output record per distinct non-empty address, in order of first occurrence, each the fold
   * of that address's occurrences; the output never grows beyond the input.
   */
  lemma MergeSpecShape(list: seq<Token>)
    ensures var out, keys := MergeSpec(list), FirstOccurrences(list);
      && |out| == |keys| <= |list|
      && (forall i :: 0 <= i < |out| ==> out[i].address == keys[i])
      && AllAddressed(out) && DistinctAddresses(out)
      && (forall a :: a != "" && IndexOf(list, a) < |list| <==> exists i :: 0 <= i < |out| && out[i].address == a)
  {
    var out, keys := MergeSpec(list), FirstOccurrences(list);
    FirstOccurrencesSpec(list);
    FirstOccurrencesDistinct(list);
    forall i | 0 <= i < |out|
      ensures out[i].address == keys[i]
    {
      MergeGroupAddress(Occurrences(list, keys[i]));
    }
    forall a | a != "" && IndexOf(list, a) < |list|
      ensures exists i :: 0 <= i < |out| && out[i].address == a
    {
      assert a in keys;
      var i :| 0 <= i < |keys| && keys[i] == a;
      assert out[i].address == a;
    }
  }

  /** Each merged record is the fold of the non-empty group of records that share its address. */
  lemma MergedRecordGroup(list: seq<Token>, i: nat)
    requires i < |MergeSpec(list)|
    ensures var m := MergeSpec(list)[i]; var g := Occurrences(list, m.address);
      |g| > 0 && m == MergeGroup(g)
  {
    MergeSpecShape(list);
    var keys := FirstOccurrences(list);
    assert keys[i] in keys;
  }

  /** A merged scale figure is the maximum over the records of `list` with that address. */
  lemma MergedRecordScale(list: seq<Token>, i: nat, sf: ScaleField)
    requires i < |MergeSpec(list)|
    ensures var m := MergeSpec(list)[i];
      && (forall t :: t in list && t.address == m.address ==> Scale(t, sf) <= Scale(m, sf))
      && (exists t :: t in list && t.address == m.address && Scale(t, sf) == Scale(m, sf))
  {
    MergedRecordGroup(list, i);
    var m := MergeSpec(list)[i];
    var g := Occurrences(list, m.address);
    OccurrencesSpec(list, m.address);
    MergeGroupMax(g, sf);
    forall t | t in list && t.address == m.address
      ensures Scale(t, sf) <= Scale(m, sf)
    {
      assert t in g;
      var k :| 0 <= k < |g| && g[k] == t;
    }
    var j :| 0 <= j < |g| && Scale(g[j], sf) == Scale(m, sf);
    assert g[j] in g;
  }

  /**
   * For each merged record, over the records of `list` with its address: the scale figures are
   * their maximum, the price and price change the first non-zero, the strings the first non-empty,
   * and the sources their comma-join.
   */
  lemma MergedRecordPolicy(list: seq<Token>, i: nat, sf: ScaleField, vf: ValueField, lf: LabelField)
    requires i < |MergeSpec(list)|
    ensures var m := MergeSpec(list)[i]; var g := Occurrences(list, m.address);
      && |g| > 0
      && (forall t :: t in g <==> t in list && t.address == m.address)
      && (forall t :: t in list && t.address == m.address ==> Scale(t, sf) <= Scale(m, sf))
      && (exists t :: t in list && t.address == m.address && Scale(t, sf) == Scale(m, sf))
      && (ZeroBefore(g, vf, |g|) ==> Value(m, vf) == 0.0)
      && (forall k :: 0 <= k < |g| && Value(g[k], vf) != 0.0 && ZeroBefore(g, vf, k) ==> Value(m, vf) == Value(g[k], vf))
      && (EmptyBefore(g, lf, |g|) ==> Label(m, lf) == "")
      && (forall k :: 0 <= k < |g| && Label(g[k], lf) != "" && EmptyBefore(g, lf, k) ==> Label(m, lf) == Label(g[k], lf))
      && m.source == JoinSources(g)
  {
    MergedRecordGroup(list, i);
    var m := MergeSpec(list)[i];
    var g := Occurrences(list, m.address);
    OccurrencesSpec(list, m.address);
    MergedRecordScale(list, i, sf);
    MergeGroupFirstNonZero(g, vf);
    MergeGroupFirstNonEmpty(g, lf);
    MergeGroupSources(g);
  }

  /** An address that no record carries has no occurrences. */
  lemma {:induction false} NoOccurrences(list: seq<Token>, a: string)
    requires forall k :: 0 <= k < |list| ==> list[k].address != a
    ensures Occurrences(list, a) == []
  {
    if list != [] {
      NoOccurrences(list[..|list| - 1], a);
    }
  }

  /** A record surrounded by records of other addresses is the only occurrence of its address. */
  lemma OccurrencesAround(prefix: seq<Token>, t: Token, suffix: seq<Token>)
    requires forall k :: 0 <= k < |prefix| ==> prefix[k].address != t.address
    requires forall k :: 0 <= k < |suffix| ==> suffix[k].address != t.address
    ensures Occurrences(prefix + [t] + suffix, t.address) == [t]
  {
    var a, mid := t.address, [t];
    NoOccurrences(prefix, a);
    NoOccurrences(suffix, a);
    assert Occurrences(mid, a) == mid by {
      assert mid[..0] == [];
    }
    OccurrencesAppend(prefix, mid, a);
    OccurrencesAppend(prefix + mid, suffix, a);
    assert [] + mid + [] == mid;
  }

  /** A record whose address occurs once is the only occurrence of that address. */
  lemma OccurrencesOfUnique(list: seq<Token>, i: nat)
    requires i < |list| && DistinctAddresses(list)
    ensures Occurrences(list, list[i].address) == [list[i]]
  {
    var a := list[i].address;
    var prefix, suffix := list[..i], list[i + 1..];
    assert list == prefix + [list[i]] + suffix;
    forall k | 0 <= k < |prefix|
      ensures prefix[k].address != a
    {
      assert prefix[k] == list[k];
      assert list[k].address != list[i].address;
    }
    forall k | 0 <= k < |suffix|
      ensures suffix[k].address != a
    {
      assert suffix[k] == list[i + 1 + k];
      assert list[i].address != list[i + 1 + k].address;
    }
    OccurrencesAround(prefix, list[i], suffix);
  }

  /** With distinct addresses every record is its own first occurrence. */
  lemma {:induction false} FirstOccurrencesOfDistinct(list: seq<Token>)
    requires AllAddressed(list) && DistinctAddresses(list)
    ensures FirstOccurrences(list) == seq(|list|, i requires 0 <= i < |list| => list[i].address)
  {
    if list != [] {
      var n := |list|;
      var init, last := list[..n - 1], list[n - 1];
      assert AllAddressed(init) && DistinctAddresses(init);
      FirstOccurrencesOfDistinct(init);
      var keys := FirstOccurrences(init);
      forall k | 0 <= k < |keys|
        ensures keys[k] != last.address
      {
        assert keys[k] == list[k].address;
      }
      assert list[n - 1].address != "" && list[n - 1].address !in keys;
      assert FirstOccurrences(list) == keys + [last.address];
    }
  }

  /** Merging a list with distinct non-empty addresses returns it unchanged. */
  lemma MergeDistinctIsIdentity(list: seq<Token>)
    requires AllAddressed(list) && DistinctAddresses(list)
    ensures MergeSpec(list) == list
  {
    FirstOccurrencesOfDistinct(list);
    var out := MergeSpec(list);
    forall i | 0 <= i < |list|
      ensures out[i] == list[i]
    {
      OccurrencesOfUnique(list, i);
    }
  }

  /** Merging is idempotent: the merged list has no duplicates left to merge. */
  lemma MergeIdempotent(list: seq<Token>)
    ensures MergeSpec(MergeSpec(list)) == MergeSpec(list)
  {
    MergeSpecShape(list);
    MergeDistinctIsIdentity(MergeSpec(list));
  }

  /** The maximum figures do not depend on the order in which the occurrences arrive. */
  lemma ScaleIsOrderInsensitive(g1: seq<Token>, g2: seq<Token>, f: ScaleField)
    requires |g1| > 0 && multiset(g1) == multiset(g2)
    ensures |g2| > 0 && Scale(MergeGroup(g1), f) == Scale(MergeGroup(g2), f)
  {
    assert |g2| == |multiset(g2)| == |multiset(g1)| == |g1|;
    MergeGroupMax(g1, f);
    MergeGroupMax(g2, f);
    assert forall t :: t in g1 <==> t in multiset(g1);
    assert forall t :: t in g2 <==> t in multiset(g2);
    var j1 :| 0 <= j1 < |g1| && Scale(g1[j1], f) == Scale(MergeGroup(g1), f);
    var j2 :| 0 <= j2 < |g2| && Scale(g2[j2], f) == Scale(MergeGroup(g2), f);
    assert g1[j1] in g2;
    assert g2[j2] in g1;
  }

  /** The first-non-zero price does depend on that order: two prices, two orders, two results. */
  lemma PriceIsOrderSensitive(a: Token, b: Token)
    requires a.address == b.address && a.priceSol == 1.0 && b.priceSol == 2.0
    ensures MergeGroup([a, b]).priceSol == 1.0 && MergeGroup([b, a]).priceSol == 2.0
  {
    assert [a, b][..1] == [a] && [b, a][..1] == [b];
  }

  /**
   * Two sources report the same address: the non-zero price of the first wins, the larger volume
   * wins, and both sources are recorded.
   */
  lemma TwoSourcesScenario(a: Token, b: Token)
    requires a.address == b.address == "ADDR1"
    requires a.priceSol == 1.0 && a.volumeSol == 100.0 && a.source == "A"
    requires b.priceSol == 0.0 && b.volumeSol == 250.0 && b.source == "B"
    ensures MergeSpec([a, b]) == [MergeGroup([a, b])]
    ensures var m := MergeGroup([a, b]);
      m.address == "ADDR1" && m.priceSol == 1.0 && m.volumeSol == 250.0 && m.source == "A,B"
  {
    var list := [a, b];
    assert list[..1] == [a] && [a][..0] == [];
    assert FirstOccurrences([a]) == ["ADDR1"];
    assert FirstOccurrences(list) == ["ADDR1"];
    assert Occurrences([a], "ADDR1") == [a];
    assert Occurrences(list, "ADDR1") == [a, b];
  }
}
