/** The market list of the simplified UI
    (packages/augur-simplified/src/modules/markets/markets-view.tsx): a filter
    on category, currency and reporting state, an in-place sort on the chosen
    key, then a stable partition that puts markets with an AMM first; and the
    count of view settings that differ from their defaults. */
module MarketsView {
  import opened Common

  /** The `cash` of an AMM and the three amounts the list sorts by. */
  datatype Amm = Amm(cashName: Option<string>, volumeTotalUSD: real, volume24hrTotalUSD: real, liquidityUSD: real)

  /** `market.amm`: JavaScript tells `null` apart from `undefined`, and the
      partition tests for `null` only. */
  datatype AmmField = NullAmm | UndefinedAmm | SomeAmm(amm: Amm)

  datatype ReportingState = Trading | Reporting | Disputing | Finalized | Settled | OtherState(name: string)

  datatype Market = Market(categories: seq<string>, reportingState: ReportingState, amm: AmmField, endTimestamp: int)

  /** The values the filter settings compare against (`ALL_MARKETS`, `OTHER`,
      a category name; `ALL`, a currency name; `OPEN`, `IN_SETTLEMENT`,
      `RESOLVED`, anything else). */
  datatype CategoryFilter = AllMarkets | OtherCategories | Category(name: string)
  datatype CurrencyFilter = AllCurrencies | Currency(name: string)
  datatype StatusFilter = Open | InSettlement | Resolved | AnyStatus
  datatype SortBy = TotalVolume | TwentyFourHourVolume | Liquidity | EndingSoon | OtherSort

  datatype Filters = Filters(categories: CategoryFilter, currency: CurrencyFilter, reportingState: StatusFilter)

  // ---------------------------------------------------------------------
  // The filter predicate

  /** The filter reads `market.categories[0]` unless every category is allowed. */
  predicate CategoriesReadable(f: Filters, markets: seq<Market>)
  {
    f.categories != AllMarkets ==> forall i :: 0 <= i < |markets| ==> |markets[i].categories| > 0
  }

  /** `popular` holds the keys of `POPULAR_CATEGORIES_ICONS` (a constant not part of this model). */
  predicate CategoryOk(f: CategoryFilter, popular: set<string>, m: Market)
  {
    match f
    case AllMarkets => true
    case OtherCategories => |m.categories| > 0 && ToLower(m.categories[0]) !in popular
    case Category(name) => |m.categories| > 0 && ToLower(m.categories[0]) == ToLower(name)
  }

  predicate CurrencyOk(f: CurrencyFilter, m: Market)
  {
    match f
    case AllCurrencies => true
    case Currency(name) => m.amm.SomeAmm? && m.amm.amm.cashName == Some(name)
  }

  predicate StatusOk(f: StatusFilter, m: Market)
  {
    match f
    case Open => m.reportingState == Trading
    case InSettlement => m.reportingState == Reporting || m.reportingState == Disputing
    case Resolved => m.reportingState == Finalized || m.reportingState == Settled
    case AnyStatus => true
  }

  /** The callback of the first `filter`, one early `return false` after another. */
  function Keep(f: Filters, popular: set<string>, m: Market): (r: bool)
    ensures r <==> CategoryOk(f.categories, popular, m) && CurrencyOk(f.currency, m) && StatusOk(f.reportingState, m)
  {
    if f.categories.Category? && (|m.categories| == 0 || ToLower(m.categories[0]) != ToLower(f.categories.name)) then false
    else if f.categories.OtherCategories? && (|m.categories| == 0 || ToLower(m.categories[0]) in popular) then false
    else if f.currency.Currency? && !m.amm.SomeAmm? then false
    else if f.currency.Currency? && m.amm.amm.cashName != Some(f.currency.name) then false
    else if f.reportingState == Open then m.reportingState == Trading
    else if f.reportingState == InSettlement then m.reportingState == Reporting || m.reportingState == Disputing
    else if f.reportingState == Resolved then m.reportingState == Finalized || m.reportingState == Settled
    else true
  }

  function Keeps(f: Filters, popular: set<string>): Market -> bool
  {
    m => Keep(f, popular, m)
  }

  // ---------------------------------------------------------------------
  // The comparator and the in-place sort

  /** The number the comparator subtracts for a market; `None` where it reads
      `undefined` and the difference is NaN. Descending keys are negated. */
  function Rank(sortBy: SortBy, m: Market): Option<real>
  {
    match sortBy
    case TotalVolume => if m.amm.SomeAmm? then Some(-m.amm.amm.volumeTotalUSD) else None
    case TwentyFourHourVolume => if m.amm.SomeAmm? then Some(-m.amm.amm.volume24hrTotalUSD) else None
    case Liquidity => if m.amm.SomeAmm? then Some(-m.amm.amm.liquidityUSD) else None
    case EndingSoon => Some(m.endTimestamp as real)
    case OtherSort => None
  }

  /** The comparator's value: `b - a` on the descending keys, `a - b` on
      `endTimestamp`, NaN (None) on a missing key, and `true` (1) for any other sort. */
  function Compare(sortBy: SortBy, a: Market, b: Market): (c: Option<real>)
    ensures sortBy == TotalVolume && a.amm.SomeAmm? && b.amm.SomeAmm? ==>
      c == Some(b.amm.amm.volumeTotalUSD - a.amm.amm.volumeTotalUSD)
    ensures sortBy == EndingSoon ==> c == Some((a.endTimestamp - b.endTimestamp) as real)
    ensures Rank(sortBy, a).Some? && Rank(sortBy, b).Some? ==> c == Some(Rank(sortBy, a).value - Rank(sortBy, b).value)
  {
    if sortBy == OtherSort then Some(1.0)
    else
      match (Rank(sortBy, a), Rank(sortBy, b))
      case (Some(x), Some(y)) => Some(x - y)
      case _ => None
  }

  /** The comparator asks for `a` to go after `b`. */
  predicate After(sortBy: SortBy, a: Market, b: Market)
  {
    var c := Compare(sortBy, a, b);
    c.Some? && c.value > 0.0
  }

  predicate AllRanked(sortBy: SortBy, ms: seq<Market>)
  {
    forall i :: 0 <= i < |ms| ==> Rank(sortBy, ms[i]).Some?
  }

  /** The rank of a ranked market (0 stands in for NaN and is never compared). */
  function Key(sortBy: SortBy, m: Market): real
  {
    match Rank(sortBy, m)
    case Some(k) => k
    case None => 0.0
  }

  /** Ascending key: descending volume or liquidity, ascending end time. */
  predicate SortedBy(sortBy: SortBy, ms: seq<Market>)
  {
    forall i, j :: 0 <= i < j < |ms| ==> Key(sortBy, ms[i]) <= Key(sortBy, ms[j])
  }

  lemma AfterMeansGreater(sortBy: SortBy, a: Market, b: Market)
    requires Rank(sortBy, a).Some? && Rank(sortBy, b).Some?
    ensures After(sortBy, a, b) <==> Key(sortBy, a) > Key(sortBy, b)
  {
  }

  /** What `SortedBy` means for each sort key: volumes and liquidity descend,
      end times ascend. */
  lemma SortedByMeaning(sortBy: SortBy, ms: seq<Market>)
    requires AllRanked(sortBy, ms) && SortedBy(sortBy, ms)
    ensures sortBy == TotalVolume ==> forall i, j :: 0 <= i < j < |ms| ==>
      ms[i].amm.SomeAmm? && ms[j].amm.SomeAmm? && ms[i].amm.amm.volumeTotalUSD >= ms[j].amm.amm.volumeTotalUSD
    ensures sortBy == TwentyFourHourVolume ==> forall i, j :: 0 <= i < j < |ms| ==>
      ms[i].amm.SomeAmm? && ms[j].amm.SomeAmm? && ms[i].amm.amm.volume24hrTotalUSD >= ms[j].amm.amm.volume24hrTotalUSD
    ensures sortBy == Liquidity ==> forall i, j :: 0 <= i < j < |ms| ==>
      ms[i].amm.SomeAmm? && ms[j].amm.SomeAmm? && ms[i].amm.amm.liquidityUSD >= ms[j].amm.amm.liquidityUSD
    ensures sortBy == EndingSoon ==> forall i, j :: 0 <= i < j < |ms| ==> ms[i].endTimestamp <= ms[j].endTimestamp
  {
  }

  method SwapAdjacent(a: array<Market>, j: int)
    requires 0 < j < a.Length
    modifies a
    ensures a[..] == old(a[..])[j - 1 := old(a[j])][j := old(a[j - 1])]
    ensures multiset(a[..]) == multiset(old(a[..]))
  {
    a[j - 1], a[j] := a[j], a[j - 1];
  }

  /** Mid-pass state of the insertion sort: the market under insertion sits at
      `j`, the rest of `ms[..i + 1]` is ordered and everything above `j` has a
      larger key. */
  ghost predicate Inserting(sortBy: SortBy, ms: seq<Market>, i: int, j: int)
  {
    0 <= j <= i < |ms| && AllRanked(sortBy, ms) &&
    (forall p, q :: 0 <= p < q <= i && p != j && q != j ==> Key(sortBy, ms[p]) <= Key(sortBy, ms[q])) &&
    (forall q :: j < q <= i ==> Key(sortBy, ms[j]) < Key(sortBy, ms[q])) &&
    (0 < j < i ==> Key(sortBy, ms[j - 1]) <= Key(sortBy, ms[j + 1]))
  }

  lemma InsertingStart(sortBy: SortBy, ms: seq<Market>, i: int)
    requires 0 <= i < |ms| && AllRanked(sortBy, ms) && SortedBy(sortBy, ms[..i])
    ensures Inserting(sortBy, ms, i, i)
  {
    forall p, q | 0 <= p < q < i ensures Key(sortBy, ms[p]) <= Key(sortBy, ms[q]) {
      assert ms[p] == ms[..i][p] && ms[q] == ms[..i][q];
    }
  }

  lemma InsertingSwap(sortBy: SortBy, ms: seq<Market>, i: int, j: int)
    requires Inserting(sortBy, ms, i, j) && 0 < j && After(sortBy, ms[j - 1], ms[j])
    ensures Inserting(sortBy, ms[j - 1 := ms[j]][j := ms[j - 1]], i, j - 1)
  {
    AfterMeansGreater(sortBy, ms[j - 1], ms[j]);
  }

  lemma InsertingDone(sortBy: SortBy, ms: seq<Market>, i: int, j: int)
    requires Inserting(sortBy, ms, i, j) && (j == 0 || !After(sortBy, ms[j - 1], ms[j]))
    ensures SortedBy(sortBy, ms[..i + 1])
  {
    if 0 < j {
      AfterMeansGreater(sortBy, ms[j - 1], ms[j]);
    }
    forall p, q | 0 <= p < q <= i ensures Key(sortBy, ms[p]) <= Key(sortBy, ms[q]) {
      if p == j - 1 && q > j {
        assert Key(sortBy, ms[j - 1]) <= Key(sortBy, ms[j]);
      }
    }
  }

  /** One pass of the insertion sort: `a[i]` moves down past every market the
      comparator puts after it. */
  method InsertAt(a: array<Market>, i: int, sortBy: SortBy)
    requires 0 <= i < a.Length
    modifies a
    ensures multiset(a[..]) == multiset(old(a[..]))
    ensures a[i + 1..] == old(a[i + 1..])
    ensures AllRanked(sortBy, old(a[..])) && SortedBy(sortBy, old(a[..i])) ==>
      AllRanked(sortBy, a[..]) && SortedBy(sortBy, a[..i + 1])
  {
    ghost var ranked := AllRanked(sortBy, a[..]) && SortedBy(sortBy, a[..i]);
    if ranked {
      InsertingStart(sortBy, a[..], i);
    }
    var j := i;
    while 0 < j && After(sortBy, a[j - 1], a[j])
      invariant 0 <= j <= i
      invariant multiset(a[..]) == multiset(old(a[..]))
      invariant a[i + 1..] == old(a[i + 1..])
      invariant ranked ==> Inserting(sortBy, a[..], i, j)
    {
      if ranked {
        InsertingSwap(sortBy, a[..], i, j);
      }
      SwapAdjacent(a, j);
      j := j - 1;
    }
    if ranked {
      InsertingDone(sortBy, a[..], i, j);
    }
  }

  /** `Array.prototype.sort` with the comparator, as a stable insertion sort:
      when every key is defined the result is ordered by the key; otherwise
      the order is unspecified and only the permutation is promised. */
  method SortMarkets(a: array<Market>, sortBy: SortBy)
    modifies a
    ensures multiset(a[..]) == multiset(old(a[..]))
    ensures AllRanked(sortBy, old(a[..])) ==> AllRanked(sortBy, a[..]) && SortedBy(sortBy, a[..])
  {
    ghost var ranked := AllRanked(sortBy, a[..]);
    var i := 0;
    while i < a.Length
      invariant 0 <= i <= a.Length
      invariant multiset(a[..]) == multiset(old(a[..]))
      invariant ranked ==> AllRanked(sortBy, a[..]) && SortedBy(sortBy, a[..i])
    {
      InsertAt(a, i, sortBy);
      i := i + 1;
    }
    assert a[..i] == a[..];
  }

  // ---------------------------------------------------------------------
  // The partition and the whole pipeline

  /** `m.amm !== null`: an `undefined` AMM counts as present here. */
  predicate HasAmm(m: Market)
  {
    m.amm != NullAmm
  }

  predicate IsNullAmm(m: Market)
  {
    m.amm == NullAmm
  }

  /** The two halves of the partition together are a permutation. */
  lemma PartitionMultiset(ms: seq<Market>)
    ensures multiset(Filter(HasAmm, ms) + Filter(IsNullAmm, ms)) == multiset(ms)
  {
    FilterComplementMultiset(HasAmm, IsNullAmm, ms);
  }

  /** In the partition every market with an AMM comes before every market whose AMM is `null`. */
  lemma PartitionAmmFirst(ms: seq<Market>)
    ensures var r := Filter(HasAmm, ms) + Filter(IsNullAmm, ms);
      forall i, j :: 0 <= i < j < |r| && IsNullAmm(r[i]) ==> IsNullAmm(r[j])
  {
    var l, n := Filter(HasAmm, ms), Filter(IsNullAmm, ms);
    var r := l + n;
    forall i, j | 0 <= i < j < |r| && IsNullAmm(r[i]) ensures IsNullAmm(r[j]) {
      assert r[j] == n[j - |l|];
    }
  }

  /** When every market has an AMM the partition changes nothing. */
  lemma PartitionAllAmm(ms: seq<Market>)
    requires forall i :: 0 <= i < |ms| ==> HasAmm(ms[i])
    ensures Filter(HasAmm, ms) + Filter(IsNullAmm, ms) == ms
  {
    FilterAll(HasAmm, ms);
    FilterNone(IsNullAmm, ms);
  }

  lemma SortedTail(sortBy: SortBy, ms: seq<Market>)
    requires SortedBy(sortBy, ms) && ms != []
    ensures SortedBy(sortBy, ms[1..])
    ensures forall x :: x in ms[1..] ==> Key(sortBy, ms[0]) <= Key(sortBy, x)
  {
    var t := ms[1..];
    forall i, j | 0 <= i < j < |t| ensures Key(sortBy, t[i]) <= Key(sortBy, t[j]) {
      assert t[i] == ms[i + 1] && t[j] == ms[j + 1];
    }
    forall x | x in t ensures Key(sortBy, ms[0]) <= Key(sortBy, x) {
      var k :| 0 <= k < |t| && t[k] == x;
      assert ms[k + 1] == x;
    }
  }

  /** A market no larger than every market of a sorted list can go in front of it. */
  lemma SortedCons(sortBy: SortBy, x: Market, rest: seq<Market>)
    requires SortedBy(sortBy, rest)
    requires forall y :: y in rest ==> Key(sortBy, x) <= Key(sortBy, y)
    ensures SortedBy(sortBy, [x] + rest)
  {
    var r := [x] + rest;
    forall i, j | 0 <= i < j < |r| ensures Key(sortBy, r[i]) <= Key(sortBy, r[j]) {
      assert r[j] == rest[j - 1];
      if i > 0 {
        assert r[i] == rest[i - 1];
      } else {
        assert rest[j - 1] in rest;
      }
    }
  }

  /** Filtering keeps a sorted list sorted. */
  lemma {:induction false} FilterSorted(sortBy: SortBy, p: Market -> bool, ms: seq<Market>)
    requires SortedBy(sortBy, ms)
    ensures SortedBy(sortBy, Filter(p, ms))
    decreases |ms|
  {
    if ms != [] {
      SortedTail(sortBy, ms);
      FilterSorted(sortBy, p, ms[1..]);
      var rest := Filter(p, ms[1..]);
      if p(ms[0]) {
        assert Filter(p, ms) == [ms[0]] + rest;
        assert forall y :: y in rest ==> y in ms[1..];
        SortedCons(sortBy, ms[0], rest);
      }
    }
  }

  /** The first `filter` keeps exactly the markets `Keep` accepts. */
  lemma KeptMarkets(markets: seq<Market>, f: Filters, popular: set<string>)
    ensures forall x :: x in Filter(Keeps(f, popular), markets) ==> Keep(f, popular, x)
    ensures forall i :: 0 <= i < |markets| && Keep(f, popular, markets[i]) ==> markets[i] in Filter(Keeps(f, popular), markets)
  {
    var r := Filter(Keeps(f, popular), markets);
    forall x | x in r ensures Keep(f, popular, x) {
      var i :| 0 <= i < |r| && r[i] == x;
      assert Keeps(f, popular)(r[i]);
    }
    forall i | 0 <= i < |markets| && Keep(f, popular, markets[i]) ensures markets[i] in r {
      assert Keeps(f, popular)(markets[i]);
    }
  }

  lemma SameMembers(a: seq<Market>, b: seq<Market>)
    requires multiset(a) == multiset(b)
    ensures forall x :: x in a <==> x in b
  {
    forall x ensures x in a <==> x in b {
      assert x in a <==> x in multiset(a);
      assert x in b <==> x in multiset(b);
    }
  }

  /** The partition of a sorted permutation: the same markets, those whose AMM is `null`
      last, and still sorted when every market is ranked. */
  lemma PartitionOfSorted(sortBy: SortBy, filtered: seq<Market>, sorted: seq<Market>)
    requires sortBy != EndingSoon
    requires multiset(sorted) == multiset(filtered)
    requires AllRanked(sortBy, filtered) ==> SortedBy(sortBy, sorted)
    ensures var r := Filter(HasAmm, sorted) + Filter(IsNullAmm, sorted);
      multiset(r) == multiset(filtered) &&
      (forall i, j :: 0 <= i < j < |r| && IsNullAmm(r[i]) ==> IsNullAmm(r[j])) &&
      (AllRanked(sortBy, filtered) ==> SortedBy(sortBy, r))
  {
    PartitionMultiset(sorted);
    PartitionAmmFirst(sorted);
    if AllRanked(sortBy, filtered) {
      SameMembers(sorted, filtered);
      forall i | 0 <= i < |sorted| ensures HasAmm(sorted[i]) {
        assert sorted[i] in filtered;
        var k :| 0 <= k < |filtered| && filtered[k] == sorted[i];
        assert Rank(sortBy, filtered[k]).Some?;
      }
      PartitionAllAmm(sorted);
    }
  }

  /** A permutation of the filtered markets holds exactly the markets `Keep` accepts. */
  lemma KeptMembers(r: seq<Market>, markets: seq<Market>, f: Filters, popular: set<string>)
    requires multiset(r) == multiset(Filter(Keeps(f, popular), markets))
    ensures forall i :: 0 <= i < |r| ==> Keep(f, popular, r[i])
    ensures forall i :: 0 <= i < |markets| && Keep(f, popular, markets[i]) ==> markets[i] in r
  {
    var kept := Filter(Keeps(f, popular), markets);
    SameMembers(r, kept);
    KeptMarkets(markets, f, popular);
    forall i | 0 <= i < |r| ensures Keep(f, popular, r[i]) {
      assert r[i] in kept;
    }
    forall i | 0 <= i < |markets| && Keep(f, popular, markets[i]) ensures markets[i] in r {
      assert markets[i] in kept;
    }
  }

  /** `applyFiltersAndSort`: the markets the filter keeps, sorted in place by
      the comparator, then (except when ending soon) split into those with an
      AMM followed by those whose AMM is `null`, each half in sorted order.
      `sorted` is the array after `sort`. */
  method ApplyFiltersAndSort(markets: seq<Market>, f: Filters, popular: set<string>, sortBy: SortBy)
    returns (r: seq<Market>, ghost sorted: seq<Market>)
    requires CategoriesReadable(f, markets)
    ensures multiset(r) == multiset(Filter(Keeps(f, popular), markets))
    ensures forall i :: 0 <= i < |r| ==> Keep(f, popular, r[i])
    ensures forall i :: 0 <= i < |markets| && Keep(f, popular, markets[i]) ==> markets[i] in r
    ensures multiset(sorted) == multiset(Filter(Keeps(f, popular), markets))
    ensures AllRanked(sortBy, Filter(Keeps(f, popular), markets)) ==> SortedBy(sortBy, sorted)
    ensures sortBy == EndingSoon ==> r == sorted && SortedBy(EndingSoon, r)
    ensures sortBy != EndingSoon ==> r == Filter(HasAmm, sorted) + Filter(IsNullAmm, sorted)
    ensures sortBy != EndingSoon ==> forall i, j :: 0 <= i < j < |r| && IsNullAmm(r[i]) ==> IsNullAmm(r[j])
    ensures AllRanked(sortBy, Filter(Keeps(f, popular), markets)) ==> SortedBy(sortBy, r)
  {
    var filtered := Filter(Keeps(f, popular), markets);
    var a := new Market[|filtered|](i requires 0 <= i < |filtered| => filtered[i]);
    assert a[..] == filtered;
    SortMarkets(a, sortBy);
    sorted := a[..];
    if sortBy != EndingSoon {
      r := Filter(HasAmm, a[..]) + Filter(IsNullAmm, a[..]);
      PartitionOfSorted(sortBy, filtered, sorted);
    } else {
      r := a[..];
      assert AllRanked(EndingSoon, filtered);
    }
    KeptMembers(r, markets, f, popular);
  }

  // ---------------------------------------------------------------------
  // changedFilters

  /** The default-setting keys whose current value differs (a missing
      setting reads `undefined`, which differs from every default). */
  function ChangedKeys(defaults: map<string, string>, settings: map<string, string>): set<string>
  {
    set k | k in defaults && (k !in settings || settings[k] != defaults[k])
  }

  /** The `forEach` over the keys of `DEFAULT_MARKET_VIEW_SETTINGS` (a
      constant not part of this model, passed as `defaults`). */
  method CountChangedFilters(defaults: map<string, string>, settings: map<string, string>) returns (changedFilters: nat)
    ensures changedFilters == |ChangedKeys(defaults, settings)|
  {
    changedFilters := 0;
    var remaining := defaults.Keys;
    ghost var counted: set<string> := {};
    while remaining != {}
      invariant remaining <= defaults.Keys
      invariant counted == ChangedKeys(defaults, settings) - remaining
      invariant changedFilters == |counted|
      decreases remaining
    {
      var setting :| setting in remaining;
      if setting !in settings || settings[setting] != defaults[setting] {
        changedFilters := changedFilters + 1;
        counted := counted + {setting};
      }
      remaining := remaining - {setting};
    }
  }

  /** The count is at most the number of defaults, and zero exactly when every
      default setting is in place. */
  lemma ChangedFiltersBounds(defaults: map<string, string>, settings: map<string, string>)
    ensures |ChangedKeys(defaults, settings)| <= |defaults|
    ensures |ChangedKeys(defaults, settings)| == 0 <==>
      forall k :: k in defaults ==> k in settings && settings[k] == defaults[k]
  {
    var c := ChangedKeys(defaults, settings);
    assert c <= defaults.Keys;
    SubsetCardinality(c, defaults.Keys);
    if forall k :: k in defaults ==> k in settings && settings[k] == defaults[k] {
      assert c == {};
    } else {
      var k :| k in defaults && !(k in settings && settings[k] == defaults[k]);
      assert k in c;
    }
  }

  lemma {:induction false} SubsetCardinality(a: set<string>, b: set<string>)
    requires a <= b
    ensures |a| <= |b|
    decreases |b|
  {
    if a != {} {
      var x :| x in a;
      SubsetCardinality(a - {x}, b - {x});
    }
  }
}
