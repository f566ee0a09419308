/** What the coin table shows: the search box, the four named threshold
    filters, the sort on the 24h change that two of them switch on, and the
    slicing of the result into pages of ten. */
module ViewFilter {

  import opened Wrappers
  import opened CoinTypes

  const ItemsPerPage := 10

  const TopGainer := "Top Gainer"
  const TopLoser := "Top Loser"
  const HighMarketCap := "High Market Cap"
  const HighVolume := "High Volume"

  /** $10B and $1B, the thresholds of the two size filters. */
  const MarketCapThreshold := 10000000000
  const VolumeThreshold := 1000000000

  // ---------------------------------------------------------------------------
  // Case-insensitive search

  predicate IsUpper(ch: char)
  {
    'A' <= ch <= 'Z'
  }

  function LowerChar(ch: char): char
  {
    if IsUpper(ch) then (ch as int + 32) as char else ch
  }

  /** `toLowerCase`, on the ASCII letters. */
  function Lower(s: string): (r: string)
    ensures |r| == |s|
    ensures forall i :: 0 <= i < |s| ==> r[i] == LowerChar(s[i])
    decreases |s|
  {
    if s == [] then [] else [LowerChar(s[0])] + Lower(s[1..])
  }

  /** Lowercasing leaves no upper-case letter behind, so doing it twice is doing it once. */
  lemma LowerIdempotent(s: string)
    ensures forall i :: 0 <= i < |s| ==> !IsUpper(Lower(s)[i])
    ensures Lower(Lower(s)) == Lower(s)
  {
  }

  predicate StartsWith(text: string, prefix: string)
  {
    |prefix| <= |text| && text[..|prefix|] == prefix
  }

  /** `text.includes(pattern)`, scanning from the left. */
  predicate Contains(text: string, pattern: string)
    decreases |text|
  {
    StartsWith(text, pattern) || (text != [] && Contains(text[1..], pattern))
  }

  /** The pattern occurs in the text at position i. */
  predicate OccursAt(text: string, pattern: string, i: int)
  {
    0 <= i && i + |pattern| <= |text| && text[i..i + |pattern|] == pattern
  }

  /** The scan finds the pattern exactly when it occurs at some position. */
  lemma {:induction false} ContainsOccurrence(text: string, pattern: string)
    ensures Contains(text, pattern) <==> exists i :: OccursAt(text, pattern, i)
    decreases |text|
  {
    if StartsWith(text, pattern) {
      assert OccursAt(text, pattern, 0);
    } else if text == [] {
    } else {
      ContainsOccurrence(text[1..], pattern);
      if exists i :: OccursAt(text, pattern, i) {
        var i :| OccursAt(text, pattern, i);
        assert i != 0;
        assert text[1..][i - 1..i - 1 + |pattern|] == pattern;
        assert OccursAt(text[1..], pattern, i - 1);
      }
      if Contains(text[1..], pattern) {
        var i :| OccursAt(text[1..], pattern, i);
        assert text[i + 1..i + 1 + |pattern|] == pattern;
        assert OccursAt(text, pattern, i + 1);
      }
    }
  }

  /** The search test of one coin: the lowercased search text occurs in the
      lowercased name or the lowercased symbol. */
  predicate MatchesSearch(c: Coin, search: string)
  {
    Contains(Lower(c.name), Lower(search)) || Contains(Lower(c.symbol), Lower(search))
  }

  /** An empty search matches every coin, and the search ignores letter case. */
  lemma SearchProperties(c: Coin, search: string)
    ensures MatchesSearch(c, "")
    ensures MatchesSearch(c, Lower(search)) == MatchesSearch(c, search)
  {
    assert StartsWith(Lower(c.name), Lower(""));
    LowerIdempotent(search);
  }

  // ---------------------------------------------------------------------------
  // Threshold filters

  /** One named filter; a name the switch does not know excludes nothing. */
  predicate PassesFilter(c: Coin, filter: string)
  {
    if filter == TopGainer then c.percentChange24h > 0.0
    else if filter == TopLoser then c.percentChange24h < 0.0
    else if filter == HighMarketCap then c.marketCap > MarketCapThreshold
    else if filter == HighVolume then c.volume24h > VolumeThreshold
    else true
  }

  /** `activeFilters.every(...)`. */
  predicate PassesAll(c: Coin, filters: seq<string>)
  {
    forall i :: 0 <= i < |filters| ==> PassesFilter(c, filters[i])
  }

  /** A coin cannot both gain and lose, so the two movers' filters together exclude everything. */
  lemma GainerAndLoserExclusive(c: Coin, filters: seq<string>)
    requires TopGainer in filters && TopLoser in filters
    ensures !PassesAll(c, filters)
  {
    var i :| 0 <= i < |filters| && filters[i] == TopGainer;
    var j :| 0 <= j < |filters| && filters[j] == TopLoser;
  }

  // ---------------------------------------------------------------------------
  // Filtering a list

  /** `Array.prototype.filter`: the elements satisfying `p`, in their order. */
  function Filter(s: seq<Coin>, p: Coin -> bool): (r: seq<Coin>)
    ensures |r| <= |s|
    ensures forall c :: c in r <==> c in s && p(c)
    decreases |s|
  {
    if s == [] then []
    else (if p(s[0]) then [s[0]] else []) + Filter(s[1..], p)
  }

  /** Filtering keeps the order of what it keeps. */
  lemma {:induction false} FilterIsSubsequence(s: seq<Coin>, p: Coin -> bool)
    ensures IsSubsequence(Filter(s, p), s)
    decreases |s|
  {
    if s != [] {
      FilterIsSubsequence(s[1..], p);
      var r := Filter(s, p);
      if p(s[0]) {
        assert r[0] == s[0] && r[1..] == Filter(s[1..], p);
      } else {
        assert r == Filter(s[1..], p);
        if r != [] {
          SubsequenceSkip(r, s);
        }
      }
    }
  }

  /** How many times each coin occurs after filtering. */
  lemma {:induction false} FilterMultiset(s: seq<Coin>, p: Coin -> bool)
    ensures forall c :: multiset(Filter(s, p))[c] == if p(c) then multiset(s)[c] else 0
    decreases |s|
  {
    if s != [] {
      FilterMultiset(s[1..], p);
      assert s == [s[0]] + s[1..];
    }
  }

  /** Filtering by `p` and then by `q` is filtering by both at once. */
  lemma {:induction false} FilterTwice(s: seq<Coin>, p: Coin -> bool, q: Coin -> bool, both: Coin -> bool)
    requires forall c :: both(c) == (p(c) && q(c))
    ensures Filter(Filter(s, p), q) == Filter(s, both)
    decreases |s|
  {
    if s != [] {
      FilterTwice(s[1..], p, q, both);
      if p(s[0]) {
        assert Filter(s, p) == [s[0]] + Filter(s[1..], p);
        assert Filter(s, p)[1..] == Filter(s[1..], p);
      } else {
        assert Filter(s, p) == Filter(s[1..], p);
      }
    }
  }

  /** Filtering a list with one more element in front. */
  lemma FilterCons(x: Coin, t: seq<Coin>, p: Coin -> bool)
    ensures Filter([x] + t, p) == (if p(x) then [x] else []) + Filter(t, p)
  {
    assert ([x] + t)[1..] == t;
  }

  /** A test every element passes keeps the whole list. */
  lemma {:induction false} FilterKeepsAll(s: seq<Coin>, p: Coin -> bool)
    requires forall c :: c in s ==> p(c)
    ensures Filter(s, p) == s
    decreases |s|
  {
    if s != [] {
      FilterKeepsAll(s[1..], p);
    }
  }

  // ---------------------------------------------------------------------------
  // The two filter stages

  function SearchTest(search: string): Coin -> bool
  {
    c => MatchesSearch(c, search)
  }

  function ThresholdTest(filters: seq<string>): Coin -> bool
  {
    c => PassesAll(c, filters)
  }

  /** Both checks of the filter stages. */
  predicate Selected(c: Coin, search: string, filters: seq<string>)
  {
    MatchesSearch(c, search) && PassesAll(c, filters)
  }

  function SelectionTest(search: string, filters: seq<string>): Coin -> bool
  {
    c => Selected(c, search, filters)
  }

  /** The search stage, skipped when the search box is empty. */
  function SearchStage(s: seq<Coin>, search: string): seq<Coin>
  {
    if search == "" then s else Filter(s, SearchTest(search))
  }

  /** The threshold stage, skipped when no filter is active. */
  function ThresholdStage(s: seq<Coin>, filters: seq<string>): seq<Coin>
  {
    if |filters| == 0 then s else Filter(s, ThresholdTest(filters))
  }

  /** The two stages as the page applies them. */
  function Selection(s: seq<Coin>, search: string, filters: seq<string>): seq<Coin>
  {
    ThresholdStage(SearchStage(s, search), filters)
  }

  /** Skipping a stage changes nothing: the stages keep exactly the coins that
      pass both checks, in their original order. */
  lemma SelectionKeepsSelected(s: seq<Coin>, search: string, filters: seq<string>)
    ensures Selection(s, search, filters) == Filter(s, SelectionTest(search, filters))
  {
    var searched := SearchStage(s, search);
    if search == "" {
      forall c ensures MatchesSearch(c, search) { SearchProperties(c, search); }
      FilterKeepsAll(s, SearchTest(search));
    }
    assert searched == Filter(s, SearchTest(search));
    if |filters| == 0 {
      FilterKeepsAll(searched, ThresholdTest(filters));
    }
    FilterTwice(s, SearchTest(search), ThresholdTest(filters), SelectionTest(search, filters));
  }

  /** Applying the stages to their own output changes nothing. */
  lemma SelectionIdempotent(s: seq<Coin>, search: string, filters: seq<string>)
    ensures Selection(Selection(s, search, filters), search, filters) == Selection(s, search, filters)
  {
    var once := Selection(s, search, filters);
    SelectionKeepsSelected(s, search, filters);
    SelectionKeepsSelected(once, search, filters);
    FilterKeepsAll(once, SelectionTest(search, filters));
  }

  // ---------------------------------------------------------------------------
  // The sort on the 24h change

  /** Which order the comparator imposes. */
  datatype SortOrder = Descending | Ascending | Unchanged

  /** 'Top Gainer' wins over 'Top Loser'; with neither the comparator is 0. */
  function OrderFor(filters: seq<string>): SortOrder
  {
    if TopGainer in filters then Descending
    else if TopLoser in filters then Ascending
    else Unchanged
  }

  /** The comparator as a key: it puts `a` first when `a`'s key is smaller. */
  function SortKey(c: Coin, order: SortOrder): real
  {
    match order
    case Descending => -c.percentChange24h
    case Ascending => c.percentChange24h
    case Unchanged => 0.0
  }

  predicate SortedBy(s: seq<Coin>, order: SortOrder)
  {
    forall i, j :: 0 <= i < j < |s| ==> SortKey(s[i], order) <= SortKey(s[j], order)
  }

  /** `x` placed before the first element whose key is not smaller, so that
      it stays ahead of the elements with its key that followed it. */
  function Insert(x: Coin, t: seq<Coin>, order: SortOrder): (r: seq<Coin>)
    ensures multiset(r) == multiset(t) + multiset{x}
    decreases |t|
  {
    if t == [] || SortKey(x, order) <= SortKey(t[0], order) then [x] + t
    else
      assert t == [t[0]] + t[1..];
      [t[0]] + Insert(x, t[1..], order)
  }

  /** A stable sort by the key, as `Array.prototype.sort` is. */
  function StableSort(s: seq<Coin>, order: SortOrder): (r: seq<Coin>)
    ensures multiset(r) == multiset(s)
    decreases |s|
  {
    if s == [] then []
    else
      assert s == [s[0]] + s[1..];
      Insert(s[0], StableSort(s[1..], order), order)
  }

  lemma {:induction false} InsertSorted(x: Coin, t: seq<Coin>, order: SortOrder)
    requires SortedBy(t, order)
    ensures SortedBy(Insert(x, t, order), order)
    decreases |t|
  {
    if t == [] || SortKey(x, order) <= SortKey(t[0], order) {
      forall c | c in t ensures SortKey(x, order) <= SortKey(c, order) {
        var k :| 0 <= k < |t| && t[k] == c;
      }
      SortedCons(x, t, order);
    } else {
      var rest := Insert(x, t[1..], order);
      InsertSorted(x, t[1..], order);
      forall c | c in rest ensures SortKey(t[0], order) <= SortKey(c, order) {
        assert c in multiset(rest);
        if c != x {
          assert c in multiset(t[1..]);
          var k :| 0 <= k < |t[1..]| && t[1..][k] == c;
          assert t[k + 1] == c;
        }
      }
      SortedCons(t[0], rest, order);
    }
  }

  lemma SortedCons(h: Coin, t: seq<Coin>, order: SortOrder)
    requires SortedBy(t, order)
    requires forall c :: c in t ==> SortKey(h, order) <= SortKey(c, order)
    ensures SortedBy([h] + t, order)
  {
    var r := [h] + t;
    forall i, j | 0 <= i < j < |r| ensures SortKey(r[i], order) <= SortKey(r[j], order) {
      assert r[j] == t[j - 1] && r[j] in t;
      if i > 0 {
        assert r[i] == t[i - 1];
      }
    }
  }

  /** The sorted list is ordered by the key. */
  lemma {:induction false} StableSortSorted(s: seq<Coin>, order: SortOrder)
    ensures SortedBy(StableSort(s, order), order)
    decreases |s|
  {
    if s != [] {
      StableSortSorted(s[1..], order);
      InsertSorted(s[0], StableSort(s[1..], order), order);
    }
  }

  function HasKey(key: real, order: SortOrder): Coin -> bool
  {
    c => SortKey(c, order) == key
  }

  /** Inserting `x` ahead of every element with its key: among the elements
      with any one key, `x` comes first when it has that key. */
  lemma {:induction false} InsertStable(x: Coin, t: seq<Coin>, order: SortOrder, key: real)
    ensures Filter(Insert(x, t, order), HasKey(key, order)) ==
      (if SortKey(x, order) == key then [x] else []) + Filter(t, HasKey(key, order))
    decreases |t|
  {
    var p := HasKey(key, order);
    if t == [] || SortKey(x, order) <= SortKey(t[0], order) {
      FilterCons(x, t, p);
    } else {
      InsertStable(x, t[1..], order, key);
      InsertPastHead(x, t, order);
      assert !(p(x) && p(t[0]));
      FilterPastHead(t[0], x, Insert(x, t[1..], order), t[1..], p);
    }
  }

  /** Where `x` goes past the head of `t`, the head stays in front. */
  lemma InsertPastHead(x: Coin, t: seq<Coin>, order: SortOrder)
    requires t != [] && SortKey(x, order) > SortKey(t[0], order)
    ensures Insert(x, t, order) == [t[0]] + Insert(x, t[1..], order)
    ensures [t[0]] + t[1..] == t
  {
  }

  /** A record the test cannot share with `x` may go before `x` or after it. */
  lemma FilterPastHead(h: Coin, x: Coin, rest: seq<Coin>, tail: seq<Coin>, p: Coin -> bool)
    requires !(p(x) && p(h))
    requires Filter(rest, p) == (if p(x) then [x] else []) + Filter(tail, p)
    ensures Filter([h] + rest, p) == (if p(x) then [x] else []) + Filter([h] + tail, p)
  {
    FilterCons(h, rest, p);
    FilterCons(h, tail, p);
    if !p(x) {
      assert [] + Filter(tail, p) == Filter(tail, p);
    }
  }

  /** Stability: the elements sharing a key keep their relative order. */
  lemma {:induction false} StableSortStable(s: seq<Coin>, order: SortOrder, key: real)
    ensures Filter(StableSort(s, order), HasKey(key, order)) == Filter(s, HasKey(key, order))
    decreases |s|
  {
    if s != [] {
      StableSortStable(s[1..], order, key);
      InsertStable(s[0], StableSort(s[1..], order), order, key);
    }
  }

  /** A comparator that always answers 0 leaves the list as it is. */
  lemma StableSortUnchanged(s: seq<Coin>)
    ensures StableSort(s, Unchanged) == s
  {
    StableSortStable(s, Unchanged, 0.0);
    FilterKeepsAll(StableSort(s, Unchanged), HasKey(0.0, Unchanged));
    FilterKeepsAll(s, HasKey(0.0, Unchanged));
  }

  // ---------------------------------------------------------------------------
  // `filteredData`

  /** Search, then the threshold filters, then the sort. */
  function FilteredData(data: seq<Coin>, search: string, filters: seq<string>): seq<Coin>
  {
    StableSort(Selection(data, search, filters), OrderFor(filters))
  }

  /** The result holds each selected coin as often as the data does, and nothing else. */
  lemma FilteredDataContents(data: seq<Coin>, search: string, filters: seq<string>)
    ensures var r := FilteredData(data, search, filters);
      && multiset(r) == multiset(Filter(data, SelectionTest(search, filters)))
      && forall c :: c in r <==> c in data && Selected(c, search, filters)
  {
    SelectionKeepsSelected(data, search, filters);
    var r := FilteredData(data, search, filters);
    forall c ensures c in r <==> c in Filter(data, SelectionTest(search, filters)) {
      assert c in r <==> c in multiset(r);
    }
  }

  /** Biggest gainers first under 'Top Gainer'; otherwise biggest losers first
      under 'Top Loser'; otherwise the data's own order. */
  lemma FilteredDataOrder(data: seq<Coin>, search: string, filters: seq<string>)
    ensures var r := FilteredData(data, search, filters);
      && (TopGainer in filters ==>
            forall i, j :: 0 <= i < j < |r| ==> r[i].percentChange24h >= r[j].percentChange24h)
      && (TopGainer !in filters && TopLoser in filters ==>
            forall i, j :: 0 <= i < j < |r| ==> r[i].percentChange24h <= r[j].percentChange24h)
      && (TopGainer !in filters && TopLoser !in filters ==>
            r == Filter(data, SelectionTest(search, filters)))
  {
    var selected := Selection(data, search, filters);
    StableSortSorted(selected, OrderFor(filters));
    SelectionKeepsSelected(data, search, filters);
    StableSortUnchanged(selected);
  }

  /** With both movers' filters active the table is empty. */
  lemma GainerAndLoserShowNothing(data: seq<Coin>, search: string, filters: seq<string>)
    requires TopGainer in filters && TopLoser in filters
    ensures FilteredData(data, search, filters) == []
  {
    var r := FilteredData(data, search, filters);
    FilteredDataContents(data, search, filters);
    if r != [] {
      assert r[0] in r;
      GainerAndLoserExclusive(r[0], filters);
    }
  }

  // ---------------------------------------------------------------------------
  // Pages


  /** How `slice` reads an index: negative counts from the end, and the
      result is clamped to 0..length. */
  function SliceIndex(i: int, length: nat): (k: nat)
    ensures k <= length
  {
    if i < 0 then Max(length + i, 0) else Min(i, length)
  }

  /** `s.slice(start, end)`. */
  function Slice(s: seq<Coin>, start: int, end: int): seq<Coin>
  {
    var a, b := SliceIndex(start, |s|), SliceIndex(end, |s|);
    if a < b then s[a..b] else []
  }

  /** `paginatedData`: the slice `[(page - 1) * 10, (page - 1) * 10 + 10)`. */
  function PageOf(s: seq<Coin>, page: int): (r: seq<Coin>)
    ensures |r| <= ItemsPerPage
  {
    var startIndex := (page - 1) * ItemsPerPage;
    Slice(s, startIndex, startIndex + ItemsPerPage)
  }

  /** `Math.ceil(n / 10)`. */
  function TotalPages(n: nat): (r: nat)
    ensures r * ItemsPerPage >= n
    ensures r == 0 || (r - 1) * ItemsPerPage < n
  {
    (n + ItemsPerPage - 1) / ItemsPerPage
  }

  /** A page holds at most ten coins; a page in 1..totalPages holds the coins
      from (page - 1) * 10 up to page * 10 or the end, and is never empty; a
      page after the last is empty. */
  lemma PageBounds(s: seq<Coin>, page: int)
    ensures |PageOf(s, page)| <= ItemsPerPage
    ensures 1 <= page <= TotalPages(|s|) ==>
      PageOf(s, page) == s[(page - 1) * ItemsPerPage..Min(page * ItemsPerPage, |s|)] && PageOf(s, page) != []
    ensures page > TotalPages(|s|) ==> PageOf(s, page) == []
  {
  }

  /** The first k pages, one after the other. */
  function FirstPages(s: seq<Coin>, k: nat): seq<Coin>
  {
    if k == 0 then [] else FirstPages(s, k - 1) + PageOf(s, k)
  }

  lemma {:induction false} FirstPagesPrefix(s: seq<Coin>, k: nat)
    ensures FirstPages(s, k) == s[..Min(k * ItemsPerPage, |s|)]
  {
    if k > 0 {
      FirstPagesPrefix(s, k - 1);
      PageBounds(s, k);
      if k <= TotalPages(|s|) {
        assert s[..Min(k * ItemsPerPage, |s|)]
          == s[..(k - 1) * ItemsPerPage] + s[(k - 1) * ItemsPerPage..Min(k * ItemsPerPage, |s|)];
      }
    }
  }

  /** Reading every page in turn shows the whole filtered list, once. */
  lemma PagesCoverList(s: seq<Coin>)
    ensures FirstPages(s, TotalPages(|s|)) == s
  {
    FirstPagesPrefix(s, TotalPages(|s|));
  }
}
