/** The data layer: turning the market-data provider's parsed listing into coin
    records, the generated seven-day price history, the VANRY pin to the top of
    the list, and the fetch's outcomes, every failure of which yields an empty list. */
module CoinData {

  import opened Wrappers
  import opened CoinTypes

  const LogoPrefix: string := "https://s2.coinmarketcap.com/static/img/coins/64x64/"

  /** Number of points in a generated chart series (today and the six days before). */
  const ChartDays: nat := 7

  // ---------------------------------------------------------------------------
  // Chart history

  /** The simulated price `daysAgo` days back: the base price moved by at most
      a quarter of itself, scaled by how far back the day lies. `draw` is the
      random number in [0, 1) drawn for that day. */
  function Fluctuated(basePrice: real, draw: real, daysAgo: nat): real
  {
    basePrice * (1.0 + (draw - 0.5) * ((daysAgo as real) / 7.0) * 0.5)
  }

  /** The series the generator produces: point k is for the day 6 - k days
      before `today`, priced with the k-th random draw. */
  function ChartSeries(basePrice: real, today: int, draws: nat -> real): seq<ChartPoint>
  {
    seq(ChartDays, k requires 0 <= k < ChartDays =>
      ChartPoint(today - (6 - k), Fluctuated(basePrice, draws(k), 6 - k)))
  }

  /** Generates the history by counting down from six days ago to today and
      appending one point per day. */
  method GenerateChartData(basePrice: real, today: int, draws: nat -> real) returns (data: seq<ChartPoint>)
    ensures data == ChartSeries(basePrice, today, draws)
  {
    data := [];
    var i := 6;
    while i >= 0
      invariant -1 <= i <= 6
      invariant |data| == 6 - i
      invariant forall k :: 0 <= k < |data| ==>
        data[k] == ChartPoint(today - (6 - k), Fluctuated(basePrice, draws(k), 6 - k))
    {
      data := data + [ChartPoint(today - i, Fluctuated(basePrice, draws(6 - i), i))];
      i := i - 1;
    }
  }

  /** A generated series has seven points on consecutive days ending today,
      oldest first; today's point carries the base price unchanged; and with
      draws in [0, 1) and a non-negative base price every point stays within
      a quarter of the base price. */
  lemma {:induction false} ChartSeriesShape(basePrice: real, today: int, draws: nat -> real)
    ensures var s := ChartSeries(basePrice, today, draws);
      && |s| == 7
      && s[0].day == today - 6
      && s[6] == ChartPoint(today, basePrice)
      && (forall k :: 0 <= k < 6 ==> s[k + 1].day == s[k].day + 1)
      && (basePrice >= 0.0 && (forall k :: 0 <= k < 7 ==> 0.0 <= draws(k) < 1.0) ==>
            forall k :: 0 <= k < 7 ==> 0.75 * basePrice <= s[k].price <= 1.25 * basePrice)
  {
    var s := ChartSeries(basePrice, today, draws);
    if basePrice >= 0.0 && (forall k :: 0 <= k < 7 ==> 0.0 <= draws(k) < 1.0) {
      forall k | 0 <= k < 7
        ensures 0.75 * basePrice <= s[k].price <= 1.25 * basePrice
      {
        FluctuationBounded(basePrice, draws(k), 6 - k);
      }
    }
  }

  lemma FluctuationBounded(basePrice: real, draw: real, daysAgo: nat)
    requires basePrice >= 0.0 && 0.0 <= draw < 1.0 && daysAgo <= 7
    ensures 0.75 * basePrice <= Fluctuated(basePrice, draw, daysAgo) <= 1.25 * basePrice
  {
    var a, b := draw - 0.5, (daysAgo as real) / 7.0;
    assert 0.0 <= b <= 1.0;
    MulNonNegative(a + 0.5, b);
    MulNonNegative(0.5 - a, b);
    var f := a * b * 0.5;
    assert -0.25 <= f <= 0.25;
    MulNonNegative(basePrice, 0.25 - f);
    MulNonNegative(basePrice, f + 0.25);
    assert Fluctuated(basePrice, draw, daysAgo) == basePrice * (1.0 + f);
  }

  lemma MulNonNegative(x: real, y: real)
    requires x >= 0.0 && y >= 0.0
    ensures x * y >= 0.0
  {
  }

  // ---------------------------------------------------------------------------
  // Mapping one provider record

  /** The USD quote block of a provider record, with the provider's numbers
      already rounded the way the mapping rounds them. */
  datatype UsdQuote = UsdQuote(
    price: real,
    percentChange1h: real,
    percentChange24h: real,
    percentChange7d: real,
    marketCap: int,
    volume24h: int,
    fullyDilutedValuation: int,
    volumeChange24h: real)

  /** A provider record after JSON parsing; `usd` is absent when the record
      has no `quote` or no `quote.USD`. */
  datatype RawCoin = RawCoin(
    id: int,
    name: string,
    symbol: string,
    cmcRank: int,
    dateAdded: string,
    circulatingSupply: int,
    usd: Option<UsdQuote>)

  /** What mapping one array element gives: a thrown type error (the element
      itself is null or undefined), no record (no USD quote), or a coin. */
  datatype MapOutcome = Throws | NoQuote | Mapped(coin: Coin)

  function DigitChar(d: nat): char
    requires d < 10
  {
    "0123456789"[d]
  }

  function NatToDecimal(n: nat): string
    decreases n
  {
    if n < 10 then [DigitChar(n)] else NatToDecimal(n / 10) + [DigitChar(n % 10)]
  }

  /** The id as JavaScript writes it inside a template string. */
  function IntToDecimal(i: int): string
  {
    if i < 0 then "-" + NatToDecimal(-i) else NatToDecimal(i)
  }

  function LogoUrl(id: int): string
  {
    LogoPrefix + IntToDecimal(id) + ".png"
  }

  /** Maps one element of the provider's array to a coin record. The element is
      dereferenced before the null check, so a null element throws rather than
      being dropped; a record without a USD quote is dropped. */
  function MapCoinData(entry: Option<RawCoin>, today: int, draws: nat -> real): (m: MapOutcome)
    ensures m.Throws? <==> entry.None?
    ensures m.NoQuote? <==> entry.Some? && entry.value.usd.None?
    ensures m.Mapped? ==>
      var raw, c := entry.value, m.coin;
      && c.id == raw.id && c.name == raw.name && c.symbol == raw.symbol
      && c.rank == raw.cmcRank && c.dateAdded == raw.dateAdded
      && c.circulatingSupply == raw.circulatingSupply
      && c.logo == LogoPrefix + IntToDecimal(raw.id) + ".png"
      && raw.usd.Some?
      && c.price == raw.usd.value.price
      && c.percentChange24h == raw.usd.value.percentChange24h
      && c.marketCap == raw.usd.value.marketCap
      && c.volume24h == raw.usd.value.volume24h
      && c.chartData == Some(ChartSeries(raw.usd.value.price, today, draws))
  {
    match entry
    case None => Throws
    case Some(raw) =>
      match raw.usd
      case None => NoQuote
      case Some(q) =>
        Mapped(Coin(
          id := raw.id,
          name := raw.name,
          symbol := raw.symbol,
          price := q.price,
          percentChange1h := q.percentChange1h,
          percentChange24h := q.percentChange24h,
          percentChange7d := q.percentChange7d,
          logo := LogoUrl(raw.id),
          marketCap := q.marketCap,
          volume24h := q.volume24h,
          circulatingSupply := raw.circulatingSupply,
          rank := raw.cmcRank,
          chartData := Some(ChartSeries(q.price, today, draws)),
          fullyDilutedValuation := q.fullyDilutedValuation,
          volumeChange24h := q.volumeChange24h,
          dateAdded := raw.dateAdded))
  }

  // ---------------------------------------------------------------------------
  // The listing: map every element, then drop the empty results

  /** The mapping of every element, in order. */
  function MapAll(entries: seq<Option<RawCoin>>, today: int, draws: nat -> real): seq<MapOutcome>
  {
    seq(|entries|, j requires 0 <= j < |entries| => MapCoinData(entries[j], today, draws))
  }

  /** The coins among the mapping outcomes, in order. */
  function MappedCoins(outcomes: seq<MapOutcome>): seq<Coin>
  {
    if outcomes == [] then []
    else if outcomes[0].Mapped? then [outcomes[0].coin] + MappedCoins(outcomes[1..])
    else MappedCoins(outcomes[1..])
  }

  /** Wraps coins back as mapping outcomes, to compare them with `MapAll`. */
  function AsOutcomes(coins: seq<Coin>): seq<MapOutcome>
  {
    seq(|coins|, i requires 0 <= i < |coins| => Mapped(coins[i]))
  }

  /** The listing as the data layer builds it: None when some element throws
      (which aborts the whole fetch), otherwise the mapped coins with the
      records lacking a quote dropped. */
  function MapListing(entries: seq<Option<RawCoin>>, today: int, draws: nat -> real): (r: Option<seq<Coin>>)
    ensures r.None? <==> None in entries
  {
    if None in entries then None else Some(MappedCoins(MapAll(entries, today, draws)))
  }

  lemma {:induction false} MappedCoinsKeeps(outcomes: seq<MapOutcome>)
    ensures IsSubsequence(AsOutcomes(MappedCoins(outcomes)), outcomes)
    ensures forall c :: c in MappedCoins(outcomes) <==> Mapped(c) in outcomes
  {
    if outcomes != [] {
      MappedCoinsKeeps(outcomes[1..]);
      var rest := MappedCoins(outcomes[1..]);
      if outcomes[0].Mapped? {
        assert AsOutcomes([outcomes[0].coin] + rest) == [outcomes[0]] + AsOutcomes(rest);
        assert ([outcomes[0]] + AsOutcomes(rest))[1..] == AsOutcomes(rest);
      }
      assert outcomes == [outcomes[0]] + outcomes[1..];
    }
  }

  /** The listing keeps, in order, exactly the records that map to a coin: it
      is a subsequence of the mapped array with no empty result in it, and every
      record with a USD quote contributes its coin. */
  lemma ListingIsMappedSubsequence(entries: seq<Option<RawCoin>>, today: int, draws: nat -> real)
    requires None !in entries
    ensures var coins := MapListing(entries, today, draws).value;
      && IsSubsequence(AsOutcomes(coins), MapAll(entries, today, draws))
      && (forall c :: c in coins <==> exists j :: 0 <= j < |entries| && MapCoinData(entries[j], today, draws) == Mapped(c))
      && (forall j :: 0 <= j < |entries| && entries[j].value.usd.Some? ==>
            MapCoinData(entries[j], today, draws).coin in coins)
  {
    var all := MapAll(entries, today, draws);
    MappedCoinsKeeps(all);
    forall c ensures Mapped(c) in all <==> exists j :: 0 <= j < |entries| && MapCoinData(entries[j], today, draws) == Mapped(c)
    {
      if Mapped(c) in all {
        var j :| 0 <= j < |all| && all[j] == Mapped(c);
        assert MapCoinData(entries[j], today, draws) == Mapped(c);
      }
      if exists j :: 0 <= j < |entries| && MapCoinData(entries[j], today, draws) == Mapped(c) {
        var j :| 0 <= j < |entries| && MapCoinData(entries[j], today, draws) == Mapped(c);
        assert all[j] == Mapped(c);
      }
    }
    forall j | 0 <= j < |entries| && entries[j].value.usd.Some?
      ensures MapCoinData(entries[j], today, draws).coin in MappedCoins(all)
    {
      assert all[j] == MapCoinData(entries[j], today, draws);
    }
  }

  // ---------------------------------------------------------------------------
  // VANRY pinned to the top

  /** The list after the VANRY step: VANRY first, then the list with the first
      record carrying VANRY's id taken out. */
  function PinnedFirst(s: seq<Coin>, vanry: Coin): seq<Coin>
  {
    var k := FindIndex(s, vanry.id);
    [vanry] + (if k == -1 then s else s[..k] + s[k + 1..])
  }

  /** The in-place step: `findIndex`, `splice` of that one record, `unshift`. */
  method PinVanry(cryptoData: seq<Coin>, vanry: Coin) returns (r: seq<Coin>)
    ensures r == PinnedFirst(cryptoData, vanry)
  {
    var existingIndex := -1;
    var i := 0;
    while i < |cryptoData| && existingIndex == -1
      invariant 0 <= i <= |cryptoData|
      invariant existingIndex == -1 || (existingIndex == i - 1 && cryptoData[existingIndex].id == vanry.id)
      invariant forall j :: 0 <= j < i && (existingIndex == -1 || j < existingIndex) ==> cryptoData[j].id != vanry.id
    {
      if cryptoData[i].id == vanry.id {
        existingIndex := i;
      }
      i := i + 1;
    }
    FindIndexIsFirst(cryptoData, vanry.id, existingIndex);
    r := cryptoData;
    if existingIndex != -1 {
      r := r[..existingIndex] + r[existingIndex + 1..];
    }
    r := [vanry] + r;
  }

  /** VANRY comes first; the rest is the old list with only its first record of
      the same id removed, everything else in its old order; the length grows
      by one exactly when VANRY's id was not listed; and a list with unique ids
      keeps them unique. */
  lemma {:induction false} PinnedFirstSpec(s: seq<Coin>, vanry: Coin)
    ensures var r := PinnedFirst(s, vanry);
      && r[0] == vanry
      && IsSubsequence(r[1..], s)
      && (vanry.id in Ids(s) ==> |r| == |s| && multiset(r[1..]) + multiset{s[FindIndex(s, vanry.id)]} == multiset(s))
      && (vanry.id !in Ids(s) ==> r == [vanry] + s)
      && (UniqueIds(s) ==> UniqueIds(r))
  {
    if FindIndex(s, vanry.id) == -1 {
      PinnedWhenAbsent(s, vanry);
    } else {
      PinnedWhenPresent(s, vanry);
    }
  }

  lemma PinnedWhenAbsent(s: seq<Coin>, vanry: Coin)
    requires FindIndex(s, vanry.id) == -1
    ensures var r := PinnedFirst(s, vanry);
      && r == [vanry] + s && r[1..] == s && vanry.id !in Ids(s)
      && IsSubsequence(s, s)
      && (UniqueIds(s) ==> UniqueIds(r))
  {
    SubsequenceRefl(s);
    NotInIds(s, vanry.id);
    if UniqueIds(s) {
      ConsUnique(vanry, s);
    }
  }

  lemma PinnedWhenPresent(s: seq<Coin>, vanry: Coin)
    requires FindIndex(s, vanry.id) != -1
    ensures var k, r := FindIndex(s, vanry.id), PinnedFirst(s, vanry);
      && vanry.id in Ids(s)
      && r[0] == vanry && |r| == |s|
      && IsSubsequence(r[1..], s)
      && multiset(r[1..]) + multiset{s[k]} == multiset(s)
      && (UniqueIds(s) ==> UniqueIds(r))
  {
    var k := FindIndex(s, vanry.id);
    var rest := s[..k] + s[k + 1..];
    assert PinnedFirst(s, vanry)[1..] == rest;
    assert s[k] in s;
    DropOneFacts(s, k);
    if UniqueIds(s) {
      ConsUnique(vanry, rest);
    }
  }

  lemma NotInIds(s: seq<Coin>, id: int)
    requires forall j :: 0 <= j < |s| ==> s[j].id != id
    ensures id !in Ids(s)
  {
    forall c | c in s
      ensures c.id != id
    {
      var j :| 0 <= j < |s| && s[j] == c;
    }
  }

  /** A record whose id the list lacks can go in front of a list with unique ids. */
  lemma ConsUnique(c: Coin, s: seq<Coin>)
    requires UniqueIds(s) && c.id !in Ids(s)
    ensures UniqueIds([c] + s)
  {
    var r := [c] + s;
    forall i, j | 0 <= i < j < |r|
      ensures r[i].id != r[j].id
    {
      if i == 0 {
        assert r[j] == s[j - 1];
        assert r[j] in s;
      } else {
        assert r[i] == s[i - 1] && r[j] == s[j - 1];
      }
    }
  }

  /** Taking out one element keeps the order of the others, removes exactly
      that element, and on a list with unique ids leaves no record of its id. */
  lemma DropOneFacts(s: seq<Coin>, k: nat)
    requires k < |s|
    ensures var rest := s[..k] + s[k + 1..];
      && IsSubsequence(rest, s)
      && multiset(rest) + multiset{s[k]} == multiset(s)
      && (UniqueIds(s) ==> UniqueIds(rest) && s[k].id !in Ids(rest))
  {
    DropOneIsSubsequence(s, k);
    assert s == s[..k] + [s[k]] + s[k + 1..];
    if UniqueIds(s) {
      DropOneUnique(s, k);
    }
  }

  lemma DropOneUnique(s: seq<Coin>, k: nat)
    requires k < |s| && UniqueIds(s)
    ensures UniqueIds(s[..k] + s[k + 1..]) && s[k].id !in Ids(s[..k] + s[k + 1..])
  {
    var rest := s[..k] + s[k + 1..];
    assert forall j :: 0 <= j < |rest| ==> rest[j] == s[if j < k then j else j + 1];
    forall i, j | 0 <= i < j < |rest|
      ensures rest[i].id != rest[j].id
    {
      assert rest[i] == s[if i < k then i else i + 1];
      assert rest[j] == s[if j < k then j else j + 1];
    }
    forall j | 0 <= j < |rest|
      ensures rest[j].id != s[k].id
    {
      assert rest[j] == s[if j < k then j else j + 1];
    }
    NotInIds(rest, s[k].id);
  }

  /** Dropping one element leaves a subsequence. */
  lemma {:induction false} DropOneIsSubsequence(s: seq<Coin>, k: nat)
    requires k < |s|
    ensures IsSubsequence(s[..k] + s[k + 1..], s)
    decreases k
  {
    if k == 0 {
      assert s[..0] + s[1..] == s[1..];
      SubsequenceRefl(s[1..]);
      SubsequenceSkip(s[1..], s);
    } else {
      DropOneIsSubsequence(s[1..], k - 1);
      assert (s[..k] + s[k + 1..])[0] == s[0];
      assert (s[..k] + s[k + 1..])[1..] == s[1..][..k - 1] + s[1..][k..];
    }
  }

  // ---------------------------------------------------------------------------
  // The fetch

  /** A parsed HTTP exchange: a rejected request, or a status and a body. */
  datatype HttpResult<B> = NetworkError | Response(status: int, body: B)

  /** The `data` field of the listing body. */
  datatype ListingField = NoListing | ListingNotArray | Listing(entries: seq<Option<RawCoin>>)

  datatype ListingBody = ListingUnparseable | ListingJson(data: ListingField)

  /** The `data.VANRY` field of the quotes body: missing or null, one record,
      or an array of records (whose first element is used). */
  datatype VanryField = VanryAbsent | VanryRecord(raw: RawCoin) | VanryArray(entries: seq<Option<RawCoin>>)

  datatype VanryBody = VanryUnparseable | VanryJson(vanry: VanryField)

  const RateLimited: int := 429

  predicate IsOk(status: int) { 200 <= status <= 299 }

  /** The VANRY element that gets mapped, or None when the branch is not taken;
      `Some(None)` is the undefined first element of an empty array. */
  function VanryElement(field: VanryField): Option<Option<RawCoin>>
  {
    match field
    case VanryAbsent => None
    case VanryRecord(raw) => Some(Some(raw))
    case VanryArray(entries) => Some(if entries == [] then None else entries[0])
  }

  /** The whole fetch. It never fails: a missing key, a rate-limited or
      malformed listing, and every thrown error all give the empty list. */
  function FetchCryptoData(
    apiKeyPresent: bool,
    listing: HttpResult<ListingBody>,
    vanry: HttpResult<VanryBody>,
    today: int,
    draws: nat -> real): seq<Coin>
  {
    if !apiKeyPresent then []
    else if listing.NetworkError? || vanry.NetworkError? then []
    else if !IsOk(listing.status) then []
    else if !IsOk(vanry.status) && vanry.status != RateLimited then []
    else if listing.body.ListingUnparseable? then []
    else if IsOk(vanry.status) && vanry.body.VanryUnparseable? then []
    else match listing.body.data
      case NoListing => []
      case ListingNotArray => []
      case Listing(entries) =>
        match MapListing(entries, today, draws)
        case None => []
        case Some(coins) =>
          var element := if IsOk(vanry.status) then VanryElement(vanry.body.vanry) else None;
          match element
          case None => coins
          case Some(e) =>
            match MapCoinData(e, today, draws)
            case Throws => []
            case NoQuote => coins
            case Mapped(v) => PinnedFirst(coins, v)
  }

  /** Every failure gives the empty list: a missing key, a request that does
      not complete, a listing status outside 2xx (429 included), a quotes status
      outside 2xx other than 429, a body that does not parse, a listing `data`
      that is missing or not an array, a null listing element, and a VANRY
      array that is empty or starts with null. */
  lemma FetchFailures(
    apiKeyPresent: bool,
    listing: HttpResult<ListingBody>,
    vanry: HttpResult<VanryBody>,
    today: int,
    draws: nat -> real)
    ensures var r := FetchCryptoData(apiKeyPresent, listing, vanry, today, draws);
      && (!apiKeyPresent ==> r == [])
      && (listing.NetworkError? || vanry.NetworkError? ==> r == [])
      && (listing.Response? && !IsOk(listing.status) ==> r == [])
      && (vanry.Response? && !IsOk(vanry.status) && vanry.status != RateLimited ==> r == [])
      && (listing.Response? && listing.body.ListingUnparseable? ==> r == [])
      && (vanry.Response? && IsOk(vanry.status) && vanry.body.VanryUnparseable? ==> r == [])
      && (listing.Response? && listing.body.ListingJson? && !listing.body.data.Listing? ==> r == [])
      && (listing.Response? && listing.body.ListingJson? && listing.body.data.Listing?
          && None in listing.body.data.entries
          ==> r == [])
      && (vanry.Response? && IsOk(vanry.status) && vanry.body == VanryJson(VanryArray([])) ==> r == [])
      && (vanry.Response? && IsOk(vanry.status) && vanry.body.VanryJson?
          && VanryElement(vanry.body.vanry) == Some(None)
          ==> r == [])
  {
  }

  /** The successful endings: the listing alone when the quotes request was
      rate-limited, carries no VANRY, or carries a VANRY record without a USD
      quote; the listing with the VANRY coin pinned first when it maps. */
  lemma FetchOutcomes(
    apiKeyPresent: bool,
    listing: HttpResult<ListingBody>,
    vanry: HttpResult<VanryBody>,
    today: int,
    draws: nat -> real)
    requires apiKeyPresent && listing.Response? && IsOk(listing.status)
    requires listing.body.ListingJson? && listing.body.data.Listing?
    requires MapListing(listing.body.data.entries, today, draws).Some?
    requires vanry.Response?
    ensures var r, coins := FetchCryptoData(apiKeyPresent, listing, vanry, today, draws),
                            MapListing(listing.body.data.entries, today, draws).value;
      && (vanry.status == RateLimited ==> r == coins)
      && (IsOk(vanry.status) && vanry.body == VanryJson(VanryAbsent) ==> r == coins)
      && (IsOk(vanry.status) && vanry.body.VanryJson? && VanryElement(vanry.body.vanry).Some?
          && MapCoinData(VanryElement(vanry.body.vanry).value, today, draws).NoQuote?
          ==> r == coins)
      && (IsOk(vanry.status) && vanry.body.VanryJson? && VanryElement(vanry.body.vanry).Some?
          && MapCoinData(VanryElement(vanry.body.vanry).value, today, draws).Mapped?
          ==> r == PinnedFirst(coins, MapCoinData(VanryElement(vanry.body.vanry).value, today, draws).coin))
  {
  }

  /** The converse of `FetchFailures`: a non-empty result means that both
      requests completed with usable bodies, the listing mapped without a
      null element, and the VANRY element, when one was read, did not throw;
      the result is then the listing, with VANRY pinned first when it mapped. */
  lemma FetchNonEmptyMeansSuccess(
    apiKeyPresent: bool,
    listing: HttpResult<ListingBody>,
    vanry: HttpResult<VanryBody>,
    today: int,
    draws: nat -> real)
    ensures var r := FetchCryptoData(apiKeyPresent, listing, vanry, today, draws);
      r != [] ==>
        && apiKeyPresent && listing.Response? && IsOk(listing.status)
        && listing.body.ListingJson? && listing.body.data.Listing?
        && MapListing(listing.body.data.entries, today, draws).Some?
        && vanry.Response?
        && (vanry.status == RateLimited || (IsOk(vanry.status) && vanry.body.VanryJson?))
        && (IsOk(vanry.status) && VanryElement(vanry.body.vanry).Some? ==>
              !MapCoinData(VanryElement(vanry.body.vanry).value, today, draws).Throws?)
        && (r == MapListing(listing.body.data.entries, today, draws).value
            || (IsOk(vanry.status) && VanryElement(vanry.body.vanry).Some?
                && r == PinnedFirst(MapListing(listing.body.data.entries, today, draws).value,
                                    MapCoinData(VanryElement(vanry.body.vanry).value, today, draws).coin)))
  {
  }

  /** Whatever the responses, every coin the fetch returns is the mapping of a
      listing record or of the VANRY record. */
  lemma {:induction false} FetchResultProvenance(
    apiKeyPresent: bool,
    listing: HttpResult<ListingBody>,
    vanry: HttpResult<VanryBody>,
    today: int,
    draws: nat -> real)
    ensures var r := FetchCryptoData(apiKeyPresent, listing, vanry, today, draws);
      forall c :: c in r ==>
        && listing.Response? && listing.body.ListingJson? && listing.body.data.Listing?
        && ((exists j :: 0 <= j < |listing.body.data.entries| &&
               MapCoinData(listing.body.data.entries[j], today, draws) == Mapped(c))
            || (vanry.Response? && vanry.body.VanryJson? && VanryElement(vanry.body.vanry).Some?
                && MapCoinData(VanryElement(vanry.body.vanry).value, today, draws) == Mapped(c)))
  {
    var r := FetchCryptoData(apiKeyPresent, listing, vanry, today, draws);
    if r != [] {
      var entries := listing.body.data.entries;
      ListingIsMappedSubsequence(entries, today, draws);
      var coins := MapListing(entries, today, draws).value;
      if r != coins {
        var v := MapCoinData(VanryElement(vanry.body.vanry).value, today, draws).coin;
        PinnedFirstSpec(coins, v);
        forall c | c in r
          ensures c == v || c in coins
        {
          var i :| 0 <= i < |r| && r[i] == c;
          if i > 0 {
            assert c in r[1..];
            SubsequenceMembers(r[1..], coins);
          }
        }
      }
    }
  }
}
