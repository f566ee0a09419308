/** The coin record shared by the data layer, the refresh merge and the view. */
module CoinTypes {

  import opened Wrappers

  /** One point of a coin's trailing price history; `day` is a day number
      (the calendar date with the time of day dropped). */
  datatype ChartPoint = ChartPoint(day: int, price: real)

  /** A tracked asset. `chartData` is optional because a refreshed record may
      arrive without its history (undefined or null on the wire). Money
      amounts that the data layer rounds to whole numbers are `int`; percent
      changes and prices are `real`. */
  datatype Coin = Coin(
    id: int,
    name: string,
    symbol: string,
    price: real,
    percentChange1h: real,
    percentChange24h: real,
    percentChange7d: real,
    logo: string,
    marketCap: int,
    volume24h: int,
    circulatingSupply: int,
    rank: int,
    chartData: Option<seq<ChartPoint>>,
    fullyDilutedValuation: int,
    volumeChange24h: real,
    dateAdded: string)

  /** The ids present in a list of coins. */
  function Ids(s: seq<Coin>): set<int>
  {
    set c | c in s :: c.id
  }

  /** No two positions of the list carry the same id. */
  predicate UniqueIds(s: seq<Coin>)
  {
    forall i, j :: 0 <= i < j < |s| ==> s[i].id != s[j].id
  }

  /** `findIndex` by id: the first position holding the id, or -1. */
  function FindIndex(s: seq<Coin>, id: int): (k: int)
    ensures -1 <= k < |s|
    ensures k >= 0 ==> s[k].id == id
    ensures forall j :: 0 <= j < |s| && (k == -1 || j < k) ==> s[j].id != id
    decreases |s|
  {
    if s == [] then -1
    else if s[0].id == id then 0
    else
      var k := FindIndex(s[1..], id);
      if k == -1 then -1 else k + 1
  }

  /** The ids of two lists one after the other are the ids of both. */
  lemma IdsConcat(s: seq<Coin>, t: seq<Coin>)
    ensures Ids(s + t) == Ids(s) + Ids(t)
  {
    forall id | id in Ids(s + t)
      ensures id in Ids(s) + Ids(t)
    {
      var c :| c in s + t && c.id == id;
    }
    forall id | id in Ids(s) + Ids(t)
      ensures id in Ids(s + t)
    {
      var c :| (c in s || c in t) && c.id == id;
      assert c in s + t;
    }
  }

  /** The case of `IdsConcat` with one record appended. */
  lemma IdsSnoc(s: seq<Coin>, c: Coin)
    ensures Ids(s + [c]) == Ids(s) + {c.id}
  {
    IdsConcat(s, [c]);
    assert Ids([c]) == {c.id} by {
      assert c in [c];
    }
  }

  /** The first-match index is determined by the property that defines it:
      -1 when no record has the id, otherwise a position holding it with none
      before it. */
  lemma FindIndexIsFirst(s: seq<Coin>, id: int, k: int)
    requires -1 <= k < |s|
    requires k >= 0 ==> s[k].id == id
    requires forall j :: 0 <= j < |s| && (k == -1 || j < k) ==> s[j].id != id
    ensures FindIndex(s, id) == k
  {
  }

  /** `sub` is `s` with some elements dropped and the rest in their order. */
  predicate IsSubsequence<T(==)>(sub: seq<T>, s: seq<T>)
    decreases |s|
  {
    if sub == [] then true
    else if s == [] then false
    else if sub[0] == s[0] then IsSubsequence(sub[1..], s[1..])
    else IsSubsequence(sub, s[1..])
  }

  /** Every list is a subsequence of itself. */
  lemma {:induction false} SubsequenceRefl<T>(s: seq<T>)
    ensures IsSubsequence(s, s)
    decreases |s|
  {
    if s != [] {
      SubsequenceRefl(s[1..]);
    }
  }

  /** A subsequence of the tail is a subsequence of the whole list. */
  lemma {:induction false} SubsequenceSkip<T>(sub: seq<T>, s: seq<T>)
    requires s != [] && IsSubsequence(sub, s[1..])
    ensures IsSubsequence(sub, s)
    decreases |s|, 0
  {
    if sub != [] && sub[0] == s[0] {
      SubsequenceDropHead(sub, s[1..]);
    }
  }

  /** Dropping the first element of a subsequence leaves a subsequence. */
  lemma {:induction false} SubsequenceDropHead<T>(sub: seq<T>, t: seq<T>)
    requires sub != [] && IsSubsequence(sub, t)
    ensures IsSubsequence(sub[1..], t)
    decreases |t|, 1
  {
    if sub[0] == t[0] {
      SubsequenceSkip(sub[1..], t);
    } else {
      SubsequenceDropHead(sub, t[1..]);
      SubsequenceSkip(sub[1..], t);
    }
  }

  /** Members of a subsequence are members of the list. */
  lemma {:induction false} SubsequenceMembers<T>(sub: seq<T>, s: seq<T>)
    requires IsSubsequence(sub, s)
    ensures forall c :: c in sub ==> c in s
    decreases |s|
  {
    if sub != [] && s != [] {
      if sub[0] == s[0] {
        SubsequenceMembers(sub[1..], s[1..]);
        assert sub == [sub[0]] + sub[1..];
      } else {
        SubsequenceMembers(sub, s[1..]);
      }
    }
  }
}
