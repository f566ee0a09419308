/** The refresh merge: a freshly fetched coin list is folded into the list on
    screen by id. Old positions stay where they are, matched records are
    replaced by the fetched ones (keeping the old chart history when the fetched
    record has none), and coins not seen before are appended in fetch order. */
module SnapshotMerge {

  import opened Wrappers
  import opened CoinTypes

  // ---------------------------------------------------------------------------
  // Specification

  /** The record a JavaScript `Map` built from the fetched list holds for the
      id: with repeated ids the later record overwrites the earlier one. */
  function Latest(fetched: seq<Coin>, id: int): (r: Option<Coin>)
    ensures r.Some? ==> r.value in fetched && r.value.id == id
    decreases |fetched|
  {
    if fetched == [] then None
    else if fetched[|fetched| - 1].id == id then Some(fetched[|fetched| - 1])
    else Latest(fetched[..|fetched| - 1], id)
  }

  /** The fetched record, with the old chart history kept only when the fetched
      one is missing (an empty fetched history still wins). */
  function Refreshed(incoming: Coin, previous: Coin): Coin
  {
    incoming.(chartData := if incoming.chartData.Some? then incoming.chartData else previous.chartData)
  }

  /** The record at old position j after the merge. A fetched record is used at
      most once: the map entry is deleted when it is consumed, so a later old
      record with the same id stays as it was. */
  function MergedAt(current: seq<Coin>, fetched: seq<Coin>, j: nat): Coin
    requires j < |current|
  {
    var previous := current[j];
    if FindIndex(current, previous.id) < j then previous
    else match Latest(fetched, previous.id)
      case Some(incoming) => Refreshed(incoming, previous)
      case None => previous
  }

  /** The fetched ids without repetitions, in order of first appearance
      (the key order of the `Map`). */
  function FirstSeenIds(fetched: seq<Coin>): (r: seq<int>)
    ensures forall i, j :: 0 <= i < j < |r| ==> r[i] != r[j]
    ensures forall id :: id in r <==> id in Ids(fetched)
    decreases |fetched|
  {
    if fetched == [] then []
    else
      var init, last := fetched[..|fetched| - 1], fetched[|fetched| - 1];
      var prev := FirstSeenIds(init);
      IdsSnoc(init, last);
      assert fetched == init + [last];
      if last.id in Ids(init) then prev else prev + [last.id]
  }

  /** The map's remaining values: for each id of `ids` not already shown, the
      record the map holds for it. */
  function Unseen(ids: seq<int>, fetched: seq<Coin>, shown: set<int>): seq<Coin>
    decreases |ids|
  {
    if ids == [] then []
    else
      var prev := Unseen(ids[..|ids| - 1], fetched, shown);
      var id := ids[|ids| - 1];
      if id in shown then prev
      else match Latest(fetched, id)
        case Some(c) => prev + [c]
        case None => prev
  }

  /** The coins appended after the old positions. */
  function Appended(current: seq<Coin>, fetched: seq<Coin>): seq<Coin>
  {
    Unseen(FirstSeenIds(fetched), fetched, Ids(current))
  }

  /** The old positions after the merge. */
  function Kept(current: seq<Coin>, fetched: seq<Coin>): (r: seq<Coin>)
    ensures |r| == |current|
    ensures forall j :: 0 <= j < |current| ==> r[j] == MergedAt(current, fetched, j)
  {
    seq(|current|, j requires 0 <= j < |current| => MergedAt(current, fetched, j))
  }

  /** The merged list: every old position in place, then the new coins. */
  function Merge(current: seq<Coin>, fetched: seq<Coin>): seq<Coin>
  {
    Kept(current, fetched) + Appended(current, fetched)
  }

  // ---------------------------------------------------------------------------
  // The merge as the page runs it: build the map, walk the old list deleting
  // consumed entries, then append what is left in key order.

  /** `new Map(fetched.map(coin => [coin.id, coin]))`: the map and its key order. */
  method IndexById(fetched: seq<Coin>) returns (pending: map<int, Coin>, order: seq<int>)
    ensures pending.Keys == Ids(fetched)
    ensures forall id :: id in pending ==> Latest(fetched, id) == Some(pending[id])
    ensures order == FirstSeenIds(fetched)
  {
    pending, order := map[], [];
    for i := 0 to |fetched|
      invariant pending.Keys == Ids(fetched[..i])
      invariant forall id :: id in pending ==> Latest(fetched[..i], id) == Some(pending[id])
      invariant order == FirstSeenIds(fetched[..i])
    {
      var coin := fetched[i];
      IndexStep(fetched, i, pending, order);
      if coin.id !in pending {
        order := order + [coin.id];
      }
      pending := pending[coin.id := coin];
    }
    assert fetched[..|fetched|] == fetched;
  }

  /** One step of building the map: the state after adding record i. */
  lemma IndexStep(fetched: seq<Coin>, i: nat, pending: map<int, Coin>, order: seq<int>)
    requires i < |fetched|
    requires pending.Keys == Ids(fetched[..i])
    requires forall id :: id in pending ==> Latest(fetched[..i], id) == Some(pending[id])
    requires order == FirstSeenIds(fetched[..i])
    ensures var coin, next := fetched[i], pending[fetched[i].id := fetched[i]];
      && next.Keys == Ids(fetched[..i + 1])
      && (forall id :: id in next ==> Latest(fetched[..i + 1], id) == Some(next[id]))
      && (if coin.id in pending then order else order + [coin.id]) == FirstSeenIds(fetched[..i + 1])
  {
    var coin := fetched[i];
    SnocFacts(fetched[..i], coin);
    assert fetched[..i + 1] == fetched[..i] + [coin];
  }

  /** What one more fetched record does to the map and its key order. */
  lemma SnocFacts(s: seq<Coin>, c: Coin)
    ensures Ids(s + [c]) == Ids(s) + {c.id}
    ensures forall id :: Latest(s + [c], id) == if c.id == id then Some(c) else Latest(s, id)
    ensures FirstSeenIds(s + [c]) == FirstSeenIds(s) + (if c.id in Ids(s) then [] else [c.id])
  {
    IdsSnoc(s, c);
    assert (s + [c])[..|s|] == s;
  }

  /** `currentData.map(...)`: each old record is replaced by the map's record
      for its id, which is then deleted, or kept when the map has none. */
  method ReplaceInPlace(current: seq<Coin>, fetched: seq<Coin>, pending0: map<int, Coin>)
    returns (kept: seq<Coin>, pending: map<int, Coin>)
    requires pending0.Keys == Ids(fetched)
    requires forall id :: id in pending0 ==> Latest(fetched, id) == Some(pending0[id])
    ensures kept == Kept(current, fetched)
    ensures pending.Keys == Ids(fetched) - Ids(current)
    ensures forall id :: id in pending ==> Latest(fetched, id) == Some(pending[id])
  {
    kept, pending := [], pending0;
    ghost var want := Kept(current, fetched);
    assert |want| == |current|;
    for j := 0 to |current|
      invariant kept == want[..j]
      invariant pending.Keys == Ids(fetched) - Ids(current[..j])
      invariant forall id :: id in pending ==> Latest(fetched, id) == Some(pending[id])
    {
      var previous := current[j];
      ReplaceStep(current, fetched, j, pending);
      var next := previous;
      if previous.id in pending {
        next := Refreshed(pending[previous.id], previous);
        pending := pending - {previous.id};
      }
      assert next == want[j];
      assert want[..j + 1] == want[..j] + [want[j]];
      kept := kept + [next];
    }
    assert current[..|current|] == current;
    assert want[..|current|] == want;
  }

  /** One step of the walk: the record produced at old position j, and the
      map's keys after the step. */
  lemma ReplaceStep(current: seq<Coin>, fetched: seq<Coin>, j: nat, pending: map<int, Coin>)
    requires j < |current|
    requires pending.Keys == Ids(fetched) - Ids(current[..j])
    requires forall id :: id in pending ==> Latest(fetched, id) == Some(pending[id])
    ensures var previous := current[j];
      && (if previous.id in pending then Refreshed(pending[previous.id], previous) else previous) == MergedAt(current, fetched, j)
      && (pending - {previous.id}).Keys == Ids(fetched) - Ids(current[..j + 1])
      && (forall id :: id in pending - {previous.id} ==> Latest(fetched, id) == Some((pending - {previous.id})[id]))
  {
    var previous := current[j];
    assert current[..j + 1] == current[..j] + [previous];
    IdsSnoc(current[..j], previous);
    LatestFound(fetched, previous.id);
    MergedAtStep(current, fetched, j);
  }

  /** `.concat(Array.from(newDataMap.values()))`: what is left of the map, in key order. */
  method AppendLeftover(kept: seq<Coin>, current: seq<Coin>, fetched: seq<Coin>, pending: map<int, Coin>, order: seq<int>)
    returns (merged: seq<Coin>)
    requires pending.Keys == Ids(fetched) - Ids(current)
    requires forall id :: id in pending ==> Latest(fetched, id) == Some(pending[id])
    requires forall id :: id in order ==> id in Ids(fetched)
    ensures merged == kept + Unseen(order, fetched, Ids(current))
  {
    merged := kept;
    for k := 0 to |order|
      invariant merged == kept + Unseen(order[..k], fetched, Ids(current))
    {
      assert order[..k + 1][..k] == order[..k];
      assert order[k] in order;
      if order[k] in pending {
        merged := merged + [pending[order[k]]];
      }
    }
    assert order[..|order|] == order;
  }

  /** The refresh merge, run the way the page runs it. */
  method MergeRefresh(current: seq<Coin>, fetched: seq<Coin>) returns (merged: seq<Coin>)
    ensures merged == Merge(current, fetched)
  {
    var pending, order := IndexById(fetched);
    var kept;
    kept, pending := ReplaceInPlace(current, fetched, pending);
    merged := AppendLeftover(kept, current, fetched, pending, order);
  }

  // ---------------------------------------------------------------------------
  // Helper facts

  /** The map holds a record for exactly the fetched ids. */
  lemma {:induction false} LatestFound(fetched: seq<Coin>, id: int)
    ensures Latest(fetched, id).Some? <==> id in Ids(fetched)
    decreases |fetched|
  {
    if fetched != [] {
      var init, last := fetched[..|fetched| - 1], fetched[|fetched| - 1];
      LatestFound(init, id);
      assert fetched == init + [last];
      IdsSnoc(init, last);
    }
  }

  /** Old position j in terms of the map's state when the walk reaches it. */
  lemma MergedAtStep(current: seq<Coin>, fetched: seq<Coin>, j: nat)
    requires j < |current|
    ensures var previous := current[j];
      MergedAt(current, fetched, j) ==
        match Latest(fetched, previous.id)
          case Some(incoming) => if previous.id in Ids(current[..j]) then previous else Refreshed(incoming, previous)
          case None => previous
  {
    LatestFound(fetched, current[j].id);
    var k := FindIndex(current, current[j].id);
    if current[j].id in Ids(current[..j]) {
      var c :| c in current[..j] && c.id == current[j].id;
      var i :| 0 <= i < j && current[..j][i] == c;
      assert current[i].id == current[j].id;
    } else {
      forall i | 0 <= i < j ensures current[i].id != current[j].id {
        assert current[..j][i] in current[..j];
      }
    }
  }

  lemma FindIndexSnoc(s: seq<Coin>, c: Coin)
    ensures forall id :: id in Ids(s) ==> FindIndex(s + [c], id) == FindIndex(s, id)
    ensures c.id !in Ids(s) ==> FindIndex(s + [c], c.id) == |s|
  {
    forall id | id in Ids(s)
      ensures FindIndex(s + [c], id) == FindIndex(s, id)
    {
      var k := FindIndex(s, id);
      var d :| d in s && d.id == id;
      assert k != -1;
      FindIndexIsFirst(s + [c], id, k);
    }
    if c.id !in Ids(s) {
      forall j | 0 <= j < |s| ensures s[j].id != c.id { assert s[j] in s; }
      FindIndexIsFirst(s + [c], c.id, |s|);
    }
  }

  /** The map's key order is the order in which ids first appear in the fetch. */
  lemma {:induction false} FirstSeenIdsInFetchOrder(fetched: seq<Coin>)
    ensures InFetchOrder(FirstSeenIds(fetched), fetched)
    decreases |fetched|
  {
    if fetched != [] {
      var init, last := fetched[..|fetched| - 1], fetched[|fetched| - 1];
      FirstSeenIdsInFetchOrder(init);
      SnocFacts(init, last);
      assert fetched == init + [last];
      FindIndexSnoc(init, last);
      var r, prev := FirstSeenIds(fetched), FirstSeenIds(init);
      forall i, j | 0 <= i < j < |r|
        ensures FindIndex(fetched, r[i]) < FindIndex(fetched, r[j])
      {
        assert r[i] == prev[i] && r[i] in prev;
        if j < |prev| {
          assert r[j] == prev[j] && r[j] in prev;
        } else {
          assert r[j] == last.id && last.id !in Ids(init);
        }
      }
    }
  }

  /** Every id of a list with unique ids is at one position only, so a list
      with unique ids has as many ids as records. */
  lemma {:induction false} UniqueIdsCount(s: seq<Coin>)
    requires UniqueIds(s)
    ensures |Ids(s)| == |s|
    decreases |s|
  {
    if s != [] {
      var init, last := s[..|s| - 1], s[|s| - 1];
      assert s == init + [last];
      UniqueIdsCount(init);
      IdsSnoc(init, last);
      forall d | d in init ensures d.id != last.id {
        var j :| 0 <= j < |init| && init[j] == d;
      }
    }
  }

  /** What the appended part is made of: map values for ids not shown, each id
      at most once, in the order of `ids`. */
  lemma {:induction false} UnseenFacts(ids: seq<int>, fetched: seq<Coin>, shown: set<int>)
    requires forall i, j :: 0 <= i < j < |ids| ==> ids[i] != ids[j]
    requires forall id :: id in ids ==> id in Ids(fetched)
    ensures var u := Unseen(ids, fetched, shown);
      && (forall c :: c in u ==> c.id in ids && c.id !in shown && Latest(fetched, c.id) == Some(c))
      && Ids(u) == (set id | id in ids) - shown
      && UniqueIds(u)
    decreases |ids|
  {
    var u := Unseen(ids, fetched, shown);
    if ids != [] {
      var init, id := ids[..|ids| - 1], ids[|ids| - 1];
      assert ids == init + [id];
      UnseenFacts(init, fetched, shown);
      var prev := Unseen(init, fetched, shown);
      assert (set x | x in ids) == (set x | x in init) + {id};
      if id !in shown {
        assert id in Ids(fetched);
        LatestFound(fetched, id);
        var incoming := Latest(fetched, id).value;
        assert u == prev + [incoming];
        IdsSnoc(prev, incoming);
        forall d | d in prev ensures d.id != id {
          assert d.id in init;
        }
        ConsUniqueRight(prev, incoming);
      }
    }
  }

  /** The ids of `ids` listed in order of first appearance in the fetch. */
  predicate InFetchOrder(ids: seq<int>, fetched: seq<Coin>)
  {
    forall i, j :: 0 <= i < j < |ids| ==> FindIndex(fetched, ids[i]) < FindIndex(fetched, ids[j])
  }

  /** The records of `u` listed in order of first appearance in the fetch. */
  predicate CoinsInFetchOrder(u: seq<Coin>, fetched: seq<Coin>)
  {
    forall i, j :: 0 <= i < j < |u| ==> FindIndex(fetched, u[i].id) < FindIndex(fetched, u[j].id)
  }

  /** The appended part follows the order of `ids`. */
  lemma {:induction false} UnseenInOrder(ids: seq<int>, fetched: seq<Coin>, shown: set<int>)
    requires forall i, j :: 0 <= i < j < |ids| ==> ids[i] != ids[j]
    requires forall id :: id in ids ==> id in Ids(fetched)
    requires InFetchOrder(ids, fetched)
    ensures CoinsInFetchOrder(Unseen(ids, fetched, shown), fetched)
    decreases |ids|
  {
    if ids != [] {
      var init, id := ids[..|ids| - 1], ids[|ids| - 1];
      assert ids == init + [id];
      UnseenFacts(init, fetched, shown);
      UnseenInOrder(init, fetched, shown);
      var prev := Unseen(init, fetched, shown);
      if id !in shown {
        LatestFound(fetched, id);
        var incoming := Latest(fetched, id).value;
        forall d | d in prev
          ensures FindIndex(fetched, d.id) < FindIndex(fetched, incoming.id)
        {
          var a :| 0 <= a < |init| && init[a] == d.id;
          assert ids[a] == d.id;
        }
        InFetchOrderSnoc(prev, incoming, fetched);
      }
    }
  }

  lemma InFetchOrderSnoc(prev: seq<Coin>, incoming: Coin, fetched: seq<Coin>)
    requires CoinsInFetchOrder(prev, fetched)
    requires forall d :: d in prev ==> FindIndex(fetched, d.id) < FindIndex(fetched, incoming.id)
    ensures CoinsInFetchOrder(prev + [incoming], fetched)
  {
    var u := prev + [incoming];
    forall i, j | 0 <= i < j < |u|
      ensures FindIndex(fetched, u[i].id) < FindIndex(fetched, u[j].id)
    {
      assert u[i] == prev[i] && u[i] in prev;
      if j < |prev| {
        assert u[j] == prev[j];
      }
    }
  }

  lemma ConsUniqueRight(s: seq<Coin>, c: Coin)
    requires UniqueIds(s)
    requires forall d :: d in s ==> d.id != c.id
    ensures UniqueIds(s + [c])
  {
    var r := s + [c];
    forall i, j | 0 <= i < j < |r|
      ensures r[i].id != r[j].id
    {
      assert r[i] == s[i];
      if j == |s| {
        assert s[i] in s;
      } else {
        assert r[j] == s[j];
      }
    }
  }

  // ---------------------------------------------------------------------------
  // Properties of the merge

  /** On a list with unique ids, every old coin stays at its index: it becomes
      the fetched record (with the chart fallback) when its id was fetched, and
      is kept unchanged otherwise. */
  lemma MergeUpdatesInPlace(current: seq<Coin>, fetched: seq<Coin>)
    requires UniqueIds(current)
    ensures var m := Merge(current, fetched);
      && |m| >= |current|
      && forall j :: 0 <= j < |current| ==>
           m[j] == match Latest(fetched, current[j].id)
             case Some(incoming) => Refreshed(incoming, current[j])
             case None => current[j]
  {
    var m := Merge(current, fetched);
    forall j | 0 <= j < |current|
      ensures current[j].id !in Ids(current[..j])
    {
      forall d | d in current[..j] ensures d.id != current[j].id {
        var i :| 0 <= i < j && current[..j][i] == d;
      }
    }
  }

  /** The fetched record's history wins whenever it is present, even if it is
      empty; otherwise the old history is kept, so a coin that had a history
      never loses it to a refresh. */
  lemma MergeKeepsChartHistory(current: seq<Coin>, fetched: seq<Coin>, j: nat)
    requires j < |current|
    ensures var m := Merge(current, fetched);
      && (current[j].chartData.Some? ==> m[j].chartData.Some?)
      && (current[j].id !in Ids(current[..j]) && Latest(fetched, current[j].id).Some? ==>
            m[j].chartData == (if Latest(fetched, current[j].id).value.chartData.Some?
                               then Latest(fetched, current[j].id).value.chartData
                               else current[j].chartData))
  {
  }

  /** The appended coins are exactly the fetched ids the old list lacked, each
      once, each as the map holds it, in order of first appearance in the fetch;
      so the merged list is as long as the old list plus that count. */
  lemma {:induction false} MergeAppendsUnseen(current: seq<Coin>, fetched: seq<Coin>)
    ensures var m, a := Merge(current, fetched), Appended(current, fetched);
      && m[|current|..] == a
      && Ids(a) == Ids(fetched) - Ids(current)
      && UniqueIds(a)
      && |m| == |current| + |Ids(fetched) - Ids(current)|
      && (forall c :: c in a ==> Latest(fetched, c.id) == Some(c))
      && (forall i, j :: 0 <= i < j < |a| ==> FindIndex(fetched, a[i].id) < FindIndex(fetched, a[j].id))
  {
    var m, a := Merge(current, fetched), Appended(current, fetched);
    var ids := FirstSeenIds(fetched);
    FirstSeenIdsInFetchOrder(fetched);
    UnseenFacts(ids, fetched, Ids(current));
    UnseenInOrder(ids, fetched, Ids(current));
    assert (set id | id in ids) == Ids(fetched);
    assert Ids(a) == Ids(fetched) - Ids(current);
    UniqueIdsCount(a);
    assert |a| == |Ids(fetched) - Ids(current)|;
    var kept := Kept(current, fetched);
    assert m == kept + a;
    assert m[|current|..] == a;
  }

  /** Old positions keep their ids. */
  lemma MergedAtKeepsId(current: seq<Coin>, fetched: seq<Coin>)
    ensures forall j :: 0 <= j < |current| ==> Merge(current, fetched)[j].id == current[j].id
  {
  }

  /** The merged ids are the union of the old and the fetched ids. */
  lemma {:induction false} MergeIdsUnion(current: seq<Coin>, fetched: seq<Coin>)
    ensures Ids(Merge(current, fetched)) == Ids(current) + Ids(fetched)
  {
    var kept, a := Kept(current, fetched), Appended(current, fetched);
    MergeAppendsUnseen(current, fetched);
    MergedAtKeepsId(current, fetched);
    IdsConcat(kept, a);
    IdsPointwise(kept, current);
  }

  /** Two lists whose positions carry the same ids have the same ids. */
  lemma IdsPointwise(s: seq<Coin>, t: seq<Coin>)
    requires |s| == |t|
    requires forall i :: 0 <= i < |s| ==> s[i].id == t[i].id
    ensures Ids(s) == Ids(t)
  {
    forall id | id in Ids(s)
      ensures id in Ids(t)
    {
      var c :| c in s && c.id == id;
      var i :| 0 <= i < |s| && s[i] == c;
      assert t[i] in t;
    }
    forall id | id in Ids(t)
      ensures id in Ids(s)
    {
      var c :| c in t && c.id == id;
      var i :| 0 <= i < |t| && t[i] == c;
      assert s[i] in s;
    }
  }

  /** The merge never duplicates a coin: unique ids in the old list stay unique. */
  lemma {:induction false} MergeKeepsIdsUnique(current: seq<Coin>, fetched: seq<Coin>)
    requires UniqueIds(current)
    ensures UniqueIds(Merge(current, fetched))
  {
    var m, a := Merge(current, fetched), Appended(current, fetched);
    var n := |current|;
    MergeAppendsUnseen(current, fetched);
    MergedAtKeepsId(current, fetched);
    forall i, j | 0 <= i < j < |m|
      ensures m[i].id != m[j].id
    {
      if j < n {
        assert m[i].id == current[i].id && m[j].id == current[j].id;
      } else if i < n {
        assert m[j] == a[j - n];
        assert m[j] in a;
        assert m[j].id in Ids(a);
        assert current[i] in current;
      } else {
        assert m[i] == a[i - n] && m[j] == a[j - n];
      }
    }
  }

  /** An empty fetch changes nothing. */
  lemma {:induction false} MergeWithNothingFetched(current: seq<Coin>)
    ensures Merge(current, []) == current
  {
    var m := Merge(current, []);
    assert Appended(current, []) == [];
    forall j | 0 <= j < |current| ensures m[j] == current[j] {
    }
  }
}
