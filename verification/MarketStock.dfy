/** The wares that a player can sell: the search through depot chest and inbox, and taking what was
    found out of them. */
module MarketStock {
  import opened Wrappers
  import opened Items
  import opened ItemForest
  import opened ContainerIteration
  import opened ContainerSearch
  import opened ItemRemoval
  import opened Totals

  const COUNTER: int := 0x1_0000
  const MAX_AMOUNT := 64000

  /** Where to look for a ware: two containers side by side, and the ware of every item id. */
  datatype Place = Place(depot: Item, inbox: Item, wareOf: map<nat, nat>, ware: nat)

  /** `hasMarketAttributes`: no attribute but the charges and the duration that the item has anyway. */
  predicate MarketAttributes(i: Item)
    reads i
  {
    forall k :: k in i.attrs ==> (
      && i.attrs[k].Int?
      && ((k == CHARGES && i.attrs[k].n % COUNTER == i.kind.charges) ||
          (k == DURATION && i.attrs[k].n % WORD == i.kind.duration)))
  }

  predicate IsWare(i: Item, at: Place)
    reads i
  {
    i.kind.id in at.wareOf && at.wareOf[i.kind.id] == at.ware
  }

  /** What the search picks up. */
  predicate Sells(i: Item, at: Place)
    reads i
  {
    && i.itemlist == [] && IsWare(i, at) && MarketAttributes(i)
    && (i.isContainer ==> i.kind.box.Box? && i.maxSize == i.kind.box.maxSize)
  }

  ghost predicate Within(i: Item, at: Place)
    reads i
  {
    at.depot in i.anc || at.inbox in i.anc
  }

  ghost predicate Placed(at: Place, S: set<Item>)
    reads S
  {
    && Linked(S) && at.depot in S && at.inbox in S && at.depot != at.inbox
    && at.depot !in at.inbox.anc && at.inbox !in at.depot.anc
    && forall i :: i in S ==> i.count <= 255
  }

  /** The counts of all items of the ware, and of those that can be sold. */
  ghost function Stock(at: Place, S: set<Item>): map<Item, int>
    reads S
  {
    map i | i in S && Within(i, at) && IsWare(i, at) :: i.count
  }

  ghost function Sellable(at: Place, S: set<Item>): map<Item, int>
    reads S
  {
    map i | i in S && Within(i, at) && Sells(i, at) :: i.count
  }

  function Counts(list: seq<Item>): (s: seq<int>)
    reads list
    ensures |s| == |list|
  {
    seq(|list|, k requires 0 <= k < |list| reads list => list[k].count)
  }

  function CountAll(list: seq<Item>): int
    reads list
  {
    Sum(Counts(list))
  }

  // ----- sums over part of a map

  /** A list without repetition that is part of a map sums up to no more than the map. */
  lemma {:induction false} ListInMap(list: seq<Item>, m: map<Item, int>)
    requires NoDup(list) && forall k :: 0 <= k < |list| ==> list[k] in m && m[list[k]] == list[k].count
    requires forall k :: k in m ==> m[k] >= 0
    ensures CountAll(list) <= Total(m)
    ensures (forall i :: i in m ==> i in list) ==> CountAll(list) == Total(m)
  {
    if list == [] {
      TotalAtLeast(m);
      assert (forall i :: i in m ==> i in list) ==> m == map[];
    } else {
      TotalWithout(m, list[0]);
      forall k | 0 <= k < |list[1..]|
        ensures list[1..][k] in m - {list[0]}
      {
        assert list[k + 1] != list[0];
      }
      ListInMap(list[1..], m - {list[0]});
      assert Counts(list)[1..] == Counts(list[1..]);
      assert (forall i :: i in m ==> i in list) ==> forall i :: i in m - {list[0]} ==> i in list[1..];
    }
  }

  // ----- the search

  /** What was picked up so far is what can be sold of what was met, the last of it first. */
  ghost predicate Picked(at: Place, met: seq<Item>, itemList: seq<Item>, S: set<Item>)
    reads S
  {
    && NoDup(itemList)
    && (forall k :: 0 <= k < |itemList| ==> itemList[k] in S && itemList[k] in met && Within(itemList[k], at) && Sells(itemList[k], at))
    && (forall i :: i in met && i in S && Within(i, at) && Sells(i, at) ==> i in itemList)
  }

  lemma PlacedRoots(at: Place, S: set<Item>)
    requires Placed(at, S)
    ensures Roots([at.depot, at.inbox], S) && forall i :: i in S ==> i.count <= 255
    ensures forall i :: i in S ==> (FromRoot([at.depot, at.inbox], i) <==> Within(i, at))
  {
    assert at.depot.LinkedAt(S) && at.inbox.LinkedAt(S);
    forall i | i in S
      ensures FromRoot([at.depot, at.inbox], i) <==> Within(i, at)
    {
      assert at.depot in [at.depot, at.inbox] && at.inbox in [at.depot, at.inbox];
    }
  }

  lemma PickNothing(at: Place, S: set<Item>)
    requires Placed(at, S)
    ensures Picked(at, [at.depot, at.inbox], [], S)
  {
    assert at.depot.LinkedAt(S) && at.inbox.LinkedAt(S);
  }

  lemma Pick(at: Place, met: seq<Item>, itemList: seq<Item>, item: Item, S: set<Item>)
    requires Picked(at, met, itemList, S) && item in S && item !in met && Within(item, at)
    ensures Picked(at, met + [item], if Sells(item, at) then [item] + itemList else itemList, S)
    ensures item.itemlist != [] ==> !Sells(item, at)
  {
    var full := met + [item];
    forall k | 0 <= k < |itemList|
      ensures itemList[k] in full && itemList[k] != item
    {
      assert itemList[k] in met;
    }
  }

  lemma Enough(at: Place, met: seq<Item>, itemList: seq<Item>, S: set<Item>)
    requires Placed(at, S) && Picked(at, met, itemList, S)
    ensures CountAll(itemList) <= Total(Sellable(at, S))
    ensures NoDup(itemList)
    ensures forall k :: 0 <= k < |itemList| ==> itemList[k] in S && Within(itemList[k], at) && Sells(itemList[k], at)
  {
    ListInMap(itemList, Sellable(at, S));
  }

  lemma NotEnough(at: Place, met: seq<Item>, itemList: seq<Item>, S: set<Item>)
    requires Placed(at, S) && Searching([at.depot, at.inbox], met, [], [], S) && Picked(at, met, itemList, S)
    ensures CountAll(itemList) == Total(Sellable(at, S))
  {
    PlacedRoots(at, S);
    MetAll([at.depot, at.inbox], met, S);
    ListInMap(itemList, Sellable(at, S));
  }

  lemma CountMore(item: Item, itemList: seq<Item>)
    ensures CountAll([item] + itemList) == item.count + CountAll(itemList)
    ensures ([item] + itemList)[1..] == itemList
  {
    assert Counts([item] + itemList) == [item.count] + Counts(itemList);
    assert Counts([item] + itemList)[1..] == Counts(itemList);
  }

  lemma CountNone()
    ensures CountAll([]) == 0
  {
  }

  /** `getMarketItemList`: nothing if the ware in stock that can be sold does not suffice; otherwise
      items of that ware that do, of which none could be left out.  The 16-bit counter is exact. */
  method GetMarketItemList(at: Place, sufficientCount: nat, ghost S: set<Item>) returns (itemList: seq<Item>)
    requires Placed(at, S) && 0 < sufficientCount <= MAX_AMOUNT
    ensures itemList == [] <==> Total(Sellable(at, S)) < sufficientCount
    ensures NoDup(itemList)
    ensures forall k :: 0 <= k < |itemList| ==> itemList[k] in S && Within(itemList[k], at) && Sells(itemList[k], at)
    ensures itemList != [] ==> CountAll(itemList) >= sufficientCount > CountAll(itemList[1..])
  {
    hide Item.LinkedAt, Sells, Total, Searching, Picked, Placed, FromRoot, Within, CountAll, Counts, NoDup;
    itemList := [];
    CountNone();
    var count := 0;
    var containers := [at.depot, at.inbox];
    ghost var roots, met := containers, containers;
    PlacedRoots(at, S);
    StartSearch(roots, S);
    PickNothing(at, S);
    while containers != []
      invariant Searching(roots, met, [], containers, S) && Picked(at, met, itemList, S)
      invariant 0 <= count == CountAll(itemList) < sufficientCount
      invariant |met| <= |S|
      decreases |S| - |met|, |containers|
    {
      var items := containers[0].itemlist;
      PopContainer(roots, met, containers, S);
      containers := containers[1..];
      assert items[0..] == items;
      ghost var before, queued := |met|, |containers|;
      for k := 0 to |items|
        invariant Searching(roots, met, items[k..], containers, S) && Picked(at, met, itemList, S)
        invariant 0 <= count == CountAll(itemList) < sufficientCount
        invariant |met| == before + k <= |S| && (k == 0 ==> |containers| == queued)
      {
        var item := items[k];
        var rest := items[k..];
        assert rest[0] == item && rest[1..] == items[k + 1..];
        MeetNext(roots, met, rest, containers, S);
        Pick(at, met, itemList, item, S);
        met := met + [item];
        if item.itemlist != [] {
          containers := containers + [item];
        } else if Sells(item, at) {
          CountMore(item, itemList);
          itemList := [item] + itemList;
          count := (count + item.count) % COUNTER;
          if count >= sufficientCount {
            Enough(at, met, itemList, S);
            return;
          }
        }
      }
      assert items[|items|..] == [];
    }
    NotEnough(at, met, itemList, S);
    return [];
  }

  // ----- taking the wares

  /** Taking `n` of the units of one item takes `n` out of the stock. */
  method TakeFrom(at: Place, item: Item, n: nat, ghost S: set<Item>)
    requires Forest(S) && item in S && item.itemlist == [] && Within(item, at) && IsWare(item, at)
    requires n <= item.count <= 255 && (!item.kind.stackable ==> n == item.count)
    modifies S`parent, S`count, S`itemlist, S`anc, S`totalWeight
    ensures Forest(S) && Total(Stock(at, S)) == old(Total(Stock(at, S))) - n
    ensures forall i {:trigger i.parent} {:trigger i.count} {:trigger i.anc} :: i in S && i != item ==>
      i.parent == old(i.parent) && i.count == old(i.count) && i.anc == old(i.anc)
    ensures item.count <= old(item.count) && (item.anc == {} || item.anc == old(item.anc))
    ensures old(item.parent) != null && n > 0 ==>
      if n == old(item.count) then item.parent == null else item.parent == old(item.parent) && item.count == old(item.count) - n
    ensures forall i {:trigger i.itemlist} :: i in S && i != old(item.parent) ==> i.itemlist == old(i.itemlist)
  {
    assert item.LinkedAt(S);
    ghost var before, count := Stock(at, S), item.count;
    var ok := RemoveLeaf(item, n, S);
    assert Stock(at, S) - {item} == before - {item};
    TotalWithout(before, item);
    if item in Stock(at, S) {
      TotalWithout(Stock(at, S), item);
    } else {
      assert Stock(at, S) - {item} == Stock(at, S);
    }
  }

  /** An item that can be taken out of the stock. */
  ghost predicate InStock(i: Item, at: Place)
    reads i
  {
    i.itemlist == [] && Within(i, at) && IsWare(i, at) && i.count <= 255
  }

  /** The loops over the items that the search has found: exactly `amount` units leave the stock.  Items
      go one after the other, the last of them perhaps in part, and those behind it stay. */
  method TakeWares(at: Place, itemList: seq<Item>, stackable: bool, amount: nat, ghost S: set<Item>) returns (ghost n: nat)
    requires Forest(S) && Placed(at, S) && NoDup(itemList) && itemList != [] && amount > 0
    requires forall k :: 0 <= k < |itemList| ==> (
      && itemList[k] in S && Within(itemList[k], at) && Sells(itemList[k], at) && itemList[k].kind.stackable == stackable
      && (!stackable ==> itemList[k].count == 1))
    requires CountAll(itemList) >= amount > CountAll(itemList[1..])
    modifies S`parent, S`count, S`itemlist, S`anc, S`totalWeight
    ensures Forest(S) && Total(Stock(at, S)) == old(Total(Stock(at, S))) - amount
    ensures forall i :: i in S && i !in itemList ==> i.parent == old(i.parent) && i.count == old(i.count) && i.anc == old(i.anc)
    ensures n < |itemList|
    ensures forall k :: 0 <= k < n ==> itemList[k].parent == null || old(itemList[k].count) == 0
    ensures forall k :: n < k < |itemList| ==> itemList[k].parent == old(itemList[k].parent) && itemList[k].count == old(itemList[k].count)
    ensures itemList[n].parent == null || itemList[n].count < old(itemList[n].count) || old(itemList[n].count) == 0
  {
    hide Item.LinkedAt, Forest, Total, Stock, MarketAttributes, NoDup, Sum, Linked, Placed, Sells;
    SellsMeans(at, itemList);
    ghost var counts := Counts(itemList);
    var tmpAmount := amount;
    SumParts(counts, 0);
    forall k | 0 <= k < |itemList|
      ensures itemList[k].parent != null && itemList[k].count <= 255
    {
      WithinSomething(itemList[k], at, S);
    }
    if !stackable {
      CountsOfOne(itemList);
      CountsOfOne(itemList[1..]);
    }
    n := 0;
    for j := 0 to |itemList|
      invariant j > 0 ==> n == j - 1
      invariant Forest(S) && Total(Stock(at, S)) == old(Total(Stock(at, S))) - (amount - tmpAmount)
      invariant forall k {:trigger itemList[k]} :: j <= k < |itemList| ==>
        InStock(itemList[k], at) && itemList[k].count == counts[k] && itemList[k].parent == old(itemList[k].parent) != null
      invariant tmpAmount == amount - Sum(counts[..j]) && tmpAmount >= 0 && (stackable ==> tmpAmount > 0)
      invariant !stackable ==> tmpAmount == amount - j
      invariant forall k {:trigger itemList[k]} :: 0 <= k < j ==> itemList[k].parent == null || counts[k] == 0
      invariant forall i :: i in S && i !in itemList ==> i.parent == old(i.parent) && i.count == old(i.count) && i.anc == old(i.anc)
    {
      var item := itemList[j];
      var removeCount := if !stackable then item.count else if tmpAmount < item.count then tmpAmount else item.count;
      tmpAmount := tmpAmount - removeCount;
      n := j;
      SumParts(counts, j);
      OthersApart(itemList, j);
      ParentHolds(item, S);
      TakeFrom(at, item, removeCount, S);
      if stackable && tmpAmount == 0 {
        return;
      }
    }
  }

  lemma SellsMeans(at: Place, list: seq<Item>)
    requires forall k :: 0 <= k < |list| ==> Sells(list[k], at)
    ensures forall k :: 0 <= k < |list| ==> list[k].itemlist == [] && IsWare(list[k], at)
  {
  }

  lemma SumParts(s: seq<int>, j: nat)
    requires j <= |s|
    ensures s[..j] == [] ==> Sum(s[..j]) == 0
    ensures j < |s| ==> Sum(s[..j + 1]) == Sum(s[..j]) + s[j]
    ensures s[..|s|] == s
  {
    if j < |s| {
      SumConcat(s[..j], [s[j]]);
      assert s[..j + 1] == s[..j] + [s[j]];
    }
  }

  lemma OthersApart(list: seq<Item>, j: nat)
    requires NoDup(list) && j < |list|
    ensures forall k :: 0 <= k < |list| && k != j ==> list[k] != list[j]
  {
  }

  lemma WithinSomething(item: Item, at: Place, S: set<Item>)
    requires Forest(S) && item in S && Within(item, at) && Placed(at, S)
    ensures item.parent != null && item.count <= 255
  {
    assert item.LinkedAt(S);
  }

  lemma ParentHolds(item: Item, S: set<Item>)
    requires Forest(S) && item in S
    ensures item.parent != null ==> item in item.parent.itemlist
  {
    assert item.LinkedAt(S);
  }

  lemma {:induction false} CountsOfOne(list: seq<Item>)
    requires forall k :: 0 <= k < |list| ==> list[k].count == 1
    ensures CountAll(list) == |list|
  {
    if list != [] {
      CountsOfOne(list[1..]);
      assert Counts(list)[1..] == Counts(list[1..]);
    }
  }
}
