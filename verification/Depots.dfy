/** Who may put what where: `queryAdd` of containers and of depot chests, and the limit on the
    number of things in a depot. */
module Depots {
  import opened Wrappers
  import opened Items
  import opened ItemForest
  import opened ContainerIteration

  const INDEX_WHEREEVER: int := -1

  datatype Flags = Flags(noLimit: bool, childIsOwner: bool)

  datatype ReturnValue =
    | NoError | NotPossible | CannotPickup | ThisIsImpossible | ContainerNotEnoughRoom | DepotIsFull

  /** What `getTopParent` answers.  `rooted` says whether outermost items stand on a tile: then it is the
      outermost container, and otherwise the one below that, as the walk stops where a parent has none.
      A container is its own top parent if it is that one. */
  ghost predicate TopIs(i: Item, rooted: bool, d: Item)
    reads i, d, i.parent, d.parent
  {
    if d == i then i.isContainer && (i.parent == null || (!rooted && i.parent.parent == null))
    else d in i.anc && if rooted then d.parent == null
         else (d.parent != null && d.parent.parent == null) || (d == i.parent && d.parent == null && !i.isContainer)
  }

  /** `getTopParent`; null stands for a tile, too. */
  method GetTopParent(i: Item, rooted: bool, ghost S: set<Item>) returns (top: Item?)
    requires Linked(S) && i in S
    ensures top != null ==> top in S && TopIs(i, rooted, top)
    ensures forall d :: d in S && TopIs(i, rooted, d) ==> d == top
  {
    assert i.LinkedAt(S);
    var parent := i.parent;
    var receiver: Item? := if i.isContainer then i else null;
    if parent == null && !rooted {
      return receiver;
    }
    ghost var below := i;
    while parent != null && (parent.parent != null || rooted)
      invariant below in S && (below == i || below in i.anc) && below.anc <= i.anc && below.parent == parent
      invariant parent == null ==> rooted
      invariant receiver == if below == i && !i.isContainer then null else below
      decreases below.anc
    {
      assert below.LinkedAt(S) && parent.LinkedAt(S);
      receiver, below := parent, parent;
      parent := parent.parent;
    }
    assert below.LinkedAt(S);
    top := if receiver != null then receiver else parent;
    forall d | d in S && TopIs(i, rooted, d)
      ensures d == top
    {
      if top != null {
        OneTopParent(i, rooted, d, top, S);
      }
    }
  }

  lemma {:induction false} OneTopParent(i: Item, rooted: bool, a: Item, b: Item, S: set<Item>)
    requires Linked(S) && i in S && a in S && b in S && TopIs(i, rooted, a) && TopIs(i, rooted, b)
    ensures a == b
    decreases i.anc
  {
    assert i.LinkedAt(S) && a.LinkedAt(S) && b.LinkedAt(S);
    if i.parent != null {
      assert i.parent.LinkedAt(S);
      if rooted || i.parent.parent != null {
        OneTopParent(i.parent, rooted, a, b, S);
      }
    }
  }

  lemma {:induction false} OneTop(i: Item, a: Item, b: Item, S: set<Item>)
    requires Linked(S) && i in S
    requires a in S && a.parent == null && (a == i || a in i.anc)
    requires b in S && b.parent == null && (b == i || b in i.anc)
    ensures a == b
    decreases i.anc
  {
    assert i.LinkedAt(S);
    if i.parent != null {
      assert i.parent.LinkedAt(S);
      OneTop(i.parent, a, b, S);
    }
  }

  /** How much room an item needs in the depot chest `d`: none if it only moves within it, as far as
      `getTopParent` can tell, but for a stack that is split. */
  ghost function Needs(d: Item, rooted: bool, item: Item, count: nat, S: set<Item>): nat
    reads S, item, item.parent, d, d.parent
  {
    if !TopIs(item, rooted, d) then |Inside(item, S)| + 1
    else if item.kind.stackable && item.count != count then 1 else 0
  }

  /** The limit of a depot chest lets the item in. */
  ghost predicate WithinLimit(d: Item, rooted: bool, item: Item, count: nat, flags: Flags, S: set<Item>)
    reads S, item, item.parent, d, d.parent
  {
    d.box.Box? && d.box.depotLimit.Some? && !flags.noLimit ==>
      |Inside(d, S)| + Needs(d, rooted, item, count, S) <= d.box.depotLimit.value
  }

  /** The conditions a container looks at itself. */
  ghost predicate ContainerAllows(t: Item, rooted: bool, index: int, item: Item, flags: Flags)
    reads t, item
  {
    flags.childIsOwner ||
    (&& t.box.Box? && t.box.unlocked && item.kind.pickupable && item != t && item !in t.anc
     && (!flags.noLimit && (t.parent != null || rooted) && index == INDEX_WHEREEVER ==> |t.itemlist| < t.maxSize))
  }

  /** The limit of `DepotChest::queryAdd`; other things have none. */
  method DepotLimit(d: Item, rooted: bool, item: Item, count: nat, flags: Flags, ghost S: set<Item>) returns (ok: bool)
    requires Linked(S) && d in S && item in S
    ensures ok <==> WithinLimit(d, rooted, item, count, flags, S)
  {
    if d.box.NoBox? || d.box.depotLimit.None? || flags.noLimit {
      return true;
    }
    var addCount := 0;
    if item.kind.stackable && item.count != count {
      addCount := 1;
    }
    var top := GetTopParent(item, rooted, S);
    if top != d {
      if item.isContainer {
        addCount := GetItemHoldingCount(item, S);
        addCount := addCount + 1;
      } else {
        NothingInside(item, S);
        addCount := 1;
      }
    }
    var holding := GetItemHoldingCount(d, S);
    return holding + addCount <= d.box.depotLimit.value;
  }

  lemma NothingInside(item: Item, S: set<Item>)
    requires Linked(S) && item in S && !item.isContainer
    ensures Inside(item, S) == {}
  {
    assert item.LinkedAt(S);
    forall i | i in S && item in i.anc
      ensures false
    {
      var c := ChildOnPath(item, i, S);
    }
  }

  lemma {:induction false} ChildOnPath(a: Item, i: Item, S: set<Item>) returns (c: Item)
    requires Linked(S) && a in S && i in S && a in i.anc
    ensures c in a.itemlist
    decreases i.anc
  {
    assert i.LinkedAt(S);
    if i.parent == a {
      c := i;
    } else {
      assert i.parent.LinkedAt(S);
      c := ChildOnPath(a, i.parent, S);
    }
  }

  /** Container `t` lets the thing in, and so does its top parent. */
  ghost predicate Admits(t: Item, rooted: bool, index: int, item: Item, count: nat, flags: Flags, S: set<Item>)
    reads S, t, t.parent, item, item.parent, set d | d in S :: d.parent
  {
    && ContainerAllows(t, rooted, index, item, flags)
    && forall d :: d in S && (d == t || TopIs(t, rooted, d)) ==> WithinLimit(d, rooted, item, count, flags, S)
  }

  /** `queryAdd` of a container or depot chest `t`, asking its top parent in turn. */
  method QueryAdd(t: Item, rooted: bool, index: int, item: Item, count: nat, flags: Flags, ghost S: set<Item>)
    returns (r: ReturnValue)
    requires Linked(S) && t in S && item in S && !flags.childIsOwner
    requires item.parent == null
    ensures r.NoError? <==> Admits(t, rooted, index, item, count, flags, S)
  {
    var ok := DepotLimit(t, rooted, item, count, flags, S);
    if !ok {
      return DepotIsFull;
    }
    if !t.isContainer || !t.box.unlocked {
      return NotPossible;
    }
    if !item.kind.pickupable {
      return CannotPickup;
    }
    if item == t {
      return ThisIsImpossible;
    }
    assert t.LinkedAt(S);
    if t.parent != null || rooted {
      var inside := t.IsInside(item, S);
      if inside {
        return ThisIsImpossible;
      }
      if !flags.noLimit && index == INDEX_WHEREEVER && |t.itemlist| >= t.maxSize {
        return ContainerNotEnoughRoom;
      }
    }
    var top := GetTopParent(t, rooted, S);
    if top != null && top != t {
      ok := DepotLimit(top, rooted, item, count, flags, S);
      if !ok {
        return DepotIsFull;
      }
    }
    return NoError;
  }

  /** A thing added to `t` is added, with all its contents, to everything around `t`. */
  lemma InsideGrows(before: set<Item>, added: set<Item>, item: Item, after: set<Item>)
    requires after == before + added + {item}
    requires before !! added && item !in before && item !in added
    ensures |after| == |before| + |added| + 1
  {
  }

  /** Around `t` there is no depot chest but this one. */
  ghost predicate OnlyDepot(depot: Item, t: Item, S: set<Item>)
    reads t
  {
    forall d :: d in S && (d == t || d in t.anc) && d != depot ==> d.box.NoBox? || d.box.depotLimit.None?
  }

  /** A depot chest is asked only if it stands somewhere or is itself the target. */
  lemma DepotAsked(depot: Item, t: Item, rooted: bool, S: set<Item>)
    requires Linked(S) && depot in S && t in S && t.isContainer && depot.parent == null && (t == depot || depot in t.anc)
    ensures t == depot || TopIs(t, rooted, depot) <==> rooted || t == depot
  {
    assert t.LinkedAt(S) && depot.LinkedAt(S);
  }

  /** A depot that is asked lets a thing in exactly if it is not over its limit afterwards; one that is
      not asked lets in whatever the container around it does. */
  method AddToDepot(depot: Item, t: Item, rooted: bool, index: int, item: Item, ghost S: set<Item>)
    returns (r: ReturnValue)
    requires Forest(S) && depot in S && t in S && item in S && t.isContainer
    requires depot.parent == null && depot.box.Box? && depot.box.depotLimit.Some?
    requires t == depot || depot in t.anc
    requires item.parent == null && item != depot
    modifies item`parent, t`itemlist, S`anc, S`totalWeight
    ensures Forest(S)
    ensures r.NoError? && (rooted || t == depot) ==>
      old(|Inside(depot, S)| + |Inside(item, S)|) + 1 <= depot.box.depotLimit.value
    ensures old(OnlyDepot(depot, t, S)) ==> (r.NoError? <==>
      && old(ContainerAllows(t, rooted, index, item, Flags(false, false)))
      && (rooted || t == depot ==> old(|Inside(depot, S)| + |Inside(item, S)|) + 1 <= depot.box.depotLimit.value))
    ensures r.NoError? && index < t.maxSize ==> t.itemlist == [item] + old(t.itemlist)
    ensures r.NoError? && index < t.maxSize ==>
      |Inside(depot, S)| == old(|Inside(depot, S)|) + old(|Inside(item, S)|) + 1
    ensures !r.NoError? || index >= t.maxSize ==> t.itemlist == old(t.itemlist)
  {
    hide ContainerAllows, Admits, Linked, Item.LinkedAt, CachedAll, Item.Cached;
    Placed(depot, t, item, S);
    DepotAnswer(depot, t, rooted, index, item, S);
    r := QueryAdd(t, rooted, index, item, item.count, Flags(false, false), S);
    if r.NoError? {
      ghost var before, added := Inside(depot, S), Inside(item, S);
      assert before !! added by {
        OneRoot(depot, item, S);
      }
      t.AddThing(index, item, S);
      if index < t.maxSize {
        assert Inside(depot, S) == before + added + {item};
        InsideGrows(before, added, item, Inside(depot, S));
      }
    }
  }

  lemma Placed(depot: Item, t: Item, item: Item, S: set<Item>)
    requires Linked(S) && depot in S && t in S && item in S && depot.parent == null && item.parent == null
    requires t == depot || depot in t.anc
    ensures item.anc == depot.anc == {} && (item in t.anc ==> item == depot) && (t == item ==> t == depot)
  {
    assert item.LinkedAt(S) && t.LinkedAt(S) && depot.LinkedAt(S);
    if item in t.anc {
      OneTop(t, item, depot, S);
    }
  }

  lemma DepotAnswer(depot: Item, t: Item, rooted: bool, index: int, item: Item, S: set<Item>)
    requires Linked(S) && depot in S && t in S && item in S && t.isContainer
    requires depot.parent == null && depot.box.Box? && depot.box.depotLimit.Some?
    requires t == depot || depot in t.anc
    requires item.parent == null && item != depot
    ensures var fits := |Inside(depot, S)| + |Inside(item, S)| + 1 <= depot.box.depotLimit.value;
      var allows := ContainerAllows(t, rooted, index, item, Flags(false, false));
      var admits := Admits(t, rooted, index, item, item.count, Flags(false, false), S);
      && (admits && (rooted || t == depot) ==> fits)
      && (OnlyDepot(depot, t, S) ==> (admits <==> allows && (rooted || t == depot ==> fits)))
  {
    assert item.LinkedAt(S) && t.LinkedAt(S);
    DepotAsked(depot, t, rooted, S);
    assert Needs(depot, rooted, item, item.count, S) == |Inside(item, S)| + 1;
    hide Inside, Linked, ContainerAllows;
    var fits := |Inside(depot, S)| + |Inside(item, S)| + 1 <= depot.box.depotLimit.value;
    assert WithinLimit(depot, rooted, item, item.count, Flags(false, false), S) <==> fits;
    if OnlyDepot(depot, t, S) {
      forall d | d in S && d != depot && (d == t || TopIs(t, rooted, d))
        ensures WithinLimit(d, rooted, item, item.count, Flags(false, false), S)
      {
        assert d == t || d in t.anc;
      }
    }
  }

  /** A full depot that stands nowhere, with a bag in it: one more thing goes into the bag. */
  method PastTheLimit(chest: ItemType, bag: ItemType, coin: ItemType)
    returns (depot: Item, full: Item, item: Item, ghost S: set<Item>, r: ReturnValue)
    requires chest.box == Box(30, true, Some(1)) && bag.box == Box(20, true, None) && coin.box.NoBox? && coin.pickupable
    ensures r.NoError? && Forest(S) && depot in S && full in S && item in S
    ensures depot.box == chest.box && |Inside(depot, S)| == 2
  {
    hide Linked, Item.LinkedAt, CachedAll, Item.Cached, Forest, Inside;
    depot, full, item, S := BagInDepot(chest, bag, coin);
    r := AddToDepot(depot, full, false, 0, item, S);
  }

  method BagInDepot(chest: ItemType, bag: ItemType, coin: ItemType)
    returns (depot: Item, full: Item, item: Item, ghost S: set<Item>)
    requires chest.box == Box(30, true, Some(1)) && bag.box == Box(20, true, None) && coin.box.NoBox? && coin.pickupable
    ensures fresh(S) && S == {depot, full, item} && Forest(S) && depot.box == chest.box && full.box == bag.box && item.kind == coin
    ensures depot.parent == item.parent == null && item != depot && full.anc == {depot} && full.itemlist == []
    ensures |Inside(depot, S)| == 1 && Inside(item, S) == {}
    ensures OnlyDepot(depot, full, S) && ContainerAllows(full, false, 0, item, Flags(false, false))
  {
    hide Linked, CachedAll, Forest;
    depot := new Item(ItemValue(chest, 1, map[]));
    full := new Item(ItemValue(bag, 1, map[]));
    item := new Item(ItemValue(coin, 1, map[]));
    S := {depot, full, item};
    LooseForest(S);
    depot.AddThing(0, full, S);
    assert Inside(depot, S) == {full} && Inside(item, S) == {};
  }

  lemma LooseForest(S: set<Item>)
    requires forall i :: i in S ==> i.parent == null && i.itemlist == [] && i.anc == {} && i.totalWeight == 0
    ensures Forest(S)
  {
    assert SumWeights([]) == 0;
    forall i | i in S
      ensures i.LinkedAt(S) && i.Cached(S)
    {
    }
  }

  lemma OneRoot(a: Item, b: Item, S: set<Item>)
    requires Linked(S) && a in S && b in S && a != b && a.parent == null && b.parent == null
    ensures Inside(a, S) !! Inside(b, S)
  {
    forall i | i in Inside(a, S) && i in Inside(b, S)
      ensures false
    {
      OneTop(i, a, b, S);
    }
  }
}
