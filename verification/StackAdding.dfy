/** Adding an item to a container: find a stack to merge with, check the room, merge, and add the
    remainder in the same way. */
module StackAdding {
  import opened Wrappers
  import opened Items
  import opened ItemForest
  import opened ContainerIteration
  import opened Depots

  const ITEM_STACK_SIZE := 100

  /** `Item::equals`; an id names one row of the item table. */
  predicate Equal(a: Item, b: Item)
    reads a, b
  {
    a.kind == b.kind && a.attrs == b.attrs
  }

  /** What an item adds to the units of one ware. */
  function UnitsIn(c: Item, kind: ItemType, attrs: Attributes): int
    reads c
  {
    if c.kind == kind && c.attrs == attrs then c.count else 0
  }

  /** What a stack can still take of one ware. */
  function RoomIn(c: Item, kind: ItemType, attrs: Attributes): int
    reads c
  {
    if c.kind == kind && c.attrs == attrs && c.count < ITEM_STACK_SIZE then ITEM_STACK_SIZE - c.count else 0
  }

  function UnitsEach(list: seq<Item>, kind: ItemType, attrs: Attributes): (s: seq<int>)
    reads list
    ensures |s| == |list|
  {
    seq(|list|, k requires 0 <= k < |list| reads list => UnitsIn(list[k], kind, attrs))
  }

  function RoomEach(list: seq<Item>, kind: ItemType, attrs: Attributes): (s: seq<int>)
    reads list
    ensures |s| == |list|
  {
    seq(|list|, k requires 0 <= k < |list| reads list => RoomIn(list[k], kind, attrs))
  }

  /** Units of a ware in a content list. */
  function Units(list: seq<Item>, kind: ItemType, attrs: Attributes): int
    reads list
  {
    Sum(UnitsEach(list, kind, attrs))
  }

  /** Units of a ware that the stacks in a content list can still take. */
  function Room(list: seq<Item>, kind: ItemType, attrs: Attributes): int
    reads list
  {
    Sum(RoomEach(list, kind, attrs))
  }

  lemma {:induction false} SumBounds(s: seq<int>, k: nat)
    requires k < |s| && forall j :: 0 <= j < |s| ==> s[j] >= 0
    ensures Sum(s) >= s[k]
  {
    if k > 0 {
      SumBounds(s[1..], k - 1);
    } else if |s| > 1 {
      SumBounds(s[1..], 0);
    }
  }

  lemma {:induction false} SumZero(s: seq<int>)
    requires forall j :: 0 <= j < |s| ==> s[j] == 0
    ensures Sum(s) == 0
  {
    if s != [] {
      SumZero(s[1..]);
    }
  }

  /** A stack that can take some of the ware makes room, and only such a stack does. */
  lemma RoomSomewhere(list: seq<Item>, kind: ItemType, attrs: Attributes)
    ensures Room(list, kind, attrs) >= 0
    ensures Room(list, kind, attrs) > 0 <==> exists k :: 0 <= k < |list| && RoomIn(list[k], kind, attrs) > 0
  {
    var s := RoomEach(list, kind, attrs);
    if k :| 0 <= k < |list| && RoomIn(list[k], kind, attrs) > 0 {
      SumBounds(s, k);
      assert s[k] > 0;
    } else {
      forall j | 0 <= j < |s|
        ensures s[j] == 0
      {
        assert RoomIn(list[j], kind, attrs) == 0;
      }
      SumZero(s);
    }
  }

  /** Free slots of a container. */
  function FreeSlots(to: Item): nat
    reads to
  {
    if |to.itemlist| < to.maxSize then to.maxSize - |to.itemlist| else 0
  }

  /** Nothing in the item's data makes it decay, and it is a stack only if it is nothing else. */
  predicate Plain(item: Item)
    reads item
  {
    && item.kind.duration == 0 && DURATION !in item.attrs && DECAYSTATE !in item.attrs
    && (item.kind.stackable ==>
          !item.isContainer && item.kind.box.NoBox? && !item.kind.fluid && 1 <= item.count <= ITEM_STACK_SIZE)
  }

  predicate Stacked(list: seq<Item>)
    reads list
  {
    forall c :: c in list && c.kind.stackable ==> c.count <= ITEM_STACK_SIZE
  }

  // ----- the three questions

  /** The index that `queryDestination` settles on if no stack draws the item elsewhere. */
  function Asked(to: Item, index: int): int {
    if index == 255 || index >= to.maxSize then INDEX_WHEREEVER else index
  }

  /** The index means this container, not the one around it or one of those in it. */
  predicate NoReceiver(to: Item, index: int)
    reads to, to.itemlist
  {
    index != 254 && (0 <= index < |to.itemlist| && index < to.maxSize ==> !to.itemlist[index].isContainer)
  }

  /** `queryDestination` of a container, for an item that is in no container. */
  method QueryDestination(to: Item, index: int, item: Item, ghost S: set<Item>) returns (at: int, toItem: Item?)
    requires Linked(S) && to in S && item in S && item.parent == null && NoReceiver(to, index)
    ensures toItem != null ==> toItem in to.itemlist
    ensures to.box.Box? && to.box.unlocked ==>
      if item.kind.stackable && Room(to.itemlist, item.kind, item.attrs) > 0
      then
        && 0 <= at < |to.itemlist| && toItem == to.itemlist[at] && Equal(toItem, item) && toItem.count < ITEM_STACK_SIZE
        && (at == index || forall k :: 0 <= k < at ==> RoomIn(to.itemlist[k], item.kind, item.attrs) == 0)
        && (0 <= index < |to.itemlist| && index < to.maxSize && index != 255 && RoomIn(to.itemlist[index], item.kind, item.attrs) > 0 ==> at == index)
      else at == Asked(to, index)
  {
    at, toItem := index, null;
    if to.box.NoBox? || !to.box.unlocked {
      return;
    }
    assert to.LinkedAt(S);
    if index == 255 || index >= to.maxSize {
      at := INDEX_WHEREEVER;
    }
    if at != INDEX_WHEREEVER && 0 <= at < |to.itemlist| {
      toItem := to.itemlist[at];
    }
    if item.kind.stackable {
      RoomSomewhere(to.itemlist, item.kind, item.attrs);
      if toItem != null && Equal(toItem, item) && toItem.count < ITEM_STACK_SIZE {
        assert RoomIn(to.itemlist[at], item.kind, item.attrs) > 0;
        return;
      }
      for n := 0 to |to.itemlist|
        invariant forall k :: 0 <= k < n ==> RoomIn(to.itemlist[k], item.kind, item.attrs) == 0
      {
        var listItem := to.itemlist[n];
        if listItem != item && Equal(listItem, item) && listItem.count < ITEM_STACK_SIZE {
          assert RoomIn(to.itemlist[n], item.kind, item.attrs) > 0;
          return n, listItem;
        }
      }
    }
  }

  /** `queryMaxCount` with the index for anywhere. */
  method QueryMaxCount(to: Item, rooted: bool, item: Item, count: nat, flags: Flags, ghost S: set<Item>)
    returns (ok: bool, maxQueryCount: nat)
    requires Linked(S) && to in S && item in S && item.parent == null && !flags.childIsOwner
    ensures flags.noLimit ==> ok && maxQueryCount == if count < 1 then 1 else count
    ensures var slots := if |to.itemlist| < to.maxSize then to.maxSize - |to.itemlist| else 0;
      !flags.noLimit && !item.kind.stackable ==> maxQueryCount == slots && (ok <==> slots > 0)
    ensures var slots := if |to.itemlist| < to.maxSize then to.maxSize - |to.itemlist| else 0;
      !flags.noLimit && item.kind.stackable ==>
      && maxQueryCount == slots * ITEM_STACK_SIZE +
           (if Admits(to, rooted, 0, item, count, flags, S) then Room(to.itemlist, item.kind, item.attrs) else 0)
      && (ok <==> count <= maxQueryCount)
  {
    if flags.noLimit {
      return true, if count < 1 then 1 else count;
    }
    var freeSlots := FreeSlots(to);
    if !item.kind.stackable {
      return freeSlots > 0, freeSlots;
    }
    assert to.LinkedAt(S);
    var n, slotIndex := 0, 0;
    ghost var room := RoomEach(to.itemlist, item.kind, item.attrs);
    for k := 0 to |to.itemlist|
      invariant slotIndex >= 0 && n >= 0
      invariant n == if Admits(to, rooted, 0, item, count, flags, S) then Sum(room[..k]) else 0
    {
      SumConcat(room[..k], [room[k]]);
      assert room[..k + 1] == room[..k] + [room[k]];
      var containerItem := to.itemlist[k];
      if containerItem != item && Equal(containerItem, item) && containerItem.count < ITEM_STACK_SIZE {
        var r := QueryAdd(to, rooted, slotIndex, item, count, flags, S);
        slotIndex := slotIndex + 1;
        if r.NoError? {
          n := n + (ITEM_STACK_SIZE - containerItem.count);
        }
      }
    }
    assert room[..|room|] == room;
    maxQueryCount := freeSlots * ITEM_STACK_SIZE + n;
    ok := count <= maxQueryCount;
  }

  // ----- the answer in advance

  /** Exactly when an item is accepted: the container admits it at the place where it would go, and
      there is room for all of it. */
  ghost predicate Accepts(to: Item, rooted: bool, index: int, item: Item, flags: Flags, S: set<Item>)
    reads S, to, to.parent, item, item.parent, to.itemlist, set d | d in S :: d.parent
  {
    var room := Room(to.itemlist, item.kind, item.attrs);
    var at := if item.kind.stackable && room > 0 then 0 else Asked(to, index);
    && Admits(to, rooted, at, item, item.count, flags, S)
    && (flags.noLimit ||
        (if item.kind.stackable then item.count <= FreeSlots(to) * ITEM_STACK_SIZE + room else FreeSlots(to) > 0))
  }

  // ----- adding

  /** Where everything that is not the added ware stays as it is. */
  twostate predicate OthersKept(to: Item, item: Item, kind: ItemType, attrs: Attributes, S: set<Item>)
    reads S
  {
    forall i {:trigger i.kind} {:trigger i.attrs} {:trigger i.count} {:trigger i.parent} {:trigger i.itemlist} :: i in S ==>
      && i.kind == old(i.kind) && i.attrs == old(i.attrs) && (i != item ==> i.parent == old(i.parent))
      && (i != to ==> i.itemlist == old(i.itemlist))
      && (i.count == old(i.count) || (i in old(to.itemlist) && i.kind == kind && i.attrs == attrs && i.count > old(i.count)))
  }

  /** The content list is as it was, or has one more item of this ware at its front. */
  ghost predicate Grown(list: seq<Item>, before: seq<Item>, kind: ItemType, attrs: Attributes)
    reads list
  {
    list == before ||
    (|list| == |before| + 1 && list[1..] == before && list[0].kind == kind && list[0].attrs == attrs)
  }

  /** What fits onto the stacks that are there goes onto them, and only the rest makes a new item. */
  ghost predicate FillsFirst(list: seq<Item>, before: seq<Item>, kind: ItemType, attrs: Attributes, room: int, count: int)
    reads list
  {
    if count <= room then list == before && Room(list, kind, attrs) == room - count
    else |list| == |before| + 1 && list[1..] == before && list[0].count == count - room
  }

  predicate Empty(items: set<Item>)
    reads items
  {
    forall i :: i in items ==> i.itemlist == [] && !i.isContainer
  }

  /** Put `n` more units on a stack of the container: its units grow and its room shrinks by `n`. */
  method Merge(to: Item, toItem: Item, n: nat, ghost S: set<Item>)
    requires Forest(S) && to in S && toItem in to.itemlist && Stacked(to.itemlist)
    requires toItem.kind.stackable && !toItem.kind.fluid && toItem.count + n <= ITEM_STACK_SIZE
    modifies toItem`kind, toItem`count, toItem`attrs, S`totalWeight
    ensures Forest(S) && toItem.Value() == old(toItem.Value()).(count := old(toItem.count) + n) && Stacked(to.itemlist)
    ensures Units(to.itemlist, toItem.kind, toItem.attrs) == old(Units(to.itemlist, toItem.kind, toItem.attrs)) + n
    ensures Room(to.itemlist, toItem.kind, toItem.attrs) == old(Room(to.itemlist, toItem.kind, toItem.attrs)) - n
  {
    hide Item.LinkedAt, Item.Cached, Item.Weight, Item.OwnWeight, Times, GetInt, NoDup, Forest, Linked, CachedAll, SetSubType, Sum;
    ghost var kind, attrs, list := toItem.kind, toItem.attrs, to.itemlist;
    ghost var units, room := UnitsEach(list, kind, attrs), RoomEach(list, kind, attrs);
    ghost var k := OnlyPlace(to, toItem, S);
    StackCount(toItem.Value(), toItem.count + n);
    to.UpdateThing(toItem, toItem.kind, toItem.count + n, S);
    Recounted(list, k, toItem, units, room);
  }

  lemma OnlyPlace(to: Item, x: Item, S: set<Item>) returns (k: nat)
    requires Forest(S) && to in S && x in to.itemlist
    ensures k < |to.itemlist| && to.itemlist[k] == x && x in S
    ensures forall j :: 0 <= j < |to.itemlist| && j != k ==> to.itemlist[j] != x
  {
    assert to.LinkedAt(S);
    k :| 0 <= k < |to.itemlist| && to.itemlist[k] == x;
  }

  lemma StackCount(x: ItemValue, n: nat)
    requires x.kind.stackable && !x.kind.fluid && n <= ITEM_STACK_SIZE
    ensures SetSubType(x.(kind := x.kind), n) == x.(count := n)
  {
  }

  /** New totals when one stack of a list has changed its count. */
  lemma Recounted(list: seq<Item>, k: nat, x: Item, units: seq<int>, room: seq<int>)
    requires k < |list| == |units| == |room| && list[k] == x && x.count <= ITEM_STACK_SIZE
    requires forall j :: 0 <= j < |list| && j != k ==>
      units[j] == UnitsIn(list[j], x.kind, x.attrs) && room[j] == RoomIn(list[j], x.kind, x.attrs)
    ensures Units(list, x.kind, x.attrs) == Sum(units) - units[k] + x.count
    ensures Room(list, x.kind, x.attrs) == Sum(room) - room[k] + ITEM_STACK_SIZE - x.count
  {
    hide Sum;
    SumUpdate(units, k, x.count);
    SumUpdate(room, k, ITEM_STACK_SIZE - x.count);
    assert UnitsEach(list, x.kind, x.attrs) == units[k := x.count];
    assert RoomEach(list, x.kind, x.attrs) == room[k := ITEM_STACK_SIZE - x.count];
  }

  /** Put an item at the front: its units are added. */
  method Prepend(to: Item, index: int, item: Item, ghost S: set<Item>)
    requires Forest(S) && to in S && item in S && to.isContainer && index < to.maxSize
    requires item.parent == null && item != to && item !in to.anc
    modifies item`parent, to`itemlist, S`anc, S`totalWeight
    ensures Forest(S) && to.itemlist == [item] + old(to.itemlist) && |to.itemlist| == old(|to.itemlist|) + 1
    ensures Units(to.itemlist, item.kind, item.attrs) == old(Units(to.itemlist, item.kind, item.attrs)) + item.count
    ensures Grown(to.itemlist, old(to.itemlist), item.kind, item.attrs)
    ensures OthersKept(to, item, item.kind, item.attrs, S)
    ensures old(Stacked(to.itemlist)) && (item.kind.stackable ==> item.count <= ITEM_STACK_SIZE) ==> Stacked(to.itemlist)
  {
    ghost var list, kind, attrs := to.itemlist, item.kind, item.attrs;
    ghost var units := UnitsEach(list, kind, attrs);
    to.AddThing(index, item, S);
    SumConcat([item.count], units);
    assert UnitsEach(to.itemlist, kind, attrs) == [item.count] + units;
  }

  lemma ForestWith(x: Item, S: set<Item>)
    requires Forest(S) && x !in S && x.parent == null && x.itemlist == [] && x.anc == {} && x.totalWeight == 0
    ensures Forest(S + {x}) && Inside(x, S + {x}) == {}
    ensures forall d :: d in S ==> Inside(d, S + {x}) == Inside(d, S)
  {
    var T := S + {x};
    assert SumWeights([]) == 0;
    forall i | i in T
      ensures i.LinkedAt(T) && i.Cached(T)
    {
      if i in S {
        assert i.LinkedAt(S) && i.Cached(S);
      }
    }
    forall i | i in S
      ensures x !in i.anc
    {
      assert i.LinkedAt(S);
    }
  }

  datatype Query = Query(to: Item, rooted: bool, at: int, item: Item, flags: Flags, S: set<Item>)

  /** A merge does not change the answer of `queryAdd`. */
  twostate lemma StillAdmits(q: Query)
    requires old(Linked(q.S)) && q.to in q.S && q.item in q.S
    requires old(Admits(q.to, q.rooted, q.at, q.item, q.item.count, q.flags, q.S))
    requires forall i :: i in q.S ==> i.anc == old(i.anc) && i.parent == old(i.parent) && i.itemlist == old(i.itemlist)
    requires q.item.Value() == old(q.item.Value())
    ensures Admits(q.to, q.rooted, q.at, q.item, q.item.count, q.flags, q.S)
  {
    assert old(q.to.LinkedAt(q.S));
    assert forall d :: d in q.S ==> Inside(d, q.S) == old(Inside(d, q.S));
    assert Inside(q.item, q.S) == old(Inside(q.item, q.S));
    forall d | d in q.S
      ensures TopIs(q.to, q.rooted, d) <==> old(TopIs(q.to, q.rooted, d))
      ensures TopIs(q.item, q.rooted, d) <==> old(TopIs(q.item, q.rooted, d))
    {
      assert old(d.LinkedAt(q.S)) && old(q.item.LinkedAt(q.S));
    }
  }

  /** If an item was admitted and the rest of it finds room, then the rest is accepted. */
  lemma RemainderAccepted(q: Query, rest: Item)
    requires Linked(q.S) && q.to in q.S && q.item in q.S && Admits(q.to, q.rooted, q.at, q.item, q.item.count, q.flags, q.S)
    requires q.item.parent == null && rest !in q.S && rest.parent == null && rest.anc == {} && rest.kind == q.item.kind
    requires rest.kind.stackable && rest.count > 0 && !q.flags.childIsOwner && Inside(rest, q.S + {rest}) == {}
    requires forall d :: d in q.S ==> Inside(d, q.S + {rest}) == Inside(d, q.S)
    requires q.flags.noLimit ||
      rest.count <= FreeSlots(q.to) * ITEM_STACK_SIZE + Room(q.to.itemlist, rest.kind, rest.attrs)
    ensures Accepts(q.to, q.rooted, INDEX_WHEREEVER, rest, q.flags, q.S + {rest})
  {
    var T := q.S + {rest};
    assert q.to.LinkedAt(q.S) && q.item.LinkedAt(q.S);
    RoomSomewhere(q.to.itemlist, rest.kind, rest.attrs);
    forall d | d in T && (d == q.to || TopIs(q.to, q.rooted, d))
      ensures WithinLimit(d, q.rooted, rest, rest.count, q.flags, T)
    {
      assert d in q.S && d != q.item && WithinLimit(d, q.rooted, q.item, q.item.count, q.flags, q.S);
      assert Inside(d, T) == Inside(d, q.S);
      assert !TopIs(q.item, q.rooted, d) && !TopIs(rest, q.rooted, d);
    }
  }

  /** What `internalAddItem` does with the units that did not go onto the stack: they go in as a clone
      of the item, by the recursive call, or as the item itself if none went. */
  method AddRemainder(to: Item, rooted: bool, at: int, item: Item, count: nat, flags: Flags, ghost S: set<Item>)
    returns (remainderCount: nat, ghost T: set<Item>)
    requires Forest(S) && to in S && item in S && item.parent == null && to.isContainer && !flags.childIsOwner
    requires item.kind.stackable && Plain(item) && Stacked(to.itemlist) && count <= item.count
    requires Admits(to, rooted, at, item, item.count, flags, S)
    requires flags.noLimit || count <= FreeSlots(to) * ITEM_STACK_SIZE + Room(to.itemlist, item.kind, item.attrs)
    requires count == item.count ==> at < to.maxSize && Room(to.itemlist, item.kind, item.attrs) == 0
    modifies S`kind, S`count, S`attrs, S`anc, S`totalWeight, item`parent, to`itemlist
    ensures remainderCount == 0 && Forest(T) && S <= T && fresh(T - S) && Empty(T - S)
    ensures Units(to.itemlist, item.kind, item.attrs) == old(Units(to.itemlist, item.kind, item.attrs)) + count
    ensures FillsFirst(to.itemlist, old(to.itemlist), item.kind, item.attrs, old(Room(to.itemlist, item.kind, item.attrs)), count)
    ensures Stacked(to.itemlist) && Grown(to.itemlist, old(to.itemlist), item.kind, item.attrs)
    ensures !flags.noLimit && old(|to.itemlist|) <= to.maxSize ==> |to.itemlist| <= to.maxSize
    ensures OthersKept(to, item, item.kind, item.attrs, S)
    decreases item.count, 0
  {
    hide Forest, Item.LinkedAt, Item.Cached, Item.Weight, NoDup, Admits, Room, Units, FillsFirst, Linked, CachedAll;
    ghost var q := Query(to, rooted, at, item, flags, S);
    remainderCount, T := 0, S;
    if count == 0 {
      NothingToFill(to.itemlist, item.kind, item.attrs);
      return;
    }
    if item.count != count {
      var remainderItem := new Item(item.Value().(count := count));
      ForestWith(remainderItem, S);
      ForestLinked(S);
      T := S + {remainderItem};
      RemainderAccepted(q, remainderItem);
      var again, lost;
      again, lost, T := InternalAddItem(to, rooted, INDEX_WHEREEVER, remainderItem, flags, T);
      if !again.NoError? {
        remainderCount := count;
      }
    } else {
      AdmittedApart(q);
      Prepend(to, at, item, S);
      NothingFilled(to.itemlist, item.kind, item.attrs, count);
    }
  }

  lemma NothingToFill(list: seq<Item>, kind: ItemType, attrs: Attributes)
    ensures FillsFirst(list, list, kind, attrs, Room(list, kind, attrs), 0)
  {
    hide Room;
    RoomSomewhere(list, kind, attrs);
  }

  lemma NothingFilled(list: seq<Item>, kind: ItemType, attrs: Attributes, count: int)
    requires list != [] && count > 0 && list[0].count == count
    ensures FillsFirst(list, list[1..], kind, attrs, 0, count)
  {
  }

  lemma AdmittedApart(q: Query)
    requires Admits(q.to, q.rooted, q.at, q.item, q.item.count, q.flags, q.S) && !q.flags.childIsOwner
    ensures q.item != q.to && q.item !in q.to.anc
  {
  }

  lemma ForestLinked(S: set<Item>)
    requires Forest(S)
    ensures Linked(S)
  {
  }

  /** A merge after which the item is admitted as before. */
  method MergeAdmitted(to: Item, toItem: Item, n: nat, ghost q: Query)
    requires q.to == to && Forest(q.S) && to in q.S && q.item in q.S && toItem in to.itemlist && Stacked(to.itemlist)
    requires toItem in q.S
    requires toItem.kind.stackable && !toItem.kind.fluid && toItem.count + n <= ITEM_STACK_SIZE && toItem != q.item
    requires Admits(q.to, q.rooted, q.at, q.item, q.item.count, q.flags, q.S)
    modifies toItem`kind, toItem`count, toItem`attrs, q.S`totalWeight
    ensures Forest(q.S) && toItem.Value() == old(toItem.Value()).(count := old(toItem.count) + n) && Stacked(to.itemlist)
    ensures Units(to.itemlist, toItem.kind, toItem.attrs) == old(Units(to.itemlist, toItem.kind, toItem.attrs)) + n
    ensures Room(to.itemlist, toItem.kind, toItem.attrs) == old(Room(to.itemlist, toItem.kind, toItem.attrs)) - n
    ensures Admits(q.to, q.rooted, q.at, q.item, q.item.count, q.flags, q.S)
  {
    ForestLinked(q.S);
    hide *;
    Merge(to, toItem, n, q.S);
    StillAdmits(q);
  }

  /** The branch of `internalAddItem` for a stack to merge with. */
  method MergeAndGoOn(to: Item, rooted: bool, at: int, item: Item, toItem: Item, maxQueryCount: nat, flags: Flags,
                      ghost S: set<Item>)
    returns (remainderCount: nat, ghost T: set<Item>)
    requires Forest(S) && to in S && item in S && item.parent == null && to.isContainer && !flags.childIsOwner
    requires item.kind.stackable && Plain(item) && Stacked(to.itemlist)
    requires toItem in to.itemlist && Equal(item, toItem)
    requires Admits(to, rooted, at, item, item.count, flags, S)
    requires item.count <= maxQueryCount
    requires flags.noLimit || item.count <= FreeSlots(to) * ITEM_STACK_SIZE + Room(to.itemlist, item.kind, item.attrs)
    requires toItem.count >= ITEM_STACK_SIZE ==> at < to.maxSize && Room(to.itemlist, item.kind, item.attrs) == 0
    modifies S`kind, S`count, S`attrs, S`anc, S`totalWeight, item`parent, to`itemlist
    ensures Forest(T) && S <= T && fresh(T - S) && remainderCount == 0 && Empty(T - S)
    ensures Units(to.itemlist, item.kind, item.attrs) == old(Units(to.itemlist, item.kind, item.attrs)) + old(item.count)
    ensures FillsFirst(to.itemlist, old(to.itemlist), item.kind, item.attrs, old(Room(to.itemlist, item.kind, item.attrs)), old(item.count))
    ensures Stacked(to.itemlist) && Grown(to.itemlist, old(to.itemlist), item.kind, item.attrs)
    ensures !flags.noLimit && old(|to.itemlist|) <= to.maxSize ==> |to.itemlist| <= to.maxSize
    ensures OthersKept(to, item, item.kind, item.attrs, S) && item.kind == old(item.kind) && item.attrs == old(item.attrs)
    decreases item.count, 1
  {
    hide Forest, Linked, Item.LinkedAt, Item.Cached, Item.Weight, NoDup, Admits, Room, Units, CachedAll;
    LooseApart(to, item, toItem, S);
    var m := if item.count < maxQueryCount then item.count else maxQueryCount;
    var n := if ITEM_STACK_SIZE - toItem.count < m then ITEM_STACK_SIZE - toItem.count else m;
    MergeAdmitted(to, toItem, n, Query(to, rooted, at, item, flags, S));
    remainderCount, T := AddRemainder(to, rooted, at, item, m - n, flags, S);
  }

  lemma LooseApart(to: Item, item: Item, toItem: Item, S: set<Item>)
    requires Forest(S) && to in S && toItem in to.itemlist && item.parent == null && Stacked(to.itemlist)
    ensures toItem in S && toItem != item
    ensures toItem.kind.stackable ==> toItem.count <= ITEM_STACK_SIZE
  {
    assert to.LinkedAt(S);
  }

  /** The questions that `internalAddItem` asks before it changes anything. */
  method Questions(to: Item, rooted: bool, index: int, item: Item, flags: Flags, ghost S: set<Item>)
    returns (r: ReturnValue, at: int, toItem: Item?, maxQueryCount: nat)
    requires Linked(S) && to in S && item in S && item.parent == null && NoReceiver(to, index) && !flags.childIsOwner
    ensures r.NoError? <==> Accepts(to, rooted, index, item, flags, S)
    ensures toItem != null ==> toItem in to.itemlist
    ensures r.NoError? ==> (
      && to.isContainer && item != to && item !in to.anc && Admits(to, rooted, at, item, item.count, flags, S)
      && (item.kind.stackable ==> item.count <= maxQueryCount)
      && (item.kind.stackable && !flags.noLimit ==>
            item.count <= FreeSlots(to) * ITEM_STACK_SIZE + Room(to.itemlist, item.kind, item.attrs))
      && (if item.kind.stackable && toItem != null && Equal(item, toItem)
          then toItem.count >= ITEM_STACK_SIZE ==> at < to.maxSize && Room(to.itemlist, item.kind, item.attrs) == 0
          else at < to.maxSize && (item.kind.stackable ==> Room(to.itemlist, item.kind, item.attrs) == 0))
      && (!item.kind.stackable && !flags.noLimit ==> FreeSlots(to) > 0))
  {
    hide Item.LinkedAt, Room, WithinLimit, NoReceiver, Sum, Linked;
    RoomSomewhere(to.itemlist, item.kind, item.attrs);
    at, toItem := QueryDestination(to, index, item, S);
    maxQueryCount := 0;
    r := QueryAdd(to, rooted, at, item, item.count, flags, S);
    if r.NoError? {
      var ok;
      ok, maxQueryCount := QueryMaxCount(to, rooted, item, item.count, flags, S);
      if !ok {
        r := ContainerNotEnoughRoom;
      }
    }
  }

  /** `internalAddItem` into a container. */
  method InternalAddItem(to: Item, rooted: bool, index: int, item: Item, flags: Flags, ghost S: set<Item>)
    returns (r: ReturnValue, remainderCount: nat, ghost T: set<Item>)
    requires Forest(S) && to in S && item in S && item.parent == null && NoReceiver(to, index) && !flags.childIsOwner
    requires Plain(item) && Stacked(to.itemlist)
    modifies S`kind, S`count, S`attrs, S`anc, S`totalWeight, item`parent, to`itemlist
    ensures r.NoError? <==> old(Accepts(to, rooted, index, item, flags, S))
    ensures !r.NoError? ==> T == S && unchanged(S)
    ensures Forest(T) && S <= T && fresh(T - S) && remainderCount == 0 && Empty(T - S)
    ensures r.NoError? && old(item.kind.stackable) ==>
      && Units(to.itemlist, item.kind, item.attrs) == old(Units(to.itemlist, item.kind, item.attrs)) + old(item.count)
      && Stacked(to.itemlist)
      && FillsFirst(to.itemlist, old(to.itemlist), item.kind, item.attrs, old(Room(to.itemlist, item.kind, item.attrs)), old(item.count))
    ensures r.NoError? && !old(item.kind.stackable) ==> to.itemlist == [item] + old(to.itemlist)
    ensures r.NoError? ==> Grown(to.itemlist, old(to.itemlist), item.kind, item.attrs)
    ensures r.NoError? && !flags.noLimit && old(|to.itemlist|) <= to.maxSize ==> |to.itemlist| <= to.maxSize
    ensures OthersKept(to, item, item.kind, item.attrs, S) && item.kind == old(item.kind) && item.attrs == old(item.attrs)
    decreases item.count, 2
  {
    hide Forest, Linked, Item.LinkedAt, Item.Cached, Item.Weight, NoDup, Room, Units, Admits, Accepts, NoReceiver, Sum;
    hide Grown, Stacked;
    remainderCount, T := 0, S;
    ForestLinked(S);
    var at, toItem, maxQueryCount;
    r, at, toItem, maxQueryCount := Questions(to, rooted, index, item, flags, S);
    if !r.NoError? {
      return;
    }
    if item.kind.stackable && toItem != null && Equal(item, toItem) {
      remainderCount, T := MergeAndGoOn(to, rooted, at, item, toItem, maxQueryCount, flags, S);
    } else {
      Prepend(to, at, item, S);
    }
  }
}
