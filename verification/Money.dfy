/** Coins: collecting them from a holder, paying an exact amount, and giving change. */
module Money {
  import opened Wrappers
  import opened Items
  import opened ItemForest
  import opened ContainerIteration
  import opened ContainerSearch
  import opened ItemRemoval
  import opened Depots
  import opened StackAdding
  import opened Totals

  /** Who pays: a holder of things, the ground beneath for what does not fit, what a unit of each item
      id is worth, and the coins that change is given in, the most valuable first. */
  datatype Payer = Payer(purse: Item, ground: Item, rooted: bool, worthOf: map<nat, nat>, currency: seq<(nat, ItemType)>)

  function Unit(h: Payer, kind: ItemType): nat {
    if kind.id in h.worthOf then h.worthOf[kind.id] else 0
  }

  /** `getWorth` of anything that is not a container. */
  function Worth(h: Payer, i: Item): nat
    reads i
  {
    Unit(h, i.kind) * i.count
  }

  ghost predicate Within(i: Item, h: Payer)
    reads i
  {
    h.purse in i.anc || h.ground in i.anc
  }

  /** What every item that is not a container is worth, on the holder alone and with the ground. */
  ghost function Purse(h: Payer, S: set<Item>): map<Item, int>
    reads S
  {
    map i | i in S && h.purse in i.anc && !i.isContainer :: Worth(h, i)
  }

  ghost function Wealth(h: Payer, S: set<Item>): map<Item, int>
    reads S
  {
    map i | i in S && Within(i, h) && !i.isContainer :: Worth(h, i)
  }

  /** An item that can be paid with: coins come in stacks, anything else of worth comes alone. */
  predicate ItemOk(h: Payer, i: Item)
    reads i
  {
    ValueOk(h, i.Value(), i.isContainer)
  }

  predicate ValueOk(h: Payer, x: ItemValue, isContainer: bool) {
    && x.count <= 255 && (x.kind.stackable ==> !isContainer)
    && (Unit(h, x.kind) > 0 && !x.kind.stackable ==> x.count == 1)
  }

  ghost predicate Valid(h: Payer, S: set<Item>)
    reads S
  {
    && Forest(S) && h.purse in S && h.ground in S && h.purse != h.ground
    && h.purse.isContainer && h.ground.isContainer && h.ground.box.unlocked && h.ground.parent == null
    && h.purse !in h.ground.anc && h.ground !in h.purse.anc
    && (forall i :: i in S && (i in h.purse.itemlist || i in h.ground.itemlist) && i.kind.stackable ==> i.count <= ITEM_STACK_SIZE)
    && forall i {:trigger ItemOk(h, i)} :: i in S && Within(i, h) ==> ItemOk(h, i)
  }

  /** A kind of coin that can be made, stacked, picked up and does not decay. */
  predicate CoinKind(kind: ItemType) {
    && kind.known && kind.box.NoBox? && kind.stackable && !kind.fluid && kind.charges == 0 && kind.duration == 0
    && kind.pickupable
  }

  /** The table of coins: ordered by worth, down to a coin of worth one. */
  predicate CurrencyOk(h: Payer) {
    && h.currency != [] && h.currency[|h.currency| - 1].0 == 1
    && (forall id :: id in h.worthOf ==> h.worthOf[id] * 255 < WORD)
    && (forall k :: 0 <= k < |h.currency| ==> (
          h.currency[k].0 > 0 && CoinKind(h.currency[k].1) && Unit(h, h.currency[k].1) == h.currency[k].0))
    && (forall j, k :: 0 <= j < k < |h.currency| ==> h.currency[j].0 > h.currency[k].0)
  }

  // ----- the units of one kind of coin within all that is there

  ghost function Ware(list: seq<Item>, kind: ItemType, attrs: Attributes): set<Item>
    reads list
  {
    set i | i in list && i.kind == kind && i.attrs == attrs
  }

  lemma NoUnits(kind: ItemType, attrs: Attributes)
    ensures Units([], kind, attrs) == 0
  {
  }

  lemma FirstUnits(list: seq<Item>, kind: ItemType, attrs: Attributes)
    requires list != []
    ensures Units(list, kind, attrs) == UnitsIn(list[0], kind, attrs) + Units(list[1..], kind, attrs)
  {
    assert UnitsEach(list, kind, attrs)[1..] == UnitsEach(list[1..], kind, attrs);
  }

  lemma {:induction false} WareTotal(list: seq<Item>, kind: ItemType, attrs: Attributes, unit: nat, m: map<Item, int>)
    requires NoDup(list)
    requires forall i :: i in Ware(list, kind, attrs) ==> i in m && m[i] == unit * i.count
    ensures Total(m) == unit * Units(list, kind, attrs) + Total(m - Ware(list, kind, attrs))
  {
    hide Total, Units;
    if list == [] {
      assert m - Ware(list, kind, attrs) == m;
      NoUnits(kind, attrs);
    } else {
      var c, rest := list[0], list[1..];
      FirstUnits(list, kind, attrs);
      assert list == [c] + rest;
      assert c !in rest;
      if c.kind == kind && c.attrs == attrs {
        assert c in Ware(list, kind, attrs);
        assert Ware(list, kind, attrs) == {c} + Ware(rest, kind, attrs);
        TotalWithout(m, c);
        WareTotal(rest, kind, attrs, unit, m - {c});
        assert m - {c} - Ware(rest, kind, attrs) == m - Ware(list, kind, attrs);
        Distribute(unit, c.count, Units(rest, kind, attrs));
      } else {
        assert Ware(list, kind, attrs) == Ware(rest, kind, attrs);
        WareTotal(rest, kind, attrs, unit, m);
      }
    }
  }

  lemma Distribute(u: int, a: int, b: int)
    ensures u * (a + b) == u * a + u * b
  {
  }

  // ----- adding a stack of coins

  /** Parents, ancestors and values as they were. */
  datatype Shape = Shape(parents: map<Item, Item?>, ancs: map<Item, set<Item>>, values: map<Item, ItemValue>)

  ghost function ShapeOf(S: set<Item>): Shape
    reads S
  {
    Shape(map i | i in S :: i.parent, map i | i in S :: i.anc, map i | i in S :: i.Value())
  }

  /** Where the shape was that of a forest with nothing in `item`. */
  ghost predicate Shaped(shape: Shape, item: Item, S: set<Item>) {
    && shape.parents.Keys == S && shape.ancs.Keys == S && shape.values.Keys == S
    && forall i :: i in S ==> (
      var p := shape.parents[i];
      if p == null then shape.ancs[i] == {}
      else p in S && p != item && shape.ancs[i] == shape.ancs[p] + {p} && p !in shape.ancs[p])
  }

  lemma ShapeIsShaped(item: Item, S: set<Item>)
    requires Linked(S) && item in S && item.itemlist == []
    ensures Shaped(ShapeOf(S), item, S)
  {
    forall i | i in S
      ensures i.parent != null ==> i.parent in S && i.parent != item && i.parent !in i.parent.anc
      ensures i.anc == if i.parent == null then {} else i.parent.anc + {i.parent}
    {
      assert i.LinkedAt(S);
      if i.parent != null {
        assert i.parent.LinkedAt(S);
      }
    }
  }

  lemma {:induction false} SameAncestors(shape: Shape, item: Item, i: Item, S: set<Item>, T: set<Item>)
    requires Shaped(shape, item, S) && Linked(T) && S <= T && i in S && i != item
    requires forall j :: j in S && j != item ==> j.parent == shape.parents[j]
    ensures i.anc == shape.ancs[i]
    decreases shape.ancs[i]
  {
    assert i.LinkedAt(T);
    if i.parent != null {
      SameAncestors(shape, item, i.parent, S, T);
    }
  }

  /** After an addition, the only new thing that is inside anything is the one at the front. */
  lemma NewAtFront(to: Item, item: Item, before: seq<Item>, S: set<Item>, T: set<Item>)
    requires Linked(T) && to in S && item in S && S <= T && Empty(T - S) && item.itemlist == []
    requires forall i, c :: i in S && i != to && c in i.itemlist ==> c in S && c != item
    requires forall c :: c in before ==> c in S && c != item
    requires to.itemlist == before || (|to.itemlist| == |before| + 1 && to.itemlist[1..] == before)
    ensures forall i :: i in T && (i !in S || i == item) && i.parent != null ==> to.itemlist != before && i == to.itemlist[0]
  {
    forall i | i in T && (i !in S || i == item) && i.parent != null
      ensures to.itemlist != before && i == to.itemlist[0]
    {
      assert i.LinkedAt(T);
      assert i.parent == to;
      if to.itemlist != before {
        assert to.itemlist == [to.itemlist[0]] + before;
      }
    }
  }

  /** One addition: where to, of what, the content list before it, everything before, and all items
      before and after. */
  datatype Adding = Adding(to: Item, item: Item, list: seq<Item>, shape: Shape, S: set<Item>, T: set<Item>)

  ghost predicate Added(q: Adding)
    reads q.T, q.S
  {
    && Linked(q.T) && q.S <= q.T && q.to in q.S && q.item in q.S && q.item.kind.stackable && Empty(q.T - q.S) && !q.item.isContainer
    && Shaped(q.shape, q.item, q.S) && q.shape.parents[q.item] == null
    && (forall c :: c in q.T && c in q.to.itemlist && c.kind.stackable ==> c.count <= ITEM_STACK_SIZE)
    && (forall c :: c in q.S ==> (c in q.list <==> q.shape.parents[c] == q.to)) && (forall c :: c in q.list ==> c in q.S)
    && (q.to.itemlist == q.list ||
        (&& |q.to.itemlist| == |q.list| + 1 && q.to.itemlist[1..] == q.list && q.to.itemlist[0] in q.T
         && q.to.itemlist[0].kind == q.item.kind && q.to.itemlist[0].attrs == q.item.attrs))
    && (forall i :: i in q.T && (i !in q.S || i == q.item) && i.parent != null ==> q.to.itemlist != q.list && i == q.to.itemlist[0])
    && (forall i {:trigger KeptBut(q, i)} :: i in q.S && i != q.item ==> KeptBut(q, i))
  }

  ghost predicate KeptBut(q: Adding, i: Item)
    requires i in q.S && q.S == q.shape.ancs.Keys == q.shape.parents.Keys == q.shape.values.Keys
    reads i, q.item
  {
    && i.anc == q.shape.ancs[i] && i.parent == q.shape.parents[i]
    && i.kind == q.shape.values[i].kind && i.attrs == q.shape.values[i].attrs
    && (i.count == q.shape.values[i].count || (i in q.list && i.kind == q.item.kind && i.attrs == q.item.attrs))
  }

  /** What there was. */
  ghost function WealthWas(h: Payer, shape: Shape): map<Item, int>
    requires shape.ancs.Keys == shape.values.Keys
  {
    map i | i in shape.ancs && (h.purse in shape.ancs[i] || h.ground in shape.ancs[i]) && !i.isContainer ::
      Unit(h, shape.values[i].kind) * shape.values[i].count
  }

  /** What `Valid` says about the values and ancestors of then. */
  ghost predicate ShapeOk(h: Payer, shape: Shape) {
    && shape.parents.Keys == shape.ancs.Keys == shape.values.Keys
    && h.purse in shape.ancs && h.ground in shape.ancs && h.purse != h.ground
    && h.purse.isContainer && h.ground.isContainer && h.ground.box.unlocked && shape.parents[h.ground] == null
    && h.purse !in shape.ancs[h.ground] && h.ground !in shape.ancs[h.purse]
    && (forall i {:trigger shape.values[i]} :: i in shape.ancs ==> (
          && (h.purse in shape.ancs[i] || h.ground in shape.ancs[i] ==> ValueOk(h, shape.values[i], i.isContainer))
          && ((shape.parents[i] == h.purse || shape.parents[i] == h.ground) && shape.values[i].kind.stackable ==>
                shape.values[i].count <= ITEM_STACK_SIZE)))
  }

  lemma ValidShape(h: Payer, S: set<Item>)
    requires Valid(h, S)
    ensures ShapeOk(h, ShapeOf(S)) && Wealth(h, S) == WealthWas(h, ShapeOf(S))
  {
    forall i | i in S
      ensures Within(i, h) ==> ItemOk(h, i)
      ensures i.parent != null ==> i in i.parent.itemlist
    {
      assert i.LinkedAt(S);
    }
  }

  /** What every item is in for after an addition: kept, or new at the front, or nowhere. */
  lemma AfterAdding(q: Adding, i: Item)
    requires Added(q) && i in q.T
    ensures i in q.S && i != q.item ==> (
      && KeptBut(q, i) && (i in q.to.itemlist <==> i in q.list))
    ensures i !in q.S || i == q.item ==> (
      if i.parent == null then i.anc == {} && i !in q.to.itemlist
      else i in q.to.itemlist && i.parent == q.to && i.kind == q.item.kind && i.attrs == q.item.attrs && !i.isContainer)
  {
    assert i.LinkedAt(q.T) && q.to.LinkedAt(q.T);
    assert i in q.S && i != q.item ==> KeptBut(q, i);
  }

  /** All but the stacks of the added kind in the list is as it was. */
  lemma SameRest(h: Payer, q: Adding, ware: set<Item>)
    requires Added(q)
    requires forall i :: i in q.S ==>
      (i in ware <==> i in q.list && q.shape.values[i].kind == q.item.kind && q.shape.values[i].attrs == q.item.attrs)
    ensures Wealth(h, q.T) - Ware(q.to.itemlist, q.item.kind, q.item.attrs) == WealthWas(h, q.shape) - ware
  {
    hide Linked, Empty;
    var left := Wealth(h, q.T) - Ware(q.to.itemlist, q.item.kind, q.item.attrs);
    var right := WealthWas(h, q.shape) - ware;
    forall i | i in q.T
      ensures i in left <==> i in right
      ensures i in left ==> left[i] == right[i]
    {
      AfterAdding(q, i);
    }
  }

  lemma StillValid(h: Payer, q: Adding)
    requires Added(q) && Forest(q.T) && (q.to == h.purse || q.to == h.ground) && q.item != h.purse && q.item != h.ground
    requires ShapeOk(h, q.shape)
    ensures Valid(h, q.T)
  {
    AfterAdding(q, h.purse);
    AfterAdding(q, h.ground);
    forall i | i in q.T
      ensures Within(i, h) ==> ItemOk(h, i)
      ensures (i in h.purse.itemlist || i in h.ground.itemlist) && i.kind.stackable ==> i.count <= ITEM_STACK_SIZE
    {
      AfterAdding(q, i);
      assert h.purse.LinkedAt(q.T) && h.ground.LinkedAt(q.T);
    }
  }

  /** What there was, the stacks of one ware apart. */
  ghost predicate Priced(h: Payer, shape: Shape, kind: ItemType, ware: set<Item>, units: int) {
    && ShapeOk(h, shape)
    && Total(WealthWas(h, shape)) == Unit(h, kind) * units + Total(WealthWas(h, shape) - ware)
  }

  lemma PricedNow(h: Payer, to: Item, kind: ItemType, attrs: Attributes, S: set<Item>)
    requires Valid(h, S) && (to == h.purse || to == h.ground) && kind.stackable
    ensures Priced(h, ShapeOf(S), kind, Ware(to.itemlist, kind, attrs), Units(to.itemlist, kind, attrs))
    ensures Total(Wealth(h, S)) == Total(WealthWas(h, ShapeOf(S)))
  {
    hide Total, Wealth, WealthWas, Units, ShapeOk, Valid, Ware, Stacked;
    WareOfWealth(h, to, kind, attrs, S);
    WareTotal(to.itemlist, kind, attrs, Unit(h, kind), Wealth(h, S));
    ValidShape(h, S);
  }

  lemma WealthGrows(h: Payer, q: Adding, ware: set<Item>, units: int, count: nat)
    requires Added(q) && Forest(q.T) && (q.to == h.purse || q.to == h.ground) && q.item != h.purse && q.item != h.ground
    requires Priced(h, q.shape, q.item.kind, ware, units)
    requires forall i :: i in q.S ==>
      (i in ware <==> i in q.list && q.shape.values[i].kind == q.item.kind && q.shape.values[i].attrs == q.item.attrs)
    requires Units(q.to.itemlist, q.item.kind, q.item.attrs) == units + count
    ensures Valid(h, q.T) && Total(Wealth(h, q.T)) == Total(WealthWas(h, q.shape)) + Unit(h, q.item.kind) * count
  {
    hide Added, Wealth, WealthWas, Ware, Total, Units, ShapeOk, Valid;
    var kind, attrs := q.item.kind, q.item.attrs;
    StillValid(h, q);
    WareOfWealth(h, q.to, kind, attrs, q.T) by {
      AddedMeans(q);
    }
    WareTotal(q.to.itemlist, kind, attrs, Unit(h, kind), Wealth(h, q.T));
    SameRest(h, q, ware);
    Distribute(Unit(h, kind), units, count);
  }

  lemma AddedMeans(q: Adding)
    requires Added(q)
    ensures q.item.kind.stackable
  {
  }

  /** The same places, with worths of their own: a measure to count one kind of coin by. */
  predicate Measures(g: Payer, h: Payer) {
    g.purse == h.purse && g.ground == h.ground
  }

  /** Put a stack into the purse or onto the ground: only stacks of its kind change. */
  method AddIn(h: Payer, to: Item, rooted: bool, flags: Flags, item: Item, ghost S: set<Item>)
    returns (r: ReturnValue, ghost T: set<Item>, ghost q: Adding)
    requires Valid(h, S) && item in S && item.parent == null && item.itemlist == [] && (to == h.purse || to == h.ground)
    requires item != h.purse && item != h.ground
    requires item.kind.stackable && Plain(item) && !item.isContainer && !flags.childIsOwner
    modifies S`kind, S`count, S`attrs, S`anc, S`totalWeight, item`parent, to`itemlist
    ensures r.NoError? <==> old(Accepts(to, rooted, INDEX_WHEREEVER, item, flags, S))
    ensures !r.NoError? ==> T == S && unchanged(S)
    ensures Forest(T) && S <= T && fresh(T - S) && item.kind == old(item.kind) && item.attrs == old(item.attrs)
    ensures q == Adding(to, item, old(to.itemlist), old(ShapeOf(S)), S, T) && (r.NoError? ==> Added(q))
    ensures r.NoError? ==>
      Units(to.itemlist, item.kind, item.attrs) == old(Units(to.itemlist, item.kind, item.attrs)) + old(item.count)
    ensures forall i {:trigger i.kind} {:trigger i.anc} {:trigger i.parent} {:trigger i.count} :: i in S && i != item ==>
      && i.kind == old(i.kind) && i.anc == old(i.anc) && i.parent == old(i.parent)
      && (i != to ==> i.itemlist == old(i.itemlist)) && (i.count == old(i.count) || (i.count > old(i.count) && i.kind == item.kind))
  {
    PayerIn(h, S);
    ValidMeans(h, S);
    hide Item.LinkedAt, Units, Valid, Accepts, CachedAll, Plain, NoDup, Added, Linked;
    ghost var list, kind, attrs, shape := to.itemlist, item.kind, item.attrs, ShapeOf(S);
    ListFacts(to, item, S);
    ShapeIsShaped(item, S);
    var lost;
    r, lost, T := InternalAddItem(to, rooted, INDEX_WHEREEVER, item, flags, S);
    q := Adding(to, item, list, shape, S, T);
    if r.NoError? {
      NewAtFront(to, item, list, S, T);
      forall i | i in S && i != item
        ensures i.anc == shape.ancs[i]
      {
        SameAncestors(shape, item, i, S, T);
      }
      AllAdded(q);
    }
  }

  /** And what there is grows by what the stack is worth, by any measure. */
  method AddTo(h: Payer, ghost g: Payer, to: Item, rooted: bool, flags: Flags, item: Item, ghost S: set<Item>)
    returns (r: ReturnValue, ghost T: set<Item>)
    requires Valid(g, S) && Measures(g, h)
    requires Valid(h, S) && item in S && item.parent == null && item.itemlist == [] && (to == h.purse || to == h.ground)
    requires item != h.purse && item != h.ground
    requires item.kind.stackable && Plain(item) && !item.isContainer && !flags.childIsOwner
    modifies S`kind, S`count, S`attrs, S`anc, S`totalWeight, item`parent, to`itemlist
    ensures r.NoError? <==> old(Accepts(to, rooted, INDEX_WHEREEVER, item, flags, S))
    ensures !r.NoError? ==> T == S && unchanged(S)
    ensures Valid(h, T) && S <= T && fresh(T - S) && item.kind == old(item.kind)
    ensures r.NoError? ==> Total(Wealth(h, T)) == old(Total(Wealth(h, S))) + Unit(h, item.kind) * old(item.count)
    ensures Valid(g, T) && (r.NoError? ==> Total(Wealth(g, T)) == old(Total(Wealth(g, S))) + Unit(g, item.kind) * old(item.count))
    ensures forall i {:trigger i.kind} {:trigger i.anc} {:trigger i.parent} {:trigger i.count} :: i in S && i != item ==>
      && i.kind == old(i.kind) && i.anc == old(i.anc) && i.parent == old(i.parent)
      && (i != to ==> i.itemlist == old(i.itemlist)) && (i.count == old(i.count) || (i.count > old(i.count) && i.kind == item.kind))
    ensures r.NoError? ==> (
      && item.attrs == old(item.attrs)
      && Units(to.itemlist, item.kind, item.attrs) == old(Units(to.itemlist, item.kind, item.attrs)) + old(item.count))
  {
    hide Total, Wealth, WealthWas, Units, Valid, Accepts, Plain, Added, Forest, Priced;
    ghost var kind, attrs, count := item.kind, item.attrs, item.count;
    ghost var units, ware := Units(to.itemlist, kind, attrs), Ware(to.itemlist, kind, attrs);
    PricedNow(h, to, kind, attrs, S);
    PricedNow(g, to, kind, attrs, S);
    ghost var q;
    r, T, q := AddIn(h, to, rooted, flags, item, S);
    if r.NoError? {
      WealthGrows(h, q, ware, units, count);
      WealthGrows(g, q, ware, units, count);
    }
  }

  lemma ValidMeans(h: Payer, S: set<Item>)
    requires Valid(h, S)
    ensures Forest(S) && Stacked(h.purse.itemlist) && Stacked(h.ground.itemlist)
  {
    assert h.purse.LinkedAt(S) && h.ground.LinkedAt(S);
  }

  lemma AllAdded(q: Adding)
    requires Linked(q.T) && q.S <= q.T && q.to in q.S && q.item in q.S && q.item.kind.stackable && Empty(q.T - q.S)
    requires !q.item.isContainer && Shaped(q.shape, q.item, q.S) && q.shape.parents[q.item] == null
    requires forall c :: c in q.list ==> c in q.S
    requires Stacked(q.to.itemlist) && Grown(q.to.itemlist, q.list, q.item.kind, q.item.attrs)
    requires forall c :: c in q.S ==> (c in q.list <==> q.shape.parents[c] == q.to)
    requires forall i :: i in q.T && (i !in q.S || i == q.item) && i.parent != null ==> q.to.itemlist != q.list && i == q.to.itemlist[0]
    requires forall i {:trigger KeptBut(q, i)} :: i in q.S && i != q.item ==> KeptBut(q, i)
    ensures Added(q)
  {
    assert q.to.LinkedAt(q.T);
  }

  lemma ListFacts(to: Item, item: Item, S: set<Item>)
    requires Linked(S) && item in S && item.parent == null && to in S
    ensures forall i, c :: i in S && c in i.itemlist ==> c in S && c != item
    ensures forall c :: c in S ==> (c in to.itemlist <==> c.parent == to)
  {
    forall i, c | i in S && c in i.itemlist
      ensures c in S && c != item
    {
      assert i.LinkedAt(S);
    }
    forall c | c in S
      ensures c in to.itemlist <==> c.parent == to
    {
      assert c.LinkedAt(S) && to.LinkedAt(S);
    }
  }

  lemma WareOfWealth(h: Payer, to: Item, kind: ItemType, attrs: Attributes, S: set<Item>)
    requires Valid(h, S) && (to == h.purse || to == h.ground) && kind.stackable
    ensures NoDup(to.itemlist)
    ensures forall i :: i in Ware(to.itemlist, kind, attrs) ==> i in Wealth(h, S) && Wealth(h, S)[i] == Unit(h, kind) * i.count
  {
    assert to.LinkedAt(S);
    forall i | i in Ware(to.itemlist, kind, attrs)
      ensures i in Wealth(h, S)
    {
      assert i.LinkedAt(S) && ItemOk(h, i);
    }
  }

  // ----- giving money

  /** An item that is nowhere is part of nothing. */
  lemma ValidWith(h: Payer, x: Item, S: set<Item>)
    requires Valid(h, S) && x !in S && x.parent == null && x.itemlist == [] && x.anc == {} && x.totalWeight == 0
    ensures Valid(h, S + {x}) && Wealth(h, S + {x}) == Wealth(h, S)
  {
    ForestWith(x, S);
    var T := S + {x};
    assert h.purse.LinkedAt(S) && h.ground.LinkedAt(S);
    forall i | i in T
      ensures Within(i, h) ==> ItemOk(h, i)
      ensures (i in h.purse.itemlist || i in h.ground.itemlist) && i.kind.stackable ==> i.count <= ITEM_STACK_SIZE
    {
      assert i in S && Within(i, h) ==> ItemOk(h, i);
    }
  }

  /** The ground takes everything. */
  lemma GroundAccepts(h: Payer, item: Item, S: set<Item>)
    requires Valid(h, S) && item in S && item != h.ground && item.kind.pickupable && item.kind.stackable
    ensures Accepts(h.ground, false, INDEX_WHEREEVER, item, Flags(true, false), S)
  {
    assert h.ground.LinkedAt(S);
  }

  /** Only stacks of some kinds have changed their counts; nothing else but the two lists has changed. */
  twostate predicate OnlyStacks(h: Payer, limit: nat, S: set<Item>)
    reads S
  {
    forall i {:trigger i.kind} {:trigger i.anc} {:trigger i.parent} {:trigger i.count} :: i in S ==>
      && i.kind == old(i.kind) && i.anc == old(i.anc) && i.parent == old(i.parent)
      && (i != h.purse && i != h.ground ==> i.itemlist == old(i.itemlist))
      && (i.count == old(i.count) || (i.count > old(i.count) && Unit(h, i.kind) <= limit))
  }

  /** The holder has room for a new stack. */
  ghost predicate Fits(h: Payer, kind: ItemType, count: nat, flags: Flags, S: set<Item>)
    reads S, h.purse, h.purse.parent, h.purse.itemlist, set d | d in S :: d.parent
  {
    var to, room := h.purse, Room(h.purse.itemlist, kind, map[]);
    && to.box.Box? && to.box.unlocked
    && (!flags.noLimit ==>
          && count <= FreeSlots(to) * ITEM_STACK_SIZE + room
          && ((to.parent != null || h.rooted) && room <= 0 ==> |to.itemlist| < to.maxSize))
    && (forall d :: d in S && (d == to || TopIs(to, h.rooted, d)) && d.box.Box? && d.box.depotLimit.Some? && !flags.noLimit ==>
          |Inside(d, S)| < d.box.depotLimit.value)
  }

  lemma FitsMeans(h: Payer, x: Item, flags: Flags, S: set<Item>)
    requires Valid(h, S) && CoinKind(x.kind) && x.attrs == map[] && !flags.childIsOwner
    requires x !in S && x.parent == null && x.itemlist == [] && x.anc == {} && x.totalWeight == 0 && !x.isContainer
    ensures Accepts(h.purse, h.rooted, INDEX_WHEREEVER, x, flags, S + {x}) <==> Fits(h, x.kind, x.count, flags, S)
  {
    ForestWith(x, S);
    var to, T := h.purse, S + {x};
    assert to.LinkedAt(S);
    forall d | d in S && (d == to || TopIs(to, h.rooted, d))
      ensures WithinLimit(d, h.rooted, x, x.count, flags, T) <==>
        (d.box.Box? && d.box.depotLimit.Some? && !flags.noLimit ==> |Inside(d, S)| < d.box.depotLimit.value)
    {
    }
    assert !TopIs(to, h.rooted, x);
  }

  /** A new stack of coins: to the holder who has room for it, or else to the ground. */
  method AddStack(h: Payer, ghost g: Payer, kind: ItemType, count: nat, flags: Flags, ghost S: set<Item>) returns (ghost T: set<Item>)
    requires Valid(g, S) && Measures(g, h)
    requires Valid(h, S) && CoinKind(kind) && 0 < count <= ITEM_STACK_SIZE && !flags.childIsOwner
    modifies S`kind, S`count, S`attrs, S`anc, S`totalWeight, h.purse`itemlist, h.ground`itemlist
    ensures Valid(h, T) && S <= T && fresh(T - S)
    ensures Total(Wealth(h, T)) == old(Total(Wealth(h, S))) + Unit(h, kind) * count
    ensures Valid(g, T) && Total(Wealth(g, T)) == old(Total(Wealth(g, S))) + Unit(g, kind) * count
    ensures OnlyStacks(h, Unit(h, kind), S)
    ensures var to := if old(Fits(h, kind, count, flags, S)) then h.purse else h.ground;
      Units(to.itemlist, kind, map[]) == old(Units(to.itemlist, kind, map[])) + count
  {
    hide Total, Wealth, Valid, Accepts, Fits, Units, Room;
    var x := CreateItem(kind, count);
    var remaindItem := new Item(x.value);
    assert remaindItem.kind == kind && remaindItem.count == count && Plain(remaindItem);
    T := S + {remaindItem};
    ValidWith(h, remaindItem, S);
    ValidWith(g, remaindItem, S);
    PayerIn(h, S);
    FitsMeans(h, remaindItem, flags, S);
    var r;
    r, T := AddTo(h, g, h.purse, h.rooted, flags, remaindItem, T);
    if !r.NoError? {
      GroundAccepts(h, remaindItem, T);
      r, T := AddTo(h, g, h.ground, false, Flags(true, false), remaindItem, T);
    }
  }

  lemma PayerIn(h: Payer, S: set<Item>)
    requires Valid(h, S)
    ensures h.purse in S && h.ground in S && h.purse.isContainer && h.ground.isContainer
  {
  }

  /** The inner loop of `addMoney`: some coins of one kind. */
  method AddCoins(h: Payer, ghost g: Payer, kind: ItemType, coins: nat, flags: Flags, ghost S: set<Item>) returns (ghost T: set<Item>)
    requires Valid(g, S) && Measures(g, h)
    requires Valid(h, S) && CoinKind(kind) && !flags.childIsOwner
    modifies S`kind, S`count, S`attrs, S`anc, S`totalWeight, h.purse`itemlist, h.ground`itemlist
    ensures Valid(h, T) && S <= T && fresh(T - S)
    ensures Total(Wealth(h, T)) == old(Total(Wealth(h, S))) + Unit(h, kind) * coins
    ensures Valid(g, T) && Total(Wealth(g, T)) == old(Total(Wealth(g, S))) + Unit(g, kind) * coins
    ensures OnlyStacks(h, Unit(h, kind), S)
  {
    hide Total, Wealth, Valid, Unit, CoinKind, Fits, Units;
    T := S;
    var currencyCoins := coins;
    while currencyCoins > 0
      invariant 0 <= currencyCoins <= coins && Valid(h, T) && S <= T && fresh(T - S)
      invariant Total(Wealth(h, T)) == old(Total(Wealth(h, S))) + Unit(h, kind) * (coins - currencyCoins)
      invariant Valid(g, T) && Total(Wealth(g, T)) == old(Total(Wealth(g, S))) + Unit(g, kind) * (coins - currencyCoins)
      invariant OnlyStacks(h, Unit(h, kind), S)
    {
      var count := if ITEM_STACK_SIZE < currencyCoins then ITEM_STACK_SIZE else currencyCoins;
      T := AddStack(h, g, kind, count, flags, T);
      Distribute(Unit(h, kind), coins - currencyCoins, count);
      Distribute(Unit(g, kind), coins - currencyCoins, count);
      currencyCoins := currencyCoins - count;
    }
  }

  /** What coins for some money measure, as many of each kind as go into what is left, the most valuable
      kind first. */
  function Given(g: Payer, currency: seq<(nat, ItemType)>, money: nat): nat
    requires forall k :: 0 <= k < |currency| ==> currency[k].0 > 0
  {
    if currency == [] then 0 else
      var worth, coins := currency[0].0, money / currency[0].0 % WORD;
      Coins(money, worth);
      Unit(g, currency[0].1) * coins + Given(g, currency[1..], money - coins * worth)
  }

  /** `addMoney`: what there is grows by exactly the money, in coins worth no more than it, if and only
      if the number of the most valuable coins fits into 32 bits; otherwise by less.  There are as few
      coins as possible, which any measure of the coins shows. */
  method AddMoney(h: Payer, ghost g: Payer, money: nat, flags: Flags, ghost S: set<Item>) returns (ghost T: set<Item>)
    requires Valid(g, S) && Measures(g, h)
    requires Valid(h, S) && CurrencyOk(h) && !flags.childIsOwner
    modifies S`kind, S`count, S`attrs, S`anc, S`totalWeight, h.purse`itemlist, h.ground`itemlist
    ensures Valid(h, T) && S <= T && fresh(T - S)
    ensures Valid(g, T) && Total(Wealth(g, T)) == old(Total(Wealth(g, S))) + Given(g, h.currency, money)
    ensures Total(Wealth(h, T)) <= old(Total(Wealth(h, S))) + money
    ensures Total(Wealth(h, T)) == old(Total(Wealth(h, S))) + money <==> money / h.currency[0].0 < WORD
    ensures OnlyStacks(h, money, S)
  {
    hide Total, Wealth, Valid, TooMany, Given, Unit, Rest;
    T := S;
    var left := money;
    assert h.currency[0..] == h.currency;
    RestFirst(h, money);
    for k := 0 to |h.currency|
      invariant 0 <= left <= money && Valid(h, T) && S <= T && fresh(T - S)
      invariant Total(Wealth(h, T)) == old(Total(Wealth(h, S))) + (money - left)
      invariant OnlyStacks(h, money, S)
      invariant Valid(g, T) && Total(Wealth(g, T)) ==
        old(Total(Wealth(g, S))) + (Given(g, h.currency, money) - Given(g, h.currency[k..], left))
      invariant Rest(h, k, money, left)
    {
      var (worth, kind) := h.currency[k];
      var currencyCoins := (left / worth) % WORD;
      GivenNext(g, h.currency, k, left);
      RestNext(h, k, money, left);
      if currencyCoins > 0 {
        left := left - currencyCoins * worth;
        T := AddCoins(h, g, kind, currencyCoins, flags, T);
      }
    }
    GivenNone(g, h.currency, left);
    RestLast(h, money, left);
  }

  /** What is left of the money when the first `k` kinds of coins were added. */
  predicate Rest(h: Payer, k: nat, money: nat, left: nat)
    requires k <= |h.currency| && forall j :: 0 <= j < |h.currency| ==> h.currency[j].0 > 0
  {
    if k == 0 then left == money else LeftOver(left, h.currency[k - 1].0, TooMany(money, h.currency[0].0))
  }

  lemma RestFirst(h: Payer, money: nat)
    requires CurrencyOk(h)
    ensures Rest(h, 0, money, money)
  {
  }

  lemma RestNext(h: Payer, k: nat, money: nat, left: nat)
    requires CurrencyOk(h) && k < |h.currency| && Rest(h, k, money, left)
    ensures var worth := h.currency[k].0; var coins := left / worth % WORD;
      0 <= left - coins * worth <= left && (coins > 0 ==> worth <= left) && Rest(h, k + 1, money, left - coins * worth)
  {
    CoinsFit(h);
    var worth := h.currency[k].0;
    Coins(left, worth);
    if k > 0 {
      CoinsNext(left, h.currency[k - 1].0, worth, TooMany(money, h.currency[0].0));
    }
  }

  lemma RestLast(h: Payer, money: nat, left: nat)
    requires CurrencyOk(h) && Rest(h, |h.currency|, money, left)
    ensures left == 0 <==> money / h.currency[0].0 < WORD
  {
  }

  lemma CoinsFit(h: Payer)
    requires CurrencyOk(h)
    ensures forall k :: 0 <= k < |h.currency| ==> 0 < h.currency[k].0 < WORD
  {
  }

  lemma GivenNext(g: Payer, currency: seq<(nat, ItemType)>, k: nat, left: nat)
    requires k < |currency| && forall j :: 0 <= j < |currency| ==> currency[j].0 > 0
    ensures var worth, coins := currency[k].0, left / currency[k].0 % WORD;
      0 <= left - coins * worth &&
      Given(g, currency[k..], left) == Unit(g, currency[k].1) * coins + Given(g, currency[k + 1..], left - coins * worth)
    ensures left / currency[k].0 % WORD == 0 ==> Unit(g, currency[k].1) * (left / currency[k].0 % WORD) == 0
  {
    Coins(left, currency[k].0);
    assert currency[k..][1..] == currency[k + 1..];
  }

  lemma GivenNone(g: Payer, currency: seq<(nat, ItemType)>, left: nat)
    requires forall j :: 0 <= j < |currency| ==> currency[j].0 > 0
    ensures currency[|currency|..] == [] && Given(g, currency[|currency|..], left) == 0
  {
  }

  /** One coin too many for 32 bits: some of the money is lost. */
  method TooMuchMoney(h: Payer, flags: Flags, ghost S: set<Item>) returns (money: nat, ghost T: set<Item>)
    requires Valid(h, S) && CurrencyOk(h) && !flags.childIsOwner
    modifies S`kind, S`count, S`attrs, S`anc, S`totalWeight, h.purse`itemlist, h.ground`itemlist
    ensures money > 0 && Valid(h, T) && Total(Wealth(h, T)) < old(Total(Wealth(h, S))) + money
  {
    hide Total, Wealth, Valid;
    money := WORD * h.currency[0].0;
    T := AddMoney(h, h, money, flags, S);
    Quotient(money, WORD, h.currency[0].0);
  }

  predicate TooMany(money: nat, worth: nat)
    requires worth > 0
  {
    money / worth >= WORD
  }

  /** What is left when coins of some worth were added. */
  predicate LeftOver(left: nat, worth: nat, tooMany: bool) {
    if tooMany then left >= WORD * worth else left < worth
  }

  lemma NotNegative(left: nat, worth: nat)
    requires worth > 0
    ensures left / worth >= 0
  {
  }

  /** The coins of one worth, as many of them as 32 bits say. */
  lemma Coins(left: nat, worth: nat)
    requires worth > 0
    ensures 0 <= left - (left / worth) % WORD * worth <= left
    ensures (left / worth) % WORD > 0 ==> worth <= left
    ensures LeftOver(left - (left / worth) % WORD * worth, worth, left / worth >= WORD)
  {
    NotNegative(left, worth);
    var q, r := left / worth, left % worth;
    var n, m := q % WORD, q / WORD;
    assert left == q * worth + r && q == m * WORD + n;
    Shares(m * WORD, n, worth);
    if q >= WORD {
      Bigger(WORD, m * WORD, worth);
    } else {
      assert m == 0 && n == q;
    }
    Bigger(0, m * WORD, worth);
    Bigger(0, n, worth);
    if n > 0 {
      Bigger(1, q, worth);
    }
  }

  lemma Shares(a: nat, b: nat, c: nat)
    ensures (a + b) * c == a * c + b * c
  {
  }

  lemma Bigger(a: nat, b: nat, c: nat)
    requires a <= b
    ensures a * c <= b * c
  {
  }

  /** Too many coins of one worth are too many of a smaller worth, too; and the other way round, as what
      is left is less than one of them, which is not too much for 32 bits. */
  lemma CoinsNext(left: nat, before: nat, worth: nat, tooMany: bool)
    requires 0 < worth < before < WORD && LeftOver(left, before, tooMany)
    ensures tooMany <==> left / worth >= WORD
  {
    if tooMany {
      Bigger(worth, before, WORD);
      Quotient(left, WORD, worth);
    } else {
      Quotient(left, 0, worth);
    }
  }

  lemma Quotient(left: nat, q: nat, worth: nat)
    requires worth > 0 && q * worth <= left
    ensures q <= left / worth <= left
  {
    var n, r := left / worth, left % worth;
    assert left == n * worth + r;
    if n < q {
      Bigger(n + 1, q, worth);
      Shares(n, 1, worth);
    }
    Bigger(1, worth, n);
  }

  // ----- taking money

  /** `n` units of one item are taken: what there is shrinks by what they are worth. */
  method TakeCoins(h: Payer, item: Item, n: nat, ghost S: set<Item>)
    requires Valid(h, S) && item in S && Within(item, h) && !item.isContainer
    requires 0 < n <= item.count && (!item.kind.stackable ==> n == item.count)
    modifies S`parent, S`count, S`itemlist, S`anc, S`totalWeight
    ensures Valid(h, S) && Total(Wealth(h, S)) == old(Total(Wealth(h, S))) - Unit(h, item.kind) * n
    ensures forall i {:trigger i.parent} {:trigger i.count} {:trigger i.anc} :: i in S && i != item ==>
      i.parent == old(i.parent) && i.count == old(i.count) && i.anc == old(i.anc)
    ensures if n == old(item.count) then item.parent == null else item.parent == old(item.parent) && item.count == old(item.count) - n
  {
    assert item.itemlist == [] && item.parent != null && item.count <= 255 by {
      assert item.LinkedAt(S) && ItemOk(h, item);
    }
    ValidMeans(h, S);
    ValidShape(h, S);
    ghost var shape := ShapeOf(S);
    hide Valid, Forest, Linked, Item.LinkedAt, Wealth, WealthWas, Total, ShapeOk, Unit, Stacked;
    var ok := RemoveLeaf(item, n, S);
    AfterTaking(h, item, n, shape, S);
  }

  /** One item less, or fewer units of it, and everything else as it was. */
  ghost predicate Taken(item: Item, n: nat, shape: Shape, S: set<Item>)
    reads S
  {
    && shape.parents.Keys == shape.ancs.Keys == shape.values.Keys == S && item in S && item.kind == shape.values[item].kind
    && n <= shape.values[item].count
    && (forall i :: i in S && i != item ==> i.parent == shape.parents[i] && i.anc == shape.ancs[i] && i.Value() == shape.values[i])
    && (item.parent == null ==> item.anc == {} && n == shape.values[item].count)
    && (item.parent != null ==> item.kind.stackable && item.parent == shape.parents[item] && item.anc == shape.ancs[item])
    && (item.parent != null ==> item.count == shape.values[item].count - n)
  }

  lemma AfterTaking(h: Payer, item: Item, n: nat, shape: Shape, S: set<Item>)
    requires Forest(S) && Taken(item, n, shape, S) && ShapeOk(h, shape) && !item.isContainer
    requires h.purse in shape.ancs[item] || h.ground in shape.ancs[item]
    ensures Valid(h, S) && Total(Wealth(h, S)) == Total(WealthWas(h, shape)) - Unit(h, item.kind) * n
  {
    hide Total, Valid, Forest, ShapeOk, Linked, Wealth, WealthWas;
    TakenValid(h, item, n, shape, S);
    WealthApart(h, item, n, shape, S);
    TotalWithout(WealthWas(h, shape), item);
    if item in Wealth(h, S) {
      TotalWithout(Wealth(h, S), item);
    }
  }

  /** Taking changes the wealth at one item only. */
  lemma WealthApart(h: Payer, item: Item, n: nat, shape: Shape, S: set<Item>)
    requires Taken(item, n, shape, S) && !item.isContainer
    requires h.purse in shape.ancs[item] || h.ground in shape.ancs[item]
    ensures var now, was := Wealth(h, S), WealthWas(h, shape);
      && now - {item} == was - {item} && item in was
      && (item in now ==> now[item] == was[item] - Unit(h, item.kind) * n)
      && (item !in now ==> now - {item} == now && was[item] == Unit(h, item.kind) * n)
  {
    hide Unit;
    var now, was := Wealth(h, S), WealthWas(h, shape);
    assert now - {item} == was - {item};
    Distribute(Unit(h, item.kind), n, shape.values[item].count - n);
    if item !in now {
      assert now - {item} == now;
    }
  }

  lemma TakenValid(h: Payer, item: Item, n: nat, shape: Shape, S: set<Item>)
    requires Forest(S) && Taken(item, n, shape, S) && ShapeOk(h, shape) && !item.isContainer
    ensures Valid(h, S)
  {
    hide CachedAll;
    forall i | i in S
      ensures Within(i, h) ==> ItemOk(h, i)
      ensures (i in h.purse.itemlist || i in h.ground.itemlist) && i.kind.stackable ==> i.count <= ITEM_STACK_SIZE
    {
      assert h.purse.LinkedAt(S) && h.ground.LinkedAt(S);
    }
  }

  // ----- collecting the coins

  type MoneyMap = seq<(nat, Item)>

  function Worths(m: MoneyMap): (s: seq<int>)
    ensures |s| == |m|
  {
    seq(|m|, k requires 0 <= k < |m| => m[k].0)
  }

  ghost predicate Sorted(m: MoneyMap) {
    forall j, k :: 0 <= j < k < |m| ==> m[j].0 <= m[k].0
  }

  ghost predicate Entry(h: Payer, e: (nat, Item), S: set<Item>)
    reads e.1
  {
    e.1 in S && h.purse in e.1.anc && !e.1.isContainer && e.0 == Worth(h, e.1) && e.0 > 0
  }

  /** Sorted entries for different items, all of worth and in the purse. */
  ghost predicate Listed(h: Payer, m: MoneyMap, S: set<Item>)
    reads S
  {
    && Sorted(m) && (forall j, k :: 0 <= j < k < |m| ==> m[j].1 != m[k].1)
    && (forall k :: 0 <= k < |m| ==> m[k].1 in S && Entry(h, m[k], S))
  }

  /** `multimap::emplace`: behind all entries that are worth no more. */
  method Emplace(m: MoneyMap, worth: nat, item: Item) returns (now: MoneyMap, ghost at: nat)
    requires Sorted(m)
    ensures at <= |m| && now == Inserted(m, at, (worth, item)) && Sorted(now)
  {
    var k := |m|;
    while k > 0 && m[k - 1].0 > worth
      invariant 0 <= k <= |m| && forall j :: k <= j < |m| ==> m[j].0 > worth
    {
      k := k - 1;
    }
    now, at := Inserted(m, k, (worth, item)), k;
  }

  lemma WorthsInsert(m: MoneyMap, k: nat, worth: nat, item: Item)
    requires k <= |m|
    ensures Sum(Worths(Inserted(m, k, (worth, item)))) == Sum(Worths(m)) + worth
  {
    SumInsert(Worths(m), k, worth);
    assert Worths(Inserted(m, k, (worth, item))) == Inserted(Worths(m), k, worth);
  }

  /** The holder can pay with it. */
  ghost predicate Pays(h: Payer, i: Item, S: set<Item>)
    reads i
  {
    i in S && h.purse in i.anc && !i.isContainer && Worth(h, i) > 0
  }

  /** What was listed so far is what is worth something of what was met. */
  ghost predicate Collected(h: Payer, met: seq<Item>, m: MoneyMap, S: set<Item>)
    reads S
  {
    && Listed(h, m, S) && (forall k :: 0 <= k < |m| ==> m[k].1 in met)
    && (forall i :: i in met && i in S && h.purse in i.anc && !i.isContainer && Worth(h, i) > 0 ==>
          exists k :: 0 <= k < |m| && m[k].1 == i)
  }

  lemma CollectSkip(h: Payer, met: seq<Item>, m: MoneyMap, item: Item, S: set<Item>)
    requires Collected(h, met, m, S) && (item.isContainer || Worth(h, item) == 0)
    ensures Collected(h, met + [item], m, S)
  {
  }

  lemma ItemEntry(h: Payer, item: Item, S: set<Item>)
    requires item in S && h.purse in item.anc && !item.isContainer && Worth(h, item) > 0
    ensures Entry(h, (Worth(h, item), item), S)
  {
  }

  lemma ListedMore(h: Payer, m: MoneyMap, at: nat, e: (nat, Item), S: set<Item>)
    requires Listed(h, m, S) && at <= |m| && Sorted(Inserted(m, at, e)) && e.1 in S && Entry(h, e, S)
    requires forall k :: 0 <= k < |m| ==> m[k].1 != e.1
    ensures Listed(h, Inserted(m, at, e), S)
  {
    hide Sorted, Entry;
    var now := Inserted(m, at, e);
    forall k | 0 <= k < |now|
      ensures now[k] == if k < at then m[k] else if k == at then e else m[k - 1]
    {
    }
    forall j, k | 0 <= j < k < |now|
      ensures now[j].1 != now[k].1
    {
    }
  }

  lemma CollectOne(h: Payer, met: seq<Item>, m: MoneyMap, at: nat, item: Item, S: set<Item>)
    requires Collected(h, met, m, S) && item in S && item !in met && h.purse in item.anc && !item.isContainer
    requires at <= |m| && Worth(h, item) > 0 && Sorted(Inserted(m, at, (Worth(h, item), item)))
    ensures Collected(h, met + [item], Inserted(m, at, (Worth(h, item), item)), S)
  {
    hide Sorted, Entry, Worth;
    var e, full := (Worth(h, item), item), met + [item];
    var now := Inserted(m, at, e);
    ItemEntry(h, item, S);
    ListedMore(h, m, at, e, S);
    forall k | 0 <= k < |now|
      ensures now[k].1 in full
    {
      assert now[k] == if k < at then m[k] else if k == at then e else m[k - 1];
    }
    forall i | i in full && i in S && h.purse in i.anc && !i.isContainer && Worth(h, i) > 0
      ensures exists k :: 0 <= k < |now| && now[k].1 == i
    {
      if i == item {
        assert now[at].1 == i;
      } else {
        var k :| 0 <= k < |m| && m[k].1 == i;
        assert now[if k < at then k else k + 1].1 == i;
      }
    }
  }

  lemma {:induction false} ZeroTotal<K>(m: map<K, int>)
    requires forall k :: k in m ==> m[k] == 0
    ensures Total(m) == 0
    decreases |m|
  {
    if m != map[] {
      var k :| k in m && Total(m) == m[k] + Total(m - {k});
      ZeroTotal(m - {k});
    }
  }

  /** A list of different keys of a map that leaves out only zeros sums up to the map. */
  lemma {:induction false} ListTotal(m: MoneyMap, all: map<Item, int>)
    requires forall j, k :: 0 <= j < k < |m| ==> m[j].1 != m[k].1
    requires forall k :: 0 <= k < |m| ==> m[k].1 in all && all[m[k].1] == m[k].0
    requires forall i :: i in all && all[i] != 0 ==> exists k :: 0 <= k < |m| && m[k].1 == i
    ensures Sum(Worths(m)) == Total(all)
  {
    if m == [] {
      ZeroTotal(all);
    } else {
      var x, rest := m[0].1, m[1..];
      TotalWithout(all, x);
      forall k | 0 <= k < |rest|
        ensures rest[k].1 in all - {x}
      {
        assert rest[k] == m[k + 1];
      }
      forall i | i in all - {x} && all[i] != 0
        ensures exists k :: 0 <= k < |rest| && rest[k].1 == i
      {
        var k :| 0 <= k < |m| && m[k].1 == i;
        assert rest[k - 1].1 == i;
      }
      ListTotal(rest, all - {x});
      assert Worths(m)[1..] == Worths(rest);
    }
  }

  /** `getWorth`, as an unsigned 32-bit number. */
  method GetWorth(h: Payer, i: Item) returns (worth: nat)
    requires i.count <= 255 && forall id :: id in h.worthOf ==> h.worthOf[id] * 255 < WORD
    ensures worth == Worth(h, i)
  {
    hide Unit;
    worth := Unit(h, i.kind) * i.count % WORD;
    UnitFits(h, i.kind);
    Product(Unit(h, i.kind), i.count);
  }

  lemma UnitFits(h: Payer, kind: ItemType)
    requires forall id :: id in h.worthOf ==> h.worthOf[id] * 255 < WORD
    ensures Unit(h, kind) * 255 < WORD
  {
  }

  lemma Product(unit: nat, count: nat)
    requires unit * 255 < WORD && count <= 255
    ensures 0 <= unit * count < WORD
  {
    Bigger(count, 255, unit);
  }

  /** One content list: containers are queued, what is worth something is listed. */
  method CollectFrom(h: Payer, items: seq<Item>, queue: seq<Item>, i: nat, listed: MoneyMap, sum: nat,
                     ghost seen: seq<Item>, ghost S: set<Item>)
    returns (containers: seq<Item>, moneyMap: MoneyMap, moneyCount: nat, ghost met: seq<Item>)
    requires Valid(h, S) && CurrencyOk(h) && i <= |queue| && |seen| <= |S|
    requires Searching([h.purse], seen, items, queue[i..], S) && Collected(h, seen, listed, S) && sum == Sum(Worths(listed))
    ensures i <= |containers| && (items == [] ==> containers == queue) && |met| == |seen| + |items| <= |S|
    ensures Searching([h.purse], met, [], containers[i..], S) && Collected(h, met, moneyMap, S)
    ensures moneyCount == Sum(Worths(moneyMap))
  {
    hide Valid, Searching, Collected, Sorted, Item.LinkedAt, Sum, CurrencyOk, Unit, Worth;
    containers, moneyMap, moneyCount, met := queue, listed, sum, seen;
    assert items[0..] == items;
    for k := 0 to |items|
      invariant i <= |containers| && (k == 0 ==> containers == queue) && |met| == |seen| + k <= |S|
      invariant Searching([h.purse], met, items[k..], containers[i..], S) && Collected(h, met, moneyMap, S)
      invariant moneyCount == Sum(Worths(moneyMap))
    {
      var item := items[k];
      assert items[k..][0] == item && items[k..][1..] == items[k + 1..];
      MeetNext([h.purse], met, items[k..], containers[i..], S);
      assert h.purse in item.anc;
      ItemFacts(h, item, S);
      if item.isContainer {
        CollectSkip(h, met, moneyMap, item, S);
        assert (containers + [item])[i..] == containers[i..] + [item];
        containers := containers + [item];
      } else {
        var worth := GetWorth(h, item) by {
          WorthsFit(h);
        }
        if worth != 0 {
          CollectedSorted(h, met, moneyMap, S);
          ghost var before, at := moneyMap, 0;
          moneyMap, at := Emplace(moneyMap, worth, item);
          CollectOne(h, met, before, at, item, S);
          WorthsInsert(before, at, worth, item);
          moneyCount := moneyCount + worth;
        } else {
          CollectSkip(h, met, moneyMap, item, S);
        }
      }
      met := met + [item];
    }
    assert items[|items|..] == [];
  }

  lemma WorthsFit(h: Payer)
    requires CurrencyOk(h)
    ensures forall id :: id in h.worthOf ==> h.worthOf[id] * 255 < WORD
  {
  }

  lemma ItemFacts(h: Payer, item: Item, S: set<Item>)
    requires Valid(h, S) && item in S && h.purse in item.anc
    ensures item.count <= 255 && (!item.isContainer ==> item.itemlist == [])
  {
    assert ItemOk(h, item) && item.LinkedAt(S);
  }

  lemma CollectedSorted(h: Payer, met: seq<Item>, m: MoneyMap, S: set<Item>)
    requires Collected(h, met, m, S)
    ensures Sorted(m) && Listed(h, m, S)
  {
  }

  /** The first half of `removeMoney`: all that is worth something, from the holder's own places and
      from every container in them, and what it is worth together. */
  method CollectCoins(h: Payer, ghost S: set<Item>) returns (moneyMap: MoneyMap, moneyCount: nat)
    requires Valid(h, S) && CurrencyOk(h)
    ensures Listed(h, moneyMap, S) && moneyCount == Sum(Worths(moneyMap)) == Total(Purse(h, S))
    ensures forall i :: Pays(h, i, S) ==> exists k :: 0 <= k < |moneyMap| && moneyMap[k].1 == i
  {
    hide Valid, Searching, Collected, Sorted, Item.LinkedAt, Sum, CurrencyOk, Total;
    ghost var roots := [h.purse];
    PurseRoot(h, S);
    StartSearch(roots, S);
    PopContainer(roots, roots, roots, S);
    assert roots[1..] == [] && [][0..] == roots[1..];
    var containers: seq<Item>, i := [], 0;
    ghost var met;
    containers, moneyMap, moneyCount, met := CollectFrom(h, h.purse.itemlist, [], 0, [], 0, roots, S);
    while i < |containers|
      invariant i <= |containers| && |met| <= |S| && moneyCount == Sum(Worths(moneyMap))
      invariant Searching(roots, met, [], containers[i..], S) && Collected(h, met, moneyMap, S)
      decreases |S| - |met|, |containers| - i
    {
      var container := containers[i];
      PopContainer(roots, met, containers[i..], S);
      assert containers[i..][1..] == containers[i + 1..];
      i := i + 1;
      containers, moneyMap, moneyCount, met := CollectFrom(h, container.itemlist, containers, i, moneyMap, moneyCount, met, S);
    }
    assert containers[i..] == [];
    AllCollected(h, met, moneyMap, S);
  }

  lemma PurseRoot(h: Payer, S: set<Item>)
    requires Valid(h, S)
    ensures Roots([h.purse], S) && Collected(h, [h.purse], [], S) && Sum(Worths([])) == 0
  {
    assert h.purse.LinkedAt(S);
  }

  lemma AllCollected(h: Payer, met: seq<Item>, m: MoneyMap, S: set<Item>)
    requires Searching([h.purse], met, [], [], S) && Collected(h, met, m, S)
    ensures Listed(h, m, S) && Sum(Worths(m)) == Total(Purse(h, S))
    ensures forall i :: Pays(h, i, S) ==> exists k :: 0 <= k < |m| && m[k].1 == i
  {
    MetAll([h.purse], met, S);
    forall i | i in Purse(h, S)
      ensures i in met
    {
      assert h.purse in [h.purse] && FromRoot([h.purse], i);
    }
    forall i | Pays(h, i, S)
      ensures exists k :: 0 <= k < |m| && m[k].1 == i
    {
      assert i in Purse(h, S);
    }
    forall k | 0 <= k < |m|
      ensures m[k].1 in Purse(h, S) && Purse(h, S)[m[k].1] == m[k].0
    {
      assert Entry(h, m[k], S);
    }
    ListTotal(m, Purse(h, S));
  }

  // ----- paying

  /** The coin that is broken: how many of it make up the money, and that the change is less than one. */
  lemma Change(money: nat, unit: nat, count: nat)
    requires 0 < money < unit * count
    ensures unit > 0
    ensures var n := (money + unit - 1) / unit; 0 < n <= count && 0 <= unit * n - money < unit
  {
    var n := (money + unit - 1) / unit;
    assert unit * n <= money + unit - 1 < unit * n + unit;
    Distribute(unit, count, n - count);
    if n > count {
      AtLeast(n - count, unit);
    }
    if n <= 0 {
      AtLeast(1 - n, unit);
      Distribute(unit, n, 1 - n);
    }
  }

  lemma UnitOf(unit: nat, count: nat)
    requires unit * count > 0
    ensures count > 0 && (unit * count) / count == unit
  {
    var p := unit * count;
    assert p == (p / count) * count + p % count;
    var d := unit - p / count;
    Distribute(count, p / count, d);
    if d >= 1 {
      AtLeast(d, count);
    }
    if d <= -1 {
      AtLeast(-d, count);
    }
  }

  lemma AtLeast(d: int, b: nat)
    requires d >= 1
    ensures d * b >= b
  {
  }

  /** The entries from `k` on are as they were listed. */
  ghost predicate Ahead(h: Payer, m: MoneyMap, k: nat, S: set<Item>)
    reads S
  {
    && (forall i, j :: 0 <= i < j < |m| ==> m[i].1 != m[j].1)
    && forall j :: k <= j < |m| ==> m[j].1 in S && Entry(h, m[j], S)
  }

  /** The loop over the listed coins, the cheapest first: an entry that does not suffice is used up,
      the one that does is broken, and its change given.  There always is one that does. */
  method PayWith(h: Payer, moneyMap: MoneyMap, price: nat, flags: Flags, ghost S: set<Item>) returns (ghost T: set<Item>, ghost n: nat)
    requires Valid(h, S) && CurrencyOk(h) && !flags.childIsOwner
    requires Listed(h, moneyMap, S) && 0 < price <= Sum(Worths(moneyMap))
    modifies S`kind, S`parent, S`count, S`itemlist, S`attrs, S`anc, S`totalWeight
    ensures Valid(h, T) && S <= T && fresh(T - S)
    ensures Total(Wealth(h, T)) == old(Total(Wealth(h, S))) - price
    ensures n < |moneyMap| && forall k :: 0 <= k < n ==> moneyMap[k].1.parent == null
    ensures forall i :: i in S && i.parent == old(i.parent) && i.count >= old(i.count) ==>
      forall k :: 0 <= k < n ==> i != moneyMap[k].1
    ensures forall i :: i in S && (i.parent != old(i.parent) || i.count < old(i.count)) ==>
      exists k :: 0 <= k <= n && i == moneyMap[k].1
  {
    hide Total, Wealth, Valid, CurrencyOk, Sorted, Unit, ItemOk;
    T, n := S, 0;
    ListedHeld(h, moneyMap, S);
    var money, k := price, 0;
    assert moneyMap[0..] == moneyMap;
    SomeLeft(moneyMap, 0);
    while k < |moneyMap|
      invariant 0 <= k < |moneyMap| && Valid(h, S) && T == S
      invariant 0 < money <= Sum(Worths(moneyMap[k..])) && Total(Wealth(h, S)) == old(Total(Wealth(h, S))) - (price - money)
      invariant Ahead(h, moneyMap, k, S) && n == k
      invariant forall j :: 0 <= j < k ==> moneyMap[j].1.parent == null
      invariant forall i :: i in S ==> (i.parent == old(i.parent) && i.count == old(i.count)) || exists j :: 0 <= j < k && i == moneyMap[j].1
    {
      var (first, item) := moneyMap[k];
      SumSplit(moneyMap, k);
      assert Entry(h, moneyMap[k], S);
      CoinFacts(h, item, S);
      if first < money {
        TakeCoins(h, item, item.count, S);
        money := money - first;
      } else if first > money {
        T := BreakCoin(h, item, money, flags, S);
        return;
      } else {
        TakeCoins(h, item, item.count, S);
        return;
      }
      k := k + 1;
      n := k;
      SomeLeft(moneyMap, k);
    }
  }

  lemma ListedHeld(h: Payer, m: MoneyMap, S: set<Item>)
    requires Valid(h, S) && Listed(h, m, S)
    ensures forall k :: 0 <= k < |m| ==> m[k].1 in S && m[k].1.parent != null
  {
    forall k | 0 <= k < |m|
      ensures m[k].1 in S && m[k].1.parent != null
    {
      assert m[k].1.LinkedAt(S);
    }
  }

  lemma SomeLeft(m: MoneyMap, k: nat)
    requires k <= |m| && Sum(Worths(m[k..])) > 0
    ensures k < |m|
  {
  }

  lemma SumSplit(m: MoneyMap, k: nat)
    requires k < |m|
    ensures Sum(Worths(m[k..])) == m[k].0 + Sum(Worths(m[k + 1..]))
  {
    assert Worths(m[k..])[1..] == Worths(m[k + 1..]);
  }

  lemma CoinFacts(h: Payer, item: Item, S: set<Item>)
    requires Valid(h, S) && item in S && h.purse in item.anc && Worth(h, item) > 0
    ensures item.count > 0 && Worth(h, item) / item.count == Unit(h, item.kind) > 0
    ensures !item.kind.stackable ==> item.count == 1
    ensures item != h.purse && item != h.ground
  {
    assert ItemOk(h, item);
    UnitOf(Unit(h, item.kind), item.count);
    assert h.purse.LinkedAt(S) && h.ground.LinkedAt(S);
  }

  /** Break one stack: give the change, then take as many coins as make up the money and the change. */
  method BreakCoin(h: Payer, item: Item, money: nat, flags: Flags, ghost S: set<Item>) returns (ghost T: set<Item>)
    requires Valid(h, S) && CurrencyOk(h) && !flags.childIsOwner
    requires item in S && h.purse in item.anc && !item.isContainer && 0 < money < Worth(h, item)
    modifies S`kind, S`parent, S`count, S`itemlist, S`attrs, S`anc, S`totalWeight
    ensures Valid(h, T) && S <= T && fresh(T - S)
    ensures Total(Wealth(h, T)) == old(Total(Wealth(h, S))) - money
    ensures item.parent == null || (item.parent == old(item.parent) && item.count < old(item.count))
    ensures forall i :: i in S && i != item ==> i.parent == old(i.parent) && i.count >= old(i.count)
  {
    CoinFacts(h, item, S);
    PayerIn(h, S);
    hide Total, Wealth, Valid, CurrencyOk, Sorted, ItemOk;
    ChangeFits(h, item.kind);
    var removeCount, change := ToBreak(Unit(h, item.kind) * item.count, item.count, money, Unit(h, item.kind));
    ChangeCounted(h, change);
    T := AddMoney(h, h, change, flags, S);
    assert item.count == old(item.count);
    TakeCoins(h, item, removeCount, T);
  }

  lemma ChangeFits(h: Payer, kind: ItemType)
    requires CurrencyOk(h)
    ensures Unit(h, kind) < WORD
  {
  }

  /** How many coins of a stack that is worth `first` have to go, and what comes back. */
  method ToBreak(first: nat, count: nat, money: nat, ghost unit: nat) returns (removeCount: nat, change: nat)
    requires first == unit * count && 0 < money < first
    ensures 0 < removeCount <= count && change == unit * removeCount - money && change < unit
  {
    Change(money, unit, count);
    var worth := first / count;
    UnitOf(unit, count);
    removeCount := (money + worth - 1) / worth;
    change := worth * removeCount - money;
  }

  lemma ChangeCounted(h: Payer, change: nat)
    requires CurrencyOk(h) && change < WORD
    ensures h.currency != [] && h.currency[0].0 > 0 && change / h.currency[0].0 < WORD
  {
    Quotient(change, 0, h.currency[0].0);
  }

  /** `removeMoney`: it succeeds if and only if the holder has enough, and then what the holder and
      the ground have together shrinks by exactly the price; otherwise nothing happens.  The cheapest
      goes first: whatever is taken from, all that is worth less is gone. */
  method RemoveMoney(h: Payer, price: nat, flags: Flags, ghost S: set<Item>) returns (ok: bool, ghost T: set<Item>)
    requires Valid(h, S) && CurrencyOk(h) && !flags.childIsOwner
    modifies S`kind, S`parent, S`count, S`itemlist, S`attrs, S`anc, S`totalWeight
    ensures ok <==> price <= old(Total(Purse(h, S)))
    ensures !ok ==> T == S && unchanged(S)
    ensures Valid(h, T) && S <= T && fresh(T - S)
    ensures ok ==> Total(Wealth(h, T)) == old(Total(Wealth(h, S))) - price
    ensures forall i, j :: i in S && j in S && old(Pays(h, i, S)) && (j.parent != old(j.parent) || j.count < old(j.count)) ==>
      old(Pays(h, j, S)) && (old(Worth(h, i)) < old(Worth(h, j)) ==> i.parent == null)
  {
    PurseNotNegative(h, S);
    hide Total, Wealth, Purse, Valid, CurrencyOk, Worth, Pays, Listed, Sum;
    T := S;
    ghost var pays := set i | i in S && Pays(h, i, S);
    ghost var worth := map i | i in S :: Worth(h, i);
    if price == 0 {
      return true, T;
    }
    var moneyMap, moneyCount := CollectCoins(h, S);
    if moneyCount < price {
      return false, T;
    }
    CheaperFirst(h, moneyMap, S);
    assert forall i :: i in pays ==> Pays(h, i, S);
    ghost var n;
    T, n := PayWith(h, moneyMap, price, flags, S);
    ok := true;
    forall i, j | i in S && j in S && old(Pays(h, i, S)) && (j.parent != old(j.parent) || j.count < old(j.count))
      ensures old(Pays(h, j, S)) && (old(Worth(h, i)) < old(Worth(h, j)) ==> i.parent == null)
    {
      assert i in pays;
      var a :| 0 <= a < |moneyMap| && moneyMap[a].1 == i;
      var b :| 0 <= b <= n && j == moneyMap[b].1;
      assert moneyMap[a].0 < moneyMap[b].0 ==> a < b;
    }
  }

  lemma CheaperFirst(h: Payer, m: MoneyMap, S: set<Item>)
    requires Listed(h, m, S)
    ensures forall k :: 0 <= k < |m| ==> Pays(h, m[k].1, S) && Worth(h, m[k].1) == m[k].0
    ensures forall a, b :: 0 <= a < |m| && 0 <= b < |m| && m[a].0 < m[b].0 ==> a < b
  {
    hide Worth;
    forall k | 0 <= k < |m|
      ensures Pays(h, m[k].1, S) && Worth(h, m[k].1) == m[k].0
    {
      assert Entry(h, m[k], S);
    }
  }

  lemma PurseNotNegative(h: Payer, S: set<Item>)
    ensures Total(Purse(h, S)) >= 0
  {
    TotalAtLeast(Purse(h, S));
  }
}
