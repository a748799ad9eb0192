/** The item world: items nest in containers, every item knows its parent, and every
    container caches the weight of its contents in an unsigned 32-bit counter.

    A forest is a set `S` of items that is closed under parents and contents.  The ghost field
    `anc` of an item is the set of containers around it; with it the whole shape is described by
    conditions on one item at a time, and the parent chain is finite and acyclic. */
module ItemForest {
  import opened Wrappers
  import opened Items
  import opened Streams

  const WORD: int := 0x1_0000_0000

  /** The value an unsigned 32-bit variable keeps of a number. */
  function Wrap(n: int): int {
    n % WORD
  }

  /** `n * k`, by addition. */
  function Times(n: nat, k: nat): nat {
    if k == 0 then 0 else n + Times(n, k - 1)
  }

  lemma {:induction false} TimesIs(n: nat, k: nat)
    ensures Times(n, k) == n * k
  {
    if k > 0 {
      TimesIs(n, k - 1);
    }
  }

  class Item {
    var kind: ItemType
    var count: nat
    var attrs: Attributes
    const box: Box
    const isContainer: bool := box.Box?
    const maxSize: nat := if box.Box? then box.maxSize else 0
    var parent: Item?
    var itemlist: seq<Item>
    var totalWeight: int
    ghost var anc: set<Item>

    constructor (x: ItemValue)
      ensures Value() == x && box == x.kind.box
      ensures parent == null && itemlist == [] && totalWeight == 0 && anc == {}
    {
      kind, count, attrs, box := x.kind, x.count, x.attrs, x.kind.box;
      parent, itemlist, totalWeight, anc := null, [], 0, {};
    }

    /** The item without its place in the world. */
    function Value(): ItemValue
      reads this
    {
      ItemValue(kind, count, attrs)
    }

    /** `getBaseWeight`: the weight attribute, if there is one, as an unsigned 32-bit number. */
    function BaseWeight(): nat
      reads this
    {
      if WEIGHT in attrs then Cast(GetInt(attrs, WEIGHT), 4) else kind.weight
    }

    function OwnWeight(): int
      reads this
    {
      if kind.stackable then Times(BaseWeight(), if count < 1 then 1 else count) else BaseWeight()
    }

    /** An item weighs what its type or its own weight attribute says, and a stack as often as it has
        units, at least once. */
    lemma OwnWeightMeans()
      ensures OwnWeight() == (if WEIGHT in attrs then Cast(GetInt(attrs, WEIGHT), 4) else kind.weight) *
        (if !kind.stackable || count < 1 then 1 else count)
      ensures Weight() == (OwnWeight() + totalWeight) % 0x1_0000_0000
    {
      TimesIs(BaseWeight(), if count < 1 then 1 else count);
    }

    /** `getWeight`: a container adds its cached contents weight to its own. */
    function Weight(): int
      reads this
    {
      Wrap(OwnWeight() + totalWeight)
    }

    /** `getThingIndex` */
    method GetThingIndex(thing: Item) returns (index: int)
      ensures thing !in itemlist ==> index == -1
      ensures thing in itemlist ==> 0 <= index < |itemlist| && itemlist[index] == thing
    {
      index := 0;
      while index < |itemlist|
        invariant 0 <= index <= |itemlist|
        invariant thing !in itemlist[..index]
      {
        if itemlist[index] == thing {
          return;
        }
        index := index + 1;
      }
      index := -1;
    }

    /** The walk up the parents that `queryAdd` makes before it lets a thing in. */
    method IsInside(thing: Item, ghost S: set<Item>) returns (inside: bool)
      requires Linked(S) && this in S
      ensures inside <==> thing in anc
    {
      var p := parent;
      assert LinkedAt(S);
      while p != null
        invariant p != null ==> p in S
        invariant thing in anc <==> p != null && (thing == p || thing in p.anc)
        decreases if p == null then {} else p.anc + {p}
      {
        if p == thing {
          return true;
        }
        assert p.LinkedAt(S);
        p := p.parent;
      }
      return false;
    }

    /** `updateItemWeight`: add a difference here and in every container above. */
    method UpdateItemWeight(diff: int, ghost S: set<Item>)
      requires Linked(S) && this in S
      requires forall i {:trigger i.Cached(S)} :: i in S && i != this ==> i.Cached(S)
      requires Wrap(totalWeight + diff) == Wrap(SumWeights(itemlist))
      modifies S`totalWeight
      ensures Linked(S) && CachedAll(S)
      ensures forall i :: i in S && i != this && i !in anc ==> i.totalWeight == old(i.totalWeight)
      decreases anc
    {
      hide Item.LinkedAt, Linked, Wrap, Times, GetInt;
      ParentAbove(S);
      totalWeight := Wrap(totalWeight + diff);
      SameShape(S);
      OthersCached(S);
      if parent != null {
        assert old(parent.Cached(S));
        ParentWeights(S);
        WrapDiff(old(SumWeights(parent.itemlist)), old(totalWeight), diff);
        parent.UpdateItemWeight(diff, S);
      }
    }

    /** A new value in this container's counter leaves all caches but its own and its parent's alone. */
    twostate lemma OthersCached(S: set<Item>)
      requires this in S && Linked(S)
      requires forall i :: i in S ==> i.itemlist == old(i.itemlist)
      requires forall i :: i in S && i != this ==> i.Weight() == old(i.Weight()) && i.totalWeight == old(i.totalWeight)
      ensures SumWeights(itemlist) == old(SumWeights(itemlist))
      ensures forall i {:trigger i.Cached(S)} ::
        i in S && i != this && i != parent && old(i.Cached(S)) ==> i.Cached(S)
    {
      assert LinkedAt(S);
      assert Weights(itemlist) == old(Weights(itemlist));
      forall i | i in S && i != parent
        ensures SumWeights(i.itemlist) == old(SumWeights(i.itemlist))
      {
        assert i.LinkedAt(S);
        assert Weights(i.itemlist) == old(Weights(i.itemlist));
      }
    }

    lemma ParentAbove(S: set<Item>)
      requires this in S && Linked(S)
      ensures this !in anc && (forall c :: c in itemlist ==> c in S && c != this)
      ensures parent != null ==> parent in S && parent != this && parent !in parent.anc && anc == parent.anc + {parent}
    {
      assert LinkedAt(S);
      if parent != null {
        assert parent.LinkedAt(S);
      }
      forall c | c in itemlist
        ensures c != this
      {
        assert c.LinkedAt(S);
      }
    }

    lemma PlaceInParent(S: set<Item>) returns (k: nat)
      requires this in S && Linked(S) && parent != null
      ensures k < |parent.itemlist| && parent.itemlist[k] == this
      ensures forall j :: 0 <= j < |parent.itemlist| ==> parent.itemlist[j] in S && (j != k ==> parent.itemlist[j] != this)
    {
      assert LinkedAt(S) && parent.LinkedAt(S);
      k :| 0 <= k < |parent.itemlist| && parent.itemlist[k] == this;
    }

    /** The parent's contents weigh as much more as this container's counter moved. */
    twostate lemma ParentWeights(S: set<Item>)
      requires this in S && Linked(S) && parent != null && parent == old(parent)
      requires parent.itemlist == old(parent.itemlist) && OwnWeight() == old(OwnWeight())
      requires forall i :: i in S && i != this ==> i.Weight() == old(i.Weight())
      ensures Wrap(SumWeights(parent.itemlist)) ==
              Wrap(old(SumWeights(parent.itemlist)) - old(totalWeight) + totalWeight)
    {
      hide Item.LinkedAt, Linked, Wrap, Sum, OwnWeight, NoDup;
      var before := old(Weights(parent.itemlist));
      var k := PlaceInParent(S);
      assert Weights(parent.itemlist) == before[k := Weight()];
      SumUpdate(before, k, Weight());
      WrapShift(Sum(before), OwnWeight(), old(totalWeight), totalWeight);
    }

    /** What happens to this container's children leaves all other caches alone. */
    twostate lemma CachedElsewhere(S: set<Item>)
      requires this in S && Linked(S)
      requires forall i :: i in S && i != this ==> i.itemlist == old(i.itemlist) && i.totalWeight == old(i.totalWeight)
      requires forall c :: c in S && c.parent != this ==> c.Weight() == old(c.Weight())
      ensures forall i {:trigger i.Cached(S)} :: i in S && i != this && old(i.Cached(S)) ==> i.Cached(S)
    {
      forall i | i in S && i != this && old(i.Cached(S))
        ensures i.Cached(S)
      {
        assert i.LinkedAt(S);
        assert Weights(i.itemlist) == old(Weights(i.itemlist));
      }
    }

    /** `setParent` and a new content list that has `item` somewhere in it. */
    method Attach(item: Item, list: seq<Item>, ghost S: set<Item>)
      requires Linked(S) && this in S && item in S && isContainer
      requires item.parent == null && item != this && item !in anc
      requires NoDup(list) && forall c :: c in list <==> c in itemlist || c == item
      modifies item`parent, this`itemlist, S`anc
      ensures Linked(S) && item.parent == this && itemlist == list
      ensures forall i {:trigger i.anc} :: i in S ==>
        i.anc == (if i == item || item in old(i.anc) then old(i.anc) + old(anc) + {this} else old(i.anc))
    {
      assert LinkedAt(S) && item.LinkedAt(S);
      item.parent := this;
      itemlist := list;
      forall i | i in S && (i == item || item in i.anc) {
        i.anc := i.anc + anc + {this};
      }
      forall i | i in S
        ensures i.LinkedAt(S)
      {
        assert old(i.LinkedAt(S));
        if i != item && i.parent != null {
          assert old(i.parent.LinkedAt(S));
        }
      }
    }

    /** As `Attach`, and what it does to the weights: nothing but a new child here. */
    method AttachWeighed(item: Item, list: seq<Item>, ghost S: set<Item>)
      requires Linked(S) && this in S && item in S && isContainer
      requires item.parent == null && item != this && item !in anc
      requires NoDup(list) && forall c :: c in list <==> c in itemlist || c == item
      modifies item`parent, this`itemlist, S`anc
      ensures Linked(S) && item.parent == this && itemlist == list
      ensures Weights(old(itemlist)) == old(Weights(itemlist)) && item.Weight() == old(item.Weight())
      ensures forall i {:trigger i.Cached(S)} :: i in S && i != this && old(i.Cached(S)) ==> i.Cached(S)
    {
      Attach(item, list, S);
      assert Weights(old(itemlist)) == old(Weights(itemlist));
      CachedElsewhere(S);
    }

    /** `setParent(nullptr)` for one child and the content list without it. */
    method Detach(item: Item, list: seq<Item>, ghost S: set<Item>)
      requires Linked(S) && this in S && item in itemlist
      requires NoDup(list) && forall c :: c in list <==> c in itemlist && c != item
      modifies item`parent, this`itemlist, S`anc
      ensures Linked(S) && item.parent == null && itemlist == list
      ensures forall i {:trigger i.anc} :: i in S ==>
        i.anc == (if i == item || item in old(i.anc) then old(i.anc) - old(item.anc) else old(i.anc))
    {
      assert LinkedAt(S) && item.LinkedAt(S);
      AncestorsCompare(item, S);
      item.parent := null;
      itemlist := list;
      forall i | i in S && (i == item || item in i.anc) {
        i.anc := i.anc - item.anc;
      }
      forall i | i in S
        ensures i.LinkedAt(S)
      {
        assert old(i.LinkedAt(S));
        if i != item && i.parent != null {
          assert old(i.parent.LinkedAt(S));
        }
      }
    }

    /** As `Detach`, and what it does to the weights: nothing but a child fewer here. */
    method DetachWeighed(item: Item, list: seq<Item>, ghost S: set<Item>)
      requires Linked(S) && this in S && item in itemlist
      requires NoDup(list) && forall c :: c in list <==> c in itemlist && c != item
      modifies item`parent, this`itemlist, S`anc
      ensures Linked(S) && item.parent == null && itemlist == list
      ensures Weights(old(itemlist)) == old(Weights(itemlist)) && item.Weight() == old(item.Weight())
      ensures anc == old(anc)
      ensures forall i {:trigger i.anc} :: i in S ==>
        i.anc == (if i == item || item in old(i.anc) then old(i.anc) - old(item.anc) else old(i.anc))
      ensures forall i {:trigger i.Cached(S)} :: i in S && i != this && old(i.Cached(S)) ==> i.Cached(S)
    {
      assert LinkedAt(S) && item.LinkedAt(S);
      Detach(item, list, S);
      assert Weights(old(itemlist)) == old(Weights(itemlist));
      CachedElsewhere(S);
    }

    /** `addThing`: to the front, unless the index lies past the last slot. */
    method AddThing(index: int, item: Item, ghost S: set<Item>)
      requires Forest(S) && this in S && item in S && isContainer
      requires item.parent == null && item != this && item !in anc
      modifies item`parent, this`itemlist, S`anc, S`totalWeight
      ensures Forest(S)
      ensures index < maxSize ==> item.parent == this && itemlist == [item] + old(itemlist)
      ensures index >= maxSize ==> item.parent == null && itemlist == old(itemlist)
      ensures index < maxSize ==> forall i {:trigger i.anc} :: i in S ==>
        i.anc == (if i == item || item in old(i.anc) then old(i.anc) + old(anc) + {this} else old(i.anc))
    {
      if index < maxSize {
        InternalAddThing(item, S);
      }
    }

    /** `internalAddThing`: to the front. */
    method InternalAddThing(item: Item, ghost S: set<Item>)
      requires Forest(S) && this in S && item in S && isContainer
      requires item.parent == null && item != this && item !in anc
      modifies item`parent, this`itemlist, S`anc, S`totalWeight
      ensures Forest(S)
      ensures item.parent == this && itemlist == [item] + old(itemlist)
      ensures forall i {:trigger i.anc} :: i in S ==>
        i.anc == (if i == item || item in old(i.anc) then old(i.anc) + old(anc) + {this} else old(i.anc))
    {
      Insert(0, item, S);
      assert itemlist == [item] + old(itemlist);
    }

    /** `addItemBack`: to the back. */
    method AddItemBack(item: Item, ghost S: set<Item>)
      requires Forest(S) && this in S && item in S && isContainer
      requires item.parent == null && item != this && item !in anc
      modifies item`parent, this`itemlist, S`anc, S`totalWeight
      ensures Forest(S)
      ensures item.parent == this && itemlist == old(itemlist) + [item]
      ensures forall i {:trigger i.anc} :: i in S ==>
        i.anc == (if i == item || item in old(i.anc) then old(i.anc) + old(anc) + {this} else old(i.anc))
    {
      Insert(|itemlist|, item, S);
      assert itemlist == old(itemlist) + [item];
    }

    /** The steps common to all ways of putting an item in: parent, content list, weight. */
    method Insert(k: nat, item: Item, ghost S: set<Item>)
      requires Forest(S) && this in S && item in S && isContainer && k <= |itemlist|
      requires item.parent == null && item != this && item !in anc
      modifies item`parent, this`itemlist, S`anc, S`totalWeight
      ensures Forest(S)
      ensures item.parent == this && itemlist == Inserted(old(itemlist), k, item)
      ensures forall i {:trigger i.anc} :: i in S ==>
        i.anc == (if i == item || item in old(i.anc) then old(i.anc) + old(anc) + {this} else old(i.anc))
    {
      assert Cached(S);
      var weight := item.Weight();
      ghost var before := Weights(itemlist);
      PutIn(k, item, S);
      SumInsert(before, k, weight);
      UpdateItemWeight(weight, S);
    }

    /** A new child at a place in the list, no weight counted yet. */
    method PutIn(k: nat, item: Item, ghost S: set<Item>)
      requires Linked(S) && this in S && item in S && isContainer && k <= |itemlist|
      requires item.parent == null && item != this && item !in anc
      modifies item`parent, this`itemlist, S`anc
      ensures Linked(S) && item.parent == this && itemlist == Inserted(old(itemlist), k, item)
      ensures Weights(itemlist) == Inserted(old(Weights(itemlist)), k, old(item.Weight()))
      ensures forall i {:trigger i.Cached(S)} :: i in S && i != this && old(i.Cached(S)) ==> i.Cached(S)
      ensures forall i {:trigger i.anc} :: i in S ==>
        i.anc == (if i == item || item in old(i.anc) then old(i.anc) + old(anc) + {this} else old(i.anc))
    {
      hide Times, Cast, GetInt, Inserted, Wrap;
      assert LinkedAt(S) && item.LinkedAt(S);
      var list := itemlist;
      InsertFacts(list, k, item);
      Attach(item, Inserted(list, k, item), S);
      assert Weights(list) == old(Weights(itemlist)) && item.Weight() == old(item.Weight());
      CachedElsewhere(S);
      WeightsInsert(list, k, item);
    }

    /** `updateThing`: change type and sub type of one of the children. */
    method UpdateThing(item: Item, kind: ItemType, count: nat, ghost S: set<Item>)
      requires Forest(S) && this in S && item in S
      modifies item`kind, item`count, item`attrs, S`totalWeight
      ensures Forest(S)
      ensures item.Value() ==
        if item in itemlist then SetSubType(old(item.Value()).(kind := kind), count) else old(item.Value())
    {
      var index := GetThingIndex(item);
      if index == -1 {
        return;
      }
      assert LinkedAt(S) && Cached(S);
      ghost var before := Weights(itemlist);
      var oldWeight := item.Weight();
      var x := SetSubType(item.Value().(kind := kind), count);
      item.kind, item.count, item.attrs := x.kind, x.count, x.attrs;
      SameShape(S);
      assert LinkedAt(S);
      CachedElsewhere(S);
      assert before == Weights(itemlist)[index := oldWeight];
      ChildReweighed(item, index, oldWeight, S);
    }

    /** One child weighs something else than before: pass the difference up. */
    method ChildReweighed(item: Item, index: nat, oldWeight: int, ghost S: set<Item>)
      requires Linked(S) && this in S && index < |itemlist| && itemlist[index] == item
      requires forall i {:trigger i.Cached(S)} :: i in S && i != this ==> i.Cached(S)
      requires totalWeight == Wrap(Sum(Weights(itemlist)[index := oldWeight]))
      modifies S`totalWeight
      ensures Forest(S)
    {
      SumUpdate(Weights(itemlist), index, oldWeight);
      UpdateItemWeight(-oldWeight + item.Weight(), S);
    }

    /** `replaceThing`: another item takes the place of the one at `index`. */
    method ReplaceThing(index: nat, item: Item, ghost S: set<Item>)
      requires Forest(S) && this in S && item in S && isContainer
      requires item.parent == null && item != this && item !in anc
      modifies item`parent, (if index < |itemlist| then {itemlist[index]} else {})`parent
      modifies this`itemlist, S`anc, S`totalWeight
      ensures Forest(S)
      ensures index < |old(itemlist)| ==> itemlist == old(itemlist)[index := item]
      ensures index < |old(itemlist)| ==> item.parent == this && old(itemlist)[index].parent == null
      ensures index >= |old(itemlist)| ==> itemlist == old(itemlist) && item.parent == null
    {
      if index < |itemlist| {
        Exchange(itemlist[index], index, item, S);
      }
    }

    /** The steps of `replaceThing` once both items are known. */
    method Exchange(replaced: Item, index: nat, item: Item, ghost S: set<Item>)
      requires Forest(S) && this in S && item in S && isContainer
      requires item.parent == null && item != this && item !in anc
      requires index < |itemlist| && itemlist[index] == replaced
      modifies item`parent, replaced`parent, this`itemlist, S`anc, S`totalWeight
      ensures Forest(S)
      ensures itemlist == old(itemlist)[index := item]
      ensures item.parent == this && replaced.parent == null
    {
      assert Cached(S);
      var oldWeight, weight := replaced.Weight(), item.Weight();
      ghost var before := Weights(itemlist);
      PutInPlace(replaced, index, item, S);
      SumUpdate(before, index, weight);
      UpdateItemWeight(-oldWeight + weight, S);
    }

    lemma LooseFacts(item: Item, S: set<Item>)
      requires Linked(S) && this in S && item in S && item.parent == null
      ensures NoDup(itemlist) && item !in itemlist && item.anc == {}
    {
      assert LinkedAt(S) && item.LinkedAt(S);
    }

    /** One child out, another in at its place, no weight counted yet. */
    method PutInPlace(replaced: Item, index: nat, item: Item, ghost S: set<Item>)
      requires Linked(S) && this in S && item in S && isContainer
      requires item.parent == null && item != this && item !in anc
      requires index < |itemlist| && itemlist[index] == replaced
      modifies item`parent, replaced`parent, this`itemlist, S`anc
      ensures Linked(S) && itemlist == old(itemlist)[index := item]
      ensures item.parent == this && replaced.parent == null && item.Weight() == old(item.Weight())
      ensures Weights(itemlist) == old(Weights(itemlist))[index := item.Weight()]
      ensures forall i {:trigger i.Cached(S)} :: i in S && i != this && old(i.Cached(S)) ==> i.Cached(S)
    {
      hide Times, Cast, GetInt, Removed, Wrap, Item.Cached, Item.LinkedAt, Linked;
      LooseFacts(item, S);
      var list := itemlist;
      RemoveFacts(list, index);
      DetachWeighed(replaced, Removed(list, index), S);
      ReplaceFacts(list, index, item);
      AttachWeighed(item, list[index := item], S);
      assert Weights(list) == old(Weights(itemlist)) && item.Weight() == old(item.Weight());
      WeightsReplace(list, index, item);
    }

    /** `removeThing`: a partial count shrinks a stack, anything else takes the child out. */
    method RemoveThing(item: Item, count: nat, ghost S: set<Item>)
      requires Forest(S) && this in S && item in S
      modifies item`parent, item`count, this`itemlist, S`anc, S`totalWeight
      ensures Forest(S)
      ensures item !in old(itemlist) || (item.kind.stackable && count != old(item.count)) ==>
        itemlist == old(itemlist) && item.parent == old(item.parent)
      ensures item !in old(itemlist) ==> item.count == old(item.count)
      ensures item in old(itemlist) && item.kind.stackable && count != old(item.count) ==>
        item.count == (if count <= old(item.count) then (old(item.count) - count) % 256 else 0)
      ensures item in old(itemlist) && !(item.kind.stackable && count != old(item.count)) ==>
        && item.parent == null && item.count == old(item.count)
        && exists k :: 0 <= k < |old(itemlist)| && old(itemlist)[k] == item && itemlist == Removed(old(itemlist), k)
      ensures forall i {:trigger i.anc} :: i in S ==>
        i.anc == (if item.parent != old(item.parent) && (i == item || item in old(i.anc))
                  then old(i.anc) - old(item.anc) else old(i.anc))
    {
      var index := GetThingIndex(item);
      if index == -1 {
        return;
      }
      assert LinkedAt(S) && item.LinkedAt(S) && Cached(S);
      if item.kind.stackable && count != item.count {
        Shrink(item, index, (if count <= item.count then item.count - count else 0) % 256, S);
      } else {
        Erase(item, index, S);
        assert old(itemlist)[index] == item && itemlist == Removed(old(itemlist), index);
      }
    }

    /** The branch of `removeThing` that leaves a smaller stack. */
    method Shrink(item: Item, index: nat, newCount: nat, ghost S: set<Item>)
      requires Forest(S) && this in S && index < |itemlist| && itemlist[index] == item
      modifies item`count, S`totalWeight
      ensures Forest(S) && item.count == newCount
    {
      assert LinkedAt(S) && Cached(S);
      ghost var before := Weights(itemlist);
      var oldWeight := item.Weight();
      item.count := newCount;
      SameShape(S);
      CachedElsewhere(S);
      assert before == Weights(itemlist)[index := oldWeight];
      ChildReweighed(item, index, oldWeight, S);
    }

    /** The branch of `removeThing` that takes the child out. */
    method Erase(item: Item, index: nat, ghost S: set<Item>)
      requires Forest(S) && this in S && index < |itemlist| && itemlist[index] == item
      modifies item`parent, this`itemlist, S`anc, S`totalWeight
      ensures Forest(S) && item.parent == null && itemlist == Removed(old(itemlist), index)
      ensures forall i {:trigger i.anc} :: i in S ==>
        i.anc == (if i == item || item in old(i.anc) then old(i.anc) - old(item.anc) else old(i.anc))
    {
      assert Cached(S);
      var weight := item.Weight();
      ghost var before := Weights(itemlist);
      TakeOut(item, index, S);
      SumRemove(before, index);
      UpdateItemWeight(-weight, S);
    }

    /** A child out of the list, no weight counted yet. */
    method TakeOut(item: Item, index: nat, ghost S: set<Item>)
      requires Linked(S) && this in S && index < |itemlist| && itemlist[index] == item
      modifies item`parent, this`itemlist, S`anc
      ensures Linked(S) && item.parent == null && itemlist == Removed(old(itemlist), index)
      ensures Weights(itemlist) == Removed(old(Weights(itemlist)), index)
      ensures forall i {:trigger i.anc} :: i in S ==>
        i.anc == (if i == item || item in old(i.anc) then old(i.anc) - old(item.anc) else old(i.anc))
      ensures forall i {:trigger i.Cached(S)} :: i in S && i != this && old(i.Cached(S)) ==> i.Cached(S)
    {
      assert LinkedAt(S) && item.LinkedAt(S);
      var list := itemlist;
      RemoveFacts(list, index);
      DetachWeighed(item, Removed(list, index), S);
      WeightsRemove(list, index);
    }

    /** Of two containers around the same thing, one is around the other. */
    static lemma AncestorsCompare(x: Item, S: set<Item>)
      requires Linked(S) && x in S
      ensures forall i, j :: i in S && x in i.anc && j in i.anc ==> j == x || x in j.anc || j in x.anc
    {
      forall i, j | i in S && x in i.anc && j in i.anc
        ensures j == x || x in j.anc || j in x.anc
      {
        Compare(i, x, j, S);
      }
    }

    static lemma Compare(i: Item, x: Item, j: Item, S: set<Item>)
      requires Linked(S) && i in S && x in i.anc && j in i.anc
      ensures j == x || x in j.anc || j in x.anc
      decreases i.anc
    {
      assert i.LinkedAt(S);
      if x != i.parent && j != i.parent {
        assert i.parent.LinkedAt(S);
        Compare(i.parent, x, j, S);
      }
    }

    /** This item's part of the shape of the forest `S`. */
    ghost predicate LinkedAt(S: set<Item>)
      reads this, S
    {
      && NoDup(itemlist)
      && (forall c :: c in itemlist ==> c in S && c.parent == this)
      && (!isContainer ==> itemlist == [])
      && (parent != null ==> parent in S && this in parent.itemlist)
      && anc == (if parent == null then {} else parent.anc + {parent})
      && this !in anc && anc <= S
      && (forall j :: j in anc ==> j.anc <= anc)
    }

    /** This item's counter holds the weight of its contents. */
    ghost predicate Cached(S: set<Item>)
      reads this, S
    {
      (forall c :: c in itemlist ==> c in S) && totalWeight == Wrap(SumWeights(itemlist))
    }
  }

  function Inserted<T>(s: seq<T>, k: nat, x: T): seq<T>
    requires k <= |s|
  {
    s[..k] + [x] + s[k..]
  }

  lemma InsertFacts<T>(s: seq<T>, k: nat, x: T)
    requires k <= |s| && NoDup(s) && x !in s
    ensures NoDup(Inserted(s, k, x))
    ensures forall c :: c in Inserted(s, k, x) <==> c in s || c == x
  {
    assert s == s[..k] + s[k..];
  }

  function Removed<T>(s: seq<T>, k: nat): seq<T>
    requires k < |s|
  {
    s[..k] + s[k + 1..]
  }

  lemma RemoveFacts<T>(s: seq<T>, k: nat)
    requires k < |s| && NoDup(s)
    ensures NoDup(Removed(s, k))
    ensures forall c :: c in Removed(s, k) <==> c in s && c != s[k]
  {
    assert s == s[..k] + [s[k]] + s[k + 1..];
  }

  lemma ReplaceFacts<T>(s: seq<T>, k: nat, x: T)
    requires k < |s| && NoDup(s) && x !in s
    ensures NoDup(s[k := x])
    ensures forall c :: c in s[k := x] <==> c in Removed(s, k) || c == x
  {
    assert s[k := x] == s[..k] + [x] + s[k + 1..];
  }

  /** Shape of a forest: contents and parents agree, ancestor sets are the parent chains. */
  ghost predicate Linked(S: set<Item>)
    reads S
  {
    forall i {:trigger i.LinkedAt(S)} :: i in S ==> i.LinkedAt(S)
  }

  function Sum(ws: seq<int>): int {
    if ws == [] then 0 else ws[0] + Sum(ws[1..])
  }

  function Weights(items: seq<Item>): (ws: seq<int>)
    reads items
    ensures |ws| == |items|
  {
    seq(|items|, k requires 0 <= k < |items| reads items => items[k].Weight())
  }

  function SumWeights(items: seq<Item>): int
    reads items
  {
    Sum(Weights(items))
  }

  ghost predicate CachedAll(S: set<Item>)
    reads S
  {
    forall i {:trigger i.Cached(S)} :: i in S ==> i.Cached(S)
  }

  /** Counters and counts do not bear on the shape. */
  twostate lemma SameShape(S: set<Item>)
    requires old(Linked(S))
    requires forall i :: i in S ==>
      i.parent == old(i.parent) && i.itemlist == old(i.itemlist) && i.anc == old(i.anc)
    ensures Linked(S)
  {
    forall i | i in S
      ensures i.LinkedAt(S)
    {
      assert old(i.LinkedAt(S));
    }
  }

  /** A well-linked forest in which every cached weight is right. */
  ghost predicate Forest(S: set<Item>)
    reads S
  {
    Linked(S) && CachedAll(S)
  }

  // ----- sums

  lemma {:induction false} SumConcat(a: seq<int>, b: seq<int>)
    ensures Sum(a + b) == Sum(a) + Sum(b)
  {
    if a == [] {
      assert a + b == b;
    } else {
      assert (a + b)[1..] == a[1..] + b;
      SumConcat(a[1..], b);
    }
  }

  lemma {:induction false} SumUpdate(ws: seq<int>, k: nat, w: int)
    requires k < |ws|
    ensures Sum(ws[k := w]) == Sum(ws) - ws[k] + w
  {
    if k == 0 {
      assert ws[k := w][1..] == ws[1..];
    } else {
      assert ws[k := w][1..] == ws[1..][k - 1 := w];
      SumUpdate(ws[1..], k - 1, w);
    }
  }

  lemma WeightsInsert(items: seq<Item>, k: nat, x: Item)
    requires k <= |items|
    ensures Weights(Inserted(items, k, x)) == Inserted(Weights(items), k, x.Weight())
  {
  }

  lemma WeightsRemove(items: seq<Item>, k: nat)
    requires k < |items|
    ensures Weights(Removed(items, k)) == Removed(Weights(items), k)
  {
  }

  lemma WeightsReplace(items: seq<Item>, k: nat, x: Item)
    requires k < |items|
    ensures Weights(items[k := x]) == Weights(items)[k := x.Weight()]
  {
  }

  lemma SumInsert(ws: seq<int>, k: nat, w: int)
    requires k <= |ws|
    ensures Sum(Inserted(ws, k, w)) == Sum(ws) + w
  {
    SumConcat(ws[..k], ws[k..]);
    assert ws[..k] + ws[k..] == ws;
    SumConcat(ws[..k] + [w], ws[k..]);
    SumConcat(ws[..k], [w]);
  }

  lemma SumRemove(ws: seq<int>, k: nat)
    requires k < |ws|
    ensures Sum(Removed(ws, k)) == Sum(ws) - ws[k]
  {
    SumConcat(ws[..k], ws[k + 1..]);
    SumConcat(ws[..k], ws[k..]);
    assert ws == ws[..k] + ws[k..] && ws[k..][1..] == ws[k + 1..];
  }

  // ----- arithmetic of the 32-bit counter

  lemma WrapShift(sum: int, own: int, before: int, after: int)
    ensures Wrap(sum - Wrap(own + before) + Wrap(own + after)) == Wrap(sum - before + after)
  {
  }

  lemma WrapDiff(sum: int, total: int, diff: int)
    ensures Wrap(Wrap(sum) + diff) == Wrap(sum - total + Wrap(total + diff))
  {
  }

  // ----- the cache against a plain recursive definition

  /** What a thing weighs with everything inside it, with no counter and no wrap-around. */
  ghost function TrueWeight(i: Item, S: set<Item>): int
    requires Linked(S) && i in S
    reads S
    decreases S - i.anc, |i.itemlist| + 1
  {
    i.OwnWeight() + TrueContents(i, |i.itemlist|, S)
  }

  /** What the first `k` things in a container weigh. */
  ghost function TrueContents(i: Item, k: nat, S: set<Item>): int
    requires Linked(S) && i in S && k <= |i.itemlist|
    reads S
    decreases S - i.anc, k
  {
    if k == 0 then 0 else
      assert i.LinkedAt(S);
      var c := i.itemlist[k - 1];
      assert c.LinkedAt(S) && i in S - i.anc && i !in S - c.anc;
      TrueContents(i, k - 1, S) + TrueWeight(c, S)
  }

  /** In a forest every cached weight is the true weight of the contents, in 32 bits. */
  lemma {:induction false} CacheIsTrue(i: Item, S: set<Item>)
    requires Forest(S) && i in S
    ensures i.totalWeight == Wrap(TrueContents(i, |i.itemlist|, S))
    ensures i.Weight() == Wrap(TrueWeight(i, S))
    decreases S - i.anc, |i.itemlist| + 1
  {
    assert i.LinkedAt(S) && i.Cached(S);
    PrefixIsTrue(i, |i.itemlist|, S);
    assert Weights(i.itemlist)[..|i.itemlist|] == Weights(i.itemlist);
  }

  lemma {:induction false} PrefixIsTrue(i: Item, k: nat, S: set<Item>)
    requires Forest(S) && i in S && k <= |i.itemlist|
    ensures Wrap(Sum(Weights(i.itemlist)[..k])) == Wrap(TrueContents(i, k, S))
    decreases S - i.anc, k
  {
    hide NoDup, Item.Weight, Item.OwnWeight, Item.Cached, TrueWeight;
    if k > 0 {
      assert i.LinkedAt(S);
      var c, ws := i.itemlist[k - 1], Weights(i.itemlist);
      assert c.LinkedAt(S) && i in S - i.anc && i !in S - c.anc;
      PrefixIsTrue(i, k - 1, S);
      CacheIsTrue(c, S);
      SumConcat(ws[..k - 1], [ws[k - 1]]);
      assert ws[..k] == ws[..k - 1] + [ws[k - 1]];
    }
  }

  /** Below 2^32 the cache is exact. */
  lemma CacheIsExact(i: Item, S: set<Item>)
    requires Forest(S) && i in S
    requires 0 <= TrueContents(i, |i.itemlist|, S) < WORD
    ensures i.totalWeight == TrueContents(i, |i.itemlist|, S)
  {
    CacheIsTrue(i, S);
  }
}
