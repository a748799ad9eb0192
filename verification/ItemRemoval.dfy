/** Taking an item out of whatever it is in. */
module ItemRemoval {
  import opened ItemForest

  /** `internalRemoveItem`: a partial count shrinks a stack, anything else takes the item out, with all
      that is in it. */
  method InternalRemoveItem(item: Item, count: nat, ghost S: set<Item>) returns (ok: bool)
    requires Forest(S) && item in S && item.count <= 255
    modifies S`parent, S`count, S`itemlist, S`anc, S`totalWeight
    ensures Forest(S)
    ensures ok <==> old(item.parent) != null && count > 0 && (item.kind.stackable ==> count <= old(item.count))
    ensures forall i {:trigger i.parent} {:trigger i.count} :: i in S && i != item ==> i.parent == old(i.parent) && i.count == old(i.count)
    ensures var gone := ok && !(item.kind.stackable && count < old(item.count));
      && item.parent == (if gone then null else old(item.parent))
      && item.count == old(item.count) - (if ok && !gone then count else 0)
      && forall i {:trigger i.anc} :: i in S ==>
           i.anc == if gone && (i == item || item in old(i.anc)) then old(i.anc) - old(item.anc) else old(i.anc)
    ensures forall i :: i in S && i != old(item.parent) ==> i.itemlist == old(i.itemlist)
  {
    var parent := item.parent;
    if parent == null || count == 0 || (item.kind.stackable && count > item.count) {
      return false;
    }
    assert item.LinkedAt(S) && parent.LinkedAt(S);
    parent.RemoveThing(item, count, S);
    return true;
  }

  /** The same for an item with nothing in it: no other item is moved. */
  method RemoveLeaf(item: Item, count: nat, ghost S: set<Item>) returns (ok: bool)
    requires Forest(S) && item in S && item.itemlist == [] && item.count <= 255
    modifies S`parent, S`count, S`itemlist, S`anc, S`totalWeight
    ensures Forest(S)
    ensures ok <==> old(item.parent) != null && count > 0 && (item.kind.stackable ==> count <= old(item.count))
    ensures forall i {:trigger i.parent} {:trigger i.count} {:trigger i.anc} :: i in S && i != item ==>
      i.parent == old(i.parent) && i.count == old(i.count) && i.anc == old(i.anc)
    ensures var gone := ok && !(item.kind.stackable && count < old(item.count));
      && (if gone then item.parent == null && item.anc == {} else item.parent == old(item.parent) && item.anc == old(item.anc))
      && item.count == old(item.count) - if ok && !gone then count else 0
    ensures forall i :: i in S && i != old(item.parent) ==> i.itemlist == old(i.itemlist)
  {
    forall i | i in S
      ensures item !in i.anc
    {
      Childless(item, i, S);
    }
    ok := InternalRemoveItem(item, count, S);
  }

  lemma {:induction false} Childless(item: Item, i: Item, S: set<Item>)
    requires Linked(S) && item in S && i in S && item.itemlist == []
    ensures item !in i.anc
    decreases i.anc
  {
    assert i.LinkedAt(S);
    if i.parent != null {
      assert i.parent.LinkedAt(S);
      Childless(item, i.parent, S);
    }
  }
}
