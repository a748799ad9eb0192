/** A player's items as rows of a table: `IOLoginData::saveItems`. */
module PlayerItems {
  import opened Wrappers
  import opened Streams
  import opened Items
  import opened ItemCodec
  import opened ItemForest
  import opened ContainerIteration

  /** A row: the slot, depot or container it belongs to, its own number, and the item. */
  datatype Row = Row(pid: int, sid: int, itemtype: nat, count: nat, attributes: seq<byte>)

  const FIRST_SID := 101

  function Firsts(cs: seq<(Item, int)>): (s: seq<Item>)
    ensures |s| == |cs|
  {
    seq(|cs|, j requires 0 <= j < |cs| => cs[j].0)
  }

  /** The row of item `x` with number `sid`. */
  function RowOf(pid: int, sid: int, x: ItemValue): Row {
    Row(pid, sid, x.kind.id, GetSubType(x), Saved(x))
  }

  /** The rows number the items of `order` from `FIRST_SID` up. */
  ghost predicate Numbered(rows: seq<Row>, order: seq<Item>)
    reads order
  {
    && |rows| == |order|
    && forall k :: 0 <= k < |rows| ==> rows[k] == RowOf(rows[k].pid, FIRST_SID + k, order[k].Value())
  }

  /** The container blocks list the containers met so far, with their numbers, and what they hold
      is all that the things met so far hold. */
  ghost predicate Blocks(containers: seq<(Item, int)>, order: seq<Item>, S: set<Item>)
    reads order, Firsts(containers)
  {
    && (forall k :: 0 <= k < |order| ==> order[k] in S)
    && |containers| <= |order| && Level(Firsts(containers)) == Level(order)
    && forall j :: 0 <= j < |containers| ==> BlockAt(containers, order, j)
  }

  ghost predicate BlockAt(containers: seq<(Item, int)>, order: seq<Item>, j: nat)
    requires j < |containers|
    reads order, Firsts(containers)
  {
    var m := containers[j].1 - FIRST_SID;
    && 0 <= m < |order| && order[m] == containers[j].0
    && Level(Firsts(containers)[..j]) == Level(order[..m])
  }

  /** Position `k` after `p` roots holds something out of `order[m]`. */
  ghost predicate InBlock(order: seq<Item>, p: nat, m: int, k: int)
    reads order
  {
    && 0 <= m < |order| && m < k
    && |Level(order[..m])| <= k - p < |Level(order[..m])| + |order[m].itemlist|
  }

  /** Add a row, and a block if the item is a container: the common part of both loops. */
  method Emit(rows: seq<Row>, containers: seq<(Item, int)>, pid: int, runningId: int, item: Item,
              ghost order: seq<Item>, ghost S: set<Item>)
    returns (rows': seq<Row>, containers': seq<(Item, int)>)
    requires Linked(S) && item in S && |GetCustom(item.attrs)| < Size(8)
    requires Numbered(rows, order) && Blocks(containers, order, S) && runningId == FIRST_SID + |order|
    ensures Numbered(rows', order + [item]) && Blocks(containers', order + [item], S)
    ensures rows' == rows + [RowOf(pid, runningId, item.Value())]
    ensures containers <= containers'
  {
    hide Saved;
    var stream := new PropWriteStream();
    SerializeAttr(stream, item.Value());
    assert stream.buffer == Saved(item.Value());
    rows' := rows + [Row(pid, runningId, item.kind.id, GetSubType(item.Value()), stream.buffer)];
    containers' := if item.isContainer then containers + [(item, runningId)] else containers;
    BlocksGrow(containers, order, item, S);
  }

  lemma BlocksGrow(containers: seq<(Item, int)>, order: seq<Item>, item: Item, S: set<Item>)
    requires Linked(S) && item in S && Blocks(containers, order, S)
    ensures Blocks(if item.isContainer then containers + [(item, FIRST_SID + |order|)] else containers, order + [item], S)
  {
    var containers' := if item.isContainer then containers + [(item, FIRST_SID + |order|)] else containers;
    var order' := order + [item];
    assert item.LinkedAt(S);
    LevelConcat(order, [item]);
    LevelConcat(Firsts(containers), [item]);
    assert Level([item]) == item.itemlist;
    assert item.isContainer ==> Firsts(containers') == Firsts(containers) + [item];
    assert Level(Firsts(containers')) == Level(order');
    forall j | 0 <= j < |containers'|
      ensures BlockAt(containers', order', j)
    {
      if j < |containers| {
        assert BlockAt(containers, order, j);
        assert Firsts(containers')[..j] == Firsts(containers)[..j];
        assert order'[..containers[j].1 - FIRST_SID] == order[..containers[j].1 - FIRST_SID];
      } else {
        assert Firsts(containers')[..j] == Firsts(containers) && order'[..|order|] == order;
      }
    }
  }

  /** Every item above `p` belongs to the container whose block it stands in. */
  ghost predicate Owned(rows: seq<Row>, order: seq<Item>, p: nat)
    requires |rows| == |order|
    reads order
  {
    forall k :: p <= k < |rows| ==> InBlock(order, p, rows[k].pid - FIRST_SID, k)
  }

  function Roots(itemList: seq<(int, Item)>): (s: seq<Item>)
    ensures |s| == |itemList|
  {
    seq(|itemList|, j requires 0 <= j < |itemList| => itemList[j].1)
  }

  /** Items of the forest, none twice and none inside another. */
  ghost predicate Apart(itemList: seq<(int, Item)>, S: set<Item>)
    reads S, Roots(itemList)
  {
    && NoDup(Roots(itemList)) && (forall r :: r in Roots(itemList) ==> r in S)
    && (forall r, q :: r in Roots(itemList) && q in Roots(itemList) ==> q !in r.anc)
  }

  /** What `saveItems` writes: the roots with their slots, then the contents of everything
      written, each with the number of the container it is in. */
  ghost predicate Rows(rows: seq<Row>, order: seq<Item>, itemList: seq<(int, Item)>)
    reads order, Roots(itemList)
  {
    && Numbered(rows, order) && order == Roots(itemList) + Level(order)
    && (forall k :: 0 <= k < |itemList| ==> rows[k].pid == itemList[k].0)
    && Owned(rows, order, |itemList|)
  }

  /** `saveItems` */
  method SaveItems(itemList: seq<(int, Item)>, ghost S: set<Item>) returns (rows: seq<Row>, ghost order: seq<Item>)
    requires Linked(S) && Apart(itemList, S)
    requires forall i :: i in S ==> |GetCustom(i.attrs)| < Size(8)
    ensures Rows(rows, order, itemList)
    ensures |rows| == |order| && forall k :: 0 <= k < |rows| ==> rows[k].sid == 101 + k
    ensures forall k :: 0 <= k < |order| ==> order[k] in S
  {
    hide Numbered, Blocks, Linked, NoDup, InBlock, Rows, Saved, GetSubType;
    var containers: seq<(Item, int)>;
    rows, order, containers := [], [], [];
    assert Numbered(rows, order) && Blocks(containers, order, S) by {
      NothingYet(S);
    }
    var runningId := FIRST_SID - 1;
    for i := 0 to |itemList|
      invariant Numbered(rows, order) && Blocks(containers, order, S) && runningId == FIRST_SID - 1 + i
      invariant |rows| == i && order == Roots(itemList)[..i]
      invariant forall k :: 0 <= k < i ==> rows[k].pid == itemList[k].0
    {
      runningId := runningId + 1;
      NextRoot(itemList, i, S);
      rows, containers := Emit(rows, containers, itemList[i].0, runningId, itemList[i].1, order, S);
      order := order + [itemList[i].1];
    }
    assert Roots(itemList)[..|itemList|] == Roots(itemList);
    rows, order := SaveContainers(rows, containers, runningId, itemList, order, S);
    RowNumbers(rows, order, itemList);
  }

  lemma RowNumbers(rows: seq<Row>, order: seq<Item>, itemList: seq<(int, Item)>)
    requires Rows(rows, order, itemList)
    ensures |rows| == |order| && forall k :: 0 <= k < |rows| ==> rows[k].sid == 101 + k
  {
    hide Saved, GetSubType;
  }

  lemma NextRoot(itemList: seq<(int, Item)>, i: nat, S: set<Item>)
    requires i < |itemList| && Apart(itemList, S)
    ensures |Roots(itemList)| == |itemList| && itemList[i].1 in S
    ensures Roots(itemList)[..i + 1] == Roots(itemList)[..i] + [itemList[i].1]
  {
    assert itemList[i].1 == Roots(itemList)[i];
  }

  lemma NothingYet(S: set<Item>)
    ensures Numbered([], []) && Blocks([], [], S)
  {
  }

  /** The second loop of `saveItems`: over a list of containers that grows while it runs. */
  method SaveContainers(rows0: seq<Row>, containers0: seq<(Item, int)>, id0: int, itemList: seq<(int, Item)>,
                        ghost order0: seq<Item>, ghost S: set<Item>)
    returns (rows: seq<Row>, ghost order: seq<Item>)
    requires Linked(S) && Apart(itemList, S)
    requires forall i :: i in S ==> |GetCustom(i.attrs)| < Size(8)
    requires Numbered(rows0, order0) && Blocks(containers0, order0, S) && id0 == FIRST_SID - 1 + |order0|
    requires order0 == Roots(itemList) && forall k :: 0 <= k < |rows0| ==> rows0[k].pid == itemList[k].0
    ensures Rows(rows, order, itemList)
    ensures forall k :: 0 <= k < |order| ==> order[k] in S
  {
    hide Linked, NoDup, InBlock, Item.LinkedAt, Level, RowOf, BlockAt;
    var containers, runningId := containers0, id0;
    rows, order := rows0, order0;
    var i := 0;
    NothingRead(containers, Roots(itemList));
    while i < |containers|
      invariant 0 <= i <= |containers| && runningId == FIRST_SID - 1 + |order|
      invariant Numbered(rows, order) && Blocks(containers, order, S) && rows0 <= rows
      invariant order == Roots(itemList) + Level(Firsts(containers)[..i])
      invariant Owned(rows, order, |itemList|)
      decreases |S| - i
    {
      OrderBound(containers, i, order, itemList, S);
      ghost var before, so := Firsts(containers), Level(Firsts(containers)[..i]);
      ghost var block := containers[i].0.itemlist;
      rows, containers, runningId, order := SaveContents(rows, containers, runningId, i, |itemList|, order, S);
      assert Firsts(containers)[..i] == before[..i];
      ReadOne(containers, i);
      assert Roots(itemList) + so + block == Roots(itemList) + (so + block);
      i := i + 1;
    }
    assert Firsts(containers)[..i] == Firsts(containers);
  }

  lemma NothingRead(containers: seq<(Item, int)>, roots: seq<Item>)
    ensures roots + Level(Firsts(containers)[..0]) == roots
  {
  }

  lemma ReadOne(containers: seq<(Item, int)>, i: nat)
    requires i < |containers|
    ensures Level(Firsts(containers)[..i + 1]) == Level(Firsts(containers)[..i]) + containers[i].0.itemlist
  {
    LevelConcat(Firsts(containers)[..i], [containers[i].0]);
    assert Firsts(containers)[..i + 1] == Firsts(containers)[..i] + [containers[i].0];
    assert Level([containers[i].0]) == containers[i].0.itemlist;
  }

  /** No more things are met than the forest has. */
  lemma OrderBound(containers: seq<(Item, int)>, i: nat, order: seq<Item>, itemList: seq<(int, Item)>, S: set<Item>)
    requires Linked(S) && Apart(itemList, S) && Blocks(containers, order, S) && i <= |containers|
    requires order == Roots(itemList) + Level(Firsts(containers)[..i])
    ensures |containers| <= |order| <= |S|
  {
    hide BlockAt;
    var roots := Roots(itemList);
    LevelConcat(Firsts(containers)[..i], Firsts(containers)[i..]);
    assert Firsts(containers)[..i] + Firsts(containers)[i..] == Firsts(containers);
    assert order <= roots + Level(order);
    forall a, b | 0 <= a < b < |order|
      ensures order[a] != order[b]
    {
      WalkMeetsOnce(roots, order, b, S);
    }
    var met := set x | x in order;
    SeqSize(order, met);
    SetSizes(met, S);
  }

  /** The inner loop: the rows of one container's contents. */
  method SaveContents(rows0: seq<Row>, containers0: seq<(Item, int)>, id0: int, i: nat, p: nat,
                      ghost order0: seq<Item>, ghost S: set<Item>)
    returns (rows: seq<Row>, containers: seq<(Item, int)>, runningId: int, ghost order: seq<Item>)
    requires Linked(S) && i < |containers0| && id0 == FIRST_SID - 1 + |order0|
    requires forall x :: x in S ==> |GetCustom(x.attrs)| < Size(8)
    requires Numbered(rows0, order0) && Blocks(containers0, order0, S) && Owned(rows0, order0, p)
    requires |order0| == p + |Level(Firsts(containers0)[..i])|
    ensures rows0 <= rows && containers0 <= containers && runningId == FIRST_SID - 1 + |order|
    ensures Numbered(rows, order) && Blocks(containers, order, S) && Owned(rows, order, p)
    ensures order == order0 + containers0[i].0.itemlist
  {
    hide Linked, InBlock, Item.LinkedAt, Level, BlockAt, Saved, GetSubType;
    rows, containers, runningId, order := rows0, containers0, id0, order0;
    var list, parentId := containers[i].0.itemlist, containers[i].1;
    ChildrenInForest(containers, order, i, S);
    for j := 0 to |list|
      invariant rows0 <= rows && containers0 <= containers && runningId == FIRST_SID - 1 + |order|
      invariant Numbered(rows, order) && Blocks(containers, order, S) && |rows| == |order|
      invariant Owned(rows, order, p) && order == order0 + list[..j]
    {
      runningId := runningId + 1;
      ghost var rowsBefore, orderBefore := rows, order;
      rows, containers := Emit(rows, containers, parentId, runningId, list[j], order, S);
      order := order + [list[j]];
      assert parentId == rows[|rowsBefore|].pid;
      OwnRow(rowsBefore, rows, containers0, order0, orderBefore, order, i, j, p, S);
    }
    assert list[..|list|] == list;
  }

  lemma ChildrenInForest(containers: seq<(Item, int)>, order: seq<Item>, i: nat, S: set<Item>)
    requires Linked(S) && Blocks(containers, order, S) && i < |containers|
    ensures forall j :: 0 <= j < |containers[i].0.itemlist| ==> containers[i].0.itemlist[j] in S
  {
    assert BlockAt(containers, order, i);
    assert containers[i].0.LinkedAt(S);
  }

  /** A row added for a container's child stands in the container's block. */
  lemma OwnRow(rows: seq<Row>, rows': seq<Row>, containers: seq<(Item, int)>, start: seq<Item>,
               order: seq<Item>, order': seq<Item>, i: nat, j: nat, p: nat, S: set<Item>)
    requires Blocks(containers, start, S) && i < |containers| && j < |containers[i].0.itemlist|
    requires |start| == p + |Level(Firsts(containers)[..i])|
    requires order == start + containers[i].0.itemlist[..j] && order' == order + [containers[i].0.itemlist[j]]
    requires |rows| == |order| && |rows'| == |order'| && rows <= rows'
    requires rows'[|rows|].pid == containers[i].1 && Owned(rows, order, p)
    ensures Owned(rows', order', p)
  {
    assert BlockAt(containers, start, i);
    var m := containers[i].1 - FIRST_SID;
    assert order'[..m] == start[..m] && order'[m] == start[m];
    forall k | p <= k < |rows'|
      ensures InBlock(order', p, rows'[k].pid - FIRST_SID, k)
    {
      if k < |rows| {
        var n := rows[k].pid - FIRST_SID;
        assert rows'[k] == rows[k] && InBlock(order, p, n, k);
        assert order'[..n] == order[..n] && order'[n] == order[n];
      }
    }
  }
}
