/** Loading a player's items: `IOLoginData::loadItems` and the rebuild loops of `loadPlayer`. */
module PlayerLoad {
  import opened Wrappers
  import opened Streams
  import opened Items
  import opened ItemCodec
  import opened ItemForest
  import opened ContainerIteration
  import opened PlayerItems
  import opened HouseItems

  /** The items made from the rows, by row number, each with the number it hangs on. */
  type ItemMap = map<int, (Item, int)>

  /** Positions from `from` on of the rows that hang on `p` and whose item exists. */
  function KidRows(rows: seq<Row>, items: ItemMap, p: int, from: nat): (ks: seq<nat>)
    ensures forall k :: k in ks ==> from <= k < |rows| && FIRST_SID + k in items
    decreases |rows| - from
  {
    if from >= |rows| then []
    else (if rows[from].pid == p && FIRST_SID + from in items then [from] else []) + KidRows(rows, items, p, from + 1)
  }

  /** The items of those rows. */
  function Kids(rows: seq<Row>, items: ItemMap, p: int, from: nat): seq<Item> {
    var ks := KidRows(rows, items, p, from);
    seq(|ks|, j requires 0 <= j < |ks| => assert ks[j] in ks; items[FIRST_SID + ks[j]].0)
  }

  /** Rows are numbered from `FIRST_SID`, each after the row it hangs on. */
  predicate Sorted(rows: seq<Row>) {
    forall k :: 0 <= k < |rows| ==> rows[k].sid == FIRST_SID + k && rows[k].pid < rows[k].sid
  }

  /** One item for every row from `from` on with a known type, all different, none linked yet. */
  ghost predicate Made(items: ItemMap, rows: seq<Row>, table: nat -> ItemType, from: nat, S: set<Item>)
    reads S
  {
    && (forall s :: s in items ==> FIRST_SID + from <= s < FIRST_SID + |rows|)
    && (forall k :: from <= k < |rows| ==> (FIRST_SID + k in items <==> table(rows[k].itemtype).known))
    && (forall s :: s in items ==> items[s].0 in S && items[s].1 == rows[s - FIRST_SID].pid)
    && (forall s, t :: s in items && t in items && s != t ==> items[s].0 != items[t].0)
  }

  /** The item that a row is loaded as: with all its attributes, or with those before one that cannot be read. */
  function LoadedRow(row: Row, table: nat -> ItemType): Option<ItemValue> {
    match CreateItem(table(row.itemtype), row.count)
    case None => None
    case Some(y) => Some(LoadedSoFar(y, row.attributes))
  }

  ghost predicate Unlinked(S: set<Item>)
    reads S
  {
    forall i :: i in S ==> i.parent == null && i.itemlist == [] && i.totalWeight == 0 && i.anc == {}
  }

  /** `loadItems`: an item for every row, in the order in which the query returns the rows. */
  method LoadItems(rows: seq<Row>, table: nat -> ItemType) returns (items: ItemMap, ghost S: set<Item>)
    requires Sorted(rows)
    ensures fresh(S) && Unlinked(S) && Made(items, rows, table, 0, S)
    ensures forall s :: s in items ==> items[s].0.box == items[s].0.kind.box
    ensures forall s :: s in items && LoadedRow(rows[s - FIRST_SID], table).Some? ==>
      items[s].0.Value() == LoadedRow(rows[s - FIRST_SID], table).value
  {
    hide LoadedRow, Made;
    MadeNone(rows, table);
    items, S := map[], {};
    for k := |rows| downto 0
      invariant fresh(S) && Unlinked(S) && Made(items, rows, table, k, S)
      invariant forall s :: s in items ==> FIRST_SID + k <= s < FIRST_SID + |rows|
      invariant forall s :: s in items ==> items[s].0.box == items[s].0.kind.box
      invariant forall s :: s in items && LoadedRow(rows[s - FIRST_SID], table).Some? ==>
        items[s].0.Value() == LoadedRow(rows[s - FIRST_SID], table).value
    {
      var x := LoadRow(rows[k], table);
      MadeUpTo(items, rows, table, k, S);
      if x.Some? {
        var item := new Item(x.value);
        MadeOne(items, rows, table, k, S, item);
        items := items[rows[k].sid := (item, rows[k].pid)];
        S := S + {item};
      }
    }
  }

  lemma MadeNone(rows: seq<Row>, table: nat -> ItemType)
    ensures Made(map[], rows, table, |rows|, {})
  {
  }

  lemma MadeOne(items: ItemMap, rows: seq<Row>, table: nat -> ItemType, k: nat, S: set<Item>, item: Item)
    requires k < |rows| && Made(items, rows, table, k + 1, S) && rows[k].sid == FIRST_SID + k
    requires item !in S && table(rows[k].itemtype).known
    ensures Made(items[rows[k].sid := (item, rows[k].pid)], rows, table, k, S + {item})
  {
  }

  lemma MadeUpTo(items: ItemMap, rows: seq<Row>, table: nat -> ItemType, k: nat, S: set<Item>)
    requires k < |rows| && Made(items, rows, table, k + 1, S)
    ensures !table(rows[k].itemtype).known ==> Made(items, rows, table, k, S)
    ensures forall s :: s in items ==> FIRST_SID + k < s < FIRST_SID + |rows| && items[s].0 in S
  {
  }

  /** One pass of that loop: the item is kept however its attributes were read. */
  method LoadRow(row: Row, table: nat -> ItemType) returns (x: Option<ItemValue>)
    ensures x.Some? <==> table(row.itemtype).known
    ensures x == LoadedRow(row, table)
  {
    hide Unserialize, CreateItem, LoadedSoFar;
    var y := CreateItem(table(row.itemtype), row.count);
    CreatedWhenKnown(table(row.itemtype), row.count);
    if y.None? {
      return None;
    }
    var stream := new PropStream(row.attributes);
    var ok, z, children := UnserializeAttr(stream, y.value);
    return Some(z);
  }

  lemma CreatedWhenKnown(kind: ItemType, n: nat)
    ensures CreateItem(kind, n).Some? <==> kind.known
  {
  }

  /** The contents so far: every item holds the rows from `k` on that hang on it. */
  ghost predicate Hung(rows: seq<Row>, items: ItemMap, k: nat)
    reads set s | s in items :: items[s].0
  {
    forall s {:trigger items[s].0.itemlist} :: s in items ==>
      items[s].0.itemlist == if items[s].0.isContainer then Kids(rows, items, s, k) else []
  }

  /** Items of the rows below `k` have no parent yet. */
  ghost predicate Waiting(items: ItemMap, k: nat)
    reads set s | s in items :: items[s].0
  {
    forall s {:trigger items[s].0.parent} :: s in items && s < FIRST_SID + k ==> items[s].0.parent == null
  }

  lemma IsolatedForest(S: set<Item>)
    requires Unlinked(S)
    ensures Forest(S)
  {
    forall i | i in S
      ensures i.LinkedAt(S) && i.Cached(S)
    {
    }
  }

  lemma NoKidsYet(rows: seq<Row>, items: ItemMap, p: int)
    ensures Kids(rows, items, p, |rows|) == []
  {
  }

  /** What a row adds to the contents of whatever it hangs on. */
  lemma OneMoreKid(rows: seq<Row>, items: ItemMap, p: int, k: nat)
    requires k < |rows|
    ensures Kids(rows, items, p, k) ==
      if rows[k].pid == p && FIRST_SID + k in items then [items[FIRST_SID + k].0] + Kids(rows, items, p, k + 1)
      else Kids(rows, items, p, k + 1)
  {
  }

  /** The rebuild loop of `loadPlayer`, by descending row number; `tops` is what hangs on slots,
      depot chests or the inbox, whose numbers run from `lo` to `hi`. */
  method Rebuild(rows: seq<Row>, items: ItemMap, table: nat -> ItemType, lo: int, hi: int, ghost S: set<Item>)
    returns (tops: map<int, seq<Item>>)
    requires Sorted(rows) && Made(items, rows, table, 0, S) && Unlinked(S) && lo <= hi < FIRST_SID
    modifies S`parent, S`itemlist, S`anc, S`totalWeight
    ensures Forest(S) && Hung(rows, items, 0)
    ensures forall p :: lo <= p <= hi ==> p in tops && tops[p] == Kids(rows, items, p, 0)
  {
    hide Kids, KidRows, Item.LinkedAt, Linked, CachedAll;
    IsolatedForest(S);
    tops := map[];
    for p := lo to hi + 1
      invariant forall q :: lo <= q < p ==> q in tops && tops[q] == []
    {
      tops := tops[p := []];
    }
    forall p
      ensures Kids(rows, items, p, |rows|) == []
    {
      NoKidsYet(rows, items, p);
    }
    for k := |rows| downto 0
      invariant Forest(S) && Hung(rows, items, k) && Waiting(items, k)
      invariant forall p :: lo <= p <= hi ==> p in tops && tops[p] == Kids(rows, items, p, k)
    {
      forall p
        ensures Kids(rows, items, p, k) ==
          if rows[k].pid == p && FIRST_SID + k in items then [items[FIRST_SID + k].0] + Kids(rows, items, p, k + 1)
          else Kids(rows, items, p, k + 1)
      {
        OneMoreKid(rows, items, p, k);
      }
      if FIRST_SID + k in items {
        var (item, pid) := items[FIRST_SID + k];
        if lo <= pid <= hi {
          tops := tops[pid := [item] + tops[pid]];
        } else if pid in items {
          var container := items[pid].0;
          if container.isContainer {
            RootsApart(item, container, S);
            container.InternalAddThing(item, S);
          }
        }
      }
    }
  }

  lemma RootsApart(a: Item, b: Item, S: set<Item>)
    requires Linked(S) && a in S && b in S && b.parent == null
    ensures a !in b.anc
  {
    assert b.LinkedAt(S);
  }

  // ----- the round trip

  /** Every row has its item. */
  ghost predicate AllMade(rows: seq<Row>, items: ItemMap) {
    forall s :: FIRST_SID <= s < FIRST_SID + |rows| ==> s in items
  }

  /** The rows that hang on `p` are those between two bounds. */
  ghost predicate HangBetween(rows: seq<Row>, p: int, b: nat, e: nat) {
    forall k :: 0 <= k < |rows| ==> (rows[k].pid == p <==> b <= k < e)
  }

  lemma {:induction false} KidRowsBetween(rows: seq<Row>, items: ItemMap, p: int, b: nat, e: nat, from: nat)
    requires b <= e <= |rows| && AllMade(rows, items) && HangBetween(rows, p, b, e)
    ensures var ks := KidRows(rows, items, p, from);
      if from <= b then |ks| == e - b && forall j :: 0 <= j < |ks| ==> ks[j] == b + j
      else if from <= e then |ks| == e - from && forall j :: 0 <= j < |ks| ==> ks[j] == from + j
      else ks == []
    decreases |rows| - from
  {
    if from < |rows| {
      KidRowsBetween(rows, items, p, b, e, from + 1);
    }
  }

  /** A position stands in one block only. */
  lemma OneBlock(order: seq<Item>, p: nat, m: nat, n: nat, k: int)
    requires m < |order| && |Level(order[..m])| <= k - p < |Level(order[..m])| + |order[m].itemlist|
    requires n < |order| && |Level(order[..n])| <= k - p < |Level(order[..n])| + |order[n].itemlist|
    ensures m == n
  {
    if m < n {
      LevelPrefix(order, m, n);
    } else if n < m {
      LevelPrefix(order, n, m);
    }
  }

  /** The things in `order[m]`, as they stand in its block. */
  lemma BlockContents(order: seq<Item>, m: nat)
    requires m < |order|
    ensures |Level(order[..m])| + |order[m].itemlist| <= |Level(order)|
    ensures forall o {:trigger order[m].itemlist[o]} :: 0 <= o < |order[m].itemlist| ==> Level(order)[|Level(order[..m])| + o] == order[m].itemlist[o]
  {
    LevelConcat(order[..m], [order[m]]);
    LevelConcat(order[..m] + [order[m]], order[m + 1..]);
    assert order[..m] + [order[m]] + order[m + 1..] == order;
    assert Level([order[m]]) == order[m].itemlist;
  }

  lemma SavedBlock(rows: seq<Row>, order: seq<Item>, itemList: seq<(int, Item)>, m: nat)
    requires Rows(rows, order, itemList) && m < |order|
    requires forall j :: 0 <= j < |itemList| ==> itemList[j].0 < FIRST_SID
    ensures var b := |itemList| + |Level(order[..m])|;
      b + |order[m].itemlist| <= |rows| && HangBetween(rows, FIRST_SID + m, b, b + |order[m].itemlist|)
  {
    hide Numbered, InBlock;
    var p, b, len := |itemList|, |itemList| + |Level(order[..m])|, |order[m].itemlist|;
    BlockContents(order, m);
    assert |rows| == |order| by {
      SameLength(rows, order);
    }
    forall k | 0 <= k < |rows|
      ensures rows[k].pid == FIRST_SID + m <==> b <= k < b + len
    {
      if k >= p {
        assert InBlock(order, p, rows[k].pid - FIRST_SID, k);
        BlockBounds(order, p, rows[k].pid - FIRST_SID, k);
        if b <= k < b + len {
          OneBlock(order, p, m, rows[k].pid - FIRST_SID, k);
        }
      }
    }
  }

  lemma SameLength(rows: seq<Row>, order: seq<Item>)
    requires Numbered(rows, order)
    ensures |rows| == |order|
  {
  }

  lemma BlockBounds(order: seq<Item>, p: nat, m: int, k: int)
    ensures InBlock(order, p, m, k) ==> 0 <= m < |order|
    ensures InBlock(order, p, m, k) ==> |Level(order[..m])| <= k - p < |Level(order[..m])| + |order[m].itemlist|
  {
  }

  /** As many rows hang on a container as there are things in it. */
  lemma SavedKids(rows: seq<Row>, order: seq<Item>, itemList: seq<(int, Item)>, items: ItemMap, m: nat)
    requires Rows(rows, order, itemList) && m < |order| && AllMade(rows, items)
    requires forall j :: 0 <= j < |itemList| ==> itemList[j].0 < FIRST_SID
    ensures |itemList| + |Level(order[..m])| + |order[m].itemlist| <= |rows| == |order|
    ensures |Kids(rows, items, FIRST_SID + m, 0)| == |order[m].itemlist|
  {
    hide InBlock, Owned, Numbered, Level, HangBetween, KidRows, AllMade;
    var b := |itemList| + |Level(order[..m])|;
    BlockContents(order, m);
    SameLength(rows, order);
    SavedBlock(rows, order, itemList, m);
    KidRowsBetween(rows, items, FIRST_SID + m, b, b + |order[m].itemlist|, 0);
  }

  /** And they are those of its contents, in their order. */
  lemma SavedKidAt(rows: seq<Row>, order: seq<Item>, itemList: seq<(int, Item)>, items: ItemMap, m: nat, o: nat)
    returns (k: nat)
    requires Rows(rows, order, itemList) && m < |order| && AllMade(rows, items) && o < |order[m].itemlist|
    requires forall j :: 0 <= j < |itemList| ==> itemList[j].0 < FIRST_SID
    ensures k < |rows| == |order| && o < |Kids(rows, items, FIRST_SID + m, 0)|
    ensures Kids(rows, items, FIRST_SID + m, 0)[o] == items[FIRST_SID + k].0 && order[k] == order[m].itemlist[o]
  {
    hide InBlock, Owned, Numbered, Level, HangBetween, KidRows;
    var b := |itemList| + |Level(order[..m])|;
    BlockContents(order, m);
    SameLength(rows, order);
    SavedBlock(rows, order, itemList, m);
    KidRowsBetween(rows, items, FIRST_SID + m, b, b + |order[m].itemlist|, 0);
    k := b + o;
    assert KidRows(rows, items, FIRST_SID + m, 0)[o] == k;
  }

  /** An item of a forest with everything inside it, as a value. */
  ghost function TreeOf(i: Item, S: set<Item>): Tree
    requires Linked(S) && i in S
    reads S
    decreases S - i.anc, |i.itemlist| + 1
  {
    Tree(i.Value(), TreesOf(i, |i.itemlist|, S))
  }

  /** The first `n` things in an item. */
  ghost function TreesOf(i: Item, n: nat, S: set<Item>): (ts: seq<Tree>)
    requires Linked(S) && i in S && n <= |i.itemlist|
    reads S
    ensures |ts| == n
    decreases S - i.anc, n
  {
    if n == 0 then [] else
      assert i.LinkedAt(S);
      var c := i.itemlist[n - 1];
      assert c.LinkedAt(S) && i in S - i.anc && i !in S - c.anc;
      TreesOf(i, n - 1, S) + [TreeOf(c, S)]
  }

  /** What a saved item in normal form is loaded as. */
  lemma LoadedBack(x: ItemValue, pid: int, sid: int, table: nat -> ItemType)
    requires NormalForm(x) && x.kind.known && table(x.kind.id) == x.kind
    ensures LoadedRow(RowOf(pid, sid, x), table) == Some(x)
  {
    hide Unserialize, ItemCodec.NormalForm, Saved, Restored;
    var n := GetSubType(x);
    var y := CreateItem(x.kind, n).value;
    var m := if x.kind.box.Box? then 0 else if x.kind.stackable && n == 0 then 1 else n;
    NormalFormRestored(x, m);
    assert Saved(x) + [] == Saved(x);
    SavedBack(y, x, []);
    UnserializeEnd(x);
    SoFarIsAll(y, Saved(x));
  }

  lemma UnserializeEnd(x: ItemValue)
    ensures Unserialize(x, []) == Read(Loaded(x, 0), [])
  {
  }

  /** Item by item, what was loaded is what was saved. */
  ghost predicate SameItems(rows: seq<Row>, order: seq<Item>, items: ItemMap)
    reads order, set s | s in items :: items[s].0
  {
    && |rows| == |order| && AllMade(rows, items)
    && (forall k :: 0 <= k < |order| ==> items[FIRST_SID + k].0.Value() == order[k].Value())
    && (forall k :: 0 <= k < |order| ==> items[FIRST_SID + k].0.box == order[k].box)
  }

  /** The loaded item has the same things inside it, in the same order, as the saved one. */
  lemma {:induction false} SameTree(rows: seq<Row>, order: seq<Item>, itemList: seq<(int, Item)>, items: ItemMap,
                                    m: nat, S: set<Item>, T: set<Item>)
    requires Linked(S) && Linked(T) && m < |order|
    requires Rows(rows, order, itemList) && SameItems(rows, order, items) && Hung(rows, items, 0)
    requires forall j :: 0 <= j < |itemList| ==> itemList[j].0 < FIRST_SID
    requires forall k :: 0 <= k < |order| ==> order[k] in S
    requires forall s :: s in items ==> items[s].0 in T
    ensures TreeOf(items[FIRST_SID + m].0, T) == TreeOf(order[m], S)
    decreases S - order[m].anc, |order[m].itemlist| + 1
  {
    hide Rows, Kids, Item.LinkedAt;
    var copy := items[FIRST_SID + m].0;
    SameContents(rows, order, itemList, items, m, S);
    SameTrees(rows, order, itemList, items, m, |order[m].itemlist|, S, T);
  }

  lemma HeldKids(rows: seq<Row>, items: ItemMap, sid: int)
    requires Hung(rows, items, 0) && sid in items
    ensures items[sid].0.itemlist == if items[sid].0.isContainer then Kids(rows, items, sid, 0) else []
  {
    hide Kids;
  }

  /** The lists inside correspond, position by position. */
  lemma SameContents(rows: seq<Row>, order: seq<Item>, itemList: seq<(int, Item)>, items: ItemMap, m: nat, S: set<Item>)
    requires Linked(S) && m < |order| && order[m] in S
    requires Rows(rows, order, itemList) && SameItems(rows, order, items) && Hung(rows, items, 0)
    requires forall j :: 0 <= j < |itemList| ==> itemList[j].0 < FIRST_SID
    ensures var copy := items[FIRST_SID + m].0;
      && |copy.itemlist| == |order[m].itemlist|
      && forall o :: 0 <= o < |copy.itemlist| ==>
           exists k :: 0 <= k < |order| && copy.itemlist[o] == items[FIRST_SID + k].0 && order[m].itemlist[o] == order[k]
  {
    hide Rows, Kids, Hung;
    assert order[m].LinkedAt(S);
    SavedKids(rows, order, itemList, items, m);
    var copy := items[FIRST_SID + m].0;
    HeldKids(rows, items, FIRST_SID + m);
    assert copy.box == order[m].box;
    if order[m].isContainer {
      forall o | 0 <= o < |copy.itemlist|
        ensures exists k :: 0 <= k < |order| && copy.itemlist[o] == items[FIRST_SID + k].0 && order[m].itemlist[o] == order[k]
      {
        var k := SavedKidAt(rows, order, itemList, items, m, o);
        assert copy.itemlist[o] == items[FIRST_SID + k].0 && order[m].itemlist[o] == order[k];
      }
    }
  }

  lemma {:induction false} SameTrees(rows: seq<Row>, order: seq<Item>, itemList: seq<(int, Item)>, items: ItemMap,
                                     m: nat, n: nat, S: set<Item>, T: set<Item>)
    requires Linked(S) && Linked(T) && m < |order|
    requires Rows(rows, order, itemList) && SameItems(rows, order, items) && Hung(rows, items, 0)
    requires forall j :: 0 <= j < |itemList| ==> itemList[j].0 < FIRST_SID
    requires forall k :: 0 <= k < |order| ==> order[k] in S
    requires forall s :: s in items ==> items[s].0 in T
    requires n <= |order[m].itemlist| == |items[FIRST_SID + m].0.itemlist|
    ensures TreesOf(items[FIRST_SID + m].0, n, T) == TreesOf(order[m], n, S)
    decreases S - order[m].anc, n
  {
    hide Rows, Kids, Hung, TreeOf;
    if n > 0 {
      SameTrees(rows, order, itemList, items, m, n - 1, S, T);
      SameContents(rows, order, itemList, items, m, S);
      var k :| 0 <= k < |order| && items[FIRST_SID + m].0.itemlist[n - 1] == items[FIRST_SID + k].0 &&
        order[m].itemlist[n - 1] == order[k];
      assert order[m].LinkedAt(S);
      assert order[k].LinkedAt(S) && order[m] in S - order[m].anc && order[m] !in S - order[k].anc;
      SameTree(rows, order, itemList, items, k, S, T);
    }
  }

  /** What hangs on slot `p`, in the order in which it is listed. */
  function Hanging(itemList: seq<(int, Item)>, p: int, from: nat): (ks: seq<nat>)
    ensures forall k :: k in ks ==> from <= k < |itemList|
    decreases |itemList| - from
  {
    if from >= |itemList| then []
    else (if itemList[from].0 == p then [from] else []) + Hanging(itemList, p, from + 1)
  }

  /** The rows that hang on a slot are those of the listed items. */
  lemma {:induction false} SavedTops(rows: seq<Row>, order: seq<Item>, itemList: seq<(int, Item)>, items: ItemMap,
                                     p: int, from: nat)
    requires Rows(rows, order, itemList) && AllMade(rows, items) && p < FIRST_SID && |itemList| <= |rows|
    ensures KidRows(rows, items, p, from) == Hanging(itemList, p, from)
    decreases |rows| - from
  {
    hide Rows;
    if from < |rows| {
      SavedTops(rows, order, itemList, items, p, from + 1);
      SavedTop(rows, order, itemList, from);
    }
  }

  /** A row after those of the listed items hangs on an earlier row. */
  lemma SavedTop(rows: seq<Row>, order: seq<Item>, itemList: seq<(int, Item)>, k: nat)
    requires Rows(rows, order, itemList) && k < |rows|
    ensures if k < |itemList| then rows[k].pid == itemList[k].0 else rows[k].pid >= FIRST_SID
  {
    hide Numbered;
    SameLength(rows, order);
    if k >= |itemList| {
      assert InBlock(order, |itemList|, rows[k].pid - FIRST_SID, k);
    }
  }

  lemma RowsSorted(rows: seq<Row>, order: seq<Item>, itemList: seq<(int, Item)>)
    requires Rows(rows, order, itemList)
    requires forall j :: 0 <= j < |itemList| ==> itemList[j].0 < FIRST_SID
    ensures Sorted(rows) && |rows| == |order| && |itemList| <= |rows|
  {
    hide Saved;
    forall k | 0 <= k < |rows|
      ensures rows[k].sid == FIRST_SID + k && rows[k].pid < rows[k].sid
    {
      if k >= |itemList| {
        assert InBlock(order, |itemList|, rows[k].pid - FIRST_SID, k);
      }
    }
  }

  /** An item that the table knows and that comes back as it was saved. */
  ghost predicate Reloadable(i: Item, table: nat -> ItemType)
    reads i
  {
    && NormalForm(i.Value()) && i.kind.known && table(i.kind.id) == i.kind && i.box == i.kind.box
    && |GetCustom(i.attrs)| < Size(8)
  }

  lemma AllLoaded(rows: seq<Row>, order: seq<Item>, itemList: seq<(int, Item)>, items: ItemMap,
                  table: nat -> ItemType, T: set<Item>)
    requires Rows(rows, order, itemList) && Sorted(rows) && Made(items, rows, table, 0, T)
    requires forall k :: 0 <= k < |order| ==> Reloadable(order[k], table)
    requires forall s :: s in items && LoadedRow(rows[s - FIRST_SID], table).Some? ==>
      items[s].0.Value() == LoadedRow(rows[s - FIRST_SID], table).value
    requires forall s :: s in items ==> items[s].0.box == items[s].0.kind.box
    ensures SameItems(rows, order, items)
  {
    hide NormalForm, LoadedRow, GetSubType, Saved, Owned;
    forall k | 0 <= k < |order|
      ensures FIRST_SID + k in items
      ensures items[FIRST_SID + k].0.Value() == order[k].Value()
    {
      var x := order[k].Value();
      assert rows[k] == RowOf(rows[k].pid, FIRST_SID + k, x);
      LoadedBack(x, rows[k].pid, FIRST_SID + k, table);
    }
    forall s | FIRST_SID <= s < FIRST_SID + |rows|
      ensures s in items
    {
      var k := s - FIRST_SID;
      assert rows[k] == RowOf(rows[k].pid, FIRST_SID + k, order[k].Value());
      LoadedBack(order[k].Value(), rows[k].pid, FIRST_SID + k, table);
    }
  }

  function HangingItems(itemList: seq<(int, Item)>, p: int): (s: seq<Item>)
    ensures |s| == |Hanging(itemList, p, 0)|
    ensures forall x :: x in s ==> x in Roots(itemList)
  {
    var ks := Hanging(itemList, p, 0);
    var s := seq(|ks|, j requires 0 <= j < |ks| => assert ks[j] in ks; Roots(itemList)[ks[j]]);
    assert forall j :: 0 <= j < |s| ==> ks[j] in ks && s[j] == Roots(itemList)[ks[j]];
    s
  }

  /** Two lists of items that hold the same trees, position by position. */
  ghost predicate SameTreeLists(copies: seq<Item>, T: set<Item>, originals: seq<Item>, S: set<Item>)
    requires Linked(T) && Linked(S)
    reads T, S
  {
    && |copies| == |originals|
    && (forall j :: 0 <= j < |copies| ==> copies[j] in T && originals[j] in S)
    && (forall j :: 0 <= j < |copies| ==> TreeOf(copies[j], T) == TreeOf(originals[j], S))
  }

  lemma SlotReloaded(rows: seq<Row>, order: seq<Item>, itemList: seq<(int, Item)>, items: ItemMap, p: int,
                     S: set<Item>, T: set<Item>)
    requires Linked(S) && Linked(T) && Apart(itemList, S) && p < FIRST_SID
    requires Rows(rows, order, itemList) && SameItems(rows, order, items) && Hung(rows, items, 0)
    requires forall j :: 0 <= j < |itemList| ==> itemList[j].0 < FIRST_SID
    requires forall k :: 0 <= k < |order| ==> order[k] in S
    requires forall s :: s in items ==> items[s].0 in T
    ensures SameTreeLists(Kids(rows, items, p, 0), T, HangingItems(itemList, p), S)
  {
    hide Item.LinkedAt, Level, Numbered, Owned, Hung, TreeOf;
    RowsSorted(rows, order, itemList);
    SavedTops(rows, order, itemList, items, p, 0);
    var ks := Hanging(itemList, p, 0);
    forall j | 0 <= j < |ks|
      ensures Kids(rows, items, p, 0)[j] in T && HangingItems(itemList, p)[j] in S
      ensures TreeOf(Kids(rows, items, p, 0)[j], T) == TreeOf(HangingItems(itemList, p)[j], S)
    {
      assert ks[j] in ks;
      assert order[ks[j]] == Roots(itemList)[ks[j]] == itemList[ks[j]].1;
      SameTree(rows, order, itemList, items, ks[j], S, T);
    }
  }

  /** Saving a player's items and loading the rows gives back, on every slot, the same trees of
      items in the same order, in a forest whose cached weights are right. */
  method SaveAndReload(itemList: seq<(int, Item)>, lo: int, hi: int, table: nat -> ItemType, ghost S: set<Item>)
    returns (tops: map<int, seq<Item>>, ghost T: set<Item>)
    requires Linked(S) && Apart(itemList, S) && lo <= hi < 100
    requires forall j :: 0 <= j < |itemList| ==> lo <= itemList[j].0 <= hi
    requires forall i :: i in S ==> Reloadable(i, table)
    ensures Forest(T) && fresh(T) && Linked(S)
    ensures forall p :: lo <= p <= hi ==> p in tops && SameTreeLists(tops[p], T, HangingItems(itemList, p), S)
  {
    hide NormalForm, Rows, Linked, LoadedRow, CachedAll, NoDup, Unlinked, Kids, SameTreeLists, HangingItems;
    var saved;
    ghost var order;
    saved, order := SaveItems(itemList, S);
    RowsSorted(saved, order, itemList);
    var items;
    items, T := LoadItems(saved, table);
    AllLoaded(saved, order, itemList, items, table, T);
    tops := Rebuild(saved, items, table, lo, hi, T);
    assert SameItems(saved, order, items);
    forall p | lo <= p <= hi
      ensures SameTreeLists(tops[p], T, HangingItems(itemList, p), S)
    {
      SlotReloaded(saved, order, itemList, items, p, S, T);
    }
  }
}
