/** The recursive byte format of items in houses: `saveItem`, `loadItem`, `loadContainer`. */
module HouseItems {
  import opened Wrappers
  import opened Streams
  import opened Items
  import opened ItemCodec

  /** An item with the things inside it, front first. */
  datatype Tree = Tree(item: ItemValue, kids: seq<Tree>)

  /** The item table, by id. */
  type ItemTable = nat -> ItemType

  /** `saveItem`: id, attributes, for a container the number of children and the children from
      back to front, and an end mark. */
  function SaveItem(t: Tree): seq<byte>
    decreases t, 1
  {
    LE(Cast(t.item.kind.id, 2), 2) + Saved(t.item) + SaveContents(t) + [0]
  }

  function SaveContents(t: Tree): seq<byte>
    decreases t, 0
  {
    if t.item.kind.box.Box? then [ATTR_CONTAINER_ITEMS] + LE(Cast(|t.kids|, 4), 4) + SaveReversed(t.kids) else []
  }

  function SaveReversed(kids: seq<Tree>): seq<byte>
    decreases kids, 0
  {
    if kids == [] then [] else SaveItem(kids[|kids| - 1]) + SaveReversed(kids[..|kids| - 1])
  }

  /** What one item in the stream turns into: nothing if its id is unknown. */
  datatype LoadResult = Failed | Ok(item: Option<Tree>, rest: seq<byte>)

  datatype KidsResult = KidsFailed | KidsOk(kids: seq<Tree>, rest: seq<byte>)

  /** `loadItem` */
  function LoadItem(table: ItemTable, s: seq<byte>): (r: LoadResult)
    ensures r.Ok? ==> |r.rest| < |s|
    decreases |s|, 0
  {
    var id := TakeNumber(s, 2);
    if id.Short? then Failed else
    match CreateItem(table(id.value), 0)
    case None => Ok(None, id.rest)
    case Some(y) =>
      var x := Unserialize(y, id.rest);
      if x.Short? then Failed
      else if x.value.item.kind.box.Box? then
        var kids := LoadContainer(table, x.value.children, x.rest, []);
        if kids.KidsFailed? then Failed else Ok(Some(Tree(x.value.item, kids.kids)), kids.rest)
      else Ok(Some(Tree(x.value.item, [])), x.rest)
  }

  /** `loadContainer`: `n` items, each pushed to the front, and an end mark. */
  function LoadContainer(table: ItemTable, n: nat, s: seq<byte>, kids: seq<Tree>): (r: KidsResult)
    ensures r.KidsOk? ==> |r.rest| < |s|
    decreases |s|, 1
  {
    if n == 0 then
      if s == [] || s[0] != 0 then KidsFailed else KidsOk(kids, s[1..])
    else
      var r := LoadItem(table, s);
      if r.Failed? then KidsFailed
      else LoadContainer(table, n - 1, r.rest, (if r.item.Some? then [r.item.value] else []) + kids)
  }

  /** A tree of items that the table knows and the format can hold. */
  predicate Saveable(table: ItemTable, t: Tree)
    decreases t
  {
    && t.item.kind.known && t.item.kind.id < Size(2) && table(t.item.kind.id) == t.item.kind
    && Storable(t.item) && |t.kids| < Size(4)
    && (t.kids != [] ==> t.item.kind.box.Box?)
    && forall k :: 0 <= k < |t.kids| ==> Saveable(table, t.kids[k])
  }

  /** The item that `CreateItem` and `unserializeAttr` make of a saved item. */
  function RestoredItem(x: ItemValue): ItemValue {
    Restored(Made(x.kind, if x.kind.box.NoBox? && x.kind.stackable then 1 else 0), x)
  }

  function RestoredTree(t: Tree): Tree
    decreases t
  {
    Tree(RestoredItem(t.item), RestoredKids(t.kids))
  }

  function RestoredKids(kids: seq<Tree>): (r: seq<Tree>)
    ensures |r| == |kids|
    decreases kids
  {
    if kids == [] then [] else RestoredKids(kids[..|kids| - 1]) + [RestoredTree(kids[|kids| - 1])]
  }

  /** The attribute section and, for a container, the child count that follows it. */
  lemma AttributesBack(t: Tree, y: ItemValue, rest: seq<byte>)
    requires Storable(t.item) && |t.kids| < Size(4) && y.kind == t.item.kind
    ensures Unserialize(y, Saved(t.item) + SaveContents(t) + [0] + rest) ==
      if t.item.kind.box.Box? then Read(Loaded(Restored(y, t.item), |t.kids|), SaveReversed(t.kids) + [0] + rest)
      else Read(Loaded(Restored(y, t.item), 0), rest)
  {
    hide Saved, Restored, ReadAttr;
    var x := Restored(y, t.item);
    if t.item.kind.box.Box? {
      var after := SaveReversed(t.kids) + [0] + rest;
      var count := LE(|t.kids|, 4);
      assert Saved(t.item) + SaveContents(t) + [0] + rest == Saved(t.item) + ([ATTR_CONTAINER_ITEMS] + count + after);
      SavedBack(y, t.item, [ATTR_CONTAINER_ITEMS] + count + after);
      Headed(ATTR_CONTAINER_ITEMS, count, after);
      NumberBack(|t.kids|, 4, after);
    } else {
      assert Saved(t.item) + SaveContents(t) + [0] + rest == Saved(t.item) + ([0] + rest);
      SavedBack(y, t.item, [0] + rest);
      assert ([0] + rest)[1..] == rest;
    }
  }

  /** Loading the bytes of a saved item, whatever follows them, gives the item and leaves exactly
      what follows. */
  lemma {:induction false} ItemBack(table: ItemTable, t: Tree, rest: seq<byte>)
    requires Saveable(table, t)
    ensures LoadItem(table, SaveItem(t) + rest) == Ok(Some(RestoredTree(t)), rest)
    decreases t, 0
  {
    hide Unserialize, SetInt, Restored, Saved, SaveContents, TakeNumber, LE, Storable;
    var id := t.item.kind.id;
    var body := Saved(t.item) + SaveContents(t) + [0] + rest;
    var y := Made(t.item.kind, if t.item.kind.box.NoBox? && t.item.kind.stackable then 1 else 0);
    assert SaveItem(t) + rest == LE(id, 2) + body;
    NumberBack(id, 2, body);
    AttributesBack(t, y, rest);
    if t.item.kind.box.Box? {
      KidsBack(table, t.kids, [], [0] + rest);
      assert SaveReversed(t.kids) + ([0] + rest) == SaveReversed(t.kids) + [0] + rest;
      assert RestoredKids(t.kids) + [] == RestoredKids(t.kids);
      assert ([0] + rest)[1..] == rest;
    }
  }

  /** Children written from back to front and read with `push_front` are in their old order. */
  lemma {:induction false} KidsBack(table: ItemTable, kids: seq<Tree>, behind: seq<Tree>, rest: seq<byte>)
    requires forall k :: 0 <= k < |kids| ==> Saveable(table, kids[k])
    ensures LoadContainer(table, |kids|, SaveReversed(kids) + rest, behind)
      == LoadContainer(table, 0, rest, RestoredKids(kids) + behind)
    decreases kids
  {
    hide Saveable, LoadItem, SaveItem, RestoredTree;
    if kids == [] {
      assert SaveReversed(kids) + rest == rest && RestoredKids(kids) + behind == behind;
    } else {
      var last, front := kids[|kids| - 1], kids[..|kids| - 1];
      var tail := SaveReversed(front) + rest;
      assert SaveReversed(kids) + rest == SaveItem(last) + tail;
      ItemBack(table, last, tail);
      KidsBack(table, front, [RestoredTree(last)] + behind, rest);
      assert RestoredKids(kids) + behind == RestoredKids(front) + ([RestoredTree(last)] + behind);
    }
  }

  /** A tree of items in normal form. */
  predicate NormalTree(t: Tree)
    decreases t
  {
    NormalForm(t.item) && forall k :: 0 <= k < |t.kids| ==> NormalTree(t.kids[k])
  }

  lemma {:induction false} NormalTreeRestored(t: Tree)
    requires NormalTree(t)
    ensures RestoredTree(t) == t
    decreases t
  {
    hide NormalForm;
    NormalFormRestored(t.item, if t.item.kind.box.NoBox? && t.item.kind.stackable then 1 else 0);
    NormalKidsRestored(t.kids);
  }

  lemma {:induction false} NormalKidsRestored(kids: seq<Tree>)
    requires forall k :: 0 <= k < |kids| ==> NormalTree(kids[k])
    ensures RestoredKids(kids) == kids
    decreases kids
  {
    hide NormalTree, RestoredTree;
    if kids != [] {
      NormalTreeRestored(kids[|kids| - 1]);
      NormalKidsRestored(kids[..|kids| - 1]);
    }
  }

  /** A tree in normal form comes back equal, and the rest of the stream is untouched. */
  lemma HouseRoundTrip(table: ItemTable, t: Tree, rest: seq<byte>)
    requires Saveable(table, t) && NormalTree(t)
    ensures LoadItem(table, SaveItem(t) + rest) == Ok(Some(t), rest)
  {
    ItemBack(table, t, rest);
    NormalTreeRestored(t);
  }

  // ----- the code that works on the stream objects

  /** `saveItem` */
  method SaveItemTo(stream: PropWriteStream, t: Tree)
    requires CustomsCounted(t)
    modifies stream
    ensures stream.buffer == old(stream.buffer) + SaveItem(t)
    decreases t
  {
    hide Saved, LE, Cast, SaveReversed, CustomsCounted;
    ghost var start := stream.buffer;
    assert CustomsCounted(t) ==> |GetCustom(t.item.attrs)| < Size(8) by {
      CountedHere(t);
    }
    stream.Write(t.item.kind.id, 2);
    SerializeAttr(stream, t.item);
    if t.item.kind.box.Box? {
      stream.WriteByte(ATTR_CONTAINER_ITEMS);
      stream.Write(|t.kids|, 4);
      ghost var head := stream.buffer;
      var k := |t.kids|;
      assert t.kids[..k] == t.kids;
      while k > 0
        invariant 0 <= k <= |t.kids|
        invariant stream.buffer + SaveReversed(t.kids[..k]) == head + SaveReversed(t.kids)
      {
        ghost var before := stream.buffer;
        k := k - 1;
        CountedHere(t);
        SaveItemTo(stream, t.kids[k]);
        ReversedLast(t.kids, k);
        Regroup(before, SaveItem(t.kids[k]), SaveReversed(t.kids[..k]));
      }
      ReversedEmpty(t.kids);
      assert stream.buffer + [] == head + SaveReversed(t.kids);
      assert head == start + (LE(Cast(t.item.kind.id, 2), 2) + Saved(t.item) + [ATTR_CONTAINER_ITEMS] + LE(Cast(|t.kids|, 4), 4));
      Assemble(start, LE(Cast(t.item.kind.id, 2), 2) + Saved(t.item), [ATTR_CONTAINER_ITEMS],
               LE(Cast(|t.kids|, 4), 4), SaveReversed(t.kids));
    }
    ghost var shown := LE(Cast(t.item.kind.id, 2), 2) + Saved(t.item) + SaveContents(t);
    assert stream.buffer == start + shown;
    stream.WriteByte(0);
    Regroup(start, shown, [0]);
  }

  /** The number of custom attributes of every item fits a 64-bit number. */
  predicate CustomsCounted(t: Tree)
    decreases t
  {
    |GetCustom(t.item.attrs)| < Size(8) && forall k :: 0 <= k < |t.kids| ==> CustomsCounted(t.kids[k])
  }

  lemma CountedHere(t: Tree)
    requires CustomsCounted(t)
    ensures |GetCustom(t.item.attrs)| < Size(8) && forall k :: 0 <= k < |t.kids| ==> CustomsCounted(t.kids[k])
  {
  }

  lemma Assemble(start: seq<byte>, a: seq<byte>, c: seq<byte>, n: seq<byte>, r: seq<byte>)
    ensures start + (a + c + n) + r == start + (a + (c + n + r))
  {
  }

  lemma ReversedLast(kids: seq<Tree>, k: nat)
    requires k < |kids|
    ensures SaveReversed(kids[..k + 1]) == SaveItem(kids[k]) + SaveReversed(kids[..k])
  {
    hide SaveItem;
    assert kids[..k + 1][..k] == kids[..k];
  }

  lemma ReversedEmpty(kids: seq<Tree>)
    ensures SaveReversed(kids[..0]) == []
  {
  }

  /** `loadItem`: the item is added to its parent by whoever asked for it. */
  method LoadItemFrom(stream: PropStream, table: ItemTable) returns (ok: bool, item: Option<Tree>)
    requires stream.Valid()
    modifies stream
    ensures stream.Valid()
    ensures var r := LoadItem(table, old(stream.Rest()));
      if ok then r == Ok(item, stream.Rest()) else r.Failed?
    decreases |stream.Rest()|, 0
  {
    hide Unserialize, Made, TakeNumber, LoadContainer;
    item := None;
    var idOk, id := stream.ReadNumber(2);
    if !idOk {
      return false, None;
    }
    match CreateItem(table(id), 0)
    case None =>
      return true, None;
    case Some(y) =>
      var attrOk, x, children := UnserializeAttr(stream, y);
      if !attrOk {
        return false, None;
      }
      var kids := [];
      if x.kind.box.Box? {
        var kidsOk;
        kidsOk, kids := LoadContainerFrom(stream, table, children);
        if !kidsOk {
          return false, None;
        }
      }
      return true, Some(Tree(x, kids));
  }

  /** `loadContainer`: the loop over `serializationCount`. */
  method LoadContainerFrom(stream: PropStream, table: ItemTable, count: nat) returns (ok: bool, kids: seq<Tree>)
    requires stream.Valid()
    modifies stream
    ensures stream.Valid()
    ensures var r := LoadContainer(table, count, old(stream.Rest()), []);
      if ok then r == KidsOk(kids, stream.Rest()) else r.KidsFailed?
    decreases |stream.Rest()|, 1
  {
    hide LoadItem;
    ghost var goal := LoadContainer(table, count, stream.Rest(), []);
    var serializationCount := count;
    kids := [];
    while serializationCount > 0
      invariant stream.Valid() && |stream.Rest()| <= |old(stream.Rest())|
      invariant LoadContainer(table, serializationCount, stream.Rest(), kids) == goal
    {
      var itemOk, item := LoadItemFrom(stream, table);
      if !itemOk {
        return false, kids;
      }
      kids := (if item.Some? then [item.value] else []) + kids;
      serializationCount := serializationCount - 1;
    }
    var endOk, endAttr := stream.ReadByte();
    ok := endOk && endAttr == 0;
  }

  /** What is not a saved item: an id cut short, attributes that cannot be read, a container with too few
      things or without its end mark; an id that the table does not know is passed over. */
  lemma NotAnItem(table: ItemTable, s: seq<byte>)
    ensures |s| < 2 ==> LoadItem(table, s).Failed?
    ensures |s| >= 2 ==>
      var id := s[0] as int + 256 * s[1] as int;
      var y := CreateItem(table(id), 0);
      && (y.None? ==> LoadItem(table, s) == Ok(None, s[2..]))
      && (y.Some? && Unserialize(y.value, s[2..]).Short? ==> LoadItem(table, s).Failed?)
      && (y.Some? && Unserialize(y.value, s[2..]).Read? && table(id).box.Box? ==>
            var x := Unserialize(y.value, s[2..]);
            LoadContainer(table, x.value.children, x.rest, []).KidsFailed? ==> LoadItem(table, s).Failed?)
  {
    hide Unserialize, CreateItem, LoadContainer;
    if |s| >= 2 {
      var two := s[..2];
      assert two[1..] == [s[1]] && two[1..][1..] == [];
      assert FromLE(two) == s[0] as int + 256 * s[1] as int;
      if CreateItem(table(FromLE(two)), 0).Some? {
        KindCreated(table(FromLE(two)), 0);
      }
    }
  }

  lemma KindCreated(kind: ItemType, n: nat)
    requires CreateItem(kind, n).Some?
    ensures CreateItem(kind, n).value.kind == kind
  {
  }

  lemma NoEndMark(table: ItemTable, n: nat, s: seq<byte>, kids: seq<Tree>)
    ensures s == [] || s[0] != 0 ==> LoadContainer(table, 0, s, kids).KidsFailed?
    ensures n > 0 && LoadItem(table, s).Failed? ==> LoadContainer(table, n, s, kids).KidsFailed?
  {
    hide LoadItem;
  }

  /** The bytes of a bag with two things in it: the id, how many things there are, the things from the
      last to the first, each with its id and an end mark, and an end mark. */
  lemma BagBytes(bag: ItemType, a: ItemType, b: ItemType)
    requires Neutral(bag) && Neutral(a) && Neutral(b) && bag.box.Box? && a.box.NoBox? && b.box.NoBox?
    requires bag.id == 258 && a.id == 772 && b.id == 5
    ensures SaveItem(Tree(ItemValue(bag, 1, map[]), [Tree(ItemValue(a, 1, map[]), []), Tree(ItemValue(b, 1, map[]), [])])) ==
      [2, 1, 23, 2, 0, 0, 0, 5, 0, 0, 4, 3, 0, 0]
  {
    hide SaveReversed, Saved, LE;
    var x := ItemValue(bag, 1, map[]);
    NothingSaved(x);
    ByteOrder(258);
    ByteOrder(2);
    KidsBytes(a, b);
  }

  lemma KidsBytes(a: ItemType, b: ItemType)
    requires Neutral(a) && Neutral(b) && a.box.NoBox? && b.box.NoBox? && a.id == 772 && b.id == 5
    ensures SaveReversed([Tree(ItemValue(a, 1, map[]), []), Tree(ItemValue(b, 1, map[]), [])]) == [5, 0, 0, 4, 3, 0]
  {
    hide SaveItem;
    var y, z := Tree(ItemValue(a, 1, map[]), []), Tree(ItemValue(b, 1, map[]), []);
    var kids := [y, z];
    ThingBytes(a, 4, 3);
    ThingBytes(b, 5, 0);
    assert kids[..1] == [y] && [y][..0] == [];
    assert SaveReversed([y]) == SaveItem(y) + [];
    assert SaveReversed(kids) == SaveItem(z) + SaveReversed([y]);
  }

  lemma ThingBytes(a: ItemType, low: byte, high: byte)
    requires Neutral(a) && a.box.NoBox? && a.id == low + 256 * (high as int)
    ensures SaveItem(Tree(ItemValue(a, 1, map[]), [])) == [low, high, 0]
  {
    hide Saved, LE;
    NothingSaved(ItemValue(a, 1, map[]));
    ByteOrder(a.id);
  }

  lemma NothingSaved(x: ItemValue)
    requires Neutral(x.kind) && x.attrs == map[]
    ensures Saved(x) == []
  {
    forall j | 0 <= j < PARTS
      ensures Part(j, x) == []
    {
      if j == 0 {
        NoCount(x);
      } else if j < 12 {
        AbsentEarly(j, x);
      } else {
        AbsentLate(j, x);
      }
    }
    hide Part;
    FieldsOnly(x, PARTS, PARTS);
  }
}
