/** Items as values: the item table, attributes and the rules that set them. */
module Items {
  import opened Wrappers
  import opened Streams

  /** What makes an item a container; a depot chest also limits the number of things inside it. */
  datatype Box = NoBox | Box(maxSize: nat, unlocked: bool, depotLimit: Option<nat>)

  /** What the item table says about an id. `duration` is the default duration in milliseconds. */
  datatype ItemType = ItemType(id: nat, known: bool, box: Box, weight: nat, stackable: bool, fluid: bool,
                               charges: nat, moveable: bool, pickupable: bool, duration: nat)

  datatype CustomValue = Blank | CustomText(s: seq<byte>) | CustomInt(n: nat) | CustomDouble(bits: nat) | CustomBool(b: bool)

  datatype Entry = Entry(key: seq<byte>, value: CustomValue)

  datatype AttrValue = Int(n: int) | Text(s: seq<byte>) | Custom(entries: seq<Entry>)

  // Attribute keys: the position of the attribute's bit.
  const ACTIONID := 0
  const UNIQUEID := 1
  const DESCRIPTION := 2
  const TEXT := 3
  const DATE := 4
  const WRITER := 5
  const NAME := 6
  const ARTICLE := 7
  const PLURALNAME := 8
  const WEIGHT := 9
  const ATTACK := 10
  const DEFENSE := 11
  const EXTRADEFENSE := 12
  const ARMOR := 13
  const HITCHANCE := 14
  const SHOOTRANGE := 15
  const DURATION := 17
  const DECAYSTATE := 18
  const CHARGES := 20
  const FLUIDTYPE := 21
  const DECAYTO := 23
  const WRAPID := 24
  const STOREITEM := 25
  const ATTACK_SPEED := 26
  const CUSTOM := 31

  type Attributes = map<nat, AttrValue>

  datatype ItemValue = ItemValue(kind: ItemType, count: nat, attrs: Attributes)

  function GetInt(a: Attributes, k: nat): int {
    if k in a && a[k].Int? then a[k].n else 0
  }

  function GetText(a: Attributes, k: nat): seq<byte> {
    if k in a && a[k].Text? then a[k].s else []
  }

  function GetCustom(a: Attributes): seq<Entry> {
    if CUSTOM in a && a[CUSTOM].Custom? then a[CUSTOM].entries else []
  }

  /** `setIntAttr` */
  function SetInt(a: Attributes, k: nat, n: int): Attributes {
    a[k := Int(if k == ATTACK_SPEED && n < 100 then 100 else n)]
  }

  /** `setStrAttr` */
  function SetText(a: Attributes, k: nat, s: seq<byte>): Attributes {
    if s == [] then a else a[k := Text(s)]
  }

  function Lower(s: seq<byte>): (r: seq<byte>)
    ensures |r| == |s|
    ensures forall k :: 0 <= k < |s| ==> !(65 <= r[k] <= 90) && (r[k] == s[k] || (65 <= s[k] <= 90 && r[k] == s[k] + 32))
  {
    seq(|s|, k requires 0 <= k < |s| => if 65 <= s[k] <= 90 then s[k] + 32 else s[k])
  }

  function Without(es: seq<Entry>, key: seq<byte>): seq<Entry> {
    if es == [] then []
    else (if es[0].key == key then [] else [es[0]]) + Without(es[1..], key)
  }

  /** `setCustomAttribute`: keys are kept in lower case, one value each. */
  function SetCustom(a: Attributes, e: Entry): Attributes {
    a[CUSTOM := Custom(Without(GetCustom(a), Lower(e.key)) + [Entry(Lower(e.key), e.value)])]
  }

  /** `setSubType` */
  function SetSubType(x: ItemValue, n: nat): ItemValue {
    if x.kind.fluid then x.(attrs := SetInt(x.attrs, FLUIDTYPE, Cast(n, 2)))
    else if x.kind.stackable then x.(count := n % 256)
    else if x.kind.charges != 0 then x.(attrs := SetInt(x.attrs, CHARGES, Cast(n, 2)))
    else x.(count := n % 256)
  }

  /** `getSubType` */
  function GetSubType(x: ItemValue): nat {
    if x.kind.fluid then Cast(GetInt(x.attrs, FLUIDTYPE), 2)
    else if x.kind.stackable then x.count
    else if x.kind.charges != 0 then Cast(GetInt(x.attrs, CHARGES), 2)
    else x.count
  }

  /** The constructor of an item of this type and sub type. */
  function Made(kind: ItemType, n: nat): ItemValue {
    var x := ItemValue(kind, 1, map[]);
    var y :=
      if kind.fluid then x.(attrs := SetInt(x.attrs, FLUIDTYPE, n))
      else if kind.stackable then
        if n != 0 then x.(count := n % 256) else if kind.charges != 0 then x.(count := kind.charges % 256) else x
      else if kind.charges != 0 then x.(attrs := SetInt(x.attrs, CHARGES, if n != 0 then n else kind.charges))
      else x;
    if kind.duration != 0 then y.(attrs := SetInt(y.attrs, DURATION, kind.duration)) else y
  }

  /** The sub type that is set is the one that is got: of fluids, of stacks, of charges, and of anything
      else a count, and nothing else changes but that. */
  lemma SubTypeBack(x: ItemValue, n: nat)
    requires n < 256
    ensures GetSubType(SetSubType(x, n)) == n
    ensures var y := SetSubType(x, n);
      && (if x.kind.fluid then y == x.(attrs := x.attrs[FLUIDTYPE := Int(n)])
          else if !x.kind.stackable && x.kind.charges != 0 then y == x.(attrs := x.attrs[CHARGES := Int(n)])
          else y == x.(count := n))
  {
  }

  /** What a new item starts with: the count of a stack is at least one, containers take no count, and
      charges and duration are those of the type unless told otherwise. */
  lemma CreatedMeans(kind: ItemType, n: nat)
    requires n < 256 && kind.known && kind.charges < 256
    ensures CreateItem(kind, n).Some? && CreateItem(kind, n).value.kind == kind
    ensures var x := CreateItem(kind, n).value;
      && (kind.stackable && !kind.fluid && kind.box.NoBox? ==> x.count == if n == 0 then 1 else n)
      && (!kind.stackable || kind.fluid ==> x.count == 1)
      && (kind.fluid <==> FLUIDTYPE in x.attrs)
      && (kind.fluid && kind.box.NoBox? ==> GetSubType(x) == if kind.stackable && n == 0 then 1 else n)
      && (CHARGES in x.attrs <==> !kind.fluid && !kind.stackable && kind.charges != 0)
      && (CHARGES in x.attrs ==> GetSubType(x) == if n != 0 && kind.box.NoBox? then n else kind.charges)
      && (DURATION in x.attrs <==> kind.duration != 0) && (DURATION in x.attrs ==> GetInt(x.attrs, DURATION) == kind.duration)
      && x.attrs.Keys <= {FLUIDTYPE, CHARGES, DURATION}
  {
  }

  /** `CreateItem`: nothing for an id that the table does not know. */
  function CreateItem(kind: ItemType, n: nat): Option<ItemValue> {
    if !kind.known then None
    else if kind.box.Box? then Some(Made(kind, 0))
    else Some(Made(kind, if kind.stackable && n == 0 then 1 else n))
  }
}
