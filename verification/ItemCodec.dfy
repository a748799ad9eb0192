/** The attribute section of a saved item: `serializeAttr`, `unserializeAttr`, `readAttr`. */
module ItemCodec {
  import opened Streams
  import opened Items

  /** One attribute as it stands in the stream. */
  datatype Field =
    | Number(code: byte, w: Width, n: nat)
    | String(code: byte, s: seq<byte>)
    | Customs(entries: seq<Entry>)

  const ATTR_CONTAINER_ITEMS: byte := 23
  const ATTR_CUSTOM_ATTRIBUTES: byte := 34
  const DECAYING_PENDING := 2

  const PARTS := 24

  function NumberIf(c: bool, code: byte, w: Width, n: int): seq<Field> {
    if c then [Number(code, w, Cast(n, w))] else []
  }

  function StringIf(c: bool, code: byte, s: seq<byte>): seq<Field> {
    if c then [String(code, s)] else []
  }

  /** What `serializeAttr` writes at each of its steps. */
  function Part(i: nat, x: ItemValue): seq<Field> {
    var a := x.attrs;
    match i
    case 0 => NumberIf(x.kind.stackable || x.kind.fluid, 15, 1, GetSubType(x))
    case 1 => NumberIf(Cast(GetInt(a, CHARGES), 2) != 0, 22, 2, GetInt(a, CHARGES))
    case 2 => NumberIf(x.kind.moveable && Cast(GetInt(a, ACTIONID), 2) != 0, 4, 2, GetInt(a, ACTIONID))
    case 3 => StringIf(GetText(a, TEXT) != [], 6, GetText(a, TEXT))
    case 4 => NumberIf(GetInt(a, DATE) != 0, 18, 4, GetInt(a, DATE))
    case 5 => StringIf(GetText(a, WRITER) != [], 19, GetText(a, WRITER))
    case 6 => StringIf(GetText(a, DESCRIPTION) != [], 7, GetText(a, DESCRIPTION))
    case 7 => NumberIf(DURATION in a, 16, 4, GetInt(a, DURATION))
    case 8 => NumberIf(Cast(GetInt(a, DECAYSTATE), 1) == 1 || Cast(GetInt(a, DECAYSTATE), 1) == 2, 17, 1,
                       GetInt(a, DECAYSTATE))
    case 9 => StringIf(NAME in a, 24, GetText(a, NAME))
    case 10 => StringIf(ARTICLE in a, 25, GetText(a, ARTICLE))
    case 11 => StringIf(PLURALNAME in a, 26, GetText(a, PLURALNAME))
    case 12 => NumberIf(WEIGHT in a, 27, 4, GetInt(a, WEIGHT))
    case 13 => NumberIf(ATTACK in a, 28, 4, GetInt(a, ATTACK))
    case 14 => NumberIf(ATTACK_SPEED in a, 38, 4, GetInt(a, ATTACK_SPEED))
    case 15 => NumberIf(DEFENSE in a, 29, 4, GetInt(a, DEFENSE))
    case 16 => NumberIf(EXTRADEFENSE in a, 30, 4, GetInt(a, EXTRADEFENSE))
    case 17 => NumberIf(ARMOR in a, 31, 4, GetInt(a, ARMOR))
    case 18 => NumberIf(HITCHANCE in a, 32, 1, GetInt(a, HITCHANCE))
    case 19 => NumberIf(SHOOTRANGE in a, 33, 1, GetInt(a, SHOOTRANGE))
    case 20 => NumberIf(DECAYTO in a, 35, 4, GetInt(a, DECAYTO))
    case 21 => NumberIf(WRAPID in a, 36, 2, GetInt(a, WRAPID))
    case 22 => NumberIf(STOREITEM in a, 37, 1, GetInt(a, STOREITEM))
    case 23 => if CUSTOM in a then [Customs(GetCustom(a))] else []
    case _ => []
  }

  /** The fields of the first `n` steps. */
  function Fields(n: nat, x: ItemValue): seq<Field> {
    if n == 0 then [] else Fields(n - 1, x) + Part(n - 1, x)
  }

  function CustomBytes(v: CustomValue): seq<byte> {
    match v
    case Blank => [0]
    case CustomText(s) => [1] + StringBytes(s)
    case CustomInt(n) => [2] + LE(Cast(n, 8), 8)
    case CustomDouble(b) => [3] + LE(Cast(b, 8), 8)
    case CustomBool(b) => [4] + [if b then 1 else 0]
  }

  function EntriesBytes(es: seq<Entry>): seq<byte> {
    if es == [] then [] else StringBytes(es[0].key) + CustomBytes(es[0].value) + EntriesBytes(es[1..])
  }

  /** The bytes of a field after its code. */
  function Payload(f: Field): seq<byte> {
    match f
    case Number(_, w, n) => LE(n, w)
    case String(_, s) => StringBytes(s)
    case Customs(es) => LE(|es|, 8) + EntriesBytes(es)
  }

  function CodeOf(f: Field): byte {
    if f.Customs? then ATTR_CUSTOM_ATTRIBUTES else f.code
  }

  function Bytes(fs: seq<Field>): seq<byte> {
    if fs == [] then [] else [CodeOf(fs[0])] + Payload(fs[0]) + Bytes(fs[1..])
  }

  // ----- reading

  /** How `readAttr` reads what follows an attribute code. */
  datatype Shape = AsNumber(w: Width) | AsString | AsCustoms | Skipped(n: nat) | Unreadable

  function ShapeOf(code: byte): Shape {
    if code == 15 || code == 12 || code == 17 || code == 32 || code == 33 || code == 37 then AsNumber(1)
    else if code == 4 || code == 5 || code == 22 || code == 36 then AsNumber(2)
    else if code == 18 || code == 16 || code == 27 || code == 28 || code == 38 || code == 29 || code == 30 || code == 31 || code == 35 then AsNumber(4)
    else if code == 6 || code == 19 || code == 7 || code == 24 || code == 25 || code == 26 then AsString
    else if code == ATTR_CUSTOM_ATTRIBUTES then AsCustoms
    else if code == 39 || code == 41 || code == 14 then Skipped(1)
    else if code == 40 then Skipped(15)
    else if code == 10 then Skipped(2)
    else if code == 20 || code == 21 then Skipped(4)
    else if code == 8 then Skipped(5)
    else Unreadable
  }

  /** The attribute that `readAttr` sets from a number, for the codes that stand for one. */
  function NumberKey(code: byte): nat {
    match code
    case 4 => ACTIONID case 18 => DATE case 16 => DURATION case 27 => WEIGHT case 28 => ATTACK case 38 => ATTACK_SPEED
    case 29 => DEFENSE case 30 => EXTRADEFENSE case 31 => ARMOR case 32 => HITCHANCE case 33 => SHOOTRANGE
    case 35 => DECAYTO case 36 => WRAPID case 37 => STOREITEM case 17 => DECAYSTATE case _ => UNIQUEID
  }

  /** The number it gets: some are read as signed, some are cut off at a bound. */
  function NumberValue(code: byte, n: nat): int {
    match code
    case 4 => if n < 100 then 100 else n
    case 16 => if Signed(n, 4) < 0 then 0 else Signed(n, 4)
    case 17 => DECAYING_PENDING
    case 18 => Signed(n, 4) case 28 => Signed(n, 4) case 29 => Signed(n, 4) case 30 => Signed(n, 4)
    case 31 => Signed(n, 4) case 35 => Signed(n, 4)
    case 32 => Signed(n, 1)
    case _ => n
  }

  /** The setter that `readAttr` calls for a number. */
  function ApplyNumber(x: ItemValue, code: byte, n: nat): ItemValue {
    if code == 15 || code == 12 || code == 22 then SetSubType(x, n)
    else if code == 17 && n == 0 then x
    else if code == 5 && UNIQUEID in x.attrs then x
    else x.(attrs := SetInt(x.attrs, NumberKey(code), NumberValue(code, n)))
  }

  function ApplyString(x: ItemValue, code: byte, s: seq<byte>): ItemValue {
    var key := if code == 6 then TEXT else if code == 19 then WRITER else if code == 7 then DESCRIPTION
               else if code == 24 then NAME else if code == 25 then ARTICLE else PLURALNAME;
    x.(attrs := SetText(x.attrs, key, s))
  }

  /** `CustomAttribute::unserialize` */
  function TakeCustom(s: seq<byte>): (r: Read<CustomValue>)
    ensures r.Read? ==> |r.rest| < |s|
  {
    if s == [] then Short
    else if s[0] == 1 then
      var t := TakeString(s[1..]);
      if t.Short? then Short else Read(CustomText(t.value), t.rest)
    else if s[0] == 2 then
      var t := TakeNumber(s[1..], 8);
      if t.Short? then Short else Read(CustomInt(t.value), t.rest)
    else if s[0] == 3 then
      var t := TakeNumber(s[1..], 8);
      if t.Short? then Short else Read(CustomDouble(t.value), t.rest)
    else if s[0] == 4 then
      var t := TakeNumber(s[1..], 1);
      if t.Short? then Short else Read(CustomBool(t.value != 0), t.rest)
    else Short
  }

  /** Key and value of one custom attribute. */
  function TakeEntry(s: seq<byte>): (r: Read<Entry>)
    ensures r.Read? ==> |r.rest| < |s|
  {
    var k := TakeString(s);
    if k.Short? then Short else
      var v := TakeCustom(k.rest);
      if v.Short? then Short else Read(Entry(k.value, v.value), v.rest)
  }

  function WithCustom(x: ItemValue, e: Entry): ItemValue {
    x.(attrs := SetCustom(x.attrs, e))
  }

  /** The loop that reads `n` custom attributes into an item. */
  function TakeEntries(x: ItemValue, n: nat, s: seq<byte>): (r: Read<ItemValue>)
    ensures r.Read? ==> |r.rest| <= |s| && r.value.kind == x.kind
    decreases n
  {
    if n == 0 then Read(x, s) else
      var e := TakeEntry(s);
      if e.Short? then Short else TakeEntries(WithCustom(x, e.value), n - 1, e.rest)
  }

  /** A number of entries, and the entries. */
  function ReadCustoms(x: ItemValue, s: seq<byte>): (r: Read<ItemValue>)
    ensures r.Read? ==> |r.rest| <= |s| && r.value.kind == x.kind
  {
    var t := TakeNumber(s, 8);
    if t.Short? then Short else TakeEntries(x, t.value, t.rest)
  }

  /** `Item::readAttr`: `Short` stands for `ATTR_READ_ERROR`. */
  function ReadAttr(x: ItemValue, code: byte, s: seq<byte>): (r: Read<ItemValue>)
    ensures r.Read? ==> |r.rest| <= |s| && r.value.kind == x.kind
  {
    match ShapeOf(code)
    case AsNumber(w) =>
      var t := TakeNumber(s, w);
      if t.Short? then Short else Read(ApplyNumber(x, code, t.value), t.rest)
    case AsString =>
      var t := TakeString(s);
      if t.Short? then Short else Read(ApplyString(x, code, t.value), t.rest)
    case AsCustoms => ReadCustoms(x, s)
    case Skipped(n) =>
      var t := Drop(s, n);
      if t.Short? then Short else Read(x, t.rest)
    case Unreadable => Short
  }

  /** An item and, for a container, the number of children that follow in the stream. */
  datatype Loaded = Loaded(item: ItemValue, children: nat)

  /** `unserializeAttr`: attributes up to the end mark, the end of the stream, or a container's
      child count. */
  function Unserialize(x: ItemValue, s: seq<byte>): (r: Read<Loaded>)
    ensures r.Read? ==> |r.rest| <= |s| && r.value.item.kind == x.kind
    decreases |s|
  {
    if s == [] then Read(Loaded(x, 0), s)
    else if s[0] == 0 then Read(Loaded(x, 0), s[1..])
    else if s[0] == ATTR_CONTAINER_ITEMS && x.kind.box.Box? then
      var n := TakeNumber(s[1..], 4);
      if n.Short? then Short else Read(Loaded(x, n.value), n.rest)
    else
      var r := ReadAttr(x, s[0], s[1..]);
      if r.Short? then Short else Unserialize(r.value, r.rest)
  }

  // ----- what is read before a failure

  /** The custom attributes that are read before one that is not there. */
  function EntriesSoFar(x: ItemValue, n: nat, s: seq<byte>): (y: ItemValue)
    ensures y.kind == x.kind
    decreases n
  {
    if n == 0 then x else
      var e := TakeEntry(s);
      if e.Short? then x else EntriesSoFar(WithCustom(x, e.value), n - 1, e.rest)
  }

  function ReadSoFar(x: ItemValue, code: byte, s: seq<byte>): (y: ItemValue)
    ensures y.kind == x.kind
  {
    var r := ReadAttr(x, code, s);
    if r.Read? then r.value
    else if ShapeOf(code).AsCustoms? && TakeNumber(s, 8).Read? then EntriesSoFar(x, TakeNumber(s, 8).value, TakeNumber(s, 8).rest)
    else x
  }

  /** The item with all attributes up to the end or to the one that cannot be read. */
  function LoadedSoFar(x: ItemValue, s: seq<byte>): (y: ItemValue)
    ensures y.kind == x.kind
    decreases |s|
  {
    if s == [] || s[0] == 0 || (s[0] == ATTR_CONTAINER_ITEMS && x.kind.box.Box?) then x
    else
      var r := ReadAttr(x, s[0], s[1..]);
      if r.Short? then ReadSoFar(x, s[0], s[1..]) else LoadedSoFar(r.value, r.rest)
  }

  lemma {:induction false} SoFarIsAll(x: ItemValue, s: seq<byte>)
    ensures Unserialize(x, s).Read? ==> LoadedSoFar(x, s) == Unserialize(x, s).value.item
    decreases |s|
  {
    hide ReadAttr, ReadSoFar;
    if s != [] && s[0] != 0 && !(s[0] == ATTR_CONTAINER_ITEMS && x.kind.box.Box?) && ReadAttr(x, s[0], s[1..]).Read? {
      SoFarIsAll(ReadAttr(x, s[0], s[1..]).value, ReadAttr(x, s[0], s[1..]).rest);
    }
  }

  lemma {:induction false} EntriesAll(x: ItemValue, n: nat, s: seq<byte>)
    ensures TakeEntries(x, n, s).Read? ==> EntriesSoFar(x, n, s) == TakeEntries(x, n, s).value
    decreases n
  {
    hide TakeEntry, WithCustom;
    if n > 0 && TakeEntry(s).Read? {
      EntriesAll(WithCustom(x, TakeEntry(s).value), n - 1, TakeEntry(s).rest);
    }
  }

  // ----- what comes back

  function KeptCustom(v: CustomValue): CustomValue {
    match v
    case CustomText(s) => CustomText(Kept(s))
    case CustomInt(n) => CustomInt(Cast(n, 8))
    case CustomDouble(b) => CustomDouble(Cast(b, 8))
    case _ => v
  }

  /** One entry read and put into the item. */
  function ApplyEntry(x: ItemValue, e: Entry): (y: ItemValue)
    ensures y.kind == x.kind
  {
    WithCustom(x, Entry(Kept(e.key), KeptCustom(e.value)))
  }

  function ApplyEntries(x: ItemValue, es: seq<Entry>): (y: ItemValue)
    ensures y.kind == x.kind
    decreases |es|
  {
    if es == [] then x
    else ApplyEntries(ApplyEntry(x, es[0]), es[1..])
  }

  /** The item after one field has been read into it. */
  function Apply(x: ItemValue, f: Field): (y: ItemValue)
    ensures y.kind == x.kind
  {
    match f
    case Number(code, _, n) => ApplyNumber(x, code, n)
    case String(code, s) => ApplyString(x, code, Kept(s))
    case Customs(es) => ApplyEntries(x, es)
  }

  function ApplyAll(x: ItemValue, fs: seq<Field>): (y: ItemValue)
    ensures y.kind == x.kind
    decreases |fs|
  {
    if fs == [] then x else ApplyAll(Apply(x, fs[0]), fs[1..])
  }

  /** A field that `readAttr` reads the way it was written. */
  predicate Readable(f: Field) {
    match f
    case Number(code, w, n) => ShapeOf(code) == AsNumber(w) && n < Size(w)
    case String(code, s) => ShapeOf(code) == AsString
    case Customs(es) => |es| < Size(8) && forall k :: 0 <= k < |es| ==> es[k].value != Blank
  }

  lemma Headed(c: byte, a: seq<byte>, rest: seq<byte>)
    ensures ([c] + a + rest)[0] == c && ([c] + a + rest)[1..] == a + rest
  {
  }

  lemma CustomBack(v: CustomValue, rest: seq<byte>)
    requires v != Blank
    ensures TakeCustom(CustomBytes(v) + rest) == Read(KeptCustom(v), rest)
  {
    match v
    case CustomText(t) =>
      Headed(1, StringBytes(t), rest);
      StringBack(t, rest);
    case CustomInt(n) =>
      Headed(2, LE(Cast(n, 8), 8), rest);
      NumberBack(Cast(n, 8), 8, rest);
    case CustomDouble(b) =>
      Headed(3, LE(Cast(b, 8), 8), rest);
      NumberBack(Cast(b, 8), 8, rest);
    case CustomBool(b) =>
      var n := if b then 1 else 0;
      Headed(4, [n], rest);
      assert LE(n, 1) == [n];
      NumberBack(n, 1, rest);
  }

  lemma EntryBack(e: Entry, rest: seq<byte>)
    requires e.value != Blank
    ensures TakeEntry(StringBytes(e.key) + CustomBytes(e.value) + rest)
      == Read(Entry(Kept(e.key), KeptCustom(e.value)), rest)
  {
    assert StringBytes(e.key) + CustomBytes(e.value) + rest == StringBytes(e.key) + (CustomBytes(e.value) + rest);
    StringBack(e.key, CustomBytes(e.value) + rest);
    CustomBack(e.value, rest);
  }

  lemma {:induction false} EntriesBack(x: ItemValue, es: seq<Entry>, rest: seq<byte>)
    requires forall k :: 0 <= k < |es| ==> es[k].value != Blank
    ensures TakeEntries(x, |es|, EntriesBytes(es) + rest) == Read(ApplyEntries(x, es), rest)
    decreases |es|
  {
    if es == [] {
      assert EntriesBytes(es) + rest == rest;
    } else {
      var tail := EntriesBytes(es[1..]) + rest;
      assert EntriesBytes(es) + rest == StringBytes(es[0].key) + CustomBytes(es[0].value) + tail;
      EntryBack(es[0], tail);
      EntriesBack(ApplyEntry(x, es[0]), es[1..], rest);
    }
  }

  lemma NumberFieldBack(x: ItemValue, f: Field, rest: seq<byte>)
    requires Readable(f) && f.Number?
    ensures ReadAttr(x, CodeOf(f), Payload(f) + rest) == Read(Apply(x, f), rest)
  {
    NumberBack(f.n, f.w, rest);
  }

  lemma StringFieldBack(x: ItemValue, f: Field, rest: seq<byte>)
    requires Readable(f) && f.String?
    ensures ReadAttr(x, CodeOf(f), Payload(f) + rest) == Read(Apply(x, f), rest)
  {
    StringBack(f.s, rest);
  }

  lemma Regroup(a: seq<byte>, b: seq<byte>, c: seq<byte>)
    ensures a + b + c == a + (b + c)
  {
  }

  lemma CountedBack(x: ItemValue, es: seq<Entry>, count: seq<byte>, rest: seq<byte>)
    requires Readable(Customs(es)) && count == LE(|es|, 8)
    ensures ReadCustoms(x, count + EntriesBytes(es) + rest) == Read(ApplyEntries(x, es), rest)
  {
    Regroup(count, EntriesBytes(es), rest);
    NumberBack(|es|, 8, EntriesBytes(es) + rest);
    EntriesBack(x, es, rest);
  }

  lemma CustomsFieldBack(x: ItemValue, f: Field, count: seq<byte>, rest: seq<byte>)
    requires Readable(f) && f.Customs?
    requires count == LE(|f.entries|, 8) && Payload(f) == count + EntriesBytes(f.entries)
    ensures ReadAttr(x, CodeOf(f), Payload(f) + rest) == Read(Apply(x, f), rest)
  {
    hide TakeEntries, ApplyEntries, EntriesBytes, TakeNumber, LE, Payload, ReadCustoms;
    CountedBack(x, f.entries, count, rest);
  }

  lemma FieldBack(x: ItemValue, f: Field, rest: seq<byte>)
    requires Readable(f)
    ensures CodeOf(f) != 0 && CodeOf(f) != ATTR_CONTAINER_ITEMS
    ensures ReadAttr(x, CodeOf(f), Payload(f) + rest) == Read(Apply(x, f), rest)
  {
    match f
    case Number(_, _, _) => NumberFieldBack(x, f, rest);
    case String(_, _) => StringFieldBack(x, f, rest);
    case Customs(es) => CustomsFieldBack(x, f, LE(|es|, 8), rest);
  }

  /** Reading back written fields applies them one by one. */
  lemma {:induction false} FieldsBack(x: ItemValue, fs: seq<Field>, rest: seq<byte>)
    requires forall k :: 0 <= k < |fs| ==> Readable(fs[k])
    ensures Unserialize(x, Bytes(fs) + rest) == Unserialize(ApplyAll(x, fs), rest)
    decreases |fs|
  {
    if fs == [] {
      assert Bytes(fs) + rest == rest;
    } else {
      var f, tail := fs[0], Bytes(fs[1..]) + rest;
      assert Bytes(fs) + rest == [CodeOf(f)] + Payload(f) + tail;
      Headed(CodeOf(f), Payload(f), tail);
      FieldBack(x, f, tail);
      FieldsBack(Apply(x, f), fs[1..], rest);
    }
  }

  /** What no stream can hold: a custom attribute without a value. */
  predicate Storable(x: ItemValue) {
    |GetCustom(x.attrs)| < Size(8) && forall k :: 0 <= k < |GetCustom(x.attrs)| ==> GetCustom(x.attrs)[k].value != Blank
  }

  lemma PartReadable(i: nat, x: ItemValue)
    requires Storable(x)
    ensures forall k :: 0 <= k < |Part(i, x)| ==> Readable(Part(i, x)[k])
  {
  }

  lemma {:induction false} FieldsReadable(n: nat, x: ItemValue)
    requires Storable(x)
    ensures forall k :: 0 <= k < |Fields(n, x)| ==> Readable(Fields(n, x)[k])
  {
    if n > 0 {
      FieldsReadable(n - 1, x);
      PartReadable(n - 1, x);
    }
  }

  /** The attribute section of a saved item. */
  function Saved(x: ItemValue): seq<byte> {
    Bytes(Fields(PARTS, x))
  }

  /** The item that a fresh item `y` becomes when the attribute section of `x` is read into it. */
  function Restored(y: ItemValue, x: ItemValue): (r: ItemValue)
    ensures r.kind == y.kind
  {
    ApplyAll(y, Fields(PARTS, x))
  }

  /** Reading the attribute section of any storable item, whatever follows it. */
  lemma SavedBack(y: ItemValue, x: ItemValue, rest: seq<byte>)
    requires Storable(x)
    ensures Unserialize(y, Saved(x) + rest) == Unserialize(Restored(y, x), rest)
  {
    FieldsReadable(PARTS, x);
    FieldsBack(y, Fields(PARTS, x), rest);
  }

  // ----- items that come back unchanged

  predicate Fits(a: Attributes, k: nat, lo: int, hi: int) {
    k in a ==> a[k].Int? && lo <= a[k].n < hi
  }

  predicate FitsText(a: Attributes, k: nat) {
    k in a ==> a[k].Text? && 0 < |a[k].s| < Size(2)
  }

  predicate FitsCustom(a: Attributes) {
    CUSTOM in a ==> a[CUSTOM].Custom? && GetCustom(a) != [] && EntriesFit(GetCustom(a))
  }

  predicate EntriesFit(es: seq<Entry>) {
    && |es| < Size(8)
    && (forall k :: 0 <= k < |es| ==> es[k].key == Lower(es[k].key) && |es[k].key| < Size(2))
    && (forall k :: 0 <= k < |es| ==> es[k].value != Blank && KeptCustom(es[k].value) == es[k].value)
    && (forall j, k :: 0 <= j < k < |es| ==> es[j].key != es[k].key)
  }

  /** Every attribute has a field that holds it, the count is where the type keeps it, and no
      default of the type is missing. */
  predicate NormalForm(x: ItemValue) {
    var a := x.attrs;
    && (forall k :: k in a ==> Seen(PARTS, k)) && (ACTIONID in a ==> x.kind.moveable)
    && Fits(a, ACTIONID, 100, Size(2)) && Fits(a, DATE, -0x8000_0000, 0x8000_0000) && (DATE in a ==> GetInt(a, DATE) != 0)
    && Fits(a, WEIGHT, 0, Size(4)) && Fits(a, ATTACK, -0x8000_0000, 0x8000_0000)
    && Fits(a, ATTACK_SPEED, 100, Size(4)) && Fits(a, DEFENSE, -0x8000_0000, 0x8000_0000)
    && Fits(a, EXTRADEFENSE, -0x8000_0000, 0x8000_0000) && Fits(a, ARMOR, -0x8000_0000, 0x8000_0000)
    && Fits(a, HITCHANCE, -128, 128) && Fits(a, SHOOTRANGE, 0, 256)
    && Fits(a, DECAYTO, -0x8000_0000, 0x8000_0000) && Fits(a, WRAPID, 0, Size(2)) && Fits(a, STOREITEM, 0, 256)
    && Fits(a, DURATION, 0, 0x8000_0000) && Fits(a, DECAYSTATE, 2, 3)
    && FitsText(a, TEXT) && FitsText(a, WRITER) && FitsText(a, DESCRIPTION)
    && FitsText(a, NAME) && FitsText(a, ARTICLE) && FitsText(a, PLURALNAME) && FitsCustom(a)
    && SubTypeFits(x) && (x.kind.duration != 0 ==> DURATION in a)
  }

  predicate SubTypeFits(x: ItemValue) {
    var a := x.attrs;
    && Fits(a, FLUIDTYPE, 0, 256) && Fits(a, CHARGES, 1, Size(2))
    && (FLUIDTYPE in a <==> x.kind.fluid)
    && (CHARGES in a <==> !x.kind.fluid && !x.kind.stackable && x.kind.charges != 0)
    && (x.kind.stackable && !x.kind.fluid ==> x.count < 256)
    && (!x.kind.stackable || x.kind.fluid ==> x.count == 1)
  }

  /** The key that each step of `serializeAttr` looks after; the first also looks after the count. */
  function KeyOf(i: nat): nat {
    match i
    case 0 => FLUIDTYPE case 1 => CHARGES case 2 => ACTIONID case 3 => TEXT case 4 => DATE case 5 => WRITER
    case 6 => DESCRIPTION case 7 => DURATION case 8 => DECAYSTATE case 9 => NAME case 10 => ARTICLE
    case 11 => PLURALNAME case 12 => WEIGHT case 13 => ATTACK case 14 => ATTACK_SPEED case 15 => DEFENSE
    case 16 => EXTRADEFENSE case 17 => ARMOR case 18 => HITCHANCE case 19 => SHOOTRANGE case 20 => DECAYTO
    case 21 => WRAPID case 22 => STOREITEM case 23 => CUSTOM case _ => 32
  }

  /** One of the first `n` steps looks after the key. */
  predicate Seen(n: nat, k: nat) {
    n > 0 && (KeyOf(n - 1) == k || Seen(n - 1, k))
  }

  /** What a step leaves of an item `y` that is on its way to becoming `x`. */
  function Step(i: nat, x: ItemValue, y: ItemValue): ItemValue {
    y.(attrs := if KeyOf(i) in x.attrs then y.attrs[KeyOf(i) := x.attrs[KeyOf(i)]] else y.attrs,
       count := if i == 0 && x.kind.stackable && !x.kind.fluid then x.count else y.count)
  }

  lemma SubTypeStep(x: ItemValue, y: ItemValue)
    requires NormalForm(x) && y.kind == x.kind
    ensures ApplyAll(y, Part(0, x)) == Step(0, x, y)
    ensures ApplyAll(y, Part(1, x)) == Step(1, x, y)
  {
    assert ApplyAll(y, []) == y;
  }

  /** A number field whose value survives the trip through its width sets its attribute. */
  lemma NumberStep(y: ItemValue, code: byte, w: Width, n: int)
    requires ShapeOf(code) == AsNumber(w) && code != 15 && code != 12 && code != 22 && code != 5
    requires NumberValue(code, Cast(n, w)) == n && (code == 17 ==> Cast(n, w) != 0) && (code == 38 ==> n >= 100)
    ensures ApplyAll(y, NumberIf(true, code, w, n)) == y.(attrs := y.attrs[NumberKey(code) := Int(n)])
  {
    var f := NumberIf(true, code, w, n);
    assert f[1..] == [] && ApplyAll(Apply(y, f[0]), []) == Apply(y, f[0]);
  }

  lemma SignedBack(n: int)
    requires -0x8000_0000 <= n < 0x8000_0000
    ensures Signed(Cast(n, 4), 4) == n
  {
  }

  lemma SignedByteBack(n: int)
    requires -128 <= n < 128
    ensures Signed(Cast(n, 1), 1) == n
  {
  }

  lemma SignedSteps(i: nat, x: ItemValue, y: ItemValue)
    requires NormalForm(x) && y.kind == x.kind && KeyOf(i) in x.attrs
    requires i == 4 || i == 7 || i == 13
    ensures ApplyAll(y, Part(i, x)) == Step(i, x, y)
  {
    hide ApplyAll, FitsText, FitsCustom, SubTypeFits, Seen;
    var n := x.attrs[KeyOf(i)].n;
    SignedBack(n);
    match i
    case 4 => NumberStep(y, 18, 4, n);
    case 7 => NumberStep(y, 16, 4, n);
    case 13 => NumberStep(y, 28, 4, n);
  }

  lemma DefenseSteps(i: nat, x: ItemValue, y: ItemValue)
    requires NormalForm(x) && y.kind == x.kind && KeyOf(i) in x.attrs
    requires i == 15 || i == 16 || i == 17 || i == 20
    ensures ApplyAll(y, Part(i, x)) == Step(i, x, y)
  {
    hide ApplyAll, FitsText, FitsCustom, SubTypeFits, Seen;
    var n := x.attrs[KeyOf(i)].n;
    SignedBack(n);
    match i
    case 15 => NumberStep(y, 29, 4, n);
    case 16 => NumberStep(y, 30, 4, n);
    case 17 => NumberStep(y, 31, 4, n);
    case 20 => NumberStep(y, 35, 4, n);
  }

  lemma WordSteps(i: nat, x: ItemValue, y: ItemValue)
    requires NormalForm(x) && y.kind == x.kind && KeyOf(i) in x.attrs
    requires i == 2 || i == 12 || i == 14 || i == 21
    ensures ApplyAll(y, Part(i, x)) == Step(i, x, y)
  {
    hide ApplyAll, FitsText, FitsCustom, SubTypeFits, Seen;
    var n := x.attrs[KeyOf(i)].n;
    match i
    case 2 => NumberStep(y, 4, 2, n);
    case 12 => NumberStep(y, 27, 4, n);
    case 14 => NumberStep(y, 38, 4, n);
    case 21 => NumberStep(y, 36, 2, n);
  }

  lemma DecayStateStep(x: ItemValue, y: ItemValue)
    requires DECAYSTATE in x.attrs && Fits(x.attrs, DECAYSTATE, 2, 3)
    ensures ApplyAll(y, Part(8, x)) == Step(8, x, y)
  {
    assert Cast(2, 1) == 2 && GetInt(x.attrs, DECAYSTATE) == 2;
    NumberStep(y, 17, 1, 2);
  }

  lemma ShootRangeStep(x: ItemValue, y: ItemValue)
    requires SHOOTRANGE in x.attrs && Fits(x.attrs, SHOOTRANGE, 0, 256)
    ensures ApplyAll(y, Part(19, x)) == Step(19, x, y)
  {
    hide ApplyAll;
    NumberStep(y, 33, 1, x.attrs[SHOOTRANGE].n);
  }

  lemma StoreItemStep(x: ItemValue, y: ItemValue)
    requires STOREITEM in x.attrs && Fits(x.attrs, STOREITEM, 0, 256)
    ensures ApplyAll(y, Part(22, x)) == Step(22, x, y)
  {
    hide ApplyAll;
    NumberStep(y, 37, 1, x.attrs[STOREITEM].n);
  }

  lemma HitChanceStep(x: ItemValue, y: ItemValue)
    requires HITCHANCE in x.attrs && Fits(x.attrs, HITCHANCE, -128, 128)
    ensures ApplyAll(y, Part(18, x)) == Step(18, x, y)
  {
    hide ApplyAll;
    SignedByteBack(x.attrs[HITCHANCE].n);
    NumberStep(y, 32, 1, x.attrs[HITCHANCE].n);
  }

  /** An attribute that is not there is not written. */
  lemma AbsentEarly(i: nat, x: ItemValue)
    requires KeyOf(i) !in x.attrs && 0 < i < 12
    ensures Part(i, x) == []
  {
  }

  lemma AbsentLate(i: nat, x: ItemValue)
    requires KeyOf(i) !in x.attrs && 12 <= i
    ensures Part(i, x) == []
  {
  }

  lemma AbsentStep(i: nat, x: ItemValue, y: ItemValue)
    requires KeyOf(i) !in x.attrs && 0 < i
    ensures ApplyAll(y, Part(i, x)) == Step(i, x, y)
  {
    if i < 12 {
      AbsentEarly(i, x);
    } else {
      AbsentLate(i, x);
    }
  }

  lemma TextStep(i: nat, x: ItemValue, y: ItemValue)
    requires NormalForm(x) && y.kind == x.kind && KeyOf(i) in x.attrs
    requires i == 3 || i == 5 || i == 6 || 9 <= i < 12
    ensures ApplyAll(y, Part(i, x)) == Step(i, x, y)
  {
    hide ApplyAll, FitsCustom, SubTypeFits, Seen, Fits;
    var s := x.attrs[KeyOf(i)].s;
    match i
    case 3 => StringStep(y, 6, TEXT, s);
    case 5 => StringStep(y, 19, WRITER, s);
    case 6 => StringStep(y, 7, DESCRIPTION, s);
    case 9 => StringStep(y, 24, NAME, s);
    case 10 => StringStep(y, 25, ARTICLE, s);
    case 11 => StringStep(y, 26, PLURALNAME, s);
  }

  /** A string field that is not empty and not too long sets its attribute. */
  lemma StringStep(y: ItemValue, code: byte, key: nat, s: seq<byte>)
    requires 0 < |s| < Size(2) && forall t :: ApplyString(y, code, t) == y.(attrs := SetText(y.attrs, key, t))
    ensures ApplyAll(y, StringIf(true, code, s)) == y.(attrs := y.attrs[key := Text(s)])
  {
    var f := StringIf(true, code, s);
    assert f[1..] == [] && ApplyAll(Apply(y, f[0]), []) == Apply(y, f[0]);
  }

  /** The first `k` entries, read one after the other into an item without custom attributes. */
  lemma {:induction false} EntriesStep(y: ItemValue, done: seq<Entry>, es: seq<Entry>)
    requires EntriesFit(done + es) && es != []
    requires GetCustom(y.attrs) == done
    ensures ApplyEntries(y, es) == y.(attrs := y.attrs[CUSTOM := Custom(done + es)])
    decreases |es|
  {
    var e, all := es[0], done + es;
    assert all[|done|] == e;
    assert Without(done, e.key) == done by {
      forall k | 0 <= k < |done|
        ensures done[k].key != e.key
      {
        assert all[k].key != all[|done|].key;
      }
      WithoutAbsent(done, e.key);
    }
    var z := ApplyEntry(y, e);
    assert z == y.(attrs := y.attrs[CUSTOM := Custom(done + [e])]);
    assert done + [e] + es[1..] == all;
    if es[1..] == [] {
      assert ApplyEntries(z, es[1..]) == z && done + [e] == all;
    } else {
      EntriesStep(z, done + [e], es[1..]);
    }
  }

  lemma {:induction false} WithoutAbsent(es: seq<Entry>, key: seq<byte>)
    requires forall k :: 0 <= k < |es| ==> es[k].key != key
    ensures Without(es, key) == es
  {
    if es != [] {
      WithoutAbsent(es[1..], key);
    }
  }

  lemma CustomStep(x: ItemValue, y: ItemValue)
    requires NormalForm(x) && y.kind == x.kind && CUSTOM !in y.attrs && CUSTOM in x.attrs
    ensures ApplyAll(y, Part(23, x)) == Step(23, x, y)
  {
    var es := GetCustom(x.attrs);
    assert [] + es == es;
    EntriesStep(y, [], es);
    assert Part(23, x)[1..] == [] && ApplyAll(ApplyEntries(y, es), []) == ApplyEntries(y, es);
  }

  /** Each step restores what it looks after. */
  lemma PartStep(i: nat, x: ItemValue, y: ItemValue)
    requires NormalForm(x) && y.kind == x.kind && i < PARTS && (i == 23 ==> CUSTOM !in y.attrs)
    ensures ApplyAll(y, Part(i, x)) == Step(i, x, y)
  {
    if i < 2 {
      SubTypeStep(x, y);
    } else if KeyOf(i) !in x.attrs {
      AbsentStep(i, x, y);
    } else if i == 3 || i == 5 || i == 6 || 9 <= i < 12 {
      TextStep(i, x, y);
    } else if i == 4 || i == 7 || i == 13 {
      SignedSteps(i, x, y);
    } else if i == 15 || i == 16 || i == 17 || i == 20 {
      DefenseSteps(i, x, y);
    } else if i == 2 || i == 12 || i == 14 || i == 21 {
      WordSteps(i, x, y);
    } else if i == 18 {
      HitChanceStep(x, y);
    } else if i == 23 {
      CustomStep(x, y);
    } else if i == 8 {
      DecayStateStep(x, y);
    } else if i == 19 {
      ShootRangeStep(x, y);
    } else {
      StoreItemStep(x, y);
    }
  }

  lemma {:induction false} ApplyConcat(y: ItemValue, a: seq<Field>, b: seq<Field>)
    ensures ApplyAll(y, a + b) == ApplyAll(ApplyAll(y, a), b)
    decreases |a|
  {
    if a == [] {
      assert a + b == b;
    } else {
      assert (a + b)[1..] == a[1..] + b;
      ApplyConcat(Apply(y, a[0]), a[1..], b);
    }
  }

  /** The last of `n` steps. */
  lemma LastStep(n: nat, x: ItemValue, y: ItemValue)
    requires NormalForm(x) && y.kind == x.kind && 0 < n <= PARTS
    requires n == PARTS ==> CUSTOM !in ApplyAll(y, Fields(n - 1, x)).attrs
    ensures ApplyAll(y, Fields(n, x)) == Step(n - 1, x, ApplyAll(y, Fields(n - 1, x)))
  {
    ApplyConcat(y, Fields(n - 1, x), Part(n - 1, x));
    PartStep(n - 1, x, ApplyAll(y, Fields(n - 1, x)));
  }

  /** A key `k` of `r` is as in `x` if it was looked after, as in `y` if not. */
  predicate AsFar(n: nat, x: ItemValue, y: ItemValue, r: ItemValue, k: nat) {
    if Seen(n, k) && k in x.attrs then k in r.attrs && r.attrs[k] == x.attrs[k]
    else k in r.attrs <==> k in y.attrs
  }

  lemma AsFarStep(n: nat, x: ItemValue, y: ItemValue, z: ItemValue, k: nat)
    requires 0 < n && AsFar(n - 1, x, y, z, k)
    ensures AsFar(n, x, y, Step(n - 1, x, z), k)
  {
  }

  lemma {:induction false} StepsSoFar(n: nat, x: ItemValue, y: ItemValue, k: nat)
    requires NormalForm(x) && y.kind == x.kind && n <= PARTS && CUSTOM !in y.attrs
    ensures AsFar(n, x, y, ApplyAll(y, Fields(n, x)), k)
    ensures ApplyAll(y, Fields(n, x)).count == if 0 < n && x.kind.stackable && !x.kind.fluid then x.count else y.count
  {
    hide NormalForm, Part;
    if n > 0 {
      StepsSoFar(n - 1, x, y, k);
      StepsSoFar(n - 1, x, y, CUSTOM);
      CustomIsLast(n - 1);
      LastStep(n, x, y);
      AsFarStep(n, x, y, ApplyAll(y, Fields(n - 1, x)), k);
    }
  }

  lemma {:induction false} CustomIsLast(n: nat)
    requires n < PARTS
    ensures !Seen(n, CUSTOM)
  {
    if n > 0 {
      CustomIsLast(n - 1);
    }
  }

  /** The defaults that an item is created with are all overwritten by one in normal form. */
  lemma DefaultsCovered(x: ItemValue, n: nat)
    requires NormalForm(x)
    ensures var y := Made(x.kind, n);
      y.kind == x.kind && y.attrs.Keys <= x.attrs.Keys && CUSTOM !in y.attrs &&
      (!x.kind.stackable || x.kind.fluid ==> y.count == x.count)
  {
  }

  /** An item in normal form comes back as it was, from whatever sub type it is created with. */
  lemma NormalFormRestored(x: ItemValue, n: nat)
    requires NormalForm(x)
    ensures Storable(x) && Restored(Made(x.kind, n), x) == x
  {
    var y := Made(x.kind, n);
    var r := Restored(y, x);
    DefaultsCovered(x, n);
    StepsSoFar(PARTS, x, y, CUSTOM);
    forall k
      ensures k in r.attrs <==> k in x.attrs
      ensures k in x.attrs ==> r.attrs[k] == x.attrs[k]
    {
      StepsSoFar(PARTS, x, y, k);
    }
    assert r.attrs == x.attrs;
  }

  // ----- the code that works on the stream objects

  lemma {:induction false} BytesConcat(a: seq<Field>, b: seq<Field>)
    ensures Bytes(a + b) == Bytes(a) + Bytes(b)
  {
    if a == [] {
      assert a + b == b;
    } else {
      assert (a + b)[1..] == a[1..] + b;
      BytesConcat(a[1..], b);
    }
  }

  lemma BytesStep(start: seq<byte>, i: nat, x: ItemValue)
    ensures start + Bytes(Fields(i, x)) + Bytes(Part(i, x)) == start + Bytes(Fields(i + 1, x))
  {
    BytesConcat(Fields(i, x), Part(i, x));
  }

  lemma OneField(f: Field)
    ensures Bytes([f]) == [CodeOf(f)] + Payload(f)
  {
    assert [f][1..] == [];
  }

  // ----- the codes in the stream

  /** An item that is neither stackable nor a fluid container. */
  predicate Neutral(kind: ItemType) {
    !kind.stackable && !kind.fluid
  }

  lemma {:induction false} FieldsOnly(x: ItemValue, i: nat, n: nat)
    requires forall j :: 0 <= j < n && j != i ==> Part(j, x) == []
    ensures Fields(n, x) == if i < n then Part(i, x) else []
  {
    hide Part;
    if n > 0 {
      FieldsOnly(x, i, n - 1);
    }
  }

  lemma KeysApart(i: nat, j: nat)
    requires i < PARTS && j < PARTS && i != j
    ensures KeyOf(i) != KeyOf(j)
  {
  }

  /** With a single attribute, only its field is saved. */
  lemma SavedOnly(x: ItemValue, i: nat)
    requires Neutral(x.kind) && 0 < i < PARTS && x.attrs.Keys == {KeyOf(i)}
    ensures Saved(x) == Bytes(Part(i, x))
  {
    hide Part, KeyOf, Bytes;
    forall j | 0 <= j < PARTS && j != i
      ensures Part(j, x) == []
    {
      if j == 0 {
        NoCount(x);
      } else {
        KeysApart(i, j);
        if j < 12 {
          AbsentEarly(j, x);
        } else {
          AbsentLate(j, x);
        }
      }
    }
    FieldsOnly(x, i, PARTS);
  }

  lemma NoCount(x: ItemValue)
    requires Neutral(x.kind)
    ensures Part(0, x) == []
  {
  }

  lemma TextTag(kind: ItemType, key: nat, code: byte, i: nat, s: seq<byte>)
    requires Neutral(kind) && s != [] && 0 < i < PARTS && KeyOf(i) == key
    requires Part(i, ItemValue(kind, 1, map[key := Text(s)])) == [String(code, s)]
    ensures Saved(ItemValue(kind, 1, map[key := Text(s)])) == [code] + StringBytes(s)
  {
    hide Part, KeyOf, Bytes;
    SavedOnly(ItemValue(kind, 1, map[key := Text(s)]), i);
    OneField(String(code, s));
  }

  /** The codes of the texts. */
  lemma TextTags(kind: ItemType, s: seq<byte>)
    requires Neutral(kind) && s != []
    ensures Saved(ItemValue(kind, 1, map[TEXT := Text(s)])) == [6] + StringBytes(s)
    ensures Saved(ItemValue(kind, 1, map[DESCRIPTION := Text(s)])) == [7] + StringBytes(s)
    ensures Saved(ItemValue(kind, 1, map[WRITER := Text(s)])) == [19] + StringBytes(s)
    ensures Saved(ItemValue(kind, 1, map[NAME := Text(s)])) == [24] + StringBytes(s)
    ensures Saved(ItemValue(kind, 1, map[ARTICLE := Text(s)])) == [25] + StringBytes(s)
    ensures Saved(ItemValue(kind, 1, map[PLURALNAME := Text(s)])) == [26] + StringBytes(s)
  {
    hide Saved, StringBytes;
    TextTag(kind, TEXT, 6, 3, s);
    TextTag(kind, DESCRIPTION, 7, 6, s);
    TextTag(kind, WRITER, 19, 5, s);
    TextTag(kind, NAME, 24, 9, s);
    TextTag(kind, ARTICLE, 25, 10, s);
    TextTag(kind, PLURALNAME, 26, 11, s);
  }

  lemma NumberTag(kind: ItemType, key: nat, code: byte, i: nat, w: Width, n: int)
    requires Neutral(kind) && 0 < i < PARTS && KeyOf(i) == key
    requires Part(i, ItemValue(kind, 1, map[key := Int(n)])) == NumberIf(true, code, w, n)
    ensures Saved(ItemValue(kind, 1, map[key := Int(n)])) == [code] + LE(Cast(n, w), w)
  {
    hide Part, KeyOf, Bytes;
    SavedOnly(ItemValue(kind, 1, map[key := Int(n)]), i);
    OneField(Number(code, w, Cast(n, w)));
  }

  /** The codes and widths of the numbers that are saved whenever they are there. */
  lemma NumberTags(kind: ItemType, n: int)
    requires Neutral(kind)
    ensures Saved(ItemValue(kind, 1, map[DURATION := Int(n)])) == [16] + LE(Cast(n, 4), 4)
    ensures Saved(ItemValue(kind, 1, map[WEIGHT := Int(n)])) == [27] + LE(Cast(n, 4), 4)
    ensures Saved(ItemValue(kind, 1, map[ATTACK := Int(n)])) == [28] + LE(Cast(n, 4), 4)
    ensures Saved(ItemValue(kind, 1, map[DEFENSE := Int(n)])) == [29] + LE(Cast(n, 4), 4)
    ensures Saved(ItemValue(kind, 1, map[EXTRADEFENSE := Int(n)])) == [30] + LE(Cast(n, 4), 4)
    ensures Saved(ItemValue(kind, 1, map[ARMOR := Int(n)])) == [31] + LE(Cast(n, 4), 4)
  {
    hide Saved, Cast, LE;
    NumberTag(kind, DURATION, 16, 7, 4, n);
    NumberTag(kind, WEIGHT, 27, 12, 4, n);
    NumberTag(kind, ATTACK, 28, 13, 4, n);
    NumberTag(kind, DEFENSE, 29, 15, 4, n);
    NumberTag(kind, EXTRADEFENSE, 30, 16, 4, n);
    NumberTag(kind, ARMOR, 31, 17, 4, n);
  }

  lemma MoreNumberTags(kind: ItemType, n: int)
    requires Neutral(kind)
    ensures Saved(ItemValue(kind, 1, map[ATTACK_SPEED := Int(n)])) == [38] + LE(Cast(n, 4), 4)
    ensures Saved(ItemValue(kind, 1, map[HITCHANCE := Int(n)])) == [32] + LE(Cast(n, 1), 1)
    ensures Saved(ItemValue(kind, 1, map[SHOOTRANGE := Int(n)])) == [33] + LE(Cast(n, 1), 1)
    ensures Saved(ItemValue(kind, 1, map[DECAYTO := Int(n)])) == [35] + LE(Cast(n, 4), 4)
    ensures Saved(ItemValue(kind, 1, map[WRAPID := Int(n)])) == [36] + LE(Cast(n, 2), 2)
    ensures Saved(ItemValue(kind, 1, map[STOREITEM := Int(n)])) == [37] + LE(Cast(n, 1), 1)
  {
    hide Saved, Cast, LE;
    NumberTag(kind, ATTACK_SPEED, 38, 14, 4, n);
    NumberTag(kind, HITCHANCE, 32, 18, 1, n);
    NumberTag(kind, SHOOTRANGE, 33, 19, 1, n);
    NumberTag(kind, DECAYTO, 35, 20, 4, n);
    NumberTag(kind, WRAPID, 36, 21, 2, n);
    NumberTag(kind, STOREITEM, 37, 22, 1, n);
  }

  lemma NoTag(kind: ItemType, key: nat, i: nat, n: int)
    requires Neutral(kind) && 0 < i < PARTS && KeyOf(i) == key
    requires Part(i, ItemValue(kind, 1, map[key := Int(n)])) == []
    ensures Saved(ItemValue(kind, 1, map[key := Int(n)])) == []
  {
    hide Part, KeyOf;
    SavedOnly(ItemValue(kind, 1, map[key := Int(n)]), i);
  }

  /** The numbers that are saved only if they say something: action ids of moveable items, dates and
      charges that are not zero, and decay that is under way or pending. */
  lemma SomeNumberTags(kind: ItemType, n: int)
    requires Neutral(kind) && 0 <= n < 256
    ensures Saved(ItemValue(kind, 1, map[CHARGES := Int(n)])) == if n != 0 then [22] + LE(n, 2) else []
    ensures Saved(ItemValue(kind, 1, map[ACTIONID := Int(n)])) == if n != 0 && kind.moveable then [4] + LE(n, 2) else []
    ensures Saved(ItemValue(kind, 1, map[DATE := Int(n)])) == if n != 0 then [18] + LE(n, 4) else []
    ensures Saved(ItemValue(kind, 1, map[DECAYSTATE := Int(n)])) == if n == 1 || n == 2 then [17] + LE(n, 1) else []
  {
    hide Saved, LE;
    if n != 0 {
      NumberTag(kind, CHARGES, 22, 1, 2, n);
      NumberTag(kind, DATE, 18, 4, 4, n);
    } else {
      NoTag(kind, CHARGES, 1, n);
      NoTag(kind, DATE, 4, n);
    }
    if n != 0 && kind.moveable {
      NumberTag(kind, ACTIONID, 4, 2, 2, n);
    } else {
      NoTag(kind, ACTIONID, 2, n);
    }
    if n == 1 || n == 2 {
      NumberTag(kind, DECAYSTATE, 17, 8, 1, n);
    } else {
      NoTag(kind, DECAYSTATE, 8, n);
    }
  }

  /** A stack starts with its count, and a fluid with its kind. */
  lemma CountTag(x: ItemValue)
    requires x.attrs.Keys <= {FLUIDTYPE} && (x.kind.stackable || x.kind.fluid) && GetSubType(x) < 256
    ensures Saved(x) == [15, GetSubType(x)]
  {
    hide KeyOf, Bytes, GetSubType;
    forall j | 0 <= j < PARTS && j != 0
      ensures Part(j, x) == []
    {
      KeysApart(0, j);
      FluidKey();
      if j < 12 {
        AbsentEarly(j, x);
      } else {
        AbsentLate(j, x);
      }
    }
    hide Part;
    FieldsOnly(x, 0, PARTS);
    CountPart(x);
    OneField(Number(15, 1, GetSubType(x)));
    ByteOrder(GetSubType(x));
  }

  lemma FluidKey()
    ensures KeyOf(0) == FLUIDTYPE
  {
  }

  lemma CountPart(x: ItemValue)
    requires (x.kind.stackable || x.kind.fluid) && GetSubType(x) < 256
    ensures Part(0, x) == [Number(15, 1, GetSubType(x))]
  {
    hide GetSubType;
  }

  /** Custom attributes: their code, how many there are, and each with its key, the number of its type
      and its value. */
  lemma CustomTag(kind: ItemType, key: seq<byte>, n: nat)
    requires Neutral(kind) && n < Size(8)
    ensures Saved(ItemValue(kind, 1, map[CUSTOM := Custom([Entry(key, CustomInt(n))])])) ==
      [34] + (LE(1, 8) + (StringBytes(key) + ([2] + LE(n, 8))))
  {
    hide Part, KeyOf, LE, StringBytes, Bytes;
    var es := [Entry(key, CustomInt(n))];
    var x := ItemValue(kind, 1, map[CUSTOM := Custom(es)]);
    CustomPart(x);
    SavedOnly(x, 23);
    OneField(Customs(es));
    assert es[1..] == [];
    assert EntriesBytes(es) == StringBytes(key) + ([2] + LE(n, 8)) + EntriesBytes([]);
    assert EntriesBytes([]) == [];
    assert [34] + (LE(1, 8) + EntriesBytes(es)) == [34] + (LE(1, 8) + (StringBytes(key) + ([2] + LE(n, 8))));
  }

  lemma CustomPart(x: ItemValue)
    requires CUSTOM in x.attrs
    ensures KeyOf(23) == CUSTOM && Part(23, x) == [Customs(GetCustom(x.attrs))]
  {
  }

  /** The other types of custom attributes. */
  lemma CustomTags(s: seq<byte>, bits: nat, b: bool)
    ensures CustomBytes(CustomText(s)) == [1] + StringBytes(s) && CustomBytes(CustomDouble(bits)) == [3] + LE(Cast(bits, 8), 8)
    ensures CustomBytes(CustomBool(b)) == [4, if b then 1 else 0]
  {
    hide StringBytes, LE, Cast;
  }

  /** Codes of attributes that only other kinds of items have: this many bytes are skipped. */
  lemma SkippedTags(x: ItemValue, s: seq<byte>)
    requires |s| >= 15
    ensures ReadAttr(x, 8, s) == Read(x, s[5..]) && ReadAttr(x, 10, s) == Read(x, s[2..])
    ensures ReadAttr(x, 14, s) == Read(x, s[1..]) && ReadAttr(x, 39, s) == Read(x, s[1..]) && ReadAttr(x, 41, s) == Read(x, s[1..])
    ensures ReadAttr(x, 20, s) == Read(x, s[4..]) && ReadAttr(x, 21, s) == Read(x, s[4..]) && ReadAttr(x, 40, s) == Read(x, s[15..])
  {
    hide ReadAttr;
    SkippedTag(x, 8, s, 5);
    SkippedTag(x, 10, s, 2);
    SkippedTag(x, 14, s, 1);
    SkippedTag(x, 39, s, 1);
    SkippedTag(x, 41, s, 1);
    SkippedTag(x, 20, s, 4);
    SkippedTag(x, 21, s, 4);
    SkippedTag(x, 40, s, 15);
  }

  lemma SkippedTag(x: ItemValue, code: byte, s: seq<byte>, n: nat)
    requires ShapeOf(code) == Skipped(n) && |s| >= n
    ensures ReadAttr(x, code, s) == Read(x, s[n..])
  {
    hide ShapeOf;
  }

  /** Numbers that are read otherwise than they stand there: an action id is at least 100, a duration not
      negative, an attack speed at least 100, decay under way is pending, and only the first unique id counts. */
  lemma BoundedNumbers(x: ItemValue, n: nat, s: seq<byte>)
    requires n < 65536
    ensures ReadAttr(x, 4, LE(n, 2) + s) == Read(x.(attrs := x.attrs[ACTIONID := Int(if n < 100 then 100 else n)]), s)
    ensures ReadAttr(x, 5, LE(n, 2) + s) == Read(if UNIQUEID in x.attrs then x else x.(attrs := x.attrs[UNIQUEID := Int(n)]), s)
    ensures ReadAttr(x, 38, LE(n, 4) + s) == Read(x.(attrs := x.attrs[ATTACK_SPEED := Int(if n < 100 then 100 else n)]), s)
    ensures ReadAttr(x, 16, LE(n, 4) + s) == Read(x.(attrs := x.attrs[DURATION := Int(n)]), s)
    ensures ReadAttr(x, 16, LE(n + 0x8000_0000, 4) + s) == Read(x.(attrs := x.attrs[DURATION := Int(0)]), s)
    ensures n < 256 ==> ReadAttr(x, 17, LE(n, 1) + s) == Read(if n == 0 then x else x.(attrs := x.attrs[DECAYSTATE := Int(2)]), s)
  {
    hide LE, TakeNumber;
    NumberBack(n, 2, s);
    NumberBack(n, 4, s);
    NumberBack(n + 0x8000_0000, 4, s);
    if n < 256 {
      NumberBack(n, 1, s);
    }
  }

  /** Counts and charges set the sub type, whatever that is of the item. */
  lemma SubTypeNumbers(x: ItemValue, n: nat, s: seq<byte>)
    requires n < 256
    ensures ReadAttr(x, 15, LE(n, 1) + s) == Read(SetSubType(x, n), s) && ReadAttr(x, 12, LE(n, 1) + s) == Read(SetSubType(x, n), s)
    ensures ReadAttr(x, 22, LE(n, 2) + s) == Read(SetSubType(x, n), s)
  {
    hide LE, TakeNumber, SetSubType;
    NumberBack(n, 1, s);
    NumberBack(n, 2, s);
  }

  /** And codes that nothing has fail. */
  lemma UnknownTags(x: ItemValue, code: byte, s: seq<byte>)
    requires code in {0, 1, 2, 3, 9, 11, 13, 23} || code > 41
    ensures ReadAttr(x, code, s).Short?
  {
  }

  // ----- the writer

  method SaveNumber(stream: PropWriteStream, c: bool, code: byte, w: Width, n: int,
                    ghost start: seq<byte>, ghost i: nat, ghost x: ItemValue)
    requires stream.buffer == start + Bytes(Fields(i, x)) && Part(i, x) == NumberIf(c, code, w, n)
    modifies stream
    ensures stream.buffer == start + Bytes(Fields(i + 1, x))
  {
    BytesStep(start, i, x);
    if c {
      OneField(Number(code, w, Cast(n, w)));
      ghost var before := stream.buffer;
      stream.WriteByte(code);
      stream.Write(n, w);
      Regroup(before, [code], LE(Cast(n, w), w));
    }
  }

  method SaveString(stream: PropWriteStream, c: bool, code: byte, s: seq<byte>,
                    ghost start: seq<byte>, ghost i: nat, ghost x: ItemValue)
    requires stream.buffer == start + Bytes(Fields(i, x)) && Part(i, x) == StringIf(c, code, s)
    modifies stream
    ensures stream.buffer == start + Bytes(Fields(i + 1, x))
  {
    BytesStep(start, i, x);
    if c {
      OneField(String(code, s));
      ghost var before := stream.buffer;
      stream.WriteByte(code);
      stream.WriteString(s);
      Regroup(before, [code], StringBytes(s));
    }
  }

  /** The steps of `serializeAttr` before the custom attributes. */
  method SerializeTexts(stream: PropWriteStream, x: ItemValue, ghost start: seq<byte>)
    requires stream.buffer == start + Bytes(Fields(0, x))
    modifies stream
    ensures stream.buffer == start + Bytes(Fields(7, x))
  {
    hide Bytes, Fields, Cast, GetInt, GetText, GetSubType, NumberIf, StringIf;
    var a := x.attrs;
    SaveNumber(stream, x.kind.stackable || x.kind.fluid, 15, 1, GetSubType(x), start, 0, x);
    SaveNumber(stream, Cast(GetInt(a, CHARGES), 2) != 0, 22, 2, GetInt(a, CHARGES), start, 1, x);
    SaveNumber(stream, x.kind.moveable && Cast(GetInt(a, ACTIONID), 2) != 0, 4, 2, GetInt(a, ACTIONID), start, 2, x);
    SaveString(stream, GetText(a, TEXT) != [], 6, GetText(a, TEXT), start, 3, x);
    SaveNumber(stream, GetInt(a, DATE) != 0, 18, 4, GetInt(a, DATE), start, 4, x);
    SaveString(stream, GetText(a, WRITER) != [], 19, GetText(a, WRITER), start, 5, x);
    SaveString(stream, GetText(a, DESCRIPTION) != [], 7, GetText(a, DESCRIPTION), start, 6, x);
  }

  method SerializeNames(stream: PropWriteStream, x: ItemValue, ghost start: seq<byte>)
    requires stream.buffer == start + Bytes(Fields(7, x))
    modifies stream
    ensures stream.buffer == start + Bytes(Fields(12, x))
  {
    hide Bytes, Fields, Cast, GetInt, GetText, GetSubType, NumberIf, StringIf;
    var a := x.attrs;
    var state := Cast(GetInt(a, DECAYSTATE), 1);
    SaveNumber(stream, DURATION in a, 16, 4, GetInt(a, DURATION), start, 7, x);
    SaveNumber(stream, state == 1 || state == 2, 17, 1, GetInt(a, DECAYSTATE), start, 8, x);
    SaveString(stream, NAME in a, 24, GetText(a, NAME), start, 9, x);
    SaveString(stream, ARTICLE in a, 25, GetText(a, ARTICLE), start, 10, x);
    SaveString(stream, PLURALNAME in a, 26, GetText(a, PLURALNAME), start, 11, x);
  }

  method SerializeCombat(stream: PropWriteStream, x: ItemValue, ghost start: seq<byte>)
    requires stream.buffer == start + Bytes(Fields(12, x))
    modifies stream
    ensures stream.buffer == start + Bytes(Fields(18, x))
  {
    hide Bytes, Fields, Cast, GetInt, GetText, GetSubType, NumberIf, StringIf;
    var a := x.attrs;
    SaveNumber(stream, WEIGHT in a, 27, 4, GetInt(a, WEIGHT), start, 12, x);
    SaveNumber(stream, ATTACK in a, 28, 4, GetInt(a, ATTACK), start, 13, x);
    SaveNumber(stream, ATTACK_SPEED in a, 38, 4, GetInt(a, ATTACK_SPEED), start, 14, x);
    SaveNumber(stream, DEFENSE in a, 29, 4, GetInt(a, DEFENSE), start, 15, x);
    SaveNumber(stream, EXTRADEFENSE in a, 30, 4, GetInt(a, EXTRADEFENSE), start, 16, x);
    SaveNumber(stream, ARMOR in a, 31, 4, GetInt(a, ARMOR), start, 17, x);
  }

  method SerializeOthers(stream: PropWriteStream, x: ItemValue, ghost start: seq<byte>)
    requires stream.buffer == start + Bytes(Fields(18, x))
    modifies stream
    ensures stream.buffer == start + Bytes(Fields(23, x))
  {
    hide Bytes, Fields, Cast, GetInt, GetText, GetSubType, NumberIf, StringIf;
    var a := x.attrs;
    SaveNumber(stream, HITCHANCE in a, 32, 1, GetInt(a, HITCHANCE), start, 18, x);
    SaveNumber(stream, SHOOTRANGE in a, 33, 1, GetInt(a, SHOOTRANGE), start, 19, x);
    SaveNumber(stream, DECAYTO in a, 35, 4, GetInt(a, DECAYTO), start, 20, x);
    SaveNumber(stream, WRAPID in a, 36, 2, GetInt(a, WRAPID), start, 21, x);
    SaveNumber(stream, STOREITEM in a, 37, 1, GetInt(a, STOREITEM), start, 22, x);
  }

  /** `serializeAttr`: every step appends its field, if it has one. */
  method SerializeAttr(stream: PropWriteStream, x: ItemValue)
    requires |GetCustom(x.attrs)| < Size(8)
    modifies stream
    ensures stream.buffer == old(stream.buffer) + Saved(x)
  {
    ghost var start := stream.buffer;
    assert start + Bytes(Fields(0, x)) == start;
    SerializeTexts(stream, x, start);
    SerializeNames(stream, x, start);
    SerializeCombat(stream, x, start);
    SerializeOthers(stream, x, start);
    BytesStep(start, 23, x);
    if CUSTOM in x.attrs {
      SerializeCustoms(stream, GetCustom(x.attrs));
    }
  }

  /** The code, the number of entries, and keys and values. */
  method SerializeCustoms(stream: PropWriteStream, es: seq<Entry>)
    requires |es| < Size(8)
    modifies stream
    ensures stream.buffer == old(stream.buffer) + Bytes([Customs(es)])
  {
    ghost var start := stream.buffer;
    stream.WriteByte(ATTR_CUSTOM_ATTRIBUTES);
    stream.Write(|es|, 8);
    ghost var head := stream.buffer;
    for i := 0 to |es|
      invariant stream.buffer == head + EntriesBytes(es[..i])
    {
      stream.WriteString(es[i].key);
      SerializeCustom(stream, es[i].value);
      EntriesLast(es, i);
      Regroup(head, EntriesBytes(es[..i]), StringBytes(es[i].key));
      Regroup(head, EntriesBytes(es[..i]) + StringBytes(es[i].key), CustomBytes(es[i].value));
    }
    OneField(Customs(es));
    assert es[..|es|] == es;
    Regroup(start, [ATTR_CUSTOM_ATTRIBUTES], LE(|es|, 8));
    Regroup(start, [ATTR_CUSTOM_ATTRIBUTES] + LE(|es|, 8), EntriesBytes(es));
    Regroup([ATTR_CUSTOM_ATTRIBUTES], LE(|es|, 8), EntriesBytes(es));
  }

  lemma EntriesLast(es: seq<Entry>, i: nat)
    requires i < |es|
    ensures EntriesBytes(es[..i + 1]) == EntriesBytes(es[..i]) + StringBytes(es[i].key) + CustomBytes(es[i].value)
  {
    assert es[..i + 1] == es[..i] + [es[i]] && [es[i]][1..] == [];
    EntriesConcat(es[..i], [es[i]]);
    Regroup(EntriesBytes(es[..i]), StringBytes(es[i].key), CustomBytes(es[i].value));
  }

  lemma {:induction false} EntriesConcat(a: seq<Entry>, b: seq<Entry>)
    ensures EntriesBytes(a + b) == EntriesBytes(a) + EntriesBytes(b)
  {
    if a == [] {
      assert a + b == b;
    } else {
      assert (a + b)[1..] == a[1..] + b;
      EntriesConcat(a[1..], b);
      Regroup(StringBytes(a[0].key) + CustomBytes(a[0].value), EntriesBytes(a[1..]), EntriesBytes(b));
    }
  }

  method SerializeCustom(stream: PropWriteStream, v: CustomValue)
    modifies stream
    ensures stream.buffer == old(stream.buffer) + CustomBytes(v)
  {
    ghost var start := stream.buffer;
    match v
    case Blank =>
      stream.WriteByte(0);
    case CustomText(s) =>
      stream.WriteByte(1);
      stream.WriteString(s);
      Regroup(start, [1], StringBytes(s));
    case CustomInt(n) =>
      stream.WriteByte(2);
      stream.Write(n, 8);
      Regroup(start, [2], LE(Cast(n, 8), 8));
    case CustomDouble(b) =>
      stream.WriteByte(3);
      stream.Write(b, 8);
      Regroup(start, [3], LE(Cast(b, 8), 8));
    case CustomBool(b) =>
      stream.WriteByte(4);
      stream.WriteByte(if b then 1 else 0);
      Regroup(start, [4], [if b then 1 else 0]);
  }

  /** `unserializeAttr`: the loop over attribute codes. */
  method UnserializeAttr(stream: PropStream, y: ItemValue) returns (ok: bool, x: ItemValue, children: nat)
    requires stream.Valid()
    modifies stream
    ensures stream.Valid()
    ensures var r := Unserialize(y, old(stream.Rest()));
      if ok then r == Read(Loaded(x, children), stream.Rest()) else r.Short?
    ensures x == LoadedSoFar(y, old(stream.Rest()))
  {
    hide ReadAttr, ReadSoFar;
    x, children, ok := y, 0, true;
    while true
      invariant stream.Valid() && ok && x.kind == y.kind && children == 0
      invariant LoadedSoFar(y, old(stream.Rest())) == LoadedSoFar(x, stream.Rest())
      invariant Unserialize(y, old(stream.Rest())) == Unserialize(x, stream.Rest())
      decreases |stream.Rest()|
    {
      ghost var rest := stream.Rest();
      var more, code := stream.ReadByte();
      if !more {
        return;
      }
      if code == 0 {
        return;
      }
      if code == ATTR_CONTAINER_ITEMS && x.kind.box.Box? {
        ok, children := stream.ReadNumber(4);
        return;
      }
      ok, x := ReadAttribute(stream, x, code);
      if !ok {
        return;
      }
    }
  }

  /** `readAttr` */
  method ReadAttribute(stream: PropStream, y: ItemValue, code: byte) returns (ok: bool, x: ItemValue)
    requires stream.Valid()
    modifies stream
    ensures stream.Valid()
    ensures var r := ReadAttr(y, code, old(stream.Rest()));
      if ok then r == Read(x, stream.Rest()) else r.Short?
    ensures x == ReadSoFar(y, code, old(stream.Rest()))
  {
    x := y;
    match ShapeOf(code)
    case AsNumber(w) =>
      var known, n := stream.ReadNumber(w);
      ok := known;
      if ok {
        x := ApplyNumber(y, code, n);
      }
    case AsString =>
      var known, s := stream.ReadString();
      ok := known;
      if ok {
        x := ApplyString(y, code, s);
      }
    case AsCustoms =>
      ok, x := ReadCustomAttributes(stream, y);
    case Skipped(n) =>
      ok := stream.Skip(n);
    case Unreadable =>
      ok := false;
  }

  /** `readAttr` of custom attributes. */
  method ReadCustomAttributes(stream: PropStream, y: ItemValue) returns (ok: bool, x: ItemValue)
    requires stream.Valid()
    modifies stream
    ensures stream.Valid()
    ensures var r := ReadCustoms(y, old(stream.Rest()));
      if ok then r == Read(x, stream.Rest()) else r.Short?
    ensures var t := TakeNumber(old(stream.Rest()), 8); x == if t.Short? then y else EntriesSoFar(y, t.value, t.rest)
  {
    var known, size := stream.ReadNumber(8);
    if !known {
      return false, y;
    }
    ok, x := ReadEntries(stream, y, size);
  }

  method ReadEntries(stream: PropStream, y: ItemValue, size: nat) returns (ok: bool, x: ItemValue)
    requires stream.Valid()
    modifies stream
    ensures stream.Valid()
    ensures var r := TakeEntries(y, size, old(stream.Rest()));
      if ok then r == Read(x, stream.Rest()) else r.Short?
    ensures x == EntriesSoFar(y, size, old(stream.Rest()))
  {
    hide *;
    x := y;
    ghost var s, target := stream.Rest(), TakeEntries(y, size, stream.Rest());
    ghost var far := EntriesSoFar(y, size, stream.Rest());
    var i := 0;
    while i < size
      invariant stream.Valid() && s == stream.Rest() && i <= size
      invariant TakeEntries(x, size - i, s) == target && EntriesSoFar(x, size - i, s) == far
    {
      var entryOk, entry := ReadEntry(stream);
      if !entryOk {
        NoEntryTaken(x, size - i, s);
        return false, x;
      }
      EntryTaken(x, size - i, s, entry, stream.Rest());
      x, s, i := WithCustom(x, entry), stream.Rest(), i + 1;
    }
    AllTaken(x, s);
    ok := true;
  }

  lemma AllTaken(x: ItemValue, s: seq<byte>)
    ensures TakeEntries(x, 0, s) == Read(x, s) && EntriesSoFar(x, 0, s) == x
  {
  }

  lemma EntryTaken(x: ItemValue, n: nat, s: seq<byte>, e: Entry, rest: seq<byte>)
    requires n > 0 && TakeEntry(s) == Read(e, rest)
    ensures TakeEntries(x, n, s) == TakeEntries(WithCustom(x, e), n - 1, rest)
    ensures EntriesSoFar(x, n, s) == EntriesSoFar(WithCustom(x, e), n - 1, rest)
  {
  }

  lemma NoEntryTaken(x: ItemValue, n: nat, s: seq<byte>)
    requires n > 0 && TakeEntry(s).Short?
    ensures TakeEntries(x, n, s).Short? && EntriesSoFar(x, n, s) == x
  {
  }

  method ReadEntry(stream: PropStream) returns (ok: bool, entry: Entry)
    requires stream.Valid()
    modifies stream
    ensures stream.Valid()
    ensures var r := TakeEntry(old(stream.Rest()));
      if ok then r == Read(entry, stream.Rest()) else r.Short?
  {
    entry := Entry([], Blank);
    var keyOk, key := stream.ReadString();
    if !keyOk {
      return false, entry;
    }
    var valueOk, value := ReadCustomValue(stream);
    if !valueOk {
      return false, entry;
    }
    return true, Entry(key, value);
  }

  /** `CustomAttribute::unserialize` on a stream. */
  method ReadCustomValue(stream: PropStream) returns (ok: bool, v: CustomValue)
    requires stream.Valid()
    modifies stream
    ensures stream.Valid()
    ensures var r := TakeCustom(old(stream.Rest()));
      if ok then r == Read(v, stream.Rest()) else r.Short?
  {
    ghost var s := stream.Rest();
    v := Blank;
    var known, pos := stream.ReadByte();
    if !known {
      return false, v;
    }
    match pos
    case 1 =>
      var textOk, text := stream.ReadString();
      ok, v := textOk, CustomText(text);
    case 2 =>
      var intOk, n := stream.ReadNumber(8);
      ok, v := intOk, CustomInt(n);
    case 3 =>
      var doubleOk, bits := stream.ReadNumber(8);
      ok, v := doubleOk, CustomDouble(bits);
    case 4 =>
      var boolOk, b := stream.ReadNumber(1);
      ok, v := boolOk, CustomBool(b != 0);
    case _ =>
      ok := false;
  }
}
