/** The attributes of an item: a list in no particular order, and a bit mask that says what is in it. */
module ItemAttributeList {
  import opened Streams
  import opened Items

  /** Attribute types: powers of two. */
  const INT_TYPES: bv32 := 0x07FF_FE13
  const STRING_TYPES: bv32 := 0x0000_01EC
  const CUSTOM_TYPE: bv32 := 0x8000_0000
  const ATTACK_SPEED_TYPE: AttrType := AttrType(0x0400_0000)

  datatype AttrType = AttrType(bit: bv32)

  predicate OneBit(t: AttrType) {
    t.bit != 0 && t.bit & (t.bit - 1) == 0
  }

  predicate IsInt(t: AttrType) {
    t.bit & INT_TYPES == t.bit
  }

  predicate IsStr(t: AttrType) {
    t.bit & STRING_TYPES == t.bit
  }

  predicate IsCustom(t: AttrType) {
    t.bit & CUSTOM_TYPE == t.bit
  }

  datatype Value = Number(n: int) | String(s: seq<byte>) | Customs(m: map<seq<byte>, CustomValue>)

  datatype Attribute = Attribute(typ: AttrType, value: Value)

  /** The types of attributes by the position of their bit. */
  lemma TypeKinds()
    ensures IsInt(AttrType(1 << 0)) && IsInt(AttrType(1 << 1)) && IsInt(AttrType(1 << 4))
    ensures IsStr(AttrType(1 << 2)) && IsStr(AttrType(1 << 3)) && IsStr(AttrType(1 << 5)) && IsStr(AttrType(1 << 6))
    ensures IsStr(AttrType(1 << 7)) && IsStr(AttrType(1 << 8))
    ensures IsInt(AttrType(1 << 9)) && IsInt(AttrType(1 << 10)) && IsInt(AttrType(1 << 11)) && IsInt(AttrType(1 << 12))
    ensures IsInt(AttrType(1 << 13)) && IsInt(AttrType(1 << 14)) && IsInt(AttrType(1 << 15)) && IsInt(AttrType(1 << 16))
    ensures IsInt(AttrType(1 << 17)) && IsInt(AttrType(1 << 18)) && IsInt(AttrType(1 << 19)) && IsInt(AttrType(1 << 20))
    ensures IsInt(AttrType(1 << 21)) && IsInt(AttrType(1 << 22)) && IsInt(AttrType(1 << 23)) && IsInt(AttrType(1 << 24))
    ensures IsInt(AttrType(1 << 25)) && ATTACK_SPEED_TYPE == AttrType(1 << 26) && IsInt(ATTACK_SPEED_TYPE)
    ensures IsCustom(AttrType(1 << 31))
  {
  }

  // ----- the bit mask

  function And(x: bv32, y: bv32): bv32 {
    x & y
  }

  function Or(x: bv32, y: bv32): bv32 {
    x | y
  }

  function Not(x: bv32): bv32 {
    !x
  }

  function Sym(x: bv32, y: bv32): bv32 {
    x ^ y
  }

  predicate Has(bits: bv32, t: AttrType) {
    And(t.bit, bits) != 0
  }

  lemma AllOrNone(t: AttrType, a: bv32)
    requires OneBit(t)
    ensures And(t.bit, a) == 0 || And(t.bit, a) == t.bit
    ensures t.bit != 0 && And(t.bit, t.bit) == t.bit
  {
  }

  lemma Commutes(x: bv32, y: bv32)
    ensures And(x, y) == And(y, x)
  {
  }

  lemma OrSpreads(u: bv32, b: bv32, t: bv32)
    ensures And(u, Or(b, t)) == Or(And(u, b), And(u, t))
  {
  }

  lemma OrParts(x: bv32, t: bv32)
    ensures Or(x, 0) == x && (t != 0 ==> Or(x, t) != 0)
  {
  }

  lemma NotSpreads(u: bv32, b: bv32, t: bv32)
    ensures And(u, And(b, Not(t))) == And(And(u, b), Not(t))
  {
  }

  lemma NotParts(x: bv32, t: bv32)
    ensures And(t, Not(t)) == 0 && And(0, Not(t)) == 0 && (And(x, t) == 0 ==> And(x, Not(t)) == x)
  {
  }

  lemma SymSpreads(t: bv32, a: bv32, b: bv32)
    ensures And(t, Sym(a, b)) == Sym(And(t, a), And(t, b))
  {
  }

  lemma SymUndone(x: bv32, y: bv32)
    ensures Sym(Sym(x, y), y) == x
  {
  }

  lemma SymNone(x: bv32)
    ensures Sym(x, x) == 0 && Sym(0, x) == x
  {
  }

  lemma SymParts(x: bv32, y: bv32)
    ensures (Sym(x, y) == 0 <==> x == y)
  {
    hide Sym;
    SymUndone(x, y);
    SymNone(x);
    SymNone(y);
  }

  lemma LowBit(d: bv32) returns (t: AttrType)
    requires d != 0
    ensures OneBit(t) && Has(d, t)
  {
    t := AttrType(d & (0 - d));
  }

  /** Two bits have nothing in common. */
  lemma BitsApart(t: AttrType, u: AttrType)
    requires OneBit(t) && OneBit(u)
    ensures And(t.bit, u.bit) == if t == u then t.bit else 0
  {
    hide OneBit, And;
    AllOrNone(t, u.bit);
    AllOrNone(u, t.bit);
    Commutes(t.bit, u.bit);
  }

  lemma BitAdded(bits: bv32, t: AttrType, u: AttrType)
    requires OneBit(t) && OneBit(u)
    ensures Has(Or(bits, t.bit), u) <==> Has(bits, u) || u == t
  {
    hide OneBit, And, Or;
    BitsApart(u, t);
    AllOrNone(t, t.bit);
    OrSpreads(u.bit, bits, t.bit);
    OrParts(And(u.bit, bits), t.bit);
  }

  lemma BitTaken(bits: bv32, t: AttrType, u: AttrType)
    requires OneBit(t) && OneBit(u)
    ensures Has(And(bits, Not(t.bit)), u) <==> Has(bits, u) && u != t
  {
    hide OneBit, And, Not;
    BitsApart(u, t);
    AllOrNone(u, bits);
    NotSpreads(u.bit, bits, t.bit);
    NotParts(u.bit, t.bit);
  }

  lemma Differ(a: bv32, b: bv32, t: AttrType)
    requires OneBit(t)
    ensures Has(Sym(a, b), t) <==> Has(a, t) != Has(b, t)
  {
    hide OneBit, And, Sym;
    AllOrNone(t, a);
    AllOrNone(t, b);
    SymSpreads(t.bit, a, b);
    SymParts(And(t.bit, a), And(t.bit, b));
  }

  lemma NoBits(bits: bv32)
    ensures bits == 0 <==> forall t :: OneBit(t) ==> !Has(bits, t)
  {
    if bits != 0 {
      var t := LowBit(bits);
    }
  }

  /** A mask is determined by its bits. */
  lemma SameBits(a: bv32, b: bv32)
    ensures a == b <==> forall t :: OneBit(t) ==> (Has(a, t) <==> Has(b, t))
  {
    hide OneBit, Has, Sym;
    if a != b {
      SymParts(a, b);
      var t := LowBit(Sym(a, b));
      Differ(a, b, t);
    }
  }

  // ----- the map that the list stands for

  function View(s: seq<Attribute>): map<AttrType, Value> {
    if s == [] then map[] else View(s[..|s| - 1])[s[|s| - 1].typ := s[|s| - 1].value]
  }

  ghost predicate Distinct(s: seq<Attribute>) {
    forall j, k :: 0 <= j < k < |s| ==> s[j].typ != s[k].typ
  }

  lemma {:induction false} ViewIn(s: seq<Attribute>)
    requires Distinct(s)
    ensures forall t :: t in View(s) <==> exists k :: 0 <= k < |s| && s[k].typ == t
    ensures forall k :: 0 <= k < |s| ==> s[k].typ in View(s) && View(s)[s[k].typ] == s[k].value
  {
    if s != [] {
      var front, last := s[..|s| - 1], |s| - 1;
      ViewIn(front);
      forall t
        ensures t in View(s) <==> exists k :: 0 <= k < |s| && s[k].typ == t
      {
        if t != s[last].typ {
          if t in View(front) {
            var k :| 0 <= k < |front| && front[k].typ == t;
            assert s[k].typ == t;
          }
          if k :| 0 <= k < |s| && s[k].typ == t {
            assert front[k].typ == t;
          }
        }
      }
      forall k | 0 <= k < |s|
        ensures s[k].typ in View(s) && View(s)[s[k].typ] == s[k].value
      {
        if k < last {
          assert front[k] == s[k] && s[k].typ != s[last].typ;
          assert View(s)[s[k].typ] == View(front)[front[k].typ];
        }
      }
    }
  }

  /** A list has an entry of a type exactly if the mask has its bit, only one, and of the right kind. */
  ghost predicate Ok(s: seq<Attribute>, bits: bv32) {
    && Distinct(s) && (forall k :: 0 <= k < |s| ==> EntryOk(s[k]))
    && forall t :: OneBit(t) ==> (Has(bits, t) <==> exists k :: 0 <= k < |s| && s[k].typ == t)
  }

  predicate EntryOk(a: Attribute) {
    && OneBit(a.typ) && (IsInt(a.typ) ==> a.value.Number?) && (IsStr(a.typ) ==> a.value.String?)
    && (IsCustom(a.typ) ==> a.value.Customs?)
  }

  /** Equal masks mean equal types, and an empty mask means no entries. */
  lemma MaskIsDomain(s: seq<Attribute>, bits: bv32, r: seq<Attribute>, mask: bv32)
    requires Ok(s, bits) && Ok(r, mask)
    ensures bits == mask <==> View(s).Keys == View(r).Keys
    ensures bits == 0 <==> View(s) == map[]
  {
    ViewIn(s);
    ViewIn(r);
    NoBits(bits);
    SameBits(bits, mask);
    if View(s).Keys == View(r).Keys {
      forall t | OneBit(t)
        ensures Has(bits, t) <==> Has(mask, t)
      {
        assert t in View(s) <==> t in View(r);
      }
    }
  }

  // ----- the operations

  class Attributes {
    var attributes: seq<Attribute>
    var attributeBits: bv32

    constructor ()
      ensures Valid() && attributes == []
    {
      attributes, attributeBits := [], 0;
    }

    ghost predicate Valid()
      reads this
    {
      Ok(attributes, attributeBits)
    }

    /** What the attributes are, as a map. */
    ghost function Map(): map<AttrType, Value>
      reads this
    {
      View(attributes)
    }

    /** `getExistingAttr`, as a position in the list; none is -1. */
    method GetExistingAttr(typ: AttrType) returns (at: int)
      requires Valid() && OneBit(typ)
      ensures typ in Map() ==> 0 <= at < |attributes| && attributes[at].typ == typ && Map()[typ] == attributes[at].value
      ensures typ !in Map() ==> at == -1
    {
      hide OneBit, Has, EntryOk;
      ViewIn(attributes);
      if Has(attributeBits, typ) {
        for k := 0 to |attributes|
          invariant forall j :: 0 <= j < k ==> attributes[j].typ != typ
        {
          if attributes[k].typ == typ {
            return k;
          }
        }
      }
      return -1;
    }

    /** `getAttr`: the position of the attribute, which is created if need be. */
    method GetAttr(typ: AttrType) returns (at: nat)
      requires Valid() && OneBit(typ)
      modifies this
      ensures at < |attributes| && attributes[at].typ == typ && Distinct(attributes) && |attributes| >= |old(attributes)|
      ensures if typ in old(Map()) then attributes == old(attributes) && attributeBits == old(attributeBits)
        else at == |old(attributes)| && attributes == old(attributes) + [Attribute(typ, Number(0))] && attributeBits == Or(old(attributeBits), typ.bit)
    {
      hide OneBit, Has, EntryOk, View;
      ViewIn(attributes);
      if Has(attributeBits, typ) {
        for k := 0 to |attributes|
          invariant forall j :: 0 <= j < k ==> attributes[j].typ != typ
        {
          if attributes[k].typ == typ {
            return k;
          }
        }
        assert false;
      }
      attributeBits := Or(attributeBits, typ.bit);
      attributes := attributes + [Attribute(typ, Number(0))];
      return |attributes| - 1;
    }

    /** A value of the right kind for the type, in place of what there was, if there was anything. */
    method Put(typ: AttrType, value: Value)
      requires Valid() && EntryOk(Attribute(typ, value))
      modifies this
      ensures Valid() && Map() == old(Map())[typ := value]
    {
      hide Has, View, Ok, Distinct;
      var at := GetAttr(typ) by {
        OneBitOf(Attribute(typ, value));
      }
      attributes := attributes[at := Attribute(typ, value)];
      PutOk(old(attributes), old(attributeBits), attributes, attributeBits, at);
    }

    /** `setIntAttr` */
    method SetIntAttr(typ: AttrType, value: int)
      requires Valid() && OneBit(typ)
      modifies this
      ensures Valid()
      ensures Map() == if IsInt(typ) then old(Map())[typ := Number(if typ == ATTACK_SPEED_TYPE && value < 100 then 100 else value)] else old(Map())
    {
      hide Ok, View;
      Kinds(typ);
      if !IsInt(typ) {
        return;
      }
      var n := if typ == ATTACK_SPEED_TYPE && value < 100 then 100 else value;
      Put(typ, Number(n));
    }

    /** `setStrAttr` */
    method SetStrAttr(typ: AttrType, value: seq<byte>)
      requires Valid() && OneBit(typ)
      modifies this
      ensures Valid() && Map() == if IsStr(typ) && value != [] then old(Map())[typ := String(value)] else old(Map())
    {
      hide Ok, View;
      Kinds(typ);
      if !IsStr(typ) || value == [] {
        return;
      }
      Put(typ, String(value));
    }

    /** `getIntAttr` */
    method GetIntAttr(typ: AttrType) returns (value: int)
      requires Valid() && OneBit(typ)
      ensures value == if IsInt(typ) && typ in Map() && Map()[typ].Number? then Map()[typ].n else 0
    {
      hide View, OneBit, Has;
      if !IsInt(typ) {
        return 0;
      }
      var at := GetExistingAttr(typ);
      if at == -1 {
        return 0;
      }
      assert EntryOk(attributes[at]);
      return attributes[at].value.n;
    }

    /** The custom attributes, if there are any. */
    function Customized(): map<seq<byte>, CustomValue>
      requires Ok(attributes, attributeBits)
      reads this
    {
      var t := AttrType(CUSTOM_TYPE);
      if t in View(attributes) && View(attributes)[t].Customs? then View(attributes)[t].m else map[]
    }

    /** `setCustomAttribute`: keys are kept in lower case. */
    method SetCustomAttribute(key: seq<byte>, value: CustomValue)
      requires Valid()
      modifies this
      ensures Valid() && Map() == old(Map())[AttrType(CUSTOM_TYPE) := Customs(old(Customized())[Lower(key) := value])]
    {
      hide Ok, View, Lower;
      CustomKind();
      var at := GetExistingAttr(AttrType(CUSTOM_TYPE));
      var m := map[];
      if at != -1 {
        var removed := RemoveCustomAttribute(key);
        m := Customized();
        assert m[Lower(key) := value] == old(Customized())[Lower(key) := value];
      }
      Put(AttrType(CUSTOM_TYPE), Customs(m[Lower(key) := value]));
      assert Map() == old(Map())[AttrType(CUSTOM_TYPE) := Customs(old(Customized())[Lower(key) := value])];
    }

    /** `removeCustomAttribute`: the table of custom attributes stays even if nothing is left in it. */
    method RemoveCustomAttribute(key: seq<byte>) returns (removed: bool)
      requires Valid()
      modifies this
      ensures Valid() && (removed <==> Lower(key) in old(Customized()))
      ensures Map() == if removed then old(Map())[AttrType(CUSTOM_TYPE) := Customs(old(Customized()) - {Lower(key)})] else old(Map())
    {
      hide Ok, View, Lower;
      CustomKind();
      var m := Customized();
      if Lower(key) !in m {
        return false;
      }
      Put(AttrType(CUSTOM_TYPE), Customs(m - {Lower(key)}));
      return true;
    }

    /** `removeAttribute`: the last entry takes the place of the one that goes. */
    method RemoveAttribute(typ: AttrType)
      requires Valid() && OneBit(typ)
      modifies this
      ensures Valid() && Map() == old(Map()) - {typ}
    {
      hide View, OneBit, EntryOk, SwappedOut;
      ViewIn(attributes);
      if !Has(attributeBits, typ) {
        assert Map() - {typ} == Map();
        return;
      }
      var last := |attributes| - 1;
      var at := last;
      while at > 0 && attributes[at].typ != typ
        invariant 0 <= at <= last && forall k :: at < k <= last ==> attributes[k].typ != typ
      {
        at := at - 1;
      }
      assert attributes[at].typ == typ;
      TakenView(attributes, at);
      TakenOk(attributes, attributeBits, at);
      ghost var rest := SwappedOut(attributes, at);
      SwapOut(at);
      attributeBits := And(attributeBits, Not(typ.bit));
    }

    /** Overwrite an entry with the last one, which goes; the last one itself just goes. */
    method SwapOut(at: nat)
      requires at < |attributes|
      modifies `attributes
      ensures attributes == SwappedOut(old(attributes), at)
    {
      var last := |attributes| - 1;
      if at == last {
        attributes := attributes[..last];
      } else {
        attributes := attributes[at := attributes[last]];
        attributes := attributes[..last];
      }
    }
  }

  lemma OneBitOf(a: Attribute)
    requires EntryOk(a)
    ensures OneBit(a.typ)
  {
  }

  /** A type is of one kind at most. */
  lemma Kinds(t: AttrType)
    requires OneBit(t)
    ensures IsInt(t) ==> !IsStr(t) && !IsCustom(t)
    ensures IsStr(t) ==> !IsCustom(t)
  {
    assert INT_TYPES & STRING_TYPES == 0 && INT_TYPES & CUSTOM_TYPE == 0 && STRING_TYPES & CUSTOM_TYPE == 0;
  }

  /** One entry set, or one entry added. */
  lemma PutOk(s: seq<Attribute>, bits: bv32, r: seq<Attribute>, mask: bv32, at: nat)
    requires Ok(s, bits) && at < |r| && EntryOk(r[at])
    requires if r[at].typ in View(s) then at < |s| && s[at].typ == r[at].typ && r == s[at := r[at]] && mask == bits
      else at == |s| && r == s + [r[at]] && mask == Or(bits, r[at].typ.bit)
    ensures Ok(r, mask) && View(r) == View(s)[r[at].typ := r[at].value]
  {
    hide OneBit, Has, IsInt, IsStr, IsCustom, View, EntryOk, Or;
    ViewIn(s);
    PutDistinct(s, r, at);
    ViewIn(r);
    var t := r[at].typ;
    forall u
      ensures u in View(r) <==> u in View(s) || u == t
      ensures u in View(r) && u != t ==> View(r)[u] == View(s)[u]
    {
      if k :| 0 <= k < |s| && s[k].typ == u {
        assert r[k].typ == u;
      }
      if k :| 0 <= k < |r| && r[k].typ == u && u != t {
        assert s[k] == r[k];
      }
    }
    forall u | OneBit(u)
      ensures Has(mask, u) <==> exists k :: 0 <= k < |r| && r[k].typ == u
    {
      OneBitOf(r[at]);
      BitAdded(bits, t, u);
      assert u in View(r) <==> u in View(s) || u == t;
    }
    SameView(View(r), View(s)[t := r[at].value]);
  }

  lemma PutDistinct(s: seq<Attribute>, r: seq<Attribute>, at: nat)
    requires Distinct(s) && at < |r|
    requires if r[at].typ in View(s) then at < |s| && s[at].typ == r[at].typ && r == s[at := r[at]] else at == |s| && r == s + [r[at]]
    ensures Distinct(r)
  {
    ViewIn(s);
  }

  lemma SameView(a: map<AttrType, Value>, b: map<AttrType, Value>)
    requires forall t :: t in a <==> t in b
    requires forall t :: t in a && t in b ==> a[t] == b[t]
    ensures a == b
  {
  }

  /** The entry at `at` gone, the last one in its place. */
  function SwappedOut(s: seq<Attribute>, at: nat): seq<Attribute>
    requires at < |s|
  {
    s[at := s[|s| - 1]][..|s| - 1]
  }

  lemma TakenView(s: seq<Attribute>, at: nat)
    requires Distinct(s) && at < |s|
    ensures Distinct(SwappedOut(s, at)) && View(SwappedOut(s, at)) == View(s) - {s[at].typ}
    ensures at == |s| - 1 ==> SwappedOut(s, at) == s[..at]
    ensures forall k :: 0 <= k < |SwappedOut(s, at)| ==> SwappedOut(s, at)[k] in s
  {
    hide View, SwappedOut, Distinct;
    var r, t := SwappedOut(s, at), s[at].typ;
    TakenAt(s, at);
    ViewIn(s);
    ViewIn(r);
    forall u
      ensures u in View(r) <==> u in View(s) && u != t
      ensures u in View(r) && u in View(s) ==> View(r)[u] == View(s)[u]
    {
      TakenType(s, at, u);
    }
    SameView(View(r), View(s) - {t});
  }

  lemma TakenAt(s: seq<Attribute>, at: nat)
    requires Distinct(s) && at < |s|
    ensures Distinct(SwappedOut(s, at)) && |SwappedOut(s, at)| == |s| - 1
    ensures at == |s| - 1 ==> SwappedOut(s, at) == s[..at]
    ensures forall k :: 0 <= k < |SwappedOut(s, at)| ==> SwappedOut(s, at)[k] in s
    ensures forall k :: 0 <= k < |SwappedOut(s, at)| ==> SwappedOut(s, at)[k] == if k == at then s[|s| - 1] else s[k]
  {
  }

  lemma EntryAt(s: seq<Attribute>, k: nat)
    requires Distinct(s) && k < |s|
    ensures s[k].typ in View(s) && View(s)[s[k].typ] == s[k].value
  {
    ViewIn(s);
  }

  lemma WhereIn(s: seq<Attribute>, u: AttrType) returns (k: nat)
    requires Distinct(s) && u in View(s)
    ensures k < |s| && s[k].typ == u && View(s)[u] == s[k].value
  {
    ViewIn(s);
    k :| k < |s| && s[k].typ == u;
  }

  lemma SamePlace(s: seq<Attribute>, j: nat, k: nat)
    requires Distinct(s) && j < |s| && k < |s| && s[j].typ == s[k].typ
    ensures j == k
  {
  }

  /** A type is left exactly if it was there and is not the one taken out, and then with its value. */
  lemma TakenType(s: seq<Attribute>, at: nat, u: AttrType)
    requires Distinct(s) && at < |s|
    ensures var r := SwappedOut(s, at);
      && (u in View(r) <==> u in View(s) && u != s[at].typ)
      && (u in View(r) && u in View(s) ==> View(r)[u] == View(s)[u])
  {
    hide View, SwappedOut, Distinct;
    var r, last := SwappedOut(s, at), |s| - 1;
    TakenAt(s, at);
    if u in View(r) {
      var k := WhereIn(r, u);
      var m := if k == at then last else k;
      EntryAt(s, m);
      if u == s[at].typ {
        SamePlace(s, m, at);
      }
    }
    if u in View(s) && u != s[at].typ {
      var k := WhereIn(s, u);
      EntryAt(r, if k == last then at else k);
    }
  }

  lemma TakenOk(s: seq<Attribute>, bits: bv32, at: nat)
    requires Ok(s, bits) && at < |s|
    ensures Ok(SwappedOut(s, at), And(bits, Not(s[at].typ.bit)))
  {
    hide OneBit, Has, EntryOk, View, SwappedOut, And, Not;
    var r, t := SwappedOut(s, at), s[at].typ;
    TakenView(s, at);
    ViewIn(s);
    ViewIn(r);
    forall u | OneBit(u)
      ensures Has(And(bits, Not(t.bit)), u) <==> exists k :: 0 <= k < |r| && r[k].typ == u
    {
      OneBitOf(s[at]);
      BitTaken(bits, t, u);
      assert u in View(r) <==> u in View(s) && u != t;
    }
    forall k | 0 <= k < |r|
      ensures EntryOk(r[k])
    {
      assert r[k] in s;
    }
  }

  lemma CustomKind()
    ensures var t := AttrType(CUSTOM_TYPE); OneBit(t) && IsCustom(t) && !IsInt(t) && !IsStr(t)
  {
  }

  // ----- equality of items

  /** What the attributes of an item are; an item may have none at all. */
  ghost function MapOf(a: Attributes?): map<AttrType, Value>
    reads a
  {
    if a == null then map[] else View(a.attributes)
  }

  /** `Item::equals`: the same id and the same attributes, where no list and an empty one are the same. */
  method Equals(id: nat, a: Attributes?, otherId: nat, b: Attributes?) returns (equal: bool)
    requires (a != null ==> a.Valid()) && (b != null ==> b.Valid())
    ensures equal <==> id == otherId && MapOf(a) == MapOf(b)
  {
    hide Ok, View;
    if id != otherId {
      return false;
    }
    if a == null {
      if b != null {
        MaskIsDomain(b.attributes, b.attributeBits, b.attributes, b.attributeBits);
      }
      return b == null || b.attributeBits == 0;
    }
    MaskIsDomain(a.attributes, a.attributeBits, a.attributes, a.attributeBits);
    if b == null {
      return a.attributeBits == 0;
    }
    MaskIsDomain(a.attributes, a.attributeBits, b.attributes, b.attributeBits);
    if a.attributeBits != b.attributeBits {
      return false;
    }
    var list, others := a.attributes, b.attributes;
    for j := 0 to |list|
      invariant forall i, k :: 0 <= i < j && 0 <= k < |others| && list[i].typ == others[k].typ ==> list[i].value == others[k].value
    {
      for k := 0 to |others|
        invariant forall l :: 0 <= l < k && list[j].typ == others[l].typ ==> list[j].value == others[l].value
      {
        if list[j].typ == others[k].typ && list[j].value != others[k].value {
          UnequalViews(list, a.attributeBits, others, b.attributeBits, j, k);
          return false;
        }
      }
    }
    EqualViews(list, a.attributeBits, others, b.attributeBits);
    return true;
  }

  lemma UnequalViews(s: seq<Attribute>, bits: bv32, r: seq<Attribute>, mask: bv32, j: nat, k: nat)
    requires Ok(s, bits) && Ok(r, mask) && j < |s| && k < |r| && s[j].typ == r[k].typ && s[j].value != r[k].value
    ensures View(s) != View(r)
  {
    hide View;
    ViewIn(s);
    ViewIn(r);
  }

  lemma EqualViews(s: seq<Attribute>, bits: bv32, r: seq<Attribute>, mask: bv32)
    requires Ok(s, bits) && Ok(r, mask) && View(s).Keys == View(r).Keys
    requires forall j, k :: 0 <= j < |s| && 0 <= k < |r| && s[j].typ == r[k].typ ==> s[j].value == r[k].value
    ensures View(s) == View(r)
  {
    hide View, Has, OneBit, EntryOk;
    ViewIn(s);
    ViewIn(r);
    forall t | t in View(s)
      ensures t in View(r) && View(s)[t] == View(r)[t]
    {
      assert t in View(r).Keys;
      var j :| 0 <= j < |s| && s[j].typ == t;
      var k :| 0 <= k < |r| && r[k].typ == t;
      assert View(s)[s[j].typ] == s[j].value && View(r)[r[k].typ] == r[k].value;
    }
    forall t | t in View(r)
      ensures t in View(s)
    {
      assert t in View(s).Keys;
    }
    SameView(View(s), View(r));
  }
}
