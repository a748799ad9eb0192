/** Conditions as they are saved with a player: records of an attribute and its value, up to an END. */
module ConditionStream {
  import opened Wrappers
  import opened Streams

  // Attributes of the stream.
  const TYPE: byte := 1
  const ID: byte := 2
  const TICKS: byte := 3
  const HEALTHTICKS: byte := 4
  const HEALTHGAIN: byte := 5
  const MANATICKS: byte := 6
  const MANAGAIN: byte := 7
  const DELAYED: byte := 8
  const OWNER: byte := 9
  const INTERVALDATA: byte := 10
  const SPEEDDELTA: byte := 11
  const FORMULA_MINA: byte := 12
  const FORMULA_MINB: byte := 13
  const FORMULA_MAXA: byte := 14
  const FORMULA_MAXB: byte := 15
  const LIGHTCOLOR: byte := 16
  const LIGHTLEVEL: byte := 17
  const LIGHTTICKS: byte := 18
  const LIGHTINTERVAL: byte := 19
  const SOULTICKS: byte := 20
  const SOULGAIN: byte := 21
  const SKILLS: byte := 22
  const STATS: byte := 23
  const OUTFIT: byte := 24
  const PERIODDAMAGE: byte := 25
  const ISBUFF: byte := 26
  const SUBID: byte := 27
  const ISAGGRESSIVE: byte := 28
  const DISABLEDEFENSE: byte := 29
  const SPECIALSKILLS: byte := 30
  const END: byte := 254

  const MUTED := 0x1_0000
  const ID_DEFAULT := -1
  const ID_COMBAT := 0

  datatype Interval = Interval(timeLeft: int, value: int, interval: int)

  /** A row of numbers that is filled one after the other: the values, and how many were read. */
  datatype Row = Row(values: seq<int>, cursor: nat)

  /** What conditions of one kind have beyond what all have.  Fractions of the formula are kept as bits. */
  datatype Body =
    | Plain
    | Damage(delayed: bool, period: int, list: seq<Interval>)
    | Speed(delta: int, formula: seq<nat>)
    | Outfit(parts: seq<nat>)
    | Light(color: nat, level: nat, lightTicks: nat, lightInterval: nat)
    | Regeneration(healthTicks: nat, healthGain: nat, manaTicks: nat, manaGain: nat)
    | Soul(soulGain: nat, soulTicks: nat)
    | Attributes(skills: Row, stats: Row, specials: Row, disableDefense: bool)

  datatype Cond = Cond(typ: nat, id: int, ticks: int, buff: bool, subId: nat, aggressive: bool, body: Body)

  function Zeros(n: nat): (s: seq<int>)
    ensures |s| == n
  {
    seq(n, _ => 0)
  }

  /** The constructor that `createCondition` picks for a type, with the values it sets. */
  function Blank(typ: nat): Option<Body> {
    if typ in {1, 2, 4, 8, 0x8000, 0x10_0000, 0x20_0000, 0x40_0000} then Some(Damage(false, 0, []))
    else if typ == 16 || typ == 32 then Some(Speed(0, [0, 0, 0, 0]))
    else if typ == 64 then Some(Outfit([0, 0, 0, 0, 0, 0, 0, 0, 0]))
    else if typ == 0x100 then Some(Light(0, 0, 0, 0))
    else if typ == 0x2000 then Some(Regeneration(1000, 0, 1000, 0))
    else if typ == 0x4000 then Some(Soul(0, 0))
    else if typ == 0x8_0000 then Some(Attributes(Row(Zeros(7), 0), Row(Zeros(4), 0), Row(Zeros(6), 0), false))
    else if typ in {128, 512, 1024, 2048, 4096, 0x1_0000, 0x2_0000, 0x4_0000, 0x80_0000, 0x100_0000, 0x200_0000,
                    0x400_0000, 0x800_0000, 0x1000_0000} then Some(Plain)
    else None
  }

  // ----- records

  /** The widths of the numbers in the value of an attribute. */
  function Layout(attr: byte): seq<Width> {
    if attr == DELAYED || attr == ISBUFF || attr == ISAGGRESSIVE || attr == DISABLEDEFENSE then [1]
    else if attr == INTERVALDATA then [4, 4, 4]
    else if attr == OUTFIT then [2, 2, 2, 1, 1, 1, 1, 1, 1]
    else [4]
  }

  datatype Rec = Rec(attr: byte, values: seq<nat>)

  function Widths(ws: seq<Width>): nat {
    if ws == [] then 0 else ws[0] + Widths(ws[1..])
  }

  function Packed(ws: seq<Width>, vs: seq<nat>): seq<byte>
    requires |ws| == |vs|
  {
    if ws == [] then [] else LE(vs[0], ws[0]) + Packed(ws[1..], vs[1..])
  }

  /** `read` of a whole value: all its numbers or nothing. */
  function TakeAll(s: seq<byte>, ws: seq<Width>): (r: Read<seq<nat>>)
    ensures r.Short? <==> |s| < Widths(ws)
    ensures r.Read? ==> |r.value| == |ws| && |r.rest| == |s| - Widths(ws)
  {
    if |s| < Widths(ws) then Short
    else if ws == [] then Read([], s)
    else
      var rest := TakeAll(s[ws[0]..], ws[1..]);
      if rest.Short? then Short else Read([FromLE(s[..ws[0]])] + rest.value, rest.rest)
  }

  predicate InWidths(ws: seq<Width>, vs: seq<nat>) {
    |ws| == |vs| && forall k :: 0 <= k < |vs| ==> vs[k] < Size(ws[k])
  }

  lemma {:induction false} PackedBack(ws: seq<Width>, vs: seq<nat>, rest: seq<byte>)
    requires InWidths(ws, vs)
    ensures |Packed(ws, vs)| == Widths(ws)
    ensures TakeAll(Packed(ws, vs) + rest, ws) == Read(vs, rest)
  {
    hide Size;
    if ws == [] {
      assert [] + rest == rest;
    } else {
      var tail := Packed(ws[1..], vs[1..]);
      PackedBack(ws[1..], vs[1..], rest);
      NumberBack(vs[0], ws[0], tail + rest);
      assert Packed(ws, vs) + rest == LE(vs[0], ws[0]) + (tail + rest);
      assert [vs[0]] + vs[1..] == vs;
    }
  }

  predicate RecOk(r: Rec) {
    r.attr != END && InWidths(Layout(r.attr), r.values)
  }

  function RecBytes(r: Rec): seq<byte>
    requires |r.values| == |Layout(r.attr)|
  {
    [r.attr] + Packed(Layout(r.attr), r.values)
  }

  function Bytes(rs: seq<Rec>): seq<byte>
    requires forall k :: 0 <= k < |rs| ==> RecOk(rs[k])
  {
    if rs == [] then [] else
      assert RecOk(rs[0]);
      RecBytes(rs[0]) + Bytes(rs[1..])
  }

  // ----- what is written

  function Bit(b: bool): nat {
    if b then 1 else 0
  }

  /** What `Condition::serialize` writes for every condition. */
  function HeaderRecs(c: Cond): seq<Rec> {
    [Rec(TYPE, [Cast(c.typ, 4)]), Rec(ID, [Cast(c.id, 4)]), Rec(TICKS, [Cast(c.ticks, 4)]),
     Rec(ISBUFF, [Bit(c.buff)]), Rec(SUBID, [Cast(c.subId, 4)]), Rec(ISAGGRESSIVE, [Bit(c.aggressive)])]
  }

  function RowRecs(attr: byte, values: seq<int>): seq<Rec> {
    if values == [] then [] else [Rec(attr, [Cast(values[0], 4)])] + RowRecs(attr, values[1..])
  }

  function IntervalRecs(list: seq<Interval>): seq<Rec> {
    if list == [] then []
    else
      var i := list[0];
      [Rec(INTERVALDATA, [Cast(i.timeLeft, 4), Cast(i.value, 4), Cast(i.interval, 4)])] + IntervalRecs(list[1..])
  }

  /** What the kinds of conditions write after that. */
  function BodyRecs(b: Body): seq<Rec> {
    match b
    case Plain => []
    case Damage(delayed, period, list) =>
      [Rec(DELAYED, [Bit(delayed)]), Rec(PERIODDAMAGE, [Cast(period, 4)])] + IntervalRecs(list)
    case Speed(delta, formula) =>
      if |formula| != 4 then [] else
        [Rec(SPEEDDELTA, [Cast(delta, 4)]), Rec(FORMULA_MINA, [formula[0]]), Rec(FORMULA_MINB, [formula[1]]),
         Rec(FORMULA_MAXA, [formula[2]]), Rec(FORMULA_MAXB, [formula[3]])]
    case Outfit(parts) => [Rec(OUTFIT, parts)]
    case Light(color, level, lightTicks, lightInterval) =>
      [Rec(LIGHTCOLOR, [color]), Rec(LIGHTLEVEL, [level]), Rec(LIGHTTICKS, [lightTicks]), Rec(LIGHTINTERVAL, [lightInterval])]
    case Regeneration(healthTicks, healthGain, manaTicks, manaGain) =>
      [Rec(HEALTHTICKS, [healthTicks]), Rec(HEALTHGAIN, [healthGain]), Rec(MANATICKS, [manaTicks]), Rec(MANAGAIN, [manaGain])]
    case Soul(soulGain, soulTicks) => [Rec(SOULGAIN, [soulGain]), Rec(SOULTICKS, [soulTicks])]
    case Attributes(skills, stats, specials, disableDefense) =>
      RowRecs(SKILLS, skills.values) + RowRecs(STATS, stats.values) + [Rec(DISABLEDEFENSE, [Bit(disableDefense)])]
      + RowRecs(SPECIALSKILLS, specials.values)
  }

  predicate Int32(n: int) {
    -0x8000_0000 <= n < 0x8000_0000
  }

  predicate Int32s(s: seq<int>) {
    forall k :: 0 <= k < |s| ==> Int32(s[k])
  }

  predicate BodyOk(b: Body) {
    match b
    case Plain => true
    case Damage(_, period, list) =>
      Int32(period) && forall k :: 0 <= k < |list| ==> Int32(list[k].timeLeft) && Int32(list[k].value) && 0 <= list[k].interval < 0x8000_0000
    case Speed(delta, formula) => Int32(delta) && |formula| == 4 && forall k :: 0 <= k < 4 ==> formula[k] < Size(4)
    case Outfit(parts) => InWidths(Layout(OUTFIT), parts)
    case Light(color, level, lightTicks, lightInterval) =>
      color < 256 && level < 256 && lightTicks < Size(4) && lightInterval < Size(4)
    case Regeneration(a, b, c, d) => a < Size(4) && b < Size(4) && c < Size(4) && d < Size(4)
    case Soul(a, b) => a < Size(4) && b < Size(4)
    case Attributes(skills, stats, specials, _) =>
      && |skills.values| == 7 && |stats.values| == 4 && |specials.values| == 6
      && Int32s(skills.values) && Int32s(stats.values) && Int32s(specials.values)
  }

  predicate SameKind(a: Body, b: Body) {
    && (a.Plain? <==> b.Plain?) && (a.Damage? <==> b.Damage?) && (a.Speed? <==> b.Speed?) && (a.Outfit? <==> b.Outfit?)
    && (a.Light? <==> b.Light?) && (a.Regeneration? <==> b.Regeneration?) && (a.Soul? <==> b.Soul?)
    && (a.Attributes? <==> b.Attributes?)
  }

  /** A condition of a known type, with the body of its type and numbers that fit their fields. */
  predicate CondOk(c: Cond) {
    && Blank(c.typ).Some? && SameKind(c.body, Blank(c.typ).value) && BodyOk(c.body)
    && -128 <= c.id < 128 && Int32(c.ticks) && c.subId < Size(4)
  }

  lemma RowRecsOk(attr: byte, values: seq<int>)
    requires attr == SKILLS || attr == STATS || attr == SPECIALSKILLS
    ensures forall k :: 0 <= k < |RowRecs(attr, values)| ==> RecOk(RowRecs(attr, values)[k])
  {
    if values != [] {
      RowRecsOk(attr, values[1..]);
    }
  }

  lemma IntervalRecsOk(list: seq<Interval>)
    ensures forall k :: 0 <= k < |IntervalRecs(list)| ==> RecOk(IntervalRecs(list)[k])
  {
    if list != [] {
      IntervalRecsOk(list[1..]);
    }
  }

  lemma RecsOk(c: Cond)
    requires CondOk(c)
    ensures forall k :: 0 <= k < |HeaderRecs(c)| ==> RecOk(HeaderRecs(c)[k])
    ensures forall k :: 0 <= k < |BodyRecs(c.body)| ==> RecOk(BodyRecs(c.body)[k])
  {
    if c.body.Damage? {
      IntervalRecsOk(c.body.list);
    }
    if c.body.Attributes? {
      RowRecsOk(SKILLS, c.body.skills.values);
      RowRecsOk(STATS, c.body.stats.values);
      RowRecsOk(SPECIALSKILLS, c.body.specials.values);
    }
  }

  /** One condition in the stream. */
  function Saved(c: Cond): seq<byte>
    requires CondOk(c)
  {
    RecsOk(c);
    Bytes(HeaderRecs(c)) + Bytes(BodyRecs(c.body)) + [END]
  }

  predicate Persistent(c: Cond) {
    c.ticks != -1 && (c.id == ID_DEFAULT || c.id == ID_COMBAT || c.typ == MUTED)
  }

  /** The stream that is saved with a player. */
  function SavedAll(cs: seq<Cond>): seq<byte>
    requires forall k :: 0 <= k < |cs| ==> CondOk(cs[k])
  {
    if cs == [] then []
    else SavedAll(cs[..|cs| - 1]) + if Persistent(cs[|cs| - 1]) then Saved(cs[|cs| - 1]) else []
  }

  // ----- the bytes of each kind of condition

  /** Which conditions are saved: those that end, and that come from no item or are the one of a player
      who must not talk. */
  lemma PersistentMeans(c: Cond)
    ensures Persistent(c) <==> c.ticks != -1 && (c.id == -1 || c.id == 0 || c.typ == 65536)
  {
  }

  lemma RecBytesOne(attr: byte, n: nat)
    requires Layout(attr) == [4]
    ensures RecBytes(Rec(attr, [n])) == [attr] + LE(n, 4)
  {
    hide LE;
    assert [4][1..] == [] && [n][1..] == [];
    assert Packed([4], [n]) == LE(n, 4) + Packed([], []);
  }

  lemma RecBytesFlag(attr: byte, n: nat)
    requires Layout(attr) == [1] && n < 256
    ensures RecBytes(Rec(attr, [n])) == [attr, n]
  {
    ByteOrder(n);
    assert [1][1..] == [] && [n][1..] == [];
    assert Packed([1], [n]) == LE(n, 1) + Packed([], []);
  }

  lemma BytesTwo(a: Rec, b: Rec)
    requires RecOk(a) && RecOk(b)
    ensures Bytes([a, b]) == RecBytes(a) + RecBytes(b)
  {
    hide RecBytes;
    assert [a, b][1..] == [b] && [b][1..] == [];
    assert Bytes([b]) == RecBytes(b) + [];
  }

  lemma BytesJoin(a: seq<Rec>, b: seq<Rec>)
    requires (forall k :: 0 <= k < |a| ==> RecOk(a[k])) && (forall k :: 0 <= k < |b| ==> RecOk(b[k]))
    ensures (forall k :: 0 <= k < |a + b| ==> RecOk((a + b)[k])) && Bytes(a + b) == Bytes(a) + Bytes(b)
  {
    hide RecOk, RecBytes;
    if a == [] {
      assert a + b == b;
    } else {
      assert (a + b)[1..] == a[1..] + b;
      BytesJoin(a[1..], b);
    }
  }

  /** What every condition starts with. */
  lemma HeaderBytes(c: Cond)
    requires CondOk(c)
    ensures Bytes(HeaderRecs(c)) ==
      [1] + LE(Cast(c.typ, 4), 4) + ([2] + LE(Cast(c.id, 4), 4)) + ([3] + LE(Cast(c.ticks, 4), 4) + [26, Bit(c.buff)]) +
      ([27] + LE(c.subId, 4) + [28, Bit(c.aggressive)])
  {
    RecsOk(c);
    RecBytesOne(1, Cast(c.typ, 4));
    RecBytesOne(2, Cast(c.id, 4));
    RecBytesOne(3, Cast(c.ticks, 4));
    RecBytesFlag(26, Bit(c.buff));
    RecBytesOne(27, Cast(c.subId, 4));
    RecBytesFlag(28, Bit(c.aggressive));
    HeaderSplit(c);
  }

  lemma HeaderSplit(c: Cond)
    requires CondOk(c)
    ensures forall k :: 0 <= k < |HeaderRecs(c)| ==> RecOk(HeaderRecs(c)[k])
    ensures var rs := HeaderRecs(c);
      |rs| == 6 &&
      Bytes(rs) == RecBytes(rs[0]) + RecBytes(rs[1]) + (RecBytes(rs[2]) + RecBytes(rs[3])) + (RecBytes(rs[4]) + RecBytes(rs[5]))
  {
    RecsOk(c);
    hide RecOk, RecBytes, Bytes, CondOk;
    var rs := HeaderRecs(c);
    BytesTwo(rs[0], rs[1]);
    BytesTwo(rs[2], rs[3]);
    BytesTwo(rs[4], rs[5]);
    assert rs == [rs[0], rs[1]] + [rs[2], rs[3]] + [rs[4], rs[5]];
    BytesJoin([rs[0], rs[1]], [rs[2], rs[3]]);
    BytesJoin([rs[0], rs[1]] + [rs[2], rs[3]], [rs[4], rs[5]]);
  }

  lemma OneRec(r: Rec)
    requires RecOk(r)
    ensures Bytes([r]) == RecBytes(r)
  {
    hide RecBytes;
    assert [r][1..] == [];
  }

  /** Poison, fire and the like: flags, periodic damage, and the intervals. */
  lemma DamageBytes(delayed: bool, period: int, a: int, b: int, n: int)
    ensures var recs := BodyRecs(Damage(delayed, period, [Interval(a, b, n)]));
      && (forall k :: 0 <= k < |recs| ==> RecOk(recs[k]))
      && Bytes(recs) == [8, Bit(delayed)] + ([25] + LE(Cast(period, 4), 4)) +
           ([10] + (LE(Cast(a, 4), 4) + (LE(Cast(b, 4), 4) + LE(Cast(n, 4), 4))))
  {
    hide LE, Cast;
    var list := [Interval(a, b, n)];
    assert list[1..] == [];
    var i := Rec(10, [Cast(a, 4), Cast(b, 4), Cast(n, 4)]);
    assert IntervalRecs(list) == [i] + IntervalRecs([]);
    var d, p := Rec(8, [Bit(delayed)]), Rec(25, [Cast(period, 4)]);
    assert BodyRecs(Damage(delayed, period, list)) == [d, p] + [i];
    IntervalBytes(Cast(a, 4), Cast(b, 4), Cast(n, 4));
    RecBytesFlag(8, Bit(delayed));
    RecBytesOne(25, Cast(period, 4));
    hide RecBytes, Bytes;
    BytesTwo(d, p);
    OneRec(i);
    BytesJoin([d, p], [i]);
  }

  lemma IntervalBytes(a: nat, b: nat, n: nat)
    ensures |Layout(10)| == 3 && RecBytes(Rec(10, [a, b, n])) == [10] + (LE(a, 4) + (LE(b, 4) + LE(n, 4)))
  {
    hide LE;
    var w: seq<Width>, v := [4, 4, 4], [a, b, n];
    assert w[1..] == [4, 4] && v[1..] == [b, n] && [4, 4][1..] == [4] && [b, n][1..] == [n] && [4][1..] == [] && [n][1..] == [];
    assert Packed([4], [n]) == LE(n, 4) + Packed([], []);
    assert Packed([4, 4], [b, n]) == LE(b, 4) + Packed([4], [n]);
    assert Packed(w, v) == LE(a, 4) + Packed([4, 4], [b, n]);
  }

  lemma FourBytes(a: byte, b: byte, c: byte, d: byte, v: seq<nat>)
    requires Layout(a) == Layout(b) == Layout(c) == Layout(d) == [4] && END !in [a, b, c, d]
    requires |v| == 4 && forall k :: 0 <= k < 4 ==> v[k] < Size(4)
    ensures var recs := [Rec(a, [v[0]]), Rec(b, [v[1]]), Rec(c, [v[2]]), Rec(d, [v[3]])];
      && (forall k :: 0 <= k < 4 ==> RecOk(recs[k]))
      && Bytes(recs) == [a] + LE(v[0], 4) + ([b] + LE(v[1], 4)) + ([c] + LE(v[2], 4) + ([d] + LE(v[3], 4)))
  {
    hide LE, Size;
    var recs := [Rec(a, [v[0]]), Rec(b, [v[1]]), Rec(c, [v[2]]), Rec(d, [v[3]])];
    assert a != END && b != END && c != END && d != END by {
      assert a in [a, b, c, d] && b in [a, b, c, d] && c in [a, b, c, d] && d in [a, b, c, d];
    }
    RecBytesOne(a, v[0]);
    RecBytesOne(b, v[1]);
    RecBytesOne(c, v[2]);
    RecBytesOne(d, v[3]);
    hide RecBytes, Bytes;
    BytesTwo(recs[0], recs[1]);
    BytesTwo(recs[2], recs[3]);
    BytesJoin([recs[0], recs[1]], [recs[2], recs[3]]);
    assert recs == [recs[0], recs[1]] + [recs[2], recs[3]];
  }

  /** Light and regeneration: four numbers each. */
  lemma LightBytes(v: seq<nat>)
    requires |v| == 4 && forall k :: 0 <= k < 4 ==> v[k] < Size(4)
    ensures var light, heal := BodyRecs(Light(v[0], v[1], v[2], v[3])), BodyRecs(Regeneration(v[0], v[1], v[2], v[3]));
      && (forall k :: 0 <= k < |light| ==> RecOk(light[k])) && (forall k :: 0 <= k < |heal| ==> RecOk(heal[k]))
      && Bytes(light) == [16] + LE(v[0], 4) + ([17] + LE(v[1], 4)) + ([18] + LE(v[2], 4) + ([19] + LE(v[3], 4)))
      && Bytes(heal) == [4] + LE(v[0], 4) + ([5] + LE(v[1], 4)) + ([6] + LE(v[2], 4) + ([7] + LE(v[3], 4)))
  {
    hide Bytes, RecOk, LE, Size;
    FourBytes(16, 17, 18, 19, v);
    FourBytes(4, 5, 6, 7, v);
  }

  /** Haste and paralysis: the delta, and the four numbers of the formula. */
  lemma SpeedBytes(delta: int, v: seq<nat>)
    requires |v| == 4 && forall k :: 0 <= k < 4 ==> v[k] < Size(4)
    ensures var recs := BodyRecs(Speed(delta, v));
      && (forall k :: 0 <= k < |recs| ==> RecOk(recs[k]))
      && Bytes(recs) == [11] + LE(Cast(delta, 4), 4) +
           ([12] + LE(v[0], 4) + ([13] + LE(v[1], 4)) + ([14] + LE(v[2], 4) + ([15] + LE(v[3], 4))))
  {
    hide LE, Size;
    FourBytes(12, 13, 14, 15, v);
    RecBytesOne(11, Cast(delta, 4));
    var first, four := Rec(11, [Cast(delta, 4)]), [Rec(12, [v[0]]), Rec(13, [v[1]]), Rec(14, [v[2]]), Rec(15, [v[3]])];
    assert BodyRecs(Speed(delta, v)) == [first] + four;
    assert RecOk(first);
    hide RecBytes, Bytes, RecOk;
    OneRec(first);
    BytesJoin([first], four);
  }

  /** Soul points: what is gained comes before how often. */
  lemma SoulBytes(gain: nat, time: nat)
    requires gain < Size(4) && time < Size(4)
    ensures var recs := BodyRecs(Soul(gain, time));
      (forall k :: 0 <= k < |recs| ==> RecOk(recs[k])) && Bytes(recs) == [21] + LE(gain, 4) + ([20] + LE(time, 4))
  {
    hide LE, Size;
    RecBytesOne(21, gain);
    RecBytesOne(20, time);
    hide RecBytes, Bytes;
    BytesTwo(Rec(21, [gain]), Rec(20, [time]));
  }

  /** Outfits: three numbers of two bytes and six of one. */
  lemma OutfitBytes(v: seq<nat>)
    requires InWidths(Layout(OUTFIT), v)
    ensures |v| == 9 && Bytes(BodyRecs(Outfit(v))) ==
      [24] + (LE(v[0], 2) + (LE(v[1], 2) + (LE(v[2], 2) + [v[3], v[4], v[5], v[6], v[7], v[8]])))
  {
    OneRec(Rec(24, v));
    hide LE;
    SixPacked(v[3..]);
    var w: seq<Width> := [2, 2, 2, 1, 1, 1, 1, 1, 1];
    assert w[1..] == [2, 2, 1, 1, 1, 1, 1, 1] && w[1..][1..] == [2, 1, 1, 1, 1, 1, 1] && w[1..][1..][1..] == [1, 1, 1, 1, 1, 1];
    assert v[1..][1..] == v[2..] && v[2..][1..] == v[3..];
    assert Packed(w[1..][1..], v[2..]) == LE(v[2], 2) + Packed([1, 1, 1, 1, 1, 1], v[3..]);
    assert Packed(w[1..], v[1..]) == LE(v[1], 2) + Packed(w[1..][1..], v[2..]);
    assert Packed(w, v) == LE(v[0], 2) + Packed(w[1..], v[1..]);
  }

  lemma SixPacked(v: seq<nat>)
    requires |v| == 6 && forall k :: 0 <= k < 6 ==> v[k] < 256
    ensures Packed([1, 1, 1, 1, 1, 1], v) == v
  {
    OnePacked(v, 6);
  }

  function Ones(n: nat): (w: seq<Width>)
    ensures |w| == n
  {
    if n == 0 then [] else [1] + Ones(n - 1)
  }

  lemma {:induction false} OnePacked(v: seq<nat>, n: nat)
    requires |v| == n && forall k :: 0 <= k < n ==> v[k] < 256
    ensures Packed(Ones(n), v) == v
    ensures n == 6 ==> Ones(n) == [1, 1, 1, 1, 1, 1]
  {
    if n > 0 {
      ByteOrder(v[0]);
      assert Ones(n)[1..] == Ones(n - 1);
      OnePacked(v[1..], n - 1);
      assert v == [v[0]] + v[1..];
    }
  }

  /** Attributes: seven skills, four stats, a flag, and six special skills, one record each. */
  lemma AttributeCodes(skills: Row, stats: Row, specials: Row, flag: bool)
    requires |skills.values| == 7 && |stats.values| == 4 && |specials.values| == 6
    ensures var recs := BodyRecs(Attributes(skills, stats, specials, flag));
      && |recs| == 18 && recs[11] == Rec(29, [Bit(flag)])
      && (forall k :: 0 <= k < 7 ==> recs[k] == Rec(22, [Cast(skills.values[k], 4)]))
      && (forall k :: 7 <= k < 11 ==> recs[k] == Rec(23, [Cast(stats.values[k - 7], 4)]))
      && (forall k :: 12 <= k < 18 ==> recs[k] == Rec(30, [Cast(specials.values[k - 12], 4)]))
  {
    hide Cast;
    RowCodes(22, skills.values);
    RowCodes(23, stats.values);
    RowCodes(30, specials.values);
  }

  lemma {:induction false} RowCodes(attr: byte, values: seq<int>)
    ensures |RowRecs(attr, values)| == |values|
    ensures forall k :: 0 <= k < |values| ==> RowRecs(attr, values)[k] == Rec(attr, [Cast(values[k], 4)])
  {
    if values != [] {
      RowCodes(attr, values[1..]);
    }
  }

  /** The types that have a body of their own. */
  lemma TypesOfBodies()
    ensures forall typ :: Blank(typ).Some? ==>
      && (Blank(typ).value.Speed? <==> typ == 0x10 || typ == 0x20) && (Blank(typ).value.Outfit? <==> typ == 0x40)
      && (Blank(typ).value.Light? <==> typ == 0x100) && (Blank(typ).value.Regeneration? <==> typ == 0x2000)
      && (Blank(typ).value.Soul? <==> typ == 0x4000) && (Blank(typ).value.Attributes? <==> typ == 0x80000)
      && (Blank(typ).value.Damage? <==> typ in {1, 2, 4, 8, 0x8000, 0x100000, 0x200000, 0x400000})
    ensures forall typ :: typ in {1, 2, 4, 8, 0x10, 0x20, 0x40, 0x100, 0x2000, 0x4000, 0x8000, 0x80000, 0x100000, 0x200000, 0x400000} ==>
      Blank(typ).Some?
  {
  }

  // ----- what is read

  const HEADER: seq<byte> := [TYPE, ID, TICKS, ISBUFF, SUBID, ISAGGRESSIVE]

  /** Records with given attributes, in this order. */
  function TakeRecs(s: seq<byte>, attrs: seq<byte>): (r: Read<seq<seq<nat>>>)
    ensures r.Read? ==> |r.value| == |attrs| && |r.rest| + |attrs| <= |s|
    ensures r.Read? ==> forall k :: 0 <= k < |attrs| ==> |r.value[k]| == |Layout(attrs[k])|
    decreases |attrs|
  {
    if attrs == [] then Read([], s)
    else if s == [] || s[0] != attrs[0] then Short
    else
      var first := TakeAll(s[1..], Layout(attrs[0]));
      if first.Short? then Short
      else
        var others := TakeRecs(first.rest, attrs[1..]);
        if others.Short? then Short else Read([first.value] + others.value, others.rest)
  }

  function IdOf(n: nat): int {
    Signed(n % 256, 1)
  }

  /** `createCondition`: the header, and a condition of the type that it names; nothing if either is not
      as it should be.  Damage starts without time. */
  function Create(s: seq<byte>): (r: Read<Cond>)
    ensures r.Read? ==> |r.rest| < |s|
  {
    var h := TakeRecs(s, HEADER);
    if h.Short? then Short
    else
      assert forall k :: 0 <= k < 6 ==> |h.value[k]| == |Layout(HEADER[k])|;
      var typ := h.value[0][0];
      var body := Blank(typ);
      if body.None? then Short
      else Read(Cond(typ, IdOf(h.value[1][0]), if body.value.Damage? then 0 else Signed(h.value[2][0], 4), h.value[3][0] != 0,
                     h.value[4][0], h.value[5][0] != 0, body.value), h.rest)
  }

  /** The attributes that `unserializeProp` knows for a kind of condition. */
  predicate Accepts(b: Body, attr: byte) {
    attr in {TYPE, ID, TICKS, ISBUFF, SUBID, ISAGGRESSIVE} ||
    (match b
     case Plain => false
     case Damage(_, _, _) => attr in {DELAYED, PERIODDAMAGE, OWNER, INTERVALDATA}
     case Speed(_, _) => attr in {SPEEDDELTA, FORMULA_MINA, FORMULA_MINB, FORMULA_MAXA, FORMULA_MAXB}
     case Outfit(_) => attr == OUTFIT
     case Light(_, _, _, _) => attr in {LIGHTCOLOR, LIGHTLEVEL, LIGHTTICKS, LIGHTINTERVAL}
     case Regeneration(_, _, _, _) => attr in {HEALTHTICKS, HEALTHGAIN, MANATICKS, MANAGAIN}
     case Soul(_, _) => attr in {SOULGAIN, SOULTICKS}
     case Attributes(_, _, _, _) => attr in {SKILLS, SPECIALSKILLS, STATS, DISABLEDEFENSE})
  }

  function RowWith(r: Row, n: int): Row {
    if r.cursor < |r.values| then Row(r.values[r.cursor := n], r.cursor + 1) else r
  }

  /** The effect of one record on the body. */
  function SetBody(b: Body, attr: byte, vs: seq<nat>): (r: Body)
    requires |vs| == |Layout(attr)|
    ensures SameKind(r, b)
  {
    match b
    case Plain => b
    case Damage(delayed, period, list) =>
      if attr == DELAYED then b.(delayed := vs[0] != 0)
      else if attr == PERIODDAMAGE then b.(period := Signed(vs[0], 4))
      else if attr == INTERVALDATA then b.(list := list + [Interval(Signed(vs[0], 4), Signed(vs[1], 4), Signed(vs[2], 4))])
      else b
    case Speed(delta, formula) =>
      if attr == SPEEDDELTA then b.(delta := Signed(vs[0], 4))
      else if |formula| == 4 && FORMULA_MINA <= attr <= FORMULA_MAXB then b.(formula := formula[attr - FORMULA_MINA := vs[0]])
      else b
    case Outfit(_) => if attr == OUTFIT then Outfit(vs) else b
    case Light(_, _, _, _) =>
      if attr == LIGHTCOLOR then b.(color := vs[0] % 256)
      else if attr == LIGHTLEVEL then b.(level := vs[0] % 256)
      else if attr == LIGHTTICKS then b.(lightTicks := vs[0])
      else if attr == LIGHTINTERVAL then b.(lightInterval := vs[0])
      else b
    case Regeneration(_, _, _, _) =>
      if attr == HEALTHTICKS then b.(healthTicks := vs[0])
      else if attr == HEALTHGAIN then b.(healthGain := vs[0])
      else if attr == MANATICKS then b.(manaTicks := vs[0])
      else if attr == MANAGAIN then b.(manaGain := vs[0])
      else b
    case Soul(_, _) => if attr == SOULGAIN then b.(soulGain := vs[0]) else if attr == SOULTICKS then b.(soulTicks := vs[0]) else b
    case Attributes(skills, stats, specials, _) =>
      if attr == SKILLS then b.(skills := RowWith(skills, Signed(vs[0], 4)))
      else if attr == STATS then b.(stats := RowWith(stats, Signed(vs[0], 4)))
      else if attr == SPECIALSKILLS then b.(specials := RowWith(specials, Signed(vs[0], 4)))
      else if attr == DISABLEDEFENSE then b.(disableDefense := vs[0] != 0)
      else b
  }

  /** The effect of one record: an interval of damage also adds to the time. */
  function Set(c: Cond, attr: byte, vs: seq<nat>): (r: Cond)
    requires |vs| == |Layout(attr)|
    ensures SameKind(r.body, c.body)
  {
    if attr == TYPE then c.(typ := vs[0])
    else if attr == ID then c.(id := IdOf(vs[0]))
    else if attr == TICKS then c.(ticks := Signed(vs[0], 4))
    else if attr == ISBUFF then c.(buff := vs[0] != 0)
    else if attr == SUBID then c.(subId := vs[0])
    else if attr == ISAGGRESSIVE then c.(aggressive := vs[0] != 0)
    else if c.body.Damage? && attr == INTERVALDATA && c.ticks != -1
    then c.(body := SetBody(c.body, attr, vs), ticks := c.ticks + Signed(vs[2], 4))
    else c.(body := SetBody(c.body, attr, vs))
  }

  datatype Filled = Filled(c: Cond, ok: bool, rest: seq<byte>)

  /** `unserialize`: records up to an END or the end of the stream; one that is unknown or short fails. */
  function Fill(c: Cond, s: seq<byte>): (f: Filled)
    ensures |f.rest| <= |s|
    decreases |s|
  {
    if s == [] then Filled(c, true, s)
    else if s[0] == END then Filled(c, true, s[1..])
    else if !Accepts(c.body, s[0]) then Filled(c, false, s[1..])
    else
      var r := TakeAll(s[1..], Layout(s[0]));
      if r.Short? then Filled(c, false, s[1..]) else Fill(Set(c, s[0], r.value), r.rest)
  }

  /** The loop of `loadPlayer`: conditions are pushed to the front; those that fail are dropped. */
  function Load(s: seq<byte>): seq<Cond>
    decreases |s|
  {
    var r := Create(s);
    if r.Short? then []
    else
      var f := Fill(r.value, r.rest);
      Load(f.rest) + if f.ok then [f.c] else []
  }

  /** When a condition is complete: at an END or at the end of the stream; what it does not know, and a
      value cut short, makes it fail right there. */
  lemma FillEnds(c: Cond, attr: byte, s: seq<byte>)
    ensures Fill(c, []) == Filled(c, true, []) && Fill(c, [254] + s) == Filled(c, true, s)
    ensures attr != 254 && !Accepts(c.body, attr) ==> Fill(c, [attr] + s) == Filled(c, false, s)
    ensures attr != 254 && Accepts(c.body, attr) && |s| < Widths(Layout(attr)) ==> Fill(c, [attr] + s) == Filled(c, false, s)
  {
    hide Accepts, Layout, Widths, Set;
    assert ([254] + s)[1..] == s && ([attr] + s)[1..] == s;
  }

  /** What each kind of condition knows besides the attributes of all. */
  lemma KnownCodes(b: Body, attr: byte)
    ensures Accepts(b, attr) <==>
      || attr == 1 || attr == 2 || attr == 3 || attr == 26 || attr == 27 || attr == 28
      || (b.Damage? && (attr == 8 || attr == 9 || attr == 10 || attr == 25))
      || (b.Speed? && 11 <= attr <= 15) || (b.Outfit? && attr == 24) || (b.Light? && 16 <= attr <= 19)
      || (b.Regeneration? && 4 <= attr <= 7) || (b.Soul? && (attr == 20 || attr == 21))
      || (b.Attributes? && (attr == 22 || attr == 23 || attr == 29 || attr == 30))
  {
  }

  /** A list ends where no condition begins, and one that fails is passed over. */
  lemma LoadEnds(s: seq<byte>)
    ensures Create(s).Short? ==> Load(s) == []
    ensures Create(s).Read? && !Fill(Create(s).value, Create(s).rest).ok ==>
      Load(s) == Load(Fill(Create(s).value, Create(s).rest).rest)
  {
    hide Create, Fill;
    if Create(s).Read? && !Fill(Create(s).value, Create(s).rest).ok {
      assert Load(Fill(Create(s).value, Create(s).rest).rest) + [] == Load(Fill(Create(s).value, Create(s).rest).rest);
    }
  }

  // ----- reading what was written

  function Attrs(rs: seq<Rec>): (s: seq<byte>)
    ensures |s| == |rs|
  {
    seq(|rs|, k requires 0 <= k < |rs| => rs[k].attr)
  }

  function ValuesOf(rs: seq<Rec>): (s: seq<seq<nat>>)
    ensures |s| == |rs|
  {
    seq(|rs|, k requires 0 <= k < |rs| => rs[k].values)
  }

  lemma RecBack(r: Rec, rest: seq<byte>)
    requires RecOk(r)
    ensures var s := RecBytes(r) + rest;
      s != [] && s[0] == r.attr && TakeAll(s[1..], Layout(r.attr)) == Read(r.values, rest)
  {
    PackedBack(Layout(r.attr), r.values, rest);
    assert (RecBytes(r) + rest)[1..] == Packed(Layout(r.attr), r.values) + rest;
  }

  lemma {:induction false} RecsBack(rs: seq<Rec>, rest: seq<byte>)
    requires forall k :: 0 <= k < |rs| ==> RecOk(rs[k])
    ensures TakeRecs(Bytes(rs) + rest, Attrs(rs)) == Read(ValuesOf(rs), rest)
  {
    hide RecOk, RecBytes, Layout, Attrs, ValuesOf, Bytes;
    FirstRec(rs, rest);
    if rs != [] {
      RecBack(rs[0], Bytes(rs[1..]) + rest);
      RecsBack(rs[1..], rest);
    }
  }

  lemma FirstRec(rs: seq<Rec>, rest: seq<byte>)
    requires forall k :: 0 <= k < |rs| ==> RecOk(rs[k])
    ensures rs == [] ==> Bytes(rs) + rest == rest
    ensures rs != [] ==>
      && Bytes(rs) + rest == RecBytes(rs[0]) + (Bytes(rs[1..]) + rest)
      && Attrs(rs)[0] == rs[0].attr && Attrs(rs)[1..] == Attrs(rs[1..]) && ValuesOf(rs) == [rs[0].values] + ValuesOf(rs[1..])
  {
    hide RecBytes;
    if rs == [] {
      assert [] + rest == rest;
    } else {
      Join(RecBytes(rs[0]), Bytes(rs[1..]), rest);
      FirstAttr(rs);
    }
  }

  lemma FirstAttr(rs: seq<Rec>)
    requires rs != []
    ensures Attrs(rs)[0] == rs[0].attr && Attrs(rs)[1..] == Attrs(rs[1..]) && ValuesOf(rs) == [rs[0].values] + ValuesOf(rs[1..])
  {
  }

  function SetAll(c: Cond, rs: seq<Rec>): (r: Cond)
    requires forall k :: 0 <= k < |rs| ==> RecOk(rs[k])
    ensures SameKind(r.body, c.body)
    decreases |rs|
  {
    if rs == [] then c else
      assert RecOk(rs[0]);
      SetAll(Set(c, rs[0].attr, rs[0].values), rs[1..])
  }

  lemma SameAccepts(a: Body, b: Body, attr: byte)
    requires SameKind(a, b)
    ensures Accepts(a, attr) <==> Accepts(b, attr)
  {
  }

  lemma {:induction false} FillBack(c: Cond, rs: seq<Rec>, rest: seq<byte>)
    requires forall k :: 0 <= k < |rs| ==> RecOk(rs[k]) && Accepts(c.body, rs[k].attr)
    ensures Fill(c, Bytes(rs) + ([END] + rest)) == Filled(SetAll(c, rs), true, rest)
    decreases |rs|
  {
    hide RecBytes, Layout, Accepts, SetBody, SameKind;
    if rs == [] {
      assert Bytes(rs) + ([END] + rest) == [END] + rest && ([END] + rest)[1..] == rest;
    } else {
      var tail := Bytes(rs[1..]) + ([END] + rest);
      assert RecOk(rs[0]);
      RecBack(rs[0], tail);
      assert Bytes(rs) + ([END] + rest) == RecBytes(rs[0]) + tail;
      var next := Set(c, rs[0].attr, rs[0].values);
      forall k | 0 <= k < |rs[1..]|
        ensures RecOk(rs[1..][k]) && Accepts(next.body, rs[1..][k].attr)
      {
        assert rs[1..][k] == rs[k + 1];
        SameAccepts(next.body, c.body, rs[k + 1].attr);
      }
      FillBack(next, rs[1..], rest);
    }
  }

  /** A saved header makes a condition with the same common fields and a blank body. */
  function Made(c: Cond): Cond
    requires Blank(c.typ).Some?
  {
    c.(ticks := if Blank(c.typ).value.Damage? then 0 else c.ticks, body := Blank(c.typ).value)
  }

  lemma CreateBack(c: Cond, rest: seq<byte>)
    requires CondOk(c) && forall k :: 0 <= k < |HeaderRecs(c)| ==> RecOk(HeaderRecs(c)[k])
    ensures Create(Bytes(HeaderRecs(c)) + rest) == Read(Made(c), rest)
  {
    hide Bytes, TakeRecs, RecOk, Size, BodyOk, SameKind;
    var rs := HeaderRecs(c);
    RecsBack(rs, rest);
    assert Attrs(rs) == HEADER;
    var v := ValuesOf(rs);
    assert v[0][0] == Cast(c.typ, 4) && v[1][0] == Cast(c.id, 4) && v[2][0] == Cast(c.ticks, 4);
    assert v[3][0] == Bit(c.buff) && v[4][0] == Cast(c.subId, 4) && v[5][0] == Bit(c.aggressive);
    NumbersBack(c);
  }

  lemma NumbersBack(c: Cond)
    requires Blank(c.typ).Some? && -128 <= c.id < 128 && Int32(c.ticks) && c.subId < Size(4)
    ensures Cast(c.typ, 4) == c.typ && IdOf(Cast(c.id, 4)) == c.id && Signed(Cast(c.ticks, 4), 4) == c.ticks && Cast(c.subId, 4) == c.subId
  {
    CastSigned(c.ticks, 4);
    assert c.id < 0 ==> Cast(c.id, 4) == 0x1_0000_0000 + c.id;
  }

  lemma {:induction false} SetAllConcat(c: Cond, a: seq<Rec>, b: seq<Rec>)
    requires (forall k :: 0 <= k < |a| ==> RecOk(a[k])) && (forall k :: 0 <= k < |b| ==> RecOk(b[k]))
    ensures forall k :: 0 <= k < |a + b| ==> RecOk((a + b)[k])
    ensures SetAll(c, a + b) == SetAll(SetAll(c, a), b)
    decreases |a|
  {
    hide Set, RecOk;
    if a == [] {
      assert a + b == b;
    } else {
      assert (a + b)[1..] == a[1..] + b;
      KnownLayout(a[0]);
      SetAllConcat(Set(c, a[0].attr, a[0].values), a[1..], b);
    }
  }

  lemma KnownLayout(r: Rec)
    requires RecOk(r)
    ensures |r.values| == |Layout(r.attr)|
  {
  }

  function Sum(list: seq<Interval>): int {
    if list == [] then 0 else list[0].interval + Sum(list[1..])
  }

  /** Intervals are appended, and the time grows by each. */
  lemma {:induction false} IntervalsBack(c: Cond, list: seq<Interval>)
    requires c.body.Damage? && c.ticks >= 0
    requires forall k :: 0 <= k < |list| ==> Int32(list[k].timeLeft) && Int32(list[k].value) && 0 <= list[k].interval < 0x8000_0000
    ensures (forall k :: 0 <= k < |IntervalRecs(list)| ==> RecOk(IntervalRecs(list)[k]))
    ensures SetAll(c, IntervalRecs(list)) == c.(ticks := c.ticks + Sum(list), body := c.body.(list := c.body.list + list))
    decreases |list|
  {
    IntervalRecsOk(list);
    if list == [] {
      assert c.body.list + [] == c.body.list;
    } else {
      var i := list[0];
      CastSigned(i.timeLeft, 4);
      CastSigned(i.value, 4);
      CastSigned(i.interval, 4);
      var next := c.(ticks := c.ticks + i.interval, body := c.body.(list := c.body.list + [i]));
      IntervalsBack(next, list[1..]);
      assert c.body.list + [i] + list[1..] == c.body.list + list;
      assert IntervalRecs(list)[1..] == IntervalRecs(list[1..]);
    }
  }

  predicate IsRow(attr: byte) {
    attr == SKILLS || attr == STATS || attr == SPECIALSKILLS
  }

  function RowOf(b: Body, attr: byte): Row
    requires b.Attributes?
  {
    if attr == SKILLS then b.skills else if attr == STATS then b.stats else b.specials
  }

  function WithRow(c: Cond, attr: byte, r: Row): Cond
    requires c.body.Attributes?
  {
    if attr == SKILLS then c.(body := c.body.(skills := r))
    else if attr == STATS then c.(body := c.body.(stats := r)) else c.(body := c.body.(specials := r))
  }

  /** The rest of a row is filled in where the cursor is. */
  lemma {:induction false} RowBack(c: Cond, attr: byte, values: seq<int>)
    requires c.body.Attributes? && IsRow(attr) && Int32s(values)
    requires var r := RowOf(c.body, attr); r.cursor + |values| == |r.values|
    ensures (forall k :: 0 <= k < |RowRecs(attr, values)| ==> RecOk(RowRecs(attr, values)[k]))
    ensures var r := RowOf(c.body, attr);
      SetAll(c, RowRecs(attr, values)) == WithRow(c, attr, Row(r.values[..r.cursor] + values, |r.values|))
    decreases |values|
  {
    RowRecsOk(attr, values);
    var r := RowOf(c.body, attr);
    if values == [] {
      assert r.values[..r.cursor] + [] == r.values;
    } else {
      CastSigned(values[0], 4);
      var next := Set(c, attr, [Cast(values[0], 4)]);
      assert next == WithRow(c, attr, Row(r.values[r.cursor := values[0]], r.cursor + 1));
      RowBack(next, attr, values[1..]);
      assert r.values[r.cursor := values[0]][..r.cursor + 1] == r.values[..r.cursor] + [values[0]];
      assert r.values[..r.cursor] + [values[0]] + values[1..] == r.values[..r.cursor] + values;
      assert RowRecs(attr, values)[1..] == RowRecs(attr, values[1..]);
    }
  }

  function Full(r: Row): Row {
    Row(r.values, |r.values|)
  }

  /** What comes back of a saved condition: everything; but the time of damage is the sum of its
      intervals, and the rows of attributes have been read to their ends. */
  function Restored(c: Cond): Cond {
    match c.body
    case Damage(_, _, list) => c.(ticks := Sum(list))
    case Attributes(skills, stats, specials, d) => c.(body := Attributes(Full(skills), Full(stats), Full(specials), d))
    case _ => c
  }

  lemma BodyAccepted(c: Cond)
    requires CondOk(c)
    ensures forall k :: 0 <= k < |BodyRecs(c.body)| ==> Accepts(c.body, BodyRecs(c.body)[k].attr)
  {
    if c.body.Damage? {
      IntervalAttrs(c.body.list);
    }
    if c.body.Attributes? {
      RowAttrs(SKILLS, c.body.skills.values);
      RowAttrs(STATS, c.body.stats.values);
      RowAttrs(SPECIALSKILLS, c.body.specials.values);
    }
  }

  lemma IntervalAttrs(list: seq<Interval>)
    ensures forall k :: 0 <= k < |IntervalRecs(list)| ==> IntervalRecs(list)[k].attr == INTERVALDATA
  {
    if list != [] {
      IntervalAttrs(list[1..]);
    }
  }

  lemma RowAttrs(attr: byte, values: seq<int>)
    ensures forall k :: 0 <= k < |RowRecs(attr, values)| ==> RowRecs(attr, values)[k].attr == attr
  {
    if values != [] {
      RowAttrs(attr, values[1..]);
    }
  }

  /** The records of a body fill in a blank one of its kind. */
  lemma BodyBack(c: Cond)
    requires CondOk(c)
    ensures (forall k :: 0 <= k < |BodyRecs(c.body)| ==> RecOk(BodyRecs(c.body)[k]))
    ensures SetAll(Made(c), BodyRecs(c.body)) == Restored(c)
  {
    RecsOk(c);
    match c.body
    case Damage(_, _, _) => DamageBack(c);
    case Attributes(_, _, _, _) => AttributesBack(c);
    case _ => FewBack(c);
  }

  lemma DamageBack(c: Cond)
    requires CondOk(c) && c.body.Damage?
    ensures (forall k :: 0 <= k < |BodyRecs(c.body)| ==> RecOk(BodyRecs(c.body)[k]))
    ensures SetAll(Made(c), BodyRecs(c.body)) == Restored(c)
  {
    hide SetAll, Set, Blank, RecOk, IntervalRecs;
    RecsOk(c);
    var b := c.body;
    var first := [Rec(DELAYED, [Bit(b.delayed)]), Rec(PERIODDAMAGE, [Cast(b.period, 4)])];
    IntervalRecsOk(b.list);
    var next := c.(ticks := 0, body := Damage(b.delayed, b.period, []));
    DamageHead(c);
    SetAllConcat(Made(c), first, IntervalRecs(b.list));
    IntervalsBack(next, b.list);
    assert [] + b.list == b.list;
  }

  lemma DamageHead(c: Cond)
    requires CondOk(c) && c.body.Damage?
    ensures var rs := [Rec(DELAYED, [Bit(c.body.delayed)]), Rec(PERIODDAMAGE, [Cast(c.body.period, 4)])];
      && (forall k :: 0 <= k < 2 ==> RecOk(rs[k]))
      && SetAll(Made(c), rs) == c.(ticks := 0, body := Damage(c.body.delayed, c.body.period, []))
  {
    hide SetAll;
    var r, q := Rec(DELAYED, [Bit(c.body.delayed)]), Rec(PERIODDAMAGE, [Cast(c.body.period, 4)]);
    CastSigned(c.body.period, 4);
    assert RecOk(r) && RecOk(q);
    TwoSet(Made(c), r, q);
  }

  lemma TwoSet(c: Cond, r: Rec, q: Rec)
    requires RecOk(r) && RecOk(q)
    ensures (forall k :: 0 <= k < 2 ==> RecOk([r, q][k]))
    ensures SetAll(c, [r, q]) == Set(Set(c, r.attr, r.values), q.attr, q.values)
  {
    hide Set;
    assert [r, q][1..] == [q] && [q][1..] == [];
    var d := Set(c, r.attr, r.values);
    assert SetAll(d, [q]) == SetAll(Set(d, q.attr, q.values), []);
  }

  lemma AttributesBack(c: Cond)
    requires CondOk(c) && c.body.Attributes?
    ensures (forall k :: 0 <= k < |BodyRecs(c.body)| ==> RecOk(BodyRecs(c.body)[k]))
    ensures SetAll(Made(c), BodyRecs(c.body)) == Restored(c)
  {
    hide Set, Blank, SetAll, RecOk, RowRecs;
    RecsOk(c);
    var b := c.body;
    var skills, stats, specials := RowRecs(SKILLS, b.skills.values), RowRecs(STATS, b.stats.values), RowRecs(SPECIALSKILLS, b.specials.values);
    var flag := [Rec(DISABLEDEFENSE, [Bit(b.disableDefense)])];
    var c0 := Made(c);
    BlankRows(c);
    RowRecsOk(SKILLS, b.skills.values);
    RowRecsOk(STATS, b.stats.values);
    RowRecsOk(SPECIALSKILLS, b.specials.values);
    RowBack(c0, SKILLS, b.skills.values);
    var c1 := WithRow(c0, SKILLS, Full(b.skills));
    assert Zeros(7)[..0] + b.skills.values == b.skills.values;
    RowBack(c1, STATS, b.stats.values);
    var c2 := WithRow(c1, STATS, Full(b.stats));
    assert Zeros(4)[..0] + b.stats.values == b.stats.values;
    FlagBack(c2, b.disableDefense);
    var c3 := c2.(body := c2.body.(disableDefense := b.disableDefense));
    RowBack(c3, SPECIALSKILLS, b.specials.values);
    assert Zeros(6)[..0] + b.specials.values == b.specials.values;
    SetAllConcat(c0, skills, stats);
    SetAllConcat(c0, skills + stats, flag);
    SetAllConcat(c0, skills + stats + flag, specials);
  }

  lemma BlankRows(c: Cond)
    requires CondOk(c) && c.body.Attributes?
    ensures Blank(c.typ) == Some(Attributes(Row(Zeros(7), 0), Row(Zeros(4), 0), Row(Zeros(6), 0), false))
  {
  }

  lemma FlagBack(c: Cond, flag: bool)
    requires c.body.Attributes?
    ensures RecOk([Rec(DISABLEDEFENSE, [Bit(flag)])][0])
    ensures SetAll(c, [Rec(DISABLEDEFENSE, [Bit(flag)])]) == c.(body := c.body.(disableDefense := flag))
  {
    var rs := [Rec(DISABLEDEFENSE, [Bit(flag)])];
    assert rs[1..] == [];
  }

  /** The kinds with a fixed number of records. */
  lemma FewBack(c: Cond)
    requires CondOk(c) && !c.body.Damage? && !c.body.Attributes?
    ensures (forall k :: 0 <= k < |BodyRecs(c.body)| ==> RecOk(BodyRecs(c.body)[k]))
    ensures SetAll(Made(c), BodyRecs(c.body)) == Restored(c)
  {
    RecsOk(c);
    var rs := BodyRecs(c.body);
    if c.body.Speed? {
      SpeedBack(c);
    } else if c.body.Light? || c.body.Regeneration? {
      FourBack(c);
    } else if c.body.Soul? {
      TwoSet(Made(c), rs[0], rs[1]);
    } else if c.body.Outfit? {
      assert rs[1..] == [];
    }
  }

  lemma FourSet(c: Cond, rs: seq<Rec>)
    requires |rs| == 4 && forall k :: 0 <= k < 4 ==> RecOk(rs[k])
    ensures SetAll(c, rs) == SetAll(SetAll(c, [rs[0], rs[1]]), [rs[2], rs[3]])
  {
    hide Set, SetAll, RecOk;
    assert rs == [rs[0], rs[1]] + [rs[2], rs[3]];
    SetAllConcat(c, [rs[0], rs[1]], [rs[2], rs[3]]);
  }

  lemma FourBack(c: Cond)
    requires CondOk(c) && (c.body.Light? || c.body.Regeneration?)
    ensures (forall k :: 0 <= k < |BodyRecs(c.body)| ==> RecOk(BodyRecs(c.body)[k]))
    ensures SetAll(Made(c), BodyRecs(c.body)) == Restored(c)
  {
    hide SetAll;
    RecsOk(c);
    var rs := BodyRecs(c.body);
    FourSet(Made(c), rs);
    TwoSet(Made(c), rs[0], rs[1]);
    TwoSet(SetAll(Made(c), [rs[0], rs[1]]), rs[2], rs[3]);
  }

  lemma SpeedBack(c: Cond)
    requires CondOk(c) && c.body.Speed?
    ensures (forall k :: 0 <= k < |BodyRecs(c.body)| ==> RecOk(BodyRecs(c.body)[k]))
    ensures SetAll(Made(c), BodyRecs(c.body)) == Restored(c)
  {
    hide SetAll;
    RecsOk(c);
    var rs, f := BodyRecs(c.body), c.body.formula;
    CastSigned(c.body.delta, 4);
    OneSet(Made(c), rs[0]);
    var c1 := Set(Made(c), rs[0].attr, rs[0].values);
    var four := [rs[1], rs[2], rs[3], rs[4]];
    assert rs == [rs[0]] + four;
    SetAllConcat(Made(c), [rs[0]], four);
    FourSet(c1, four);
    TwoSet(c1, rs[1], rs[2]);
    TwoSet(SetAll(c1, [rs[1], rs[2]]), rs[3], rs[4]);
    assert [0, 0, 0, 0][0 := f[0]][1 := f[1]][2 := f[2]][3 := f[3]] == f;
  }

  lemma OneSet(c: Cond, r: Rec)
    requires RecOk(r)
    ensures RecOk([r][0]) && SetAll(c, [r]) == Set(c, r.attr, r.values)
  {
    hide Set;
    assert [r][1..] == [];
  }

  // ----- whole conditions and whole streams

  /** A saved condition comes back, and what follows it in the stream is left. */
  lemma SavedBack(c: Cond, rest: seq<byte>)
    requires CondOk(c)
    ensures var r := Create(Saved(c) + rest);
      r.Read? && Fill(r.value, r.rest) == Filled(Restored(c), true, rest)
  {
    hide Create, Fill, Restored, CondOk, Made, SetAll, Accepts, RecOk, SameKind;
    RecsOk(c);
    BodyBack(c);
    BodyAccepted(c);
    var tail := Bytes(BodyRecs(c.body)) + ([END] + rest);
    assert Saved(c) + rest == Bytes(HeaderRecs(c)) + tail;
    TypeKnown(c);
    CreateBack(c, tail);
    forall k | 0 <= k < |BodyRecs(c.body)|
      ensures Accepts(Made(c).body, BodyRecs(c.body)[k].attr)
    {
      SameAccepts(c.body, Made(c).body, BodyRecs(c.body)[k].attr);
    }
    FillBack(Made(c), BodyRecs(c.body), rest);
  }

  lemma TypeKnown(c: Cond)
    requires CondOk(c)
    ensures Blank(c.typ).Some? && SameKind(c.body, Made(c).body)
  {
  }

  /** The conditions that are saved, as they come back, the last one first. */
  function Reversed(cs: seq<Cond>): seq<Cond> {
    if cs == [] then []
    else (if Persistent(cs[|cs| - 1]) then [Restored(cs[|cs| - 1])] else []) + Reversed(cs[..|cs| - 1])
  }

  lemma LoadOne(c: Cond, s: seq<byte>)
    requires CondOk(c)
    ensures Load(Saved(c) + s) == Load(s) + [Restored(c)]
  {
    hide CondOk, Saved, Create, Fill, Restored;
    SavedBack(c, s);
  }

  lemma {:induction false} LoadSkips(cs: seq<Cond>, s: seq<byte>)
    requires forall k :: 0 <= k < |cs| ==> CondOk(cs[k])
    ensures Load(SavedAll(cs) + s) == Load(s) + Reversed(cs)
    decreases |cs|
  {
    hide CondOk, Saved, Restored, Persistent, Load, SavedAll, Reversed;
    LastSaved(cs, s);
    if cs == [] {
      assert Load(s) + [] == Load(s);
    } else {
      var front, last := cs[..|cs| - 1], cs[|cs| - 1];
      if Persistent(last) {
        LoadOne(last, s);
        LoadSkips(front, Saved(last) + s);
        assert Load(s) + [Restored(last)] + Reversed(front) == Load(s) + ([Restored(last)] + Reversed(front));
      } else {
        LoadSkips(front, s);
      }
    }
  }

  lemma LastSaved(cs: seq<Cond>, s: seq<byte>)
    requires forall k :: 0 <= k < |cs| ==> CondOk(cs[k])
    ensures if cs == [] then SavedAll(cs) + s == s && Reversed(cs) == []
      else
        var front, last := cs[..|cs| - 1], cs[|cs| - 1];
        if Persistent(last)
        then SavedAll(cs) + s == SavedAll(front) + (Saved(last) + s) && Reversed(cs) == [Restored(last)] + Reversed(front)
        else SavedAll(cs) + s == SavedAll(front) + s && Reversed(cs) == Reversed(front)
  {
    hide Saved, Restored, Persistent, CondOk;
  }

  /** What is loaded of a saved stream are the persistent conditions in reverse order; and the same if
      something follows that is no condition, such as one of an unknown type, with which the load ends. */
  lemma LoadBack(cs: seq<Cond>, s: seq<byte>)
    requires (forall k :: 0 <= k < |cs| ==> CondOk(cs[k])) && Create(s).Short?
    ensures Load(SavedAll(cs) + s) == Reversed(cs)
  {
    hide CondOk, SavedAll, Reversed, Create;
    LoadSkips(cs, s);
    assert Load(s) == [];
    assert [] + Reversed(cs) == Reversed(cs);
  }

  lemma {:induction false} UnknownTypeStops(c: Cond, rest: seq<byte>)
    requires Blank(c.typ).None? && c.typ < Size(4) && -128 <= c.id < 128 && Int32(c.ticks) && c.subId < Size(4)
    ensures (forall k :: 0 <= k < |HeaderRecs(c)| ==> RecOk(HeaderRecs(c)[k]))
    ensures Create(Bytes(HeaderRecs(c)) + rest).Short?
  {
    hide Bytes, TakeRecs, Size;
    var rs := HeaderRecs(c);
    assert forall k :: 0 <= k < |rs| ==> RecOk(rs[k]);
    RecsBack(rs, rest);
    assert Attrs(rs) == HEADER;
    assert ValuesOf(rs)[0][0] == Cast(c.typ, 4) == c.typ;
  }

  // ----- on the stream objects

  /** An attribute and its value. */
  method WriteRec(stream: PropWriteStream, r: Rec)
    requires RecOk(r)
    modifies stream
    ensures stream.buffer == old(stream.buffer) + RecBytes(r)
  {
    hide Cast, Size;
    var ws, vs := Layout(r.attr), r.values;
    stream.WriteByte(r.attr);
    assert ws[0..] == ws && vs[0..] == vs;
    Join(old(stream.buffer), [r.attr], Packed(ws, vs));
    for k := 0 to |vs|
      invariant stream.buffer + Packed(ws[k..], vs[k..]) == old(stream.buffer) + RecBytes(r)
    {
      assert ws[k..][1..] == ws[k + 1..] && vs[k..][1..] == vs[k + 1..];
      Join(stream.buffer, LE(vs[k], ws[k]), Packed(ws[k + 1..], vs[k + 1..]));
      Fits(vs[k], ws[k]);
      stream.Write(vs[k], ws[k]);
    }
    assert stream.buffer + [] == stream.buffer;
  }

  lemma Join(a: seq<byte>, b: seq<byte>, c: seq<byte>)
    ensures a + b + c == a + (b + c)
  {
  }

  lemma Fits(n: nat, w: Width)
    requires n < Size(w)
    ensures Cast(n, w) == n
  {
  }

  method WriteRecs(stream: PropWriteStream, rs: seq<Rec>)
    requires forall k :: 0 <= k < |rs| ==> RecOk(rs[k])
    modifies stream
    ensures stream.buffer == old(stream.buffer) + Bytes(rs)
  {
    hide RecOk, RecBytes, Layout;
    assert rs[0..] == rs;
    for k := 0 to |rs|
      invariant stream.buffer + Bytes(rs[k..]) == old(stream.buffer) + Bytes(rs)
    {
      assert rs[k..][1..] == rs[k + 1..];
      KnownLayout(rs[k]);
      Join(stream.buffer, RecBytes(rs[k]), Bytes(rs[k + 1..]));
      WriteRec(stream, rs[k]);
    }
    assert stream.buffer + [] == stream.buffer;
  }

  /** The loop of `savePlayer` over the conditions. */
  method SaveConditions(stream: PropWriteStream, cs: seq<Cond>)
    requires forall k :: 0 <= k < |cs| ==> CondOk(cs[k])
    modifies stream
    ensures stream.buffer == old(stream.buffer) + SavedAll(cs)
  {
    hide CondOk, RecOk, Persistent, HeaderRecs, BodyRecs, Bytes;
    assert cs[..0] == [] && old(stream.buffer) + [] == old(stream.buffer);
    for k := 0 to |cs|
      invariant stream.buffer == old(stream.buffer) + SavedAll(cs[..k])
    {
      assert cs[..k + 1][..k] == cs[..k];
      var c := cs[k];
      if Persistent(c) {
        RecsOk(c);
        ghost var before := stream.buffer;
        WriteRecs(stream, HeaderRecs(c));
        WriteRecs(stream, BodyRecs(c.body));
        stream.WriteByte(END);
        assert stream.buffer == before + Saved(c);
        Join(old(stream.buffer), SavedAll(cs[..k]), Saved(c));
      } else {
        assert SavedAll(cs[..k]) + [] == SavedAll(cs[..k]);
      }
    }
    assert cs[..|cs|] == cs;
  }

  /** `read` of a whole value. */
  method ReadAll(stream: PropStream, ws: seq<Width>) returns (ok: bool, vs: seq<nat>)
    requires stream.Valid()
    modifies stream
    ensures stream.Valid()
    ensures var r := TakeAll(old(stream.Rest()), ws);
      if ok then r == Read(vs, stream.Rest()) else r.Short? && stream.Rest() == old(stream.Rest())
    decreases |ws|
  {
    if |stream.data| - stream.p < Widths(ws) {
      return false, [];
    }
    if ws == [] {
      return true, [];
    }
    var known, first := stream.ReadNumber(ws[0]);
    var others;
    ok, others := ReadAll(stream, ws[1..]);
    vs := [first] + others;
  }

  /** `unserialize` */
  method Unserialize(stream: PropStream, c: Cond) returns (ok: bool, now: Cond)
    requires stream.Valid()
    modifies stream
    ensures stream.Valid() && Fill(c, old(stream.Rest())) == Filled(now, ok, stream.Rest())
  {
    hide Set, Layout, Accepts, TakeAll;
    now := c;
    while true
      invariant stream.Valid() && Fill(now, stream.Rest()) == Fill(c, old(stream.Rest()))
      decreases |stream.Rest()|
    {
      var known, attr := stream.ReadByte();
      if !known || attr == END {
        return true, now;
      }
      if !Accepts(now.body, attr) {
        return false, now;
      }
      var got, values := ReadAll(stream, Layout(attr));
      if !got {
        return false, now;
      }
      now := Set(now, attr, values);
    }
  }

  /** Records with given attributes, one after the other, until one is not there. */
  method ReadRecs(stream: PropStream, attrs: seq<byte>) returns (ok: bool, values: seq<seq<nat>>)
    requires stream.Valid()
    modifies stream
    ensures stream.Valid()
    ensures var r := TakeRecs(old(stream.Rest()), attrs); if ok then r == Read(values, stream.Rest()) else r.Short?
    decreases |attrs|
  {
    hide Layout, TakeAll;
    if attrs == [] {
      return true, [];
    }
    var known, attr := stream.ReadByte();
    if !known || attr != attrs[0] {
      return false, [];
    }
    var got, first := ReadAll(stream, Layout(attr));
    if !got {
      return false, [];
    }
    var others;
    ok, others := ReadRecs(stream, attrs[1..]);
    values := [first] + others;
  }

  /** `createCondition` */
  method CreateCondition(stream: PropStream) returns (c: Option<Cond>)
    requires stream.Valid()
    modifies stream
    ensures stream.Valid()
    ensures var r := Create(old(stream.Rest())); if c.Some? then r == Read(c.value, stream.Rest()) else r.Short?
  {
    hide TakeRecs, Blank;
    var ok, h := ReadRecs(stream, HEADER);
    if !ok {
      return None;
    }
    assert forall k :: 0 <= k < 6 ==> |h[k]| == |Layout(HEADER[k])|;
    var typ := h[0][0];
    var body := Blank(typ);
    if body.None? {
      return None;
    }
    return Some(Cond(typ, IdOf(h[1][0]), if body.value.Damage? then 0 else Signed(h[2][0], 4), h[3][0] != 0, h[4][0], h[5][0] != 0, body.value));
  }

  /** The loop of `loadPlayer` over the conditions. */
  method LoadConditions(stream: PropStream) returns (storedConditionList: seq<Cond>)
    requires stream.Valid()
    modifies stream
    ensures stream.Valid() && storedConditionList == Load(old(stream.Rest()))
  {
    hide Create, Fill;
    storedConditionList := [];
    ghost var s := stream.Rest();
    var condition := CreateCondition(stream);
    while condition.Some?
      invariant stream.Valid() && Load(old(stream.Rest())) == Load(s) + storedConditionList
      invariant var r := Create(s); if condition.Some? then r == Read(condition.value, stream.Rest()) else r.Short?
      decreases |s|
    {
      var ok, c := Unserialize(stream, condition.value);
      Regrouped(Load(stream.Rest()), if ok then [c] else [], storedConditionList);
      if ok {
        storedConditionList := [c] + storedConditionList;
      }
      s := stream.Rest();
      condition := CreateCondition(stream);
    }
  }

  lemma Regrouped(a: seq<Cond>, b: seq<Cond>, c: seq<Cond>)
    ensures a + b + c == a + (b + c) && a + [] == a && [] + c == c
  {
  }
}
