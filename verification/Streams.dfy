/** The byte streams that items and conditions are saved to and loaded from. */
module Streams {

  type byte = b: int | 0 <= b < 256

  function Pow256(w: nat): (p: nat)
    ensures p >= 1
  {
    if w == 0 then 1 else 256 * Pow256(w - 1)
  }

  /** The `w` bytes of a number, least significant first. */
  function LE(n: nat, w: nat): (s: seq<byte>)
    ensures |s| == w
    decreases w, n
  {
    if w == 0 then [] else [n % 256] + LE(n / 256, w - 1)
  }

  function FromLE(s: seq<byte>): (n: nat)
    ensures n < Pow256(|s|)
  {
    if s == [] then 0 else s[0] + 256 * FromLE(s[1..])
  }

  lemma {:induction false} FromLEOfLE(n: nat, w: nat)
    requires n < Pow256(w)
    ensures FromLE(LE(n, w)) == n
  {
    if w > 0 {
      FromLEOfLE(n / 256, w - 1);
      assert LE(n, w)[1..] == LE(n / 256, w - 1);
    }
  }

  /** The widths of the numbers in a stream: uint8_t to uint64_t. */
  type Width = w: nat | w == 1 || w == 2 || w == 4 || w == 8 witness 1

  function Size(w: Width): (n: nat)
    ensures n == Pow256(w)
  {
    assert Pow256(2) == 256 * Pow256(1) && Pow256(4) == 256 * Pow256(3) && Pow256(3) == 256 * Pow256(2);
    assert Pow256(8) == 256 * Pow256(7) && Pow256(7) == 256 * Pow256(6) && Pow256(6) == 256 * Pow256(5);
    assert Pow256(5) == 256 * Pow256(4);
    if w == 1 then 0x100 else if w == 2 then 0x1_0000 else if w == 4 then 0x1_0000_0000
    else 0x1_0000_0000_0000_0000
  }

  /** What a cast to an unsigned type of `w` bytes keeps of an integer. */
  function Cast(n: int, w: Width): (r: nat)
    ensures r < Size(w)
    ensures 0 <= n < Size(w) ==> r == n
  {
    if w == 1 then n % 0x100 else if w == 2 then n % 0x1_0000 else if w == 4 then n % 0x1_0000_0000
    else n % 0x1_0000_0000_0000_0000
  }

  /** The signed reading of the same bytes. */
  function Signed(n: nat, w: Width): int {
    if 2 * n < Size(w) then n else n - Size(w)
  }

  lemma CastSigned(n: int, w: Width)
    requires 0 <= 2 * n + Size(w) < 2 * Size(w)
    ensures Signed(Cast(n, w), w) == n
  {
  }

  // ----- reading

  datatype Read<+T> = Read(value: T, rest: seq<byte>) | Short

  /** `read`: a number, unless too few bytes are left. */
  function TakeNumber(s: seq<byte>, w: Width): (r: Read<nat>)
    ensures r.Read? ==> r.value < Size(w) && |r.rest| == |s| - w
  {
    if |s| < w then Short else Read(FromLE(s[..w]), s[w..])
  }

  /** `readString`: a 16-bit length and that many bytes. */
  function TakeString(s: seq<byte>): (r: Read<seq<byte>>)
    ensures r.Read? ==> |r.rest| < |s| && |r.value| < Size(2)
  {
    var n := TakeNumber(s, 2);
    if n.Short? || |n.rest| < n.value then Short else Read(n.rest[..n.value], n.rest[n.value..])
  }

  /** `skip` */
  function Drop(s: seq<byte>, n: nat): (r: Read<()>)
    ensures r.Read? ==> |r.rest| == |s| - n
  {
    if |s| < n then Short else Read((), s[n..])
  }

  /** `writeString`: text that is too long for its length field is written as empty text. */
  function StringBytes(s: seq<byte>): seq<byte> {
    if |s| >= Size(2) then LE(0, 2) else LE(|s|, 2) + s
  }

  /** What `readString` gets of a text that `writeString` wrote. */
  function Kept(s: seq<byte>): seq<byte> {
    if |s| >= Size(2) then [] else s
  }

  lemma NumberBack(n: nat, w: Width, rest: seq<byte>)
    requires n < Size(w)
    ensures TakeNumber(LE(n, w) + rest, w) == Read(n, rest)
  {
    FromLEOfLE(n, w);
    assert (LE(n, w) + rest)[..w] == LE(n, w) && (LE(n, w) + rest)[w..] == rest;
  }

  lemma StringBack(s: seq<byte>, rest: seq<byte>)
    ensures TakeString(StringBytes(s) + rest) == Read(Kept(s), rest)
  {
    var t := Kept(s);
    NumberBack(|t|, 2, t + rest);
    assert StringBytes(s) + rest == LE(|t|, 2) + (t + rest);
    assert (t + rest)[..|t|] == t && (t + rest)[|t|..] == rest;
  }

  /** The order of the bytes: the least significant one comes first. */
  lemma ByteOrder(n: nat)
    ensures LE(n, 1) == [n % 256] && LE(n, 2) == [n % 256, n / 256 % 256]
    ensures LE(n, 4) == [n % 256, n / 256 % 256, n / 256 / 256 % 256, n / 256 / 256 / 256 % 256]
  {
    assert LE(n / 256 / 256 / 256, 1) == [n / 256 / 256 / 256 % 256] + LE(n / 256 / 256 / 256 / 256, 0);
    assert LE(n / 256 / 256, 2) == [n / 256 / 256 % 256] + LE(n / 256 / 256 / 256, 1);
    assert LE(n / 256, 3) == [n / 256 % 256] + LE(n / 256 / 256, 2);
    assert LE(n, 4) == [n % 256] + LE(n / 256, 3);
    assert LE(n / 256, 1) == [n / 256 % 256] + LE(n / 256 / 256, 0);
    assert LE(n, 2) == [n % 256] + LE(n / 256, 1) && LE(n, 1) == [n % 256] + LE(n / 256, 0);
  }

  /** A text stands behind its length in two bytes, and one of 64 KiB or more is left out. */
  lemma TextBytes(s: seq<byte>)
    ensures StringBytes(s) == if |s| < 65536 then [|s| % 256, |s| / 256] + s else [0, 0]
  {
    ByteOrder(|s|);
    ByteOrder(0);
  }

  /** When there are too few bytes for a number, a text or a gap, and what is left otherwise. */
  lemma Enough(s: seq<byte>, w: Width, n: nat)
    ensures TakeNumber(s, w).Read? <==> |s| >= w
    ensures |s| >= w ==> TakeNumber(s, w).rest == s[w..]
    ensures TakeString(s).Read? <==> |s| >= 2 && |s| >= 2 + s[0] as int + 256 * s[1] as int
    ensures TakeString(s).Read? ==>
      var m := s[0] as int + 256 * s[1] as int; TakeString(s) == Read(s[2..2 + m], s[2 + m..])
    ensures Drop(s, n) == if |s| >= n then Read((), s[n..]) else Short
  {
    if |s| >= 2 {
      var two := s[..2];
      assert two[1..] == [s[1]] && two[1..][1..] == [];
      assert FromLE(two) == s[0] as int + 256 * s[1] as int;
      var m := s[0] as int + 256 * s[1] as int;
      if |s| >= 2 + m {
        assert s[2..][..m] == s[2..2 + m] && s[2..][m..] == s[2 + m..];
      }
    }
  }

  // ----- the stream objects

  class PropStream {
    const data: seq<byte>
    var p: nat

    ghost predicate Valid()
      reads this
    {
      p <= |data|
    }

    function Rest(): seq<byte>
      requires Valid()
      reads this
    {
      data[p..]
    }

    constructor (a: seq<byte>)
      ensures Valid() && Rest() == a
    {
      data, p := a, 0;
    }

    /** `read<T>` */
    method ReadNumber(w: Width) returns (ok: bool, value: nat)
      requires Valid()
      modifies this
      ensures Valid()
      ensures var r := TakeNumber(old(Rest()), w);
        if ok then r == Read(value, Rest()) else r.Short? && Rest() == old(Rest())
      ensures ok <==> |old(Rest())| >= w
    {
      if |data| - p < w {
        return false, 0;
      }
      value := FromLE(data[p..][..w]);
      p := p + w;
      ok := true;
    }

    /** `read<uint8_t>` */
    method ReadByte() returns (ok: bool, value: byte)
      requires Valid()
      modifies this
      ensures Valid()
      ensures if ok then old(Rest()) != [] && value == old(Rest())[0] && Rest() == old(Rest())[1..]
              else old(Rest()) == [] && Rest() == []
    {
      if p == |data| {
        return false, 0;
      }
      value := data[p];
      p := p + 1;
      ok := true;
    }

    method ReadString() returns (ok: bool, value: seq<byte>)
      requires Valid()
      modifies this
      ensures Valid()
      ensures var r := TakeString(old(Rest()));
        if ok then r == Read(value, Rest()) else r.Short?
    {
      var known, strLen := ReadNumber(2);
      if !known || |data| - p < strLen {
        return false, [];
      }
      value := data[p..p + strLen];
      assert Rest()[..strLen] == value && Rest()[strLen..] == data[p + strLen..];
      p := p + strLen;
      ok := true;
    }

    method Skip(n: nat) returns (ok: bool)
      requires Valid()
      modifies this
      ensures Valid()
      ensures var r := Drop(old(Rest()), n);
        if ok then r == Read((), Rest()) else r.Short? && Rest() == old(Rest())
      ensures ok <==> |old(Rest())| >= n
      ensures ok ==> Rest() == old(Rest())[n..]
    {
      if |data| - p < n {
        return false;
      }
      p := p + n;
      ok := true;
    }
  }

  class PropWriteStream {
    var buffer: seq<byte>

    constructor ()
      ensures buffer == []
    {
      buffer := [];
    }

    method Write(n: int, w: Width)
      modifies this
      ensures buffer == old(buffer) + LE(Cast(n, w), w)
    {
      buffer := buffer + LE(Cast(n, w), w);
    }

    /** `write<uint8_t>` of a byte. */
    method WriteByte(b: byte)
      modifies this
      ensures buffer == old(buffer) + [b]
    {
      buffer := buffer + [b];
    }

    method WriteString(s: seq<byte>)
      modifies this
      ensures buffer == old(buffer) + StringBytes(s)
    {
      if |s| >= Size(2) {
        Write(0, 2);
      } else {
        Write(|s|, 2);
        buffer := buffer + s;
      }
    }
  }
}
