/** The secret of a two-factor token, written in base 32: section 6 of RFC 4648 without padding. */
module Base32 {
  import opened Streams

  const WORD: int := 0x1_0000_0000

  /** 2 to the power of `n`. */
  function Two(n: nat): (p: nat)
    ensures p > 0
  {
    if n == 0 then 1 else 2 * Two(n - 1)
  }

  /** The number that some groups of five bits stand for, the most significant first. */
  function Value5(digits: seq<nat>): nat {
    if digits == [] then 0 else Value5(digits[..|digits| - 1]) * 32 + digits[|digits| - 1]
  }

  /** The number that some bytes stand for, the most significant first. */
  function Value8(key: seq<byte>): nat {
    if key == [] then 0 else Value8(key[..|key| - 1]) * 256 + key[|key| - 1]
  }

  /** The last `n` groups of five bits of a number. */
  function Digits5(v: nat, n: nat): (s: seq<nat>)
    ensures |s| == n && forall k :: 0 <= k < n ==> s[k] < 32
  {
    if n == 0 then [] else Digits5(v / 32, n - 1) + [v % 32]
  }

  /** The characters of the alphabet stand for 0 to 31. */
  predicate Letter(c: byte) {
    65 <= c <= 90 || 50 <= c <= 55
  }

  function DigitOf(c: byte): (d: nat)
    requires Letter(c)
    ensures d < 32
  {
    if 65 <= c <= 90 then c - 65 else c - 24
  }

  function LetterOf(d: nat): (c: byte)
    requires d < 32
    ensures Letter(c) && DigitOf(c) == d
  {
    if d < 26 then d + 65 else d + 24
  }

  predicate Letters(secret: seq<byte>) {
    forall k :: 0 <= k < |secret| ==> Letter(secret[k])
  }

  function DigitsOf(secret: seq<byte>): (s: seq<nat>)
    requires Letters(secret)
    ensures |s| == |secret|
  {
    seq(|secret|, k requires 0 <= k < |secret| => DigitOf(secret[k]))
  }

  // ----- the encoding

  /** Groups of five bits that some bytes take up, and the zero bits that fill the last group. */
  function Groups(m: nat): nat {
    (8 * m + 4) / 5
  }

  function Fill(m: nat): nat {
    5 * Groups(m) - 8 * m
  }

  function Padded(key: seq<byte>): nat {
    Value8(key) * Two(Fill(|key|))
  }

  /** The bytes as one string of bits, filled up with zero bits, five bits to a letter. */
  function Encode(key: seq<byte>): (secret: seq<byte>)
    ensures |secret| == Groups(|key|) && Letters(secret)
  {
    Spelled(Digits5(Padded(key), Groups(|key|)))
  }

  function Spelled(digits: seq<nat>): (secret: seq<byte>)
    requires forall k :: 0 <= k < |digits| ==> digits[k] < 32
    ensures |secret| == |digits| && Letters(secret) && DigitsOf(secret) == digits
  {
    seq(|digits|, k requires 0 <= k < |digits| => LetterOf(digits[k]))
  }

  /** What it means to decode a secret: nothing, if a character is none of the alphabet; otherwise the
      whole bytes of its bits, without what is left of the last groups. */
  predicate Decodes(secret: seq<byte>, key: seq<byte>) {
    if !Letters(secret) then key == []
    else |key| == 5 * |secret| / 8 && Value8(key) == Value5(DigitsOf(secret)) / Two(5 * |secret| % 8)
  }

  /** The alphabet of RFC 4648, table 3. */
  const ALPHABET: string := "ABCDEFGHIJKLMNOPQRSTUVWXYZ234567"

  lemma AlphabetOrder(d: nat)
    requires d < 32
    ensures LetterOf(d) == ALPHABET[d] as int && DigitOf(ALPHABET[d] as int) == d
  {
    assert d < 26 ==> ALPHABET[d] == (65 + d) as char;
    assert d >= 26 ==> ALPHABET[d] == (24 + d) as char;
  }

  lemma OnlyAlphabet(c: byte)
    ensures Letter(c) <==> exists d :: 0 <= d < 32 && LetterOf(d) == c
  {
    if Letter(c) {
      var d := DigitOf(c);
      assert LetterOf(d) == c;
    }
  }

  /** The test vector for "foobar" of RFC 4648, section 10: its secret is "MZXW6YTBOI". */
  lemma TestVector(key: seq<byte>)
    requires Decodes([77, 90, 88, 87, 54, 89, 84, 66, 79, 73], key)
    ensures key == [102, 111, 111, 98, 97, 114]
  {
    var secret: seq<byte> := [77, 90, 88, 87, 54, 89, 84, 66, 79, 73];
    var foobar: seq<byte> := [102, 111, 111, 98, 97, 114];
    assert DigitsOf(secret) == [12, 25, 23, 22, 30, 24, 19, 1, 14, 8];
    TenDigits();
    SixBytes();
    SmallPowers(2);
    SameBytes(key, foobar);
  }

  lemma TenDigits()
    ensures Value5([12, 25, 23, 22, 30, 24, 19, 1, 14, 8]) == 450515184485832
  {
    assert [12, 25, 23, 22, 30, 24, 19, 1, 14, 8][..9] == [12, 25, 23, 22, 30, 24, 19, 1, 14];
    assert [12, 25, 23, 22, 30, 24, 19, 1, 14][..8] == [12, 25, 23, 22, 30, 24, 19, 1];
    assert [12, 25, 23, 22, 30, 24, 19, 1][..7] == [12, 25, 23, 22, 30, 24, 19];
    assert [12, 25, 23, 22, 30, 24, 19][..6] == [12, 25, 23, 22, 30, 24];
    assert [12, 25, 23, 22, 30, 24][..5] == [12, 25, 23, 22, 30];
    assert [12, 25, 23, 22, 30][..4] == [12, 25, 23, 22];
    assert [12, 25, 23, 22][..3] == [12, 25, 23] && [12, 25, 23][..2] == [12, 25] && [12, 25][..1] == [12] && [12][..0] == [];
  }

  lemma SixBytes()
    ensures Value8([102, 111, 111, 98, 97, 114]) == 112628796121458
  {
    assert [102, 111, 111, 98, 97, 114][..5] == [102, 111, 111, 98, 97] && [102, 111, 111, 98, 97][..4] == [102, 111, 111, 98];
    assert [102, 111, 111, 98][..3] == [102, 111, 111] && [102, 111, 111][..2] == [102, 111] && [102, 111][..1] == [102] && [102][..0] == [];
  }

  // ----- numbers and digits

  lemma {:induction false} TwoPlus(a: nat, b: nat)
    ensures Two(a + b) == Two(a) * Two(b)
  {
    if a > 0 {
      TwoPlus(a - 1, b);
    }
  }

  lemma TwoFive(n: nat)
    ensures Two(n + 5) == 32 * Two(n) && Two(n + 8) == 256 * Two(n) && Two(n + 3) == 8 * Two(n)
  {
    var a := Two(n + 1);
    var b, c, d := Two(n + 2), Two(n + 3), Two(n + 4);
    var e, f, g := Two(n + 5), Two(n + 6), Two(n + 7);
    assert Two(n + 8) == 2 * g;
  }

  lemma {:induction false} ValueOfDigits(v: nat, n: nat)
    requires v < Two(5 * n)
    ensures Value5(Digits5(v, n)) == v
  {
    if n > 0 {
      TwoFive(5 * n - 5);
      ValueOfDigits(v / 32, n - 1);
      var s := Digits5(v, n);
      assert s[..n - 1] == Digits5(v / 32, n - 1);
    }
  }

  lemma {:induction false} Value8Bound(key: seq<byte>)
    ensures Value8(key) < Two(8 * |key|)
  {
    if key != [] {
      Value8Bound(key[..|key| - 1]);
      TwoFive(8 * |key| - 8);
    }
  }

  /** Bytes are determined by their number and their count. */
  lemma {:induction false} SameBytes(a: seq<byte>, b: seq<byte>)
    requires |a| == |b| && Value8(a) == Value8(b)
    ensures a == b
  {
    if a != [] {
      var last := |a| - 1;
      SameBytes(a[..last], b[..last]);
      assert a == a[..last] + [a[last]] && b == b[..last] + [b[last]];
    }
  }

  lemma DivTwo(v: nat, n: nat)
    requires n < 8
    ensures v * Two(n) / Two(n) == v
  {
    SmallPowers(n);
    if n < 4 {
      assert Two(n) == if n == 0 then 1 else if n == 1 then 2 else if n == 2 then 4 else 8;
    } else {
      assert Two(n) == if n == 4 then 16 else if n == 5 then 32 else if n == 6 then 64 else 128;
    }
  }

  /** Decoding inverts encoding, for every key. */
  lemma DecodeInvertsEncode(key: seq<byte>, decoded: seq<byte>)
    requires Decodes(Encode(key), decoded)
    ensures decoded == key
  {
    hide Two, Value5, Value8, DigitsOf, Encode, Groups, Fill;
    EncodedValue(key);
    GroupsFit(|key|);
    DivTwo(Value8(key), Fill(|key|));
    SameBytes(decoded, key);
  }

  lemma GroupsFit(m: nat)
    ensures Fill(m) < 5 && 5 * Groups(m) == 8 * m + Fill(m) && 5 * Groups(m) / 8 == m && 5 * Groups(m) % 8 == Fill(m)
  {
  }

  lemma EncodedValue(key: seq<byte>)
    ensures Value5(DigitsOf(Encode(key))) == Padded(key)
  {
    hide Two, Value5, Value8, Digits5, Letters, Spelled, DigitsOf, Groups, Fill, Padded;
    FilledBound(key);
    ValueOfDigits(Padded(key), Groups(|key|));
  }

  lemma FilledBound(key: seq<byte>)
    ensures Padded(key) < Two(5 * Groups(|key|))
  {
    hide Two, Value8, Groups;
    Value8Bound(key);
    TwoPlus(8 * |key|, Fill(|key|));
    Scale(Value8(key), Two(8 * |key|), Two(Fill(|key|)));
  }

  lemma Scale(a: nat, b: nat, p: nat)
    requires a < b && p > 0
    ensures a * p < b * p
  {
  }

  /** There is one way to decode a secret. */
  lemma DecodesOneWay(secret: seq<byte>, a: seq<byte>, b: seq<byte>)
    requires Decodes(secret, a) && Decodes(secret, b)
    ensures a == b
  {
    if Letters(secret) {
      SameBytes(a, b);
    }
  }

  // ----- the loop

  /** One more group of bits, when no byte is complete. */
  lemma GroupIn(v: nat, d: nat, left: nat)
    requires d < 32 && left + 5 < 8
    ensures (v * 32 + d) / Two(left + 5) == v / Two(left)
  {
    TwoFive(left);
    SmallPowers(left);
  }

  /** One more group of bits, and a byte is complete. */
  lemma ByteOut(v: nat, d: nat, left: nat)
    requires d < 32 && 3 <= left < 8
    ensures var w := (v * 32 + d) / Two(left - 3); w / 256 == v / Two(left) && w == (v / Two(left)) * 256 + w % 256
  {
    SmallPowers(left);
  }

  lemma SmallPowers(left: nat)
    requires left < 8
    ensures Two(0) == 1 && Two(1) == 2 && Two(2) == 4 && Two(3) == 8 && Two(4) == 16 && Two(5) == 32 && Two(6) == 64 && Two(7) == 128
  {
  }

  /** The byte that the buffer gives is not touched by what was shifted out of it. */
  lemma BufferByte(v: nat, left: nat)
    requires left < 8
    ensures (v % WORD) / Two(left) % 256 == v / Two(left) % 256
  {
    SmallPowers(left);
    var q, r := v / WORD, v % WORD;
    if left == 0 {
      ModAdd(q * 0x1000000, r / 1);
    } else if left == 1 {
      assert v / 2 == q * 0x80000000 + r / 2;
      ModAdd(q * 0x800000, r / 2);
    } else if left == 2 {
      assert v / 4 == q * 0x40000000 + r / 4;
      ModAdd(q * 0x400000, r / 4);
    } else if left == 3 {
      assert v / 8 == q * 0x20000000 + r / 8;
      ModAdd(q * 0x200000, r / 8);
    } else if left == 4 {
      assert v / 16 == q * 0x10000000 + r / 16;
      ModAdd(q * 0x100000, r / 16);
    } else if left == 5 {
      assert v / 32 == q * 0x8000000 + r / 32;
      ModAdd(q * 0x80000, r / 32);
    } else if left == 6 {
      assert v / 64 == q * 0x4000000 + r / 64;
      ModAdd(q * 0x40000, r / 64);
    } else {
      assert v / 128 == q * 0x2000000 + r / 128;
      ModAdd(q * 0x20000, r / 128);
    }
  }

  lemma ModAdd(a: nat, x: nat)
    ensures (256 * a + x) % 256 == x % 256
  {
  }

  lemma ModWord(a: nat, x: nat)
    requires x < WORD
    ensures (a * WORD + x) % WORD == x
  {
  }

  lemma BufferStep(v: nat, d: nat)
    requires d < 32
    ensures v % WORD * 32 % WORD + d == (v * 32 + d) % WORD
  {
    var q, z := v / WORD, v % WORD;
    var c, y := z / 0x800_0000, 32 * (z % 0x800_0000);
    assert z * 32 == c * WORD + y && y + d < WORD;
    ModWord(c, y);
    ModWord(q * 32 + c, y + d);
    assert v * 32 + d == (q * 32 + c) * WORD + (y + d);
  }

  /** The last byte of the buffer above the bits that are left over. */
  function ByteAt(buffer: nat, left: nat): (b: byte)
  {
    buffer / Two(left) % 256
  }

  /** The bytes so far are the bits so far, and the buffer holds the last of them. */
  ghost predicate Holds(key: seq<byte>, v: nat, buffer: nat, left: nat) {
    left < 8 && Value8(key) == v / Two(left) && buffer == v % WORD
  }

  lemma HoldsMore(key: seq<byte>, v: nat, buffer: nat, left: nat, d: nat)
    requires Holds(key, v, buffer, left) && d < 32
    ensures var w, now := v * 32 + d, buffer * 32 % WORD + d;
      if left + 5 >= 8 then Holds(key + [ByteAt(now, left - 3)], w, now, left - 3) else Holds(key, w, now, left + 5)
  {
    hide Two;
    var w := v * 32 + d;
    BufferStep(v, d);
    if left + 5 >= 8 {
      ByteOut(v, d, left);
      BufferByte(w, left - 3);
      var b := ByteAt(w % WORD, left - 3);
      assert (key + [b])[..|key|] == key;
    } else {
      GroupIn(v, d, left);
    }
  }

  /** The bytes and the left bits of `k` groups. */
  predicate Counted(k: nat, n: nat, left: nat) {
    left == 5 * k % 8 && n == 5 * k / 8
  }

  lemma Counts(k: nat, n: nat, left: nat)
    requires Counted(k, n, left)
    ensures left < 8 && if left + 5 >= 8 then Counted(k + 1, n + 1, left - 3) else Counted(k + 1, n, left + 5)
  {
    if left + 5 >= 8 {
      Eighths(5 * (k + 1), n + 1, left - 3);
    } else {
      Eighths(5 * (k + 1), n, left + 5);
    }
  }

  lemma Eighths(a: nat, q: nat, r: nat)
    requires a == 8 * q + r && r < 8
    ensures a / 8 == q && a % 8 == r
  {
  }

  lemma NextDigit(secret: seq<byte>, k: nat)
    requires k < |secret| && Letters(secret[..k]) && Letter(secret[k])
    ensures Letters(secret[..k + 1])
    ensures Value5(DigitsOf(secret[..k + 1])) == Value5(DigitsOf(secret[..k])) * 32 + DigitOf(secret[k])
  {
    assert DigitsOf(secret[..k + 1])[..k] == DigitsOf(secret[..k]);
  }

  /** `decodeSecret` */
  method DecodeSecret(secret: seq<byte>) returns (key: seq<byte>)
    ensures Decodes(secret, key)
  {
    hide Two, Holds, ByteAt, DigitsOf, Value5, Value8, DigitOf, Letter, Counted;
    key := [];
    var buffer: nat, left: nat := 0, 0;
    ghost var v: nat := 0;
    Nothing();
    for k := 0 to |secret|
      invariant Letters(secret[..k]) && v == Value5(DigitsOf(secret[..k]))
      invariant Counted(k, |key|, left) && left < 8 && Holds(key, v, buffer, left)
    {
      var ch := secret[k];
      ghost var was := buffer;
      buffer := buffer * 32 % WORD;
      if !Letter(ch) {
        return [];
      }
      buffer := buffer + DigitOf(ch);
      NextDigit(secret, k);
      HoldsMore(key, v, was, left, DigitOf(ch));
      Counts(k, |key|, left);
      left := left + 5;
      if left >= 8 {
        left := left - 8;
        key := key + [ByteAt(buffer, left)];
      }
      v := v * 32 + DigitOf(ch);
    }
    assert secret[..|secret|] == secret;
    AllRead(secret, key, buffer, left);
  }

  lemma Nothing()
    ensures Counted(0, 0, 0) && Holds([], 0, 0, 0) && DigitsOf([]) == [] && Value5([]) == 0
  {
    SmallPowers(0);
  }

  lemma AllRead(secret: seq<byte>, key: seq<byte>, buffer: nat, left: nat)
    requires Letters(secret) && Counted(|secret|, |key|, left) && Holds(key, Value5(DigitsOf(secret)), buffer, left)
    ensures Decodes(secret, key)
  {
    hide Two, Value5, Value8, DigitsOf;
  }
}
