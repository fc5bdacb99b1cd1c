/** Machine words, bytes and the little-endian layout that every MailMsg structure uses. */
module Words {

  const U32: nat := 0x1_0000_0000

  type u32 = x: int | 0 <= x < 0x1_0000_0000
  type i32 = x: int | -0x8000_0000 <= x < 0x8000_0000

  /** Conversion from a 32-bit signed value to its unsigned image, in two's complement, and back. */
  function ToUnsigned(x: i32): (w: u32)
    ensures (w - x) % 0x1_0000_0000 == 0
  {
    if x < 0 then x + 0x1_0000_0000 else x
  }

  function ToSigned(w: u32): (x: i32)
    ensures ToUnsigned(x) == w
  {
    if w < 0x8000_0000 then w else w - 0x1_0000_0000
  }

  // ----- Little-endian layout, for any kind of byte -----

  function StoreWith<T>(toByte: int -> T, w: u32): (s: seq<T>)
    ensures |s| == 4
  {
    [toByte(w % 256), toByte(w / 256 % 256), toByte(w / 65536 % 256), toByte(w / 16777216)]
  }

  function LoadWith<T>(fromByte: T -> int, s: seq<T>, offset: nat): int
    requires offset + 4 <= |s|
  {
    fromByte(s[offset]) + 256 * fromByte(s[offset + 1])
    + 65536 * fromByte(s[offset + 2]) + 16777216 * fromByte(s[offset + 3])
  }

  ghost predicate NumbersReturn<T>(toByte: int -> T, fromByte: T -> int) {
    forall x :: 0 <= x < 256 ==> fromByte(toByte(x)) == x
  }

  ghost predicate BytesReturn<T(!new)>(toByte: int -> T, fromByte: T -> int) {
    forall b :: 0 <= fromByte(b) < 256 && toByte(fromByte(b)) == b
  }

  lemma WordFromDigits(w: u32)
    ensures w == w % 256 + 256 * (w / 256 % 256) + 65536 * (w / 65536 % 256) + 16777216 * (w / 16777216)
  {
    assert w / 65536 == w / 256 / 256 && w / 16777216 == w / 65536 / 256;
  }

  lemma DigitsOf(a: int, b: int, c: int, d: int, w: int)
    requires 0 <= a < 256 && 0 <= b < 256 && 0 <= c < 256 && 0 <= d < 256
    requires w == a + 256 * b + 65536 * c + 16777216 * d
    ensures w % 256 == a && w / 256 % 256 == b && w / 65536 % 256 == c && w / 16777216 == d
    ensures 0 <= w < 0x1_0000_0000
  {
    assert w / 256 == b + 256 * c + 65536 * d;
    assert w / 65536 == c + 256 * d;
  }

  lemma LoadStoreWith<T>(toByte: int -> T, fromByte: T -> int, pre: seq<T>, w: u32, post: seq<T>)
    requires NumbersReturn(toByte, fromByte)
    ensures LoadWith(fromByte, pre + StoreWith(toByte, w) + post, |pre|) == w
  {
    var s, t := pre + StoreWith(toByte, w) + post, StoreWith(toByte, w);
    assert s[|pre|] == t[0] && s[|pre| + 1] == t[1] && s[|pre| + 2] == t[2] && s[|pre| + 3] == t[3];
    WordFromDigits(w);
  }

  lemma StoreLoadWith<T(!new)>(toByte: int -> T, fromByte: T -> int, s: seq<T>, offset: nat, w: u32)
    requires BytesReturn(toByte, fromByte) && offset + 4 <= |s| && w == LoadWith(fromByte, s, offset)
    ensures StoreWith(toByte, w) == s[offset..offset + 4]
  {
    DigitsOf(fromByte(s[offset]), fromByte(s[offset + 1]), fromByte(s[offset + 2]), fromByte(s[offset + 3]), w);
  }

  // ----- Bytes -----

  function ToByte(x: int): bv8 {
    if 0 <= x < 256 then x as bv8 else 0
  }

  function FromByte(b: bv8): int {
    b as int
  }

  lemma NumberRoundTrip(b: bv8)
    ensures 0 <= FromByte(b) < 256 && ToByte(FromByte(b)) == b
  {}

  lemma NextByte(b: bv8)
    requires FromByte(b) < 255
    ensures FromByte(b + 1) == FromByte(b) + 1
  {}

  lemma {:induction false} SomeByte(x: nat) returns (b: bv8)
    requires x < 256
    ensures FromByte(b) == x
  {
    if x == 0 { b := 0; }
    else {
      var c := SomeByte(x - 1);
      NextByte(c);
      b := c + 1;
    }
  }

  lemma ByteRoundTrip(x: nat)
    requires x < 256
    ensures FromByte(ToByte(x)) == x
  {
    var b := SomeByte(x);
    NumberRoundTrip(b);
  }

  lemma ByteLaws()
    ensures NumbersReturn(ToByte, FromByte) && BytesReturn(ToByte, FromByte)
  {
    forall x | 0 <= x < 256 ensures FromByte(ToByte(x)) == x { ByteRoundTrip(x); }
    forall b ensures 0 <= FromByte(b) < 256 && ToByte(FromByte(b)) == b { NumberRoundTrip(b); }
  }

  /** The four bytes that a little-endian machine stores for `w`. */
  function StoreU32(w: u32): (s: seq<bv8>)
    ensures |s| == 4
  {
    StoreWith(ToByte, w)
  }

  /** The word held by the four bytes of `s` that start at `offset`. */
  function LoadU32(s: seq<bv8>, offset: nat): (w: u32)
    requires offset + 4 <= |s|
  {
    ByteLaws();
    WordFits(FromByte, s, offset);
    LoadWith(FromByte, s, offset)
  }

  lemma WordFits<T(!new)>(fromByte: T -> int, s: seq<T>, offset: nat)
    requires offset + 4 <= |s| && forall b :: 0 <= fromByte(b) < 256
    ensures 0 <= LoadWith(fromByte, s, offset) < 0x1_0000_0000
  {}

  /** Loading what was stored gives the word back, wherever the word sits. */
  lemma LoadStore(pre: seq<bv8>, w: u32, post: seq<bv8>)
    ensures LoadU32(pre + StoreU32(w) + post, |pre|) == w
  {
    ByteLaws();
    LoadStoreWith(ToByte, FromByte, pre, w, post);
  }

  /** Storing what was loaded rewrites the same four bytes. */
  lemma StoreLoad(s: seq<bv8>, offset: nat)
    requires offset + 4 <= |s|
    ensures StoreU32(LoadU32(s, offset)) == s[offset..offset + 4]
  {
    ByteLaws();
    StoreLoadWith(ToByte, FromByte, s, offset, LoadU32(s, offset));
  }

  lemma StoreInjective(v: u32, w: u32)
    requires StoreU32(v) == StoreU32(w)
    ensures v == w
  {
    LoadStore([], v, []);
    LoadStore([], w, []);
  }
}
