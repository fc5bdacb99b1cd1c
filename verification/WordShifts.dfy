/** How the firmware's C code loads and stores a little-endian word: by shifts on 32-bit words, which is the layout of
    Words. */
module WordShifts {
  import opened Words

  function Joined(a: bv8, b: bv8, c: bv8, d: bv8): bv32 {
    a as bv32 | (b as bv32 << 8) | (c as bv32 << 16) | (d as bv32 << 24)
  }

  /** An assignment to a byte keeps the low eight bits. */
  function Low(v: bv32): bv8 {
    (v & 0xff) as bv8
  }

  function Split(v: bv32): (s: seq<bv8>)
    ensures |s| == 4
  {
    [Low(v), Low(v >> 8), Low(v >> 16), Low(v >> 24)]
  }

  lemma JoinedIs(a: bv8, b: bv8, c: bv8, d: bv8)
    ensures (a as bv32 | (b as bv32 << 8) | (c as bv32 << 16) | (d as bv32 << 24)) as int
              == a as int + 256 * (b as int) + 65536 * (c as int) + 16777216 * (d as int)
  {}

  lemma SplitJoined(v: bv32)
    ensures v == Low(v) as bv32 | (Low(v >> 8) as bv32 << 8) | (Low(v >> 16) as bv32 << 16)
                 | (Low(v >> 24) as bv32 << 24)
  {}

  lemma BackAndForth(v: bv32)
    ensures 0 <= v as int < 0x1_0000_0000 && (v as int) as bv32 == v
  {}

  lemma JoinLoads(s: seq<bv8>, offset: nat)
    requires offset + 4 <= |s|
    ensures Joined(s[offset], s[offset + 1], s[offset + 2], s[offset + 3]) as int == LoadU32(s, offset)
  {
    JoinedIs(s[offset], s[offset + 1], s[offset + 2], s[offset + 3]);
  }

  lemma StoresBack(s: seq<bv8>, w: u32)
    requires |s| == 4 && w == LoadU32(s, 0)
    ensures s == StoreU32(w)
  {
    StoreLoad(s, 0);
  }

  lemma Number(v: bv32, a: bv8, b: bv8, c: bv8, d: bv8)
    requires v == a as bv32 | (b as bv32 << 8) | (c as bv32 << 16) | (d as bv32 << 24)
    ensures FromByte(a) + 256 * FromByte(b) + 65536 * FromByte(c) + 16777216 * FromByte(d) == v as int
  {
    JoinedIs(a, b, c, d);
  }

  lemma Loaded(a: bv8, b: bv8, c: bv8, d: bv8, n: int)
    requires FromByte(a) + 256 * FromByte(b) + 65536 * FromByte(c) + 16777216 * FromByte(d) == n
    ensures LoadU32([a, b, c, d], 0) == n
  {}

  lemma SplitLoads(v: bv32)
    ensures LoadU32(Split(v), 0) == v as int
  {
    var a, b, c, d := Low(v), Low(v >> 8), Low(v >> 16), Low(v >> 24);
    SplitJoined(v);
    Number(v, a, b, c, d);
    Loaded(a, b, c, d, v as int);
  }

  lemma WordReturns(w: u32)
    ensures (w as bv32) as int == w
  {
    var s := StoreU32(w);
    LoadStore([], w, []);
    assert [] + s + [] == s;
    JoinLoads(s, 0);
    BackAndForth(Joined(s[0], s[1], s[2], s[3]));
  }

  lemma SplitStores(w: u32)
    ensures Split(w as bv32) == StoreU32(w)
  {
    WordReturns(w);
    SplitLoads(w as bv32);
    StoresBack(Split(w as bv32), w);
  }

  /** load_u32 gives the little-endian value of the four bytes. */
  function LoadWord(s: seq<bv8>, offset: nat): (w: u32)
    requires offset + 4 <= |s|
    ensures w == LoadU32(s, offset)
  {
    JoinLoads(s, offset);
    Joined(s[offset], s[offset + 1], s[offset + 2], s[offset + 3]) as int
  }

  /** store_u32 writes the little-endian bytes of the word. */
  function StoreWord(w: u32): (s: seq<bv8>)
    ensures s == StoreU32(w)
  {
    SplitStores(w);
    Split(w as bv32)
  }
}
