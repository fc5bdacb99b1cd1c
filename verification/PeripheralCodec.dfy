/** The peripheral remote-call records, as Python packs and unpacks them (mailmsg_agent.py) and as C loads and stores
    them (rk3588_peripheral_service.c), and the 48-byte user record that carries them. */
module PeripheralCodec {
  import opened Words
  import opened Protocol
  import WordShifts

  /** Eight inline bytes. */
  type Inline = s: seq<bv8> | |s| == 8 witness seq(8, _ => 0)

  function Zeros(n: nat): seq<bv8> {
    seq(n, _ => 0)
  }

  /** Data of at most eight bytes, filled up with zeros. */
  function Padded(data: seq<bv8>): Inline
    requires |data| <= 8
  {
    data + Zeros(8 - |data|)
  }

  /** Five little-endian words and eight bytes: the layout of requests and results alike. */
  datatype Record = Record(word0: u32, word1: u32, word2: u32, word3: u32, word4: u32, data: Inline)

  /** Python's struct.pack. */
  function Pack(r: Record): (s: seq<bv8>)
    ensures |s| == 28
  {
    StoreU32(r.word0) + StoreU32(r.word1) + StoreU32(r.word2) + StoreU32(r.word3) + StoreU32(r.word4) + r.data
  }

  /** Python's struct.unpack. */
  function Load(s: seq<bv8>): Record
    requires |s| == 28
  {
    Record(LoadU32(s, 0), LoadU32(s, 4), LoadU32(s, 8), LoadU32(s, 12), LoadU32(s, 16), s[20..])
  }

  /** C's loads and stores at fixed offsets, word by word, by shifts. */
  function LoadInC(s: seq<bv8>): (r: Record)
    requires |s| == 28
    ensures r == Load(s)
  {
    Record(WordShifts.LoadWord(s, 0), WordShifts.LoadWord(s, 4), WordShifts.LoadWord(s, 8), WordShifts.LoadWord(s, 12),
           WordShifts.LoadWord(s, 16), s[20..])
  }

  function StoreInC(r: Record): (s: seq<bv8>)
    ensures s == Pack(r)
  {
    WordShifts.StoreWord(r.word0) + WordShifts.StoreWord(r.word1) + WordShifts.StoreWord(r.word2)
    + WordShifts.StoreWord(r.word3) + WordShifts.StoreWord(r.word4) + r.data
  }

  lemma LoadWordAt(s: seq<bv8>, offset: nat, w: u32)
    requires offset + 4 <= |s| && s[offset..offset + 4] == StoreU32(w)
    ensures LoadU32(s, offset) == w
  {
    assert s == s[..offset] + StoreU32(w) + s[offset + 4..];
    LoadStore(s[..offset], w, s[offset + 4..]);
  }

  lemma Blocks(a: seq<bv8>, b: seq<bv8>, c: seq<bv8>, d: seq<bv8>, e: seq<bv8>, t: seq<bv8>, s: seq<bv8>)
    requires |a| == |b| == |c| == |d| == |e| == 4 && s == a + b + c + d + e + t
    ensures s[0..4] == a && s[4..8] == b && s[8..12] == c && s[12..16] == d && s[16..20] == e && s[20..] == t
  {}

  lemma Rejoined(s: seq<bv8>)
    requires |s| >= 20
    ensures s == s[0..4] + s[4..8] + s[8..12] + s[12..16] + s[16..20] + s[20..]
  {}

  lemma LoadPacked(r: Record)
    ensures Load(Pack(r)) == r
  {
    var s := Pack(r);
    Blocks(StoreU32(r.word0), StoreU32(r.word1), StoreU32(r.word2), StoreU32(r.word3), StoreU32(r.word4), r.data, s);
    LoadWordAt(s, 0, r.word0);
    LoadWordAt(s, 4, r.word1);
    LoadWordAt(s, 8, r.word2);
    LoadWordAt(s, 12, r.word3);
    LoadWordAt(s, 16, r.word4);
  }

  lemma PackLoaded(s: seq<bv8>)
    requires |s| == 28
    ensures Pack(Load(s)) == s
  {
    var r := Load(s);
    StoredAt(s, 0, r.word0);
    StoredAt(s, 4, r.word1);
    StoredAt(s, 8, r.word2);
    StoredAt(s, 12, r.word3);
    StoredAt(s, 16, r.word4);
    PacksTo(r, s);
  }

  lemma StoredAt(s: seq<bv8>, offset: nat, w: u32)
    requires offset + 4 <= |s| && w == LoadU32(s, offset)
    ensures StoreU32(w) == s[offset..offset + 4]
  {
    StoreLoad(s, offset);
  }

  lemma PacksTo(r: Record, s: seq<bv8>)
    requires |s| == 28 && StoreU32(r.word0) == s[0..4] && StoreU32(r.word1) == s[4..8] && StoreU32(r.word2) == s[8..12]
    requires StoreU32(r.word3) == s[12..16] && StoreU32(r.word4) == s[16..20] && r.data == s[20..]
    ensures Pack(r) == s
  {
    Rejoined(s);
  }

  // ----- Requests -----

  datatype Command = Command(op: u32, arg0: u32, arg1: u32, arg2: u32, data: seq<bv8>)

  /** pack_peripheral_frame refuses more than eight bytes of data. */
  function PackCommand(c: Command): Option<seq<bv8>> {
    if |c.data| > 8 then None else Some(Pack(Record(c.op, c.arg0, c.arg1, c.arg2, |c.data|, Padded(c.data))))
  }

  /** What the service makes of a payload whose length word it accepts. */
  function LoadCommand(s: seq<bv8>): Option<Command>
    requires |s| == 28
  {
    var r := LoadInC(s);
    if r.word4 > 8 then None else Some(Command(r.word0, r.word1, r.word2, r.word3, r.data[..r.word4]))
  }

  /** The service reads back every command that the agent can pack. */
  lemma CommandRoundTrip(c: Command)
    requires |c.data| <= 8
    ensures PackCommand(c).Some? && |PackCommand(c).value| == 28 && LoadCommand(PackCommand(c).value) == Some(c)
  {
    var r := Record(c.op, c.arg0, c.arg1, c.arg2, |c.data|, Padded(c.data));
    LoadPacked(r);
    assert Padded(c.data)[..|c.data|] == c.data;
  }

  /** The bytes behind the data are zero. */
  predicate Canonical(s: seq<bv8>)
    requires |s| == 28
  {
    var r := Load(s);
    r.word4 <= 8 ==> r.data[r.word4..] == Zeros(8 - r.word4)
  }

  lemma PaddedBack(data: Inline, n: nat)
    requires n <= 8
    ensures Padded(data[..n]) == data <==> data[n..] == Zeros(8 - n)
  {
    assert Padded(data[..n])[n..] == Zeros(8 - n);
    if data[n..] == Zeros(8 - n) { assert data == data[..n] + data[n..]; }
  }

  lemma Repacked(r: Record, q: Record)
    requires r.word4 <= 8 && q == r.(data := Padded(r.data[..r.word4]))
    ensures Pack(q) == Pack(r) <==> r.data[r.word4..] == Zeros(8 - r.word4)
  {
    LoadPacked(q);
    LoadPacked(r);
    PaddedBack(r.data, r.word4);
  }

  /** The agent repacks what the service read to the same bytes exactly when the bytes behind the data are zero. */
  lemma PayloadRoundTrip(s: seq<bv8>)
    requires |s| == 28 && LoadCommand(s).Some?
    ensures PackCommand(LoadCommand(s).value) == Some(s) <==> Canonical(s)
  {
    var r := Load(s);
    PackLoaded(s);
    Repacked(r, r.(data := Padded(r.data[..r.word4])));
  }

  // ----- Results -----

  datatype Result = Result(sequence: u32, status: i32, op: u32, value: u32, length: u32, data: Inline)

  /** What C stores: the signed status goes out as its unsigned image. */
  function StoreResult(r: Result): (s: seq<bv8>)
    ensures |s| == 28
  {
    StoreInC(Record(r.sequence, ToUnsigned(r.status), r.op, r.value, r.length, r.data))
  }

  /** What Python unpacks: the status word is reinterpreted as signed. */
  function UnpackResult(s: seq<bv8>): Result
    requires |s| == 28
  {
    var r := Load(s);
    Result(r.word0, ToSigned(r.word1), r.word2, r.word3, r.word4, r.data)
  }

  /** The agent reads back every result, with every signed status, and only the bytes that the service stored for it. */
  lemma ResultRoundTrip(r: Result, s: seq<bv8>)
    requires |s| == 28
    ensures UnpackResult(StoreResult(r)) == r && StoreResult(UnpackResult(s)) == s
  {
    LoadPacked(Record(r.sequence, ToUnsigned(r.status), r.op, r.value, r.length, r.data));
    PackLoaded(s);
  }

  // ----- On the wire -----

  /** Where each field lies, in requests and in results. */
  lemma WireLayout(c: Command, r: Result)
    requires |c.data| <= 8
    ensures var s := PackCommand(c).value;
            && PackCommand(c).Some? && |s| == 28
            && LoadU32(s, 0) == c.op && LoadU32(s, 4) == c.arg0 && LoadU32(s, 8) == c.arg1 && LoadU32(s, 12) == c.arg2
            && LoadU32(s, 16) == |c.data| && s[20..20 + |c.data|] == c.data
            && forall k :: 20 + |c.data| <= k < 28 ==> s[k] == 0
    ensures var s := StoreResult(r);
            && LoadU32(s, 0) == r.sequence && ToSigned(LoadU32(s, 4)) == r.status && LoadU32(s, 8) == r.op
            && LoadU32(s, 12) == r.value && LoadU32(s, 16) == r.length && s[20..] == r.data
  {
    var q := Record(c.op, c.arg0, c.arg1, c.arg2, |c.data|, Padded(c.data));
    LoadPacked(q);
    assert Pack(q)[20..] == Padded(c.data);
    assert Pack(q)[20..20 + |c.data|] == Padded(c.data)[..|c.data|] == c.data;
    forall k | 20 + |c.data| <= k < 28 ensures Pack(q)[k] == 0 { assert Pack(q)[k] == Padded(c.data)[k - 20]; }
    ResultRoundTrip(r, StoreResult(r));
  }

  // ----- The user record -----

  datatype UserFrame = UserFrame(priority: u32, kind: u32, sequence: u32, length: u32, payload: seq<bv8>) {
    predicate Valid() {
      |payload| == 32
    }
  }

  function PackFrame(f: UserFrame): (s: seq<bv8>)
    requires f.Valid()
    ensures |s| == 48
  {
    StoreU32(f.priority) + StoreU32(f.kind) + StoreU32(f.sequence) + StoreU32(f.length) + f.payload
  }

  function LoadFrame(s: seq<bv8>): (f: UserFrame)
    requires |s| == 48
    ensures f.Valid()
  {
    UserFrame(LoadU32(s, 0), LoadU32(s, 4), LoadU32(s, 8), LoadU32(s, 12), s[16..])
  }

  lemma FrameRoundTrip(f: UserFrame)
    requires f.Valid()
    ensures LoadFrame(PackFrame(f)) == f
  {
    var s := PackFrame(f);
    var a, b, c, d := StoreU32(f.priority), StoreU32(f.kind), StoreU32(f.sequence), StoreU32(f.length);
    Blocks(a, b, c, d, f.payload[..4], f.payload[4..], s);
    LoadWordAt(s, 0, f.priority);
    LoadWordAt(s, 4, f.kind);
    LoadWordAt(s, 8, f.sequence);
    LoadWordAt(s, 12, f.length);
    assert s[16..] == f.payload;
  }
}
