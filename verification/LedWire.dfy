/** The fixed-width wire format of the LED holder (led/led_service.c): sixteen words in network
    byte order, a value in words 5 to 14, a patch's field mask in word 4. */
module LedWire {
  import opened Base
  import opened Led

  const MAGIC: u32 := 0x55474c44
  const VERSION: u32 := 1
  const INFO := 1
  const READ := 2
  const APPLY := 3
  const BEGIN_IDENTIFY := 4
  const END_IDENTIFY := 5
  const WORDS := 16
  const REQUEST_SIZE := 64
  const CONFIRMATION: u32 := 3

  type Words = w: seq<u32> | |w| == WORDS witness seq(16, _ => 0)

  /** `htonl`, as the four bytes put on the wire. */
  function WordBytes(w: u32): (b: seq<byte>)
    ensures |b| == 4
  {
    [w / 0x1000000, w / 0x10000 % 256, w / 0x100 % 256, w % 256]
  }

  /** `ntohl`. */
  function BytesWord(b: seq<byte>): u32
    requires |b| == 4
  {
    (((b[0] as int * 256 + b[1]) * 256 + b[2]) * 256) + b[3]
  }

  lemma WordRoundTrip(w: u32)
    ensures BytesWord(WordBytes(w)) == w
  {
    var q1, q2 := w / 0x100, w / 0x10000;
    assert q2 == q1 / 256 && w / 0x1000000 == q2 / 256;
  }

  function FrameBytes(words: seq<u32>): (b: seq<byte>)
    ensures |b| == 4 * |words|
  {
    if words == [] then [] else WordBytes(words[0]) + FrameBytes(words[1..])
  }

  function FrameWords(b: seq<byte>): (words: seq<u32>)
    requires |b| % 4 == 0
    ensures |b| == 4 * |words|
  {
    if b == [] then [] else [BytesWord(b[..4])] + FrameWords(b[4..])
  }

  /** What is sent is what is received. */
  lemma {:induction false} FrameRoundTrip(words: seq<u32>)
    ensures FrameWords(FrameBytes(words)) == words
  {
    if words != [] {
      var b := FrameBytes(words);
      assert b[..4] == WordBytes(words[0]) && b[4..] == FrameBytes(words[1..]);
      WordRoundTrip(words[0]);
      FrameRoundTrip(words[1..]);
    }
  }

  function Bit(b: bool, weight: nat): nat { if b then weight else 0 }

  /** Bits, lowest first, below a number. */
  function PackBits(bits: seq<bool>, extra: nat): (w: nat)
    ensures extra == 0 ==> (|bits| == 0 ==> w == 0) && (|bits| <= 1 ==> w < 2) && (|bits| <= 2 ==> w < 4) &&
                           (|bits| <= 3 ==> w < 8) && (|bits| <= 4 ==> w < 16) && (|bits| <= 5 ==> w < 32)
  {
    if bits == [] then extra else Bit(bits[0], 1) + 2 * PackBits(bits[1..], extra)
  }

  /** The flags of the mask, mode being 1, RGB 2, brightness 4, timing 8 and colour 16. */
  function Flags(f: Fields): seq<bool> { [f.mode, f.rgb, f.brightness, f.timing, f.color] }

  function FieldsWord(f: Fields): nat { PackBits(Flags(f), f.extra) }

  /** The bits of a word from bit k on. */
  function Above(w: nat, k: nat): nat { if k == 0 then w else Above(w / 2, k - 1) }

  function BitAt(w: nat, k: nat): bool { Above(w, k) % 2 == 1 }

  function WordFields(w: nat): Fields {
    Fields(BitAt(w, 0), BitAt(w, 1), BitAt(w, 2), BitAt(w, 3), BitAt(w, 4), Above(w, 5))
  }

  lemma AboveDivides(m: nat)
    ensures Above(m, 0) == m && Above(m, 1) == m / 2 && Above(m, 2) == m / 4 && Above(m, 3) == m / 8
    ensures Above(m, 4) == m / 16 && Above(m, 5) == m / 32
  {
    var q1, q2, q3, q4 := m / 2, m / 4, m / 8, m / 16;
    assert Above(m, 1) == Above(q1, 0) == q1;
    assert Above(m, 2) == Above(q1, 1) == Above(q1 / 2, 0) == q2;
    assert Above(m, 3) == Above(q1, 2) == Above(q1 / 2, 1) == Above(q2, 1) == Above(q2 / 2, 0) == q3;
    assert Above(m, 4) == Above(q1, 3) == Above(q2, 2) == Above(q3, 1) == Above(q3 / 2, 0) == q4;
    assert Above(m, 5) == Above(q1, 4) == Above(q2, 3) == Above(q3, 2) == Above(q4, 1) == Above(q4 / 2, 0) == m / 32;
  }

  /** The bits of the mask: mode is the lowest, then RGB, brightness, timing and colour. */
  lemma MaskOfWord(m: nat)
    ensures var f := WordFields(m);
      && (f.mode <==> m % 2 == 1) && (f.rgb <==> m / 2 % 2 == 1) && (f.brightness <==> m / 4 % 2 == 1)
      && (f.timing <==> m / 8 % 2 == 1) && (f.color <==> m / 16 % 2 == 1) && f.extra == m / 32
      && (f == NO_FIELDS <==> m == 0) && (!f.color && f.extra == 0 <==> m < 16)
  {
    AboveDivides(m);
  }

  lemma {:induction false} PackedBits(bits: seq<bool>, extra: nat, k: nat)
    requires k <= |bits|
    ensures if k == |bits| then Above(PackBits(bits, extra), k) == extra else BitAt(PackBits(bits, extra), k) == bits[k]
  {
    if bits != [] {
      var rest := PackBits(bits[1..], extra);
      assert PackBits(bits, extra) / 2 == rest && PackBits(bits, extra) % 2 == Bit(bits[0], 1);
      if k > 0 { PackedBits(bits[1..], extra, k - 1); }
    }
  }

  lemma FieldsRoundTrip(f: Fields)
    ensures WordFields(FieldsWord(f)) == f
  {
    var bits := Flags(f);
    PackedBits(bits, f.extra, 0);
    PackedBits(bits, f.extra, 1);
    PackedBits(bits, f.extra, 2);
    PackedBits(bits, f.extra, 3);
    PackedBits(bits, f.extra, 4);
    PackedBits(bits, f.extra, 5);
  }

  /** `encode_value`. */
  function EncodeValue(w: Words, v: Value): Words {
    w[..5] + [v.mode, v.brightness, v.red, v.green, v.blue, v.onMs, v.offMs, v.color, v.unknown, v.cached] + w[15..]
  }

  /** `decode_value`. */
  function DecodeValue(w: Words): Value {
    Value(w[5], w[6], w[7], w[8], w[9], w[10], w[11], w[12], w[13], w[14])
  }

  /** A response's value survives the trip. */
  lemma ValueRoundTrip(w: Words, v: Value)
    ensures DecodeValue(FrameWords(FrameBytes(EncodeValue(w, v)))) == v
  {
    FrameRoundTrip(EncodeValue(w, v));
  }

  /** The request `ugreenctl_led_service_apply` sends for a validated patch. */
  function ApplyRequest(id: byte, p: Patch): Words
    requires ValidPatch(p)
  {
    var v := p.value;
    [MAGIC, VERSION, APPLY, id, FieldsWord(p.fields),
     v.mode, v.brightness, v.red, v.green, v.blue, v.onMs, v.offMs, v.color, CONFIRMATION, 0, 0]
  }

  /** The patch the server reads out of an APPLY request. */
  function RequestPatch(w: Words): Patch {
    Patch(WordFields(w[4]), DecodeValue(w).(unknown := 0, cached := 0))
  }

  /** The server decodes the client's patch, except that the two bookkeeping masks are zero. */
  lemma PatchRoundTrip(id: byte, p: Patch)
    requires ValidPatch(p)
    ensures var got := FrameWords(FrameBytes(ApplyRequest(id, p)));
      && |got| == WORDS && got[2] == APPLY && got[3] == id && got[13] == CONFIRMATION
      && RequestPatch(got) == p.(value := p.value.(unknown := 0, cached := 0))
      && ValidPatch(RequestPatch(got))
  {
    var w := ApplyRequest(id, p);
    FrameRoundTrip(w);
    FieldsRoundTrip(p.fields);
    assert WordFields(w[4]) == p.fields;
  }

  /** The layout of an APPLY request: sixteen words in network byte order. */
  lemma KnownRequest(id: byte, p: Patch)
    requires ValidPatch(p)
    ensures var w, f, v := ApplyRequest(id, p), p.fields, p.value;
      && w[0] == 0x55474c44 && w[1] == 1 && w[2] == 3 && w[3] == id && w[13] == 3 && w[14] == w[15] == 0
      && w[4] == Bit(f.mode, 1) + Bit(f.rgb, 2) + Bit(f.brightness, 4) + Bit(f.timing, 8) + Bit(f.color, 16)
      && w[5] == v.mode && w[6] == v.brightness && w[7] == v.red && w[8] == v.green && w[9] == v.blue
      && w[10] == v.onMs && w[11] == v.offMs && w[12] == v.color
  {
    MaskWord(p.fields);
  }

  /** Words go out highest byte first. */
  lemma KnownBytes()
    ensures WordBytes(0x55474c44) == [0x55, 0x47, 0x4c, 0x44] && WordBytes(3) == [0, 0, 0, 3]
  {
  }

  lemma MaskWord(f: Fields)
    requires f.extra == 0
    ensures FieldsWord(f) == Bit(f.mode, 1) + Bit(f.rgb, 2) + Bit(f.brightness, 4) + Bit(f.timing, 8) + Bit(f.color, 16)
  {
    FieldsRoundTrip(f);
    MaskOfWord(FieldsWord(f));
    FiveDigits(FieldsWord(f));
  }

  lemma FiveDigits(m: nat)
    requires m < 32
    ensures m == m % 2 + 2 * (m / 2 % 2) + 4 * (m / 4 % 2) + 8 * (m / 8 % 2) + 16 * (m / 16 % 2)
  {
  }

  /** A result word as a signed 32-bit integer. */
  function Signed(w: u32): int { if w < 0x8000_0000 then w else w - 0x1_0000_0000 }

  /** The words of the server's response: 0 or a negative error code, whether the hardware is confirmed,
      and the value of a successful request. */
  function ResponseWords(code: int, confirmed: bool, v: Value): Words
    requires -0x8000_0000 <= code <= 0
  {
    var head: Words := [MAGIC, VERSION, code % 0x1_0000_0000, if confirmed then 1 else 0] + seq(12, _ => 0);
    if code == 0 then EncodeValue(head, v) else head
  }

  /** The client reads off the wire exactly the result, the confirmation and the value sent. */
  lemma ResponseRoundTrip(code: int, confirmed: bool, v: Value)
    requires -0x8000_0000 <= code <= 0
    ensures var got := FrameWords(FrameBytes(ResponseWords(code, confirmed, v)));
      && |got| == WORDS && got[0] == MAGIC && got[1] == VERSION
      && Signed(got[2]) == code && (got[3] == 1 <==> confirmed) && (code == 0 ==> DecodeValue(got) == v)
  {
    FrameRoundTrip(ResponseWords(code, confirmed, v));
  }
}
