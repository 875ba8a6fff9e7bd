/** Checksummed frames of the LED microcontroller (led/led_protocol.c). */
module LedFrame {
  import opened Base
  import opened Led

  type u16 = w: int | 0 <= w < 0x1_0000

  /** What the microcontroller keeps for one LED. */
  datatype Lamp = Lamp(mode: byte, brightness: byte, red: byte, green: byte, blue: byte, cycle: u16, on: u16)

  function Sum(data: seq<byte>): nat {
    if data == [] then 0 else Sum(data[..|data| - 1]) + data[|data| - 1]
  }

  /** `checksum`. */
  method Checksum(data: seq<byte>) returns (sum: nat)
    ensures sum == Sum(data)
  {
    sum := 0;
    var i := 0;
    while i < |data|
      invariant 0 <= i <= |data| && sum == Sum(data[..i])
    {
      assert data[..i + 1][..i] == data[..i];
      sum := sum + data[i];
      i := i + 1;
    }
    assert data[..i] == data;
  }

  lemma {:induction false} SumBound(data: seq<byte>)
    ensures Sum(data) <= 255 * |data|
  {
    if data != [] { SumBound(data[..|data| - 1]); }
  }

  function High(w: u16): byte { w / 256 }

  function Low(w: u16): byte { w % 256 }

  function Word(high: byte, low: byte): u16 { high as int * 256 + low }

  lemma WordRoundTrip(w: u16)
    ensures Word(High(w), Low(w)) == w
  {
  }

  function StatusBody(l: Lamp): seq<byte> {
    [l.mode, l.brightness, l.red, l.green, l.blue, High(l.cycle), Low(l.cycle), High(l.on), Low(l.on)]
  }

  /** The status frame of an LED: nine bytes and their sum, high byte first. */
  function StatusFrame(l: Lamp): seq<byte> {
    SumBound(StatusBody(l));
    var sum: u16 := Sum(StatusBody(l));
    StatusBody(l) + [High(sum), Low(sum)]
  }

  /** The value a decodable status stands for. */
  function ValueOf(l: Lamp): Value
    requires l.on <= l.cycle
  {
    ZERO_VALUE.(mode := l.mode, brightness := l.brightness, red := l.red, green := l.green, blue := l.blue,
                onMs := l.on, offMs := l.cycle - l.on)
  }

  predicate Decodable(l: Lamp) { l.mode <= BREATH && l.on <= l.cycle }

  /** `ugreenctl_led_decode`. */
  function Decode(frame: seq<byte>): Option<Value> {
    if |frame| != 11 || Sum(frame[..9]) != Word(frame[9], frame[10]) || frame[0] > BREATH then None
    else
      var cycle, on := Word(frame[5], frame[6]), Word(frame[7], frame[8]);
      if on > cycle then None
      else Some(ZERO_VALUE.(mode := frame[0], brightness := frame[1], red := frame[2], green := frame[3], blue := frame[4],
                            onMs := on, offMs := cycle - on))
  }

  /** The last two bytes of a status frame are the sum of the others. */
  lemma StatusFrameSums(l: Lamp)
    ensures |StatusFrame(l)| == 11 && StatusFrame(l)[..9] == StatusBody(l)
    ensures Sum(StatusFrame(l)[..9]) == Word(StatusFrame(l)[9], StatusFrame(l)[10])
  {
    var f := StatusFrame(l);
    assert f[..9] == StatusBody(l);
    SumBound(StatusBody(l));
    WordRoundTrip(Sum(StatusBody(l)));
  }

  /** A status frame decodes to the LED's value exactly when the LED's state is decodable. */
  lemma StatusRoundTrip(l: Lamp)
    ensures Decode(StatusFrame(l)) == if Decodable(l) then Some(ValueOf(l)) else None
  {
    StatusFrameSums(l);
    StatusFrameWords(l);
    DecodeOf(StatusFrame(l), l.cycle, l.on);
  }

  lemma StatusFrameWords(l: Lamp)
    ensures var f := StatusFrame(l);
      && |f| == 11 && f[..5] == [l.mode, l.brightness, l.red, l.green, l.blue]
      && Word(f[5], f[6]) == l.cycle && Word(f[7], f[8]) == l.on
  {
    var f := StatusFrame(l);
    assert f[5] == High(l.cycle) && f[6] == Low(l.cycle) && f[7] == High(l.on) && f[8] == Low(l.on);
    WordRoundTrip(l.cycle);
    WordRoundTrip(l.on);
  }

  /** What a frame with a right sum decodes to. */
  lemma DecodeOf(f: seq<byte>, cycle: u16, on: u16)
    requires |f| == 11 && Sum(f[..9]) == Word(f[9], f[10]) && Word(f[5], f[6]) == cycle && Word(f[7], f[8]) == on
    ensures Decode(f) ==
      if f[0] <= BREATH && on <= cycle then Some(ValueOf(Lamp(f[0], f[1], f[2], f[3], f[4], cycle, on))) else None
  {
  }

  /** Corrupting any single byte of a status frame is noticed. */
  lemma CorruptionIsNoticed(l: Lamp, k: nat, b: byte)
    requires k < 11 && StatusFrame(l)[k] != b
    ensures Decode(StatusFrame(l)[k := b]) == None
  {
    var f := StatusFrame(l);
    var g := f[k := b];
    var body := StatusBody(l);
    SumBound(body);
    WordRoundTrip(Sum(body));
    assert f[..9] == body;
    if k < 9 {
      SumUpdate(body, k, b);
      assert g[..9] == body[k := b];
    } else {
      assert g[..9] == body;
    }
  }

  lemma {:induction false} SumUpdate(data: seq<byte>, k: nat, b: byte)
    requires k < |data|
    ensures Sum(data[k := b]) == Sum(data) - data[k] + b
  {
    var n := |data| - 1;
    if k < n {
      SumUpdate(data[..n], k, b);
      assert data[k := b][..n] == data[..n][k := b];
    } else {
      assert data[k := b][..n] == data[..n];
    }
  }

  datatype Protocol = Legacy | BlockBig | BlockLittle

  /** The nine checksummed bytes of a command. */
  function CommandBody(command: byte, p: seq<byte>): seq<byte>
    requires |p| == 4
  {
    [0xa0, 1, 0, 0, command] + p
  }

  /** `ugreenctl_led_encode` and `ugreenctl_led_encode_smbus`. The LED id leads a legacy frame and is not
      part of its checksum; a block frame has no id and is padded with a zero. */
  function Encode(protocol: Protocol, id: byte, command: byte, p: seq<byte>): Option<seq<byte>>
    requires |p| == 4
  {
    if (protocol == Legacy && id > 9) || command < 1 || command > 5 then None
    else
      SumBound(CommandBody(command, p));
      var sum: u16 := Sum(CommandBody(command, p));
      Some(match protocol
           case Legacy => [id] + CommandBody(command, p) + [High(sum), Low(sum)]
           case BlockBig => CommandBody(command, p) + [High(sum), Low(sum), 0]
           case BlockLittle => CommandBody(command, p) + [Low(sum), High(sum), 0])
  }

  datatype Command = Command(code: byte, p: seq<byte>)

  /** How the microcontroller reads a frame addressed to LED `id`. */
  function Accept(protocol: Protocol, id: byte, frame: seq<byte>): Option<Command> {
    if |frame| != 12 then None
    else
      var body := if protocol == Legacy then frame[1..10] else frame[..9];
      var sum := match protocol
        case Legacy => Word(frame[10], frame[11])
        case BlockBig => Word(frame[9], frame[10])
        case BlockLittle => Word(frame[10], frame[9]);
      if (protocol == Legacy && frame[0] != id) || body[..4] != [0xa0, 1, 0, 0] || Sum(body) != sum then None
      else Some(Command(body[4], body[5..]))
  }

  /** On each wire protocol the command sent is the command received. */
  lemma CommandRoundTrip(protocol: Protocol, id: byte, command: byte, p: seq<byte>)
    requires |p| == 4 && 1 <= command <= 5 && (protocol == Legacy ==> id <= 9)
    ensures var f := Encode(protocol, id, command, p);
      f.Some? && |f.value| == 12 && Accept(protocol, id, f.value) == Some(Command(command, p))
  {
    var body := CommandBody(command, p);
    SumBound(body);
    WordRoundTrip(Sum(body));
    var f := Encode(protocol, id, command, p).value;
    match protocol
    case Legacy =>
      assert f[1..10] == body;
      AcceptOf(protocol, id, f, command, p);
    case BlockBig =>
      assert f[..9] == body;
      AcceptOf(protocol, id, f, command, p);
    case BlockLittle =>
      assert f[..9] == body;
      AcceptOf(protocol, id, f, command, p);
  }

  /** What the microcontroller makes of a frame with the right body, sum and address. */
  lemma AcceptOf(protocol: Protocol, id: byte, f: seq<byte>, command: byte, p: seq<byte>)
    requires |p| == 4 && |f| == 12 && (protocol == Legacy ==> f[0] == id)
    requires (if protocol == Legacy then f[1..10] else f[..9]) == CommandBody(command, p)
    requires Sum(CommandBody(command, p)) == match protocol
      case Legacy => Word(f[10], f[11])
      case BlockBig => Word(f[9], f[10])
      case BlockLittle => Word(f[10], f[9])
    ensures Accept(protocol, id, f) == Some(Command(command, p))
  {
    var body := CommandBody(command, p);
    assert body[..4] == [0xa0, 1, 0, 0] && body[5..] == p;
  }

  /** A published status frame: a purple LED at brightness 180 that blinks 400/600 ms. */
  lemma KnownStatus()
    ensures Decode([2, 0xb4, 0xff, 0, 0xff, 3, 0xe8, 1, 0x90, 4, 0x30]) ==
      Some(ZERO_VALUE.(mode := 2, brightness := 180, red := 255, blue := 255, onMs := 400, offMs := 600))
  {
    var status := [2, 0xb4, 0xff, 0, 0xff, 3, 0xe8, 1, 0x90, 4, 0x30];
    assert status[..9] == [2, 0xb4, 0xff, 0, 0xff, 3, 0xe8, 1, 0x90];
    SumOfNine(2, 0xb4, 0xff, 0, 0xff, 3, 0xe8, 1, 0x90);
  }

  /** A colour command to LED 3, on each protocol. */
  lemma KnownCommand()
    ensures Encode(Legacy, 3, 2, [10, 20, 30, 0]) == Some([3, 0xa0, 1, 0, 0, 2, 10, 20, 30, 0, 0, 0xdf])
    ensures Encode(BlockBig, 3, 2, [10, 20, 30, 0]) == Some([0xa0, 1, 0, 0, 2, 10, 20, 30, 0, 0, 0xdf, 0])
    ensures Encode(BlockLittle, 3, 2, [10, 20, 30, 0]) == Some([0xa0, 1, 0, 0, 2, 10, 20, 30, 0, 0xdf, 0, 0])
  {
    var body: seq<byte> := [0xa0, 1, 0, 0, 2, 10, 20, 30, 0];
    SumOfNine(0xa0, 1, 0, 0, 2, 10, 20, 30, 0);
    assert CommandBody(2, [10, 20, 30, 0]) == body && Sum(body) == 0xdf;
    assert [3] + body + [0, 0xdf] == [3, 0xa0, 1, 0, 0, 2, 10, 20, 30, 0, 0, 0xdf];
    assert body + [0, 0xdf, 0] == [0xa0, 1, 0, 0, 2, 10, 20, 30, 0, 0, 0xdf, 0];
    assert body + [0xdf, 0, 0] == [0xa0, 1, 0, 0, 2, 10, 20, 30, 0, 0xdf, 0, 0];
  }

  lemma SumSnoc(s: seq<byte>, x: byte)
    ensures Sum(s + [x]) == Sum(s) + x
  {
    assert (s + [x])[..|s|] == s;
  }

  lemma SumOfNine(a: byte, b: byte, c: byte, d: byte, e: byte, f: byte, g: byte, h: byte, i: byte)
    ensures Sum([a, b, c, d, e, f, g, h, i]) == a as int + b as int + c as int + d as int + e as int + f as int + g as int + h as int + i as int
  {
    SumSnoc([], a);
    assert [] + [a] == [a];
    SumSnoc([a], b);
    assert [a] + [b] == [a, b];
    SumSnoc([a, b], c);
    assert [a, b] + [c] == [a, b, c];
    SumSnoc([a, b, c], d);
    assert [a, b, c] + [d] == [a, b, c, d];
    SumSnoc([a, b, c, d], e);
    assert [a, b, c, d] + [e] == [a, b, c, d, e];
    SumSnoc([a, b, c, d, e], f);
    assert [a, b, c, d, e] + [f] == [a, b, c, d, e, f];
    SumSnoc([a, b, c, d, e, f], g);
    assert [a, b, c, d, e, f] + [g] == [a, b, c, d, e, f, g];
    SumSnoc([a, b, c, d, e, f, g], h);
    assert [a, b, c, d, e, f, g] + [h] == [a, b, c, d, e, f, g, h];
    SumSnoc([a, b, c, d, e, f, g, h], i);
    assert [a, b, c, d, e, f, g, h] + [i] == [a, b, c, d, e, f, g, h, i];
  }

  /** What an accepted command does to an LED. */
  function Effect(l: Lamp, c: Command): Lamp
    requires |c.p| == 4
  {
    if c.code == 1 then l.(brightness := c.p[0])
    else if c.code == 2 then l.(red := c.p[0], green := c.p[1], blue := c.p[2])
    else if c.code == 3 then l.(mode := c.p[0])
    else if c.code == 4 || c.code == 5 then
      l.(mode := if c.code == 4 then BLINK else BREATH, cycle := Word(c.p[0], c.p[1]), on := Word(c.p[2], c.p[3]))
    else l
  }
}
