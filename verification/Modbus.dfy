/** Modbus commands as the FPGA command FIFO sees them: 16-bit words, one per byte or instruction.
    Follows ModbusBuffer (word formats, CRC) and ILCMessageFactory (command layouts). */
module Modbus {
  import opened Sequences

  type Byte = b: int | 0 <= b < 0x100
  type Word = w: int | 0 <= w < 0x1_0000

  /** Microseconds a wait instruction can carry without spilling into its opcode bits. */
  type Micros = t: int | 0 <= t < 4_095_000

  const FrameEnd: Word := 0x20DA
  const TimestampWord: Word := 0x3000
  const TriggerIrqWord: Word := 0x7000
  const WaitTriggerWord: Word := 0x8000

  // ----- CRC-16/Modbus ---------------------------------------------------------------------

  /** Exclusive or of the bits below `limit`, a power of two. */
  function Xor(a: nat, b: nat, limit: nat): (r: nat)
    requires limit >= 1
    ensures r < limit
  {
    if limit == 1 then 0 else (a % 2 + b % 2) % 2 + 2 * Xor(a / 2, b / 2, limit / 2)
  }

  function Xor16(a: nat, b: nat): Word { Xor(a, b, 0x1_0000) }

  function CrcShift(crc: Word, bits: nat): Word
    decreases bits
  {
    if bits == 0 then crc
    else CrcShift(if crc % 2 == 1 then Xor16(crc / 2, 0xA001) else crc / 2, bits - 1)
  }

  function Crc(bytes: seq<Byte>): Word {
    if bytes == [] then 0xFFFF
    else CrcShift(Xor16(Crc(bytes[..|bytes| - 1]), bytes[|bytes| - 1]), 8)
  }

  /** The two CRC bytes, low one first. */
  function CrcBytes(bytes: seq<Byte>): (c: seq<Byte>)
    ensures |c| == 2
  {
    [Crc(bytes) % 256, Crc(bytes) / 256]
  }

  lemma CrcNext(bytes: seq<Byte>, b: Byte)
    ensures Crc(bytes + [b]) == CrcShift(Xor16(Crc(bytes), b), 8)
  {
    assert (bytes + [b])[..|bytes|] == bytes;
  }

  /** The checksum of one byte, in which every bit of the polynomial, the initial value and the direction of the
      shifts show. */
  lemma CrcKnownValue()
    ensures Crc([0x7F]) == 0xA0FE
  {
    hide Crc, CrcShift;
    CrcEmpty();
    CrcNext([], 0x7F);
    assert [] + [0x7F] == [0x7F];
    XorOnes();
    ShiftEven(0xFF80, 8);
    ShiftEven(0x7FC0, 7);
    ShiftEven(0x3FE0, 6);
    ShiftEven(0x1FF0, 5);
    ShiftEven(0x0FF8, 4);
    ShiftEven(0x07FC, 3);
    ShiftEven(0x03FE, 2);
    ShiftLast();
  }

  lemma ShiftLast()
    ensures CrcShift(0x01FF, 1) == 0xA0FE
  {
    hide Xor;
    XorPolynomial();
    assert CrcShift(0x01FF, 1) == CrcShift(Xor16(0x00FF, 0xA001), 0);
  }

  lemma XorStep(a: nat, b: nat, limit: nat)
    requires limit > 1
    ensures Xor(a, b, limit) == (a % 2 + b % 2) % 2 + 2 * Xor(a / 2, b / 2, limit / 2)
  {
  }

  lemma XorOnes()
    ensures Xor16(0xFFFF, 0x7F) == 0xFF80
  {
    hide Xor;
    assert Xor(0xFF, 0, 0x100) == 0xFF by { XorOnesHigh(); }
    XorStep(65535, 127, 65536); XorStep(32767, 63, 32768); XorStep(16383, 31, 16384); XorStep(8191, 15, 8192);
    XorStep(4095, 7, 4096); XorStep(2047, 3, 2048); XorStep(1023, 1, 1024); XorStep(511, 0, 512);
  }

  lemma XorOnesHigh()
    ensures Xor(0xFF, 0, 0x100) == 0xFF
  {
    hide Xor;
    XorStep(255, 0, 256); XorStep(127, 0, 128); XorStep(63, 0, 64); XorStep(31, 0, 32);
    XorStep(15, 0, 16); XorStep(7, 0, 8); XorStep(3, 0, 4); XorStep(1, 0, 2);
    XorEnd();
  }

  lemma XorPolynomial()
    ensures Xor16(0x00FF, 0xA001) == 0xA0FE
  {
    hide Xor;
    assert Xor(0, 0xA0, 0x100) == 0xA0 by { XorPolynomialHigh(); }
    XorStep(255, 40961, 65536); XorStep(127, 20480, 32768); XorStep(63, 10240, 16384); XorStep(31, 5120, 8192);
    XorStep(15, 2560, 4096); XorStep(7, 1280, 2048); XorStep(3, 640, 1024); XorStep(1, 320, 512);
  }

  lemma XorPolynomialHigh()
    ensures Xor(0, 0xA0, 0x100) == 0xA0
  {
    hide Xor;
    XorStep(0, 160, 256); XorStep(0, 80, 128); XorStep(0, 40, 64); XorStep(0, 20, 32);
    XorStep(0, 10, 16); XorStep(0, 5, 8); XorStep(0, 2, 4); XorStep(0, 1, 2);
    XorEnd();
  }

  lemma XorEnd()
    ensures Xor(0, 0, 1) == 0
  {
  }

  lemma CrcEmpty()
    ensures Crc([]) == 0xFFFF
  {
  }

  /** A receiver that runs the checksum over a whole frame, checksum included, finds zero. */
  lemma CrcResidue(bytes: seq<Byte>)
    ensures Crc(bytes + CrcBytes(bytes)) == 0
  {
    hide Crc;
    var c := Crc(bytes);
    assert bytes + CrcBytes(bytes) == (bytes + [c % 256]) + [c / 256];
    CrcNext(bytes, c % 256);
    CrcNext(bytes + [c % 256], c / 256);
    XorLow(c);
    ShiftEmpty(c / 256);
    XorSelf(c / 256, 0x1_0000);
    ShiftEmpty(0);
  }

  lemma ShiftEven(c: Word, bits: nat)
    requires c % 2 == 0 && bits > 0
    ensures CrcShift(c, bits) == CrcShift(c / 2, bits - 1)
  {
  }

  lemma ShiftFour(c: Word, bits: nat)
    requires c % 16 == 0 && bits >= 4
    ensures CrcShift(c, bits) == CrcShift(c / 16, bits - 4)
  {
    hide CrcShift;
    ShiftEven(c, bits);
    ShiftEven(c / 2, bits - 1);
    ShiftEven(c / 4, bits - 2);
    ShiftEven(c / 8, bits - 3);
  }

  /** Eight shifts of a word whose low byte is empty. */
  lemma ShiftEmpty(h: Byte)
    ensures CrcShift(256 * h, 8) == h
  {
    hide CrcShift;
    ShiftFour(256 * h, 8);
    ShiftFour(16 * h, 4);
    ShiftNone(h);
  }

  lemma ShiftNone(c: Word)
    ensures CrcShift(c, 0) == c
  {
  }

  lemma {:induction false} XorSelf(a: nat, limit: nat)
    requires limit >= 1
    ensures Xor(a, a, limit) == 0
  {
    if limit > 1 { XorSelf(a / 2, limit / 2); }
  }

  /** Exclusive or with its own low byte empties the low byte of a word. */
  lemma XorLow(c: Word)
    ensures Xor16(c, c % 256) == 256 * (c / 256)
  {
    hide Power, LowEmpty, LowBits, Xor;
    Powers();
    FitsSmall(c % 256, 8);
    EmptyByte(c / 256);
    XorShared(256 * (c / 256), c % 256, 8);
  }

  function Power(n: nat): (p: nat)
    ensures p >= 1
  {
    if n == 0 then 1 else 2 * Power(n - 1)
  }

  lemma Powers()
    ensures Power(8) == 0x100 && Power(16) == 0x1_0000
  {
    assert Power(4) == 0x10;
    assert Power(8) == 0x100;
    assert Power(12) == 0x1000;
  }

  predicate LowBits(l: nat, bits: nat) { if bits == 0 then l == 0 else LowBits(l / 2, bits - 1) }

  predicate LowEmpty(x: nat, bits: nat) { bits == 0 || (x % 2 == 0 && LowEmpty(x / 2, bits - 1)) }

  lemma {:induction false} FitsSmall(l: nat, bits: nat)
    requires l < Power(bits)
    ensures LowBits(l, bits)
  {
    if bits > 0 { FitsSmall(l / 2, bits - 1); }
  }

  lemma EmptyStep(x: nat, bits: nat)
    requires LowEmpty(x, bits)
    ensures LowEmpty(2 * x, bits + 1)
  {
  }

  lemma EmptyByte(h: nat)
    ensures LowEmpty(256 * h, 8)
  {
    hide LowEmpty;
    assert LowEmpty(h, 0) by { EmptyNone(h); }
    EmptyStep(h, 0);
    EmptyStep(2 * h, 1);
    EmptyStep(4 * h, 2);
    EmptyStep(8 * h, 3);
    EmptyStep(16 * h, 4);
    EmptyStep(32 * h, 5);
    EmptyStep(64 * h, 6);
    EmptyStep(128 * h, 7);
  }

  lemma EmptyNone(h: nat)
    ensures LowEmpty(h, 0)
  {
  }

  lemma {:induction false} XorShared(x: nat, l: nat, bits: nat)
    requires x < Power(8 + bits) && LowBits(l, bits) && LowEmpty(x, bits)
    ensures Xor(x + l, l, Power(8 + bits)) == x
  {
    hide Xor;
    if bits == 0 {
      XorNothing(x, 8);
    } else {
      XorShared(x / 2, l / 2, bits - 1);
      assert (x + l) / 2 == x / 2 + l / 2 && (x + l) % 2 == l % 2;
      XorStep(x + l, l, Power(8 + bits));
    }
  }

  lemma {:induction false} XorNothing(c: nat, n: nat)
    requires c < Power(n)
    ensures Xor(c, 0, Power(n)) == c
  {
    if n > 0 {
      hide Xor;
      XorNothing(c / 2, n - 1);
      XorStep(c, 0, Power(n));
    }
  }

  // ----- words -----------------------------------------------------------------------------

  function ByteWord(b: Byte): Word { 0x1200 + 2 * b }

  function WordByte(w: Word): Byte { w / 2 % 256 }

  function ByteWords(bytes: seq<Byte>): (ws: seq<Word>)
    ensures |ws| == |bytes|
  {
    seq(|bytes|, i requires 0 <= i < |bytes| => ByteWord(bytes[i]))
  }

  function WordBytes(words: seq<Word>): (bs: seq<Byte>)
    ensures |bs| == |words|
  {
    seq(|words|, i requires 0 <= i < |words| => WordByte(words[i]))
  }

  lemma ReadBack(bytes: seq<Byte>)
    ensures WordBytes(ByteWords(bytes)) == bytes
  {
  }

  function DelayWord(t: Micros): Word {
    if t > 4095 then 0x5000 + (t / 1000 + 1) else 0x4000 + t
  }

  function ReplyWord(t: Micros): Word {
    if t > 4095 then 0x9000 + (t / 1000 + 1) else 0x6000 + t
  }

  /** A Modbus frame: payload, CRC, end of frame and the wait that follows it. */
  function FrameWords(payload: seq<Byte>, wait: Word): (ws: seq<Word>)
    ensures |ws| == |payload| + 4
  {
    ByteWords(payload + CrcBytes(payload)) + [FrameEnd, wait]
  }

  // ----- commands --------------------------------------------------------------------------

  datatype QueryKind = ServerStatus | HardpointStatus | ForceStatus | DcaPressure | DcaStatus | Lvdt

  datatype Timing = Timing(serverStatus: Micros, hardpointStatus: Micros, forceStatus: Micros,
                           dcaPressure: Micros, dcaStatus: Micros, lvdt: Micros,
                           stepMotor: Micros, freeze: Micros, forceDemand: Micros)

  type Saa = s: seq<int> | |s| == 16 witness seq(16, _ => 0)
  type Daa = s: seq<int> | |s| == 32 witness seq(32, _ => 0)
  type Steps = s: seq<Byte> | |s| == 78 witness seq(78, _ => 0)

  datatype Command =
    | Query(kind: QueryKind, address: Byte)
    | NopLvdt
    | Timestamp
    | ForceDemand(counter: Byte, valves: Byte, saa: Saa, daaPrimary: Daa, daaSecondary: Daa)
    | StepMotor(counter: Byte, steps: Steps)
    | PneumaticFreeze(counter: Byte)
    | HardpointFreeze(counter: Byte)

  function FunctionCode(k: QueryKind): Byte {
    match k
    case ServerStatus => 18
    case HardpointStatus => 67
    case ForceStatus => 76
    case DcaPressure => 119
    case DcaStatus => 121
    case Lvdt => 122
  }

  function QueryWait(t: Timing, k: QueryKind): Micros {
    match k
    case ServerStatus => t.serverStatus
    case HardpointStatus => t.hardpointStatus
    case ForceStatus => t.forceStatus
    case DcaPressure => t.dcaPressure
    case DcaStatus => t.dcaStatus
    case Lvdt => t.lvdt
  }

  /** The low 24 bits of a 32-bit number, most significant byte first. */
  function I24(x: int): (bs: seq<Byte>)
    ensures |bs| == 3
  {
    [x / 0x1_0000 % 256, x / 0x100 % 256, x % 256]
  }

  function I24s(xs: seq<int>): (bs: seq<Byte>)
    ensures |bs| == 3 * |xs|
  {
    if xs == [] then [] else I24s(xs[..|xs| - 1]) + I24(xs[|xs| - 1])
  }

  /** Primary and secondary setpoints of the first `n` dual axis actuators, interleaved. */
  function I24Pairs(p: seq<int>, s: seq<int>, n: nat): (bs: seq<Byte>)
    requires n <= |p| && n <= |s|
    ensures |bs| == 6 * n
  {
    if n == 0 then [] else I24Pairs(p, s, n - 1) + I24(p[n - 1]) + I24(s[n - 1])
  }

  function Payload(c: Command): (bs: seq<Byte>) {
    match c
    case Query(kind, address) => [address, FunctionCode(kind)]
    case NopLvdt => []
    case Timestamp => []
    case ForceDemand(counter, valves, saa, p, s) =>
      [249, 75, counter, valves] + I24s(saa) + I24Pairs(p, s, 32)
    case StepMotor(counter, steps) => [248, 66, counter] + steps
    case PneumaticFreeze(counter) => [249, 68, counter]
    case HardpointFreeze(counter) => [248, 68, counter]
  }

  function WaitWord(t: Timing, c: Command): Word {
    match c
    case Query(kind, _) => ReplyWord(QueryWait(t, kind))
    case StepMotor(_, _) => DelayWord(t.stepMotor)
    case ForceDemand(_, _, _, _, _) => DelayWord(t.forceDemand)
    case _ => DelayWord(t.freeze)
  }

  /** Words a command occupies; they do not depend on its arguments. */
  function Width(c: Command): nat {
    match c
    case Query(_, _) => 6
    case NopLvdt => 6
    case Timestamp => 1
    case ForceDemand(_, _, _, _, _) => 248
    case StepMotor(_, _) => 85
    case _ => 7
  }

  function Words(t: Timing, c: Command): (ws: seq<Word>)
    ensures |ws| == Width(c)
  {
    match c
    case NopLvdt => [0, 0, 0, 0, 0, 0]
    case Timestamp => [TimestampWord]
    case _ => FrameWords(Payload(c), WaitWord(t, c))
  }

  /** Any encoding of commands into words that keeps their widths. The layout of the bus lists
      depends on nothing else about the encoding. */
  type Encoder = e: Command -> seq<Word> | forall c :: |e(c)| == Width(c) witness c => seq(Width(c), _ => 0)

  /** The encoding of ILCMessageFactory. */
  function IlcEncoder(t: Timing): (e: Encoder)
    ensures forall c :: e(c) == Words(t, c)
  {
    var e := (c: Command) => Words(t, c);
    assert forall c :: |e(c)| == Width(c);
    e
  }

  function WordsAll(e: Encoder, cs: seq<Command>): seq<Word> {
    Flatten(seq(|cs|, i requires 0 <= i < |cs| => e(cs[i])))
  }

  lemma WordsAllConcat(e: Encoder, a: seq<Command>, b: seq<Command>)
    ensures WordsAll(e, a + b) == WordsAll(e, a) + WordsAll(e, b)
  {
    var ab := a + b;
    var x := seq(|a|, i requires 0 <= i < |a| => e(a[i]));
    var y := seq(|b|, i requires 0 <= i < |b| => e(b[i]));
    assert seq(|ab|, i requires 0 <= i < |ab| => e(ab[i])) == x + y;
    FlattenConcat(x, y);
  }

  lemma WordsAllOne(e: Encoder, c: Command)
    ensures WordsAll(e, [c]) == e(c)
  {
    var one := [c];
    assert seq(|one|, i requires 0 <= i < |one| => e(one[i])) == [e(c)];
    FlattenOne(e(c));
  }

  /** A query word by word: address, function code and checksum as byte writes, the end of the frame, and the wait for
      the reply the settings give that query, in milliseconds when it does not fit as microseconds. */
  lemma QueryInWords(t: Timing, kind: QueryKind, a: Byte)
    ensures var code: Byte := match kind
              case ServerStatus => 18
              case HardpointStatus => 67
              case ForceStatus => 76
              case DcaPressure => 119
              case DcaStatus => 121
              case Lvdt => 122;
            var wait := match kind
              case ServerStatus => t.serverStatus
              case HardpointStatus => t.hardpointStatus
              case ForceStatus => t.forceStatus
              case DcaPressure => t.dcaPressure
              case DcaStatus => t.dcaStatus
              case Lvdt => t.lvdt;
            var crc := Crc([a, code]);
            Words(t, Query(kind, a))
            == [0x1200 + 2 * a, 0x1200 + 2 * code, 0x1200 + 2 * (crc % 256), 0x1200 + 2 * (crc / 256), 0x20DA,
                if wait > 4095 then 0x9000 + (wait / 1000 + 1) else 0x6000 + wait]
  {
    hide Crc;
  }

  /** Every broadcast ends its frame and waits as long as the settings say, without a reply. */
  lemma BroadcastInWords(t: Timing, c: Command)
    requires c.ForceDemand? || c.StepMotor? || c.PneumaticFreeze? || c.HardpointFreeze?
    ensures var wait := if c.ForceDemand? then t.forceDemand else if c.StepMotor? then t.stepMotor else t.freeze;
            var n := |Words(t, c)|;
            && n >= 2 && Words(t, c)[n - 2] == 0x20DA
            && Words(t, c)[n - 1] == if wait > 4095 then 0x5000 + (wait / 1000 + 1) else 0x4000 + wait
  {
    hide Crc;
  }

  // ----- what the FPGA makes of the words ------------------------------------------------------

  /** A transmitted frame, CRC included, and whether the FPGA then waits for a reply. */
  datatype Adu = Adu(bytes: seq<Byte>, reply: bool)

  /** Executes a FIFO program: byte writes collect into `pending`, a wait or delay closes the frame. */
  function Scan(ws: seq<Word>, pending: seq<Byte>): seq<Adu> {
    if ws == [] then []
    else
      var opcode := ws[0] / 0x1000;
      if opcode == 1 then Scan(ws[1..], pending + [WordByte(ws[0])])
      else if opcode == 6 || opcode == 9 then [Adu(pending, true)] + Scan(ws[1..], [])
      else if opcode == 4 || opcode == 5 then [Adu(pending, false)] + Scan(ws[1..], [])
      else Scan(ws[1..], pending)
  }

  function Transmitted(c: Command): seq<Adu> {
    match c
    case NopLvdt => []
    case Timestamp => []
    case _ => [Adu(Payload(c) + CrcBytes(Payload(c)), c.Query?)]
  }

  function TransmittedAll(cs: seq<Command>): seq<Adu> {
    Flatten(seq(|cs|, i requires 0 <= i < |cs| => Transmitted(cs[i])))
  }

  lemma {:induction false} ScanBytes(bytes: seq<Byte>, rest: seq<Word>, pending: seq<Byte>)
    ensures Scan(ByteWords(bytes) + rest, pending) == Scan(rest, pending + bytes)
    decreases |bytes|
  {
    var ws := ByteWords(bytes) + rest;
    if bytes == [] {
      assert ws == rest;
      assert pending + bytes == pending;
    } else {
      assert ws[0] == ByteWord(bytes[0]) && WordByte(ws[0]) == bytes[0];
      assert ws[1..] == ByteWords(bytes[1..]) + rest;
      ScanBytes(bytes[1..], rest, pending + [bytes[0]]);
      assert pending + [bytes[0]] + bytes[1..] == pending + bytes;
    }
  }

  lemma ScanFrame(payload: seq<Byte>, wait: Word, rest: seq<Word>)
    requires wait / 0x1000 in {4, 5, 6, 9}
    ensures Scan(FrameWords(payload, wait) + rest, [])
         == [Adu(payload + CrcBytes(payload), wait / 0x1000 in {6, 9})] + Scan(rest, [])
  {
    var bytes := payload + CrcBytes(payload);
    var tail := [FrameEnd, wait] + rest;
    assert FrameWords(payload, wait) + rest == ByteWords(bytes) + tail;
    ScanBytes(bytes, tail, []);
    assert [] + bytes == bytes;
    assert tail[1..] == [wait] + rest;
    assert tail[1..][1..] == rest;
    assert Scan(tail, bytes) == Scan(tail[1..], bytes);
  }

  lemma ScanCommand(t: Timing, c: Command, rest: seq<Word>)
    ensures Scan(Words(t, c) + rest, []) == Transmitted(c) + Scan(rest, [])
  {
    match c
    case NopLvdt =>
      ScanNops(6, rest);
      assert Words(t, c) == seq(6, _ => 0);
    case Timestamp =>
      assert (Words(t, c) + rest)[1..] == rest;
    case _ => ScanFrame(Payload(c), WaitWord(t, c), rest);
  }

  lemma {:induction false} ScanNops(n: nat, rest: seq<Word>)
    ensures Scan(seq(n, _ => 0) + rest, []) == Scan(rest, [])
  {
    var ws: seq<Word> := seq(n, _ => 0) + rest;
    if n == 0 {
      assert ws == rest;
    } else {
      assert ws[1..] == seq(n - 1, _ => 0) + rest;
      ScanNops(n - 1, rest);
    }
  }

  lemma {:induction false} ScanParts(parts: seq<seq<Word>>, adus: seq<seq<Adu>>, rest: seq<Word>)
    requires |parts| == |adus|
    requires forall i, r :: 0 <= i < |parts| ==> Scan(parts[i] + r, []) == adus[i] + Scan(r, [])
    ensures Scan(Flatten(parts) + rest, []) == Flatten(adus) + Scan(rest, [])
    decreases |parts|
  {
    if parts == [] {
      assert Flatten(parts) + rest == rest;
    } else {
      hide Scan;
      var r := Flatten(parts[1..]) + rest;
      ScanParts(parts[1..], adus[1..], rest);
      Assoc(parts[0], Flatten(parts[1..]), rest);
      assert Scan(parts[0] + r, []) == adus[0] + Scan(r, []);
      Assoc(adus[0], Flatten(adus[1..]), Scan(rest, []));
    }
  }

  /** Decoding what was encoded: running the words of a command list transmits exactly those
      commands, each with a valid CRC, whatever follows. */
  lemma ScanWords(t: Timing, cs: seq<Command>, rest: seq<Word>)
    ensures Scan(WordsAll(IlcEncoder(t), cs) + rest, []) == TransmittedAll(cs) + Scan(rest, [])
  {
    var e := IlcEncoder(t);
    var parts := seq(|cs|, i requires 0 <= i < |cs| => e(cs[i]));
    var adus := seq(|cs|, i requires 0 <= i < |cs| => Transmitted(cs[i]));
    forall i, r | 0 <= i < |parts|
      ensures Scan(parts[i] + r, []) == adus[i] + Scan(r, [])
    {
      ScanCommand(t, cs[i], r);
    }
    ScanParts(parts, adus, rest);
  }

  /** Value a receiver gives to three big-endian bytes. */
  function FromI24(bs: seq<Byte>): int
    requires |bs| == 3
  {
    var u: int := bs[0] as int * 0x1_0000 + bs[1] as int * 0x100 + bs[2] as int;
    if u >= 0x80_0000 then u - 0x100_0000 else u
  }

  /** A setpoint survives the wire exactly when it fits 24 bits. */
  lemma I24RoundTrip(x: int)
    ensures FromI24(I24(x)) == x <==> -0x80_0000 <= x < 0x80_0000
  {
    var hi, mid, lo := x / 0x1_0000 % 256, x / 0x100 % 256, x % 256;
    assert x / 0x100 == 256 * (x / 0x1_0000) + mid;
    assert x / 0x1_0000 == 256 * (x / 0x100_0000) + hi;
  }
}
