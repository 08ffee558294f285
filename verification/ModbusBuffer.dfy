/** The bus buffer of ModbusBuffer and the writers of ILCMessageFactory, over a real array. */
module ModbusBuffers {
  import opened Sequences
  import opened Modbus

  const BufferSize := 5120

  class ModbusBuffer {
    const data: array<Word>
    var index: int
    var length: int

    constructor ()
      ensures fresh(data) && data.Length == BufferSize && index == 0 && length == 0
    {
      data := new Word[BufferSize](_ => 0);
      index, length := 0, 0;
    }

    /** Room for `k` more words at the write position. */
    ghost predicate Room(k: nat)
      reads this
    {
      0 <= index && index + k <= data.Length
    }

    method Put(w: Word)
      requires Room(1)
      modifies this`index, data
      ensures index == old(index) + 1
      ensures data[..] == Splice(old(data[..]), old(index), [w])
    {
      data[index] := w;
      index := index + 1;
    }

    method Set(at: int, w: Word)
      requires 0 <= at < data.Length
      modifies data
      ensures data[..] == Splice(old(data[..]), at, [w])
    {
      data[at] := w;
    }

    /** Appends `w` to the run of words `m` written since the write position was `start`. */
    method Append(w: Word, ghost before: seq<Word>, ghost start: nat, ghost m: seq<Word>)
      requires Room(1) && |before| == data.Length && index == start + |m|
      requires data[..] == Splice(before, start, m)
      modifies this`index, data
      ensures index == old(index) + 1
      ensures data[..] == Splice(before, start, m + [w])
    {
      Put(w);
      SpliceTwice(before, start, m, [w]);
    }

    method AppendByte(b: Byte, ghost before: seq<Word>, ghost start: nat, ghost bytes: seq<Byte>)
      requires Room(1) && |before| == data.Length && index == start + |bytes|
      requires data[..] == Splice(before, start, ByteWords(bytes))
      modifies this`index, data
      ensures index == old(index) + 1
      ensures data[..] == Splice(before, start, ByteWords(bytes + [b]))
    {
      Append(ByteWord(b), before, start, ByteWords(bytes));
      assert ByteWords(bytes + [b]) == ByteWords(bytes) + [ByteWord(b)];
    }

    method AppendI24(x: int, ghost before: seq<Word>, ghost start: nat, ghost bytes: seq<Byte>)
      requires Room(3) && |before| == data.Length && index == start + |bytes|
      requires data[..] == Splice(before, start, ByteWords(bytes))
      modifies this`index, data
      ensures index == old(index) + 3
      ensures data[..] == Splice(before, start, ByteWords(bytes + I24(x)))
    {
      AppendByte(x / 0x1_0000 % 256, before, start, bytes);
      AppendByte(x / 0x100 % 256, before, start, bytes + [x / 0x1_0000 % 256]);
      AppendByte(x % 256, before, start, bytes + [x / 0x1_0000 % 256] + [x / 0x100 % 256]);
      assert bytes + I24(x)
          == bytes + [x / 0x1_0000 % 256] + [x / 0x100 % 256] + [x % 256];
    }

    method AppendI24s(xs: seq<int>, ghost before: seq<Word>, ghost start: nat, ghost bytes: seq<Byte>)
      requires Room(3 * |xs|) && |before| == data.Length && index == start + |bytes|
      requires data[..] == Splice(before, start, ByteWords(bytes))
      modifies this`index, data
      ensures index == old(index) + 3 * |xs|
      ensures data[..] == Splice(before, start, ByteWords(bytes + I24s(xs)))
    {
      assert bytes + I24s(xs[..0]) == bytes;
      for i := 0 to |xs|
        invariant index == old(index) + 3 * i
        invariant data[..] == Splice(before, start, ByteWords(bytes + I24s(xs[..i])))
      {
        AppendI24(xs[i], before, start, bytes + I24s(xs[..i]));
        assert xs[..i + 1][..i] == xs[..i];
        assert bytes + I24s(xs[..i + 1]) == bytes + I24s(xs[..i]) + I24(xs[i]);
      }
      assert xs[..|xs|] == xs;
    }

    method AppendI24Pairs(p: seq<int>, s: seq<int>, ghost before: seq<Word>, ghost start: nat, ghost bytes: seq<Byte>)
      requires |p| == |s| && Room(6 * |p|) && |before| == data.Length && index == start + |bytes|
      requires data[..] == Splice(before, start, ByteWords(bytes))
      modifies this`index, data
      ensures index == old(index) + 6 * |p|
      ensures data[..] == Splice(before, start, ByteWords(bytes + I24Pairs(p, s, |p|)))
    {
      assert bytes + I24Pairs(p, s, 0) == bytes;
      for i := 0 to |p|
        invariant index == old(index) + 6 * i
        invariant data[..] == Splice(before, start, ByteWords(bytes + I24Pairs(p, s, i)))
      {
        ghost var done := bytes + I24Pairs(p, s, i);
        AppendI24(p[i], before, start, done);
        AppendI24(s[i], before, start, done + I24(p[i]));
        assert bytes + I24Pairs(p, s, i + 1) == done + I24(p[i]) + I24(s[i]);
      }
    }

    /** Reads the last `n` bytes back, as getReadData does. */
    method ReadData(n: nat) returns (bytes: seq<Byte>)
      requires n <= index <= data.Length
      ensures bytes == WordBytes(data[index - n..index])
    {
      bytes := [];
      for i := index - n to index
        invariant bytes == WordBytes(data[index - n..i])
      {
        assert data[index - n..i + 1] == data[index - n..i] + [data[i]];
        bytes := bytes + [WordByte(data[i])];
      }
    }

    /** Closes the frame whose payload bytes have been written since `start`. */
    method FinishFrame(wait: Word, ghost before: seq<Word>, ghost start: nat, n: nat,
                       ghost payload: seq<Byte>)
      requires Room(4) && |before| == data.Length && index == start + n && |payload| == n
      requires data[..] == Splice(before, start, ByteWords(payload))
      modifies this`index, data
      ensures index == old(index) + 4
      ensures data[..] == Splice(before, start, FrameWords(payload, wait))
    {
      var written := ReadData(n);
      assert data[index - n..index] == data[..][start..start + n] == ByteWords(payload);
      ReadBack(payload);
      var crc := Crc(written);
      AppendByte(crc % 256, before, start, payload);
      AppendByte(crc / 256, before, start, payload + [crc % 256]);
      ghost var full := payload + CrcBytes(payload);
      assert full == payload + [crc % 256] + [crc / 256];
      Append(FrameEnd, before, start, ByteWords(full));
      Append(wait, before, start, ByteWords(full) + [FrameEnd]);
      assert FrameWords(payload, wait) == ByteWords(full) + [FrameEnd] + [wait];
    }
  }

  /** Writes ILC commands; each call writes exactly the words of its command. */
  class MessageFactory {
    const timing: Timing

    constructor (timing: Timing)
      ensures this.timing == timing
    {
      this.timing := timing;
    }

    /** reportServerStatus, electromechanicalForceAndStatus, pneumaticForceStatus and the DCA
        reports: the same four writes with their own function code and reply time. */
    method Query(b: ModbusBuffer, kind: QueryKind, address: Byte)
      requires b.Room(6)
      modifies b`index, b.data
      ensures b.index == old(b.index) + 6
      ensures b.data[..] == Splice(old(b.data[..]), old(b.index), Words(timing, Command.Query(kind, address)))
    {
      ghost var before, start := b.data[..], b.index;
      assert before == Splice(before, start, ByteWords([]));
      b.AppendByte(address, before, start, []);
      b.AppendByte(FunctionCode(kind), before, start, [] + [address]);
      ghost var payload := Payload(Command.Query(kind, address));
      assert payload == [] + [address] + [FunctionCode(kind)];
      b.FinishFrame(ReplyWord(QueryWait(timing, kind)), before, start, 2, payload);
    }

    method NopReportLvdt(b: ModbusBuffer)
      requires b.Room(6)
      modifies b`index, b.data
      ensures b.index == old(b.index) + 6
      ensures b.data[..] == Splice(old(b.data[..]), old(b.index), Words(timing, NopLvdt))
    {
      ghost var before, start := b.data[..], b.index;
      assert before == Splice(before, start, []);
      for i := 0 to 6
        invariant b.index == start + i
        invariant b.data[..] == Splice(before, start, Words(timing, NopLvdt)[..i])
      {
        b.Append(0, before, start, Words(timing, NopLvdt)[..i]);
        assert Words(timing, NopLvdt)[..i + 1] == Words(timing, NopLvdt)[..i] + [0];
      }
      assert Words(timing, NopLvdt)[..6] == Words(timing, NopLvdt);
    }

    method WriteTimestamp(b: ModbusBuffer)
      requires b.Room(1)
      modifies b`index, b.data
      ensures b.index == old(b.index) + 1
      ensures b.data[..] == Splice(old(b.data[..]), old(b.index), Words(timing, Timestamp))
    {
      b.Put(TimestampWord);
    }

    /** broadcastPneumaticFreezeSensorValues (group 249) and
        broadcastElectromechanicalFreezeSensorValues (group 248). */
    method BroadcastFreeze(b: ModbusBuffer, pneumatic: bool, counter: Byte)
      requires b.Room(7)
      modifies b`index, b.data
      ensures b.index == old(b.index) + 7
      ensures b.data[..] == Splice(old(b.data[..]), old(b.index),
                Words(timing, if pneumatic then PneumaticFreeze(counter) else HardpointFreeze(counter)))
    {
      ghost var before, start := b.data[..], b.index;
      var group: Byte := if pneumatic then 249 else 248;
      assert before == Splice(before, start, ByteWords([]));
      b.AppendByte(group, before, start, []);
      b.AppendByte(68, before, start, [] + [group]);
      b.AppendByte(counter, before, start, [] + [group] + [68]);
      ghost var payload: seq<Byte> := [group, 68, counter];
      assert payload == [] + [group] + [68] + [counter];
      b.FinishFrame(DelayWord(timing.freeze), before, start, 3, payload);
    }

    method BroadcastStepMotor(b: ModbusBuffer, counter: Byte, steps: Steps)
      requires b.Room(85)
      modifies b`index, b.data
      ensures b.index == old(b.index) + 85
      ensures b.data[..] == Splice(old(b.data[..]), old(b.index), Words(timing, StepMotor(counter, steps)))
    {
      ghost var before, start := b.data[..], b.index;
      ghost var head: seq<Byte> := [248, 66, counter];
      assert before == Splice(before, start, ByteWords([]));
      b.AppendByte(248, before, start, []);
      b.AppendByte(66, before, start, [] + [248]);
      b.AppendByte(counter, before, start, [] + [248] + [66]);
      assert head + steps[..0] == [] + [248] + [66] + [counter];
      for i := 0 to 78
        invariant b.index == start + 3 + i
        invariant b.data[..] == Splice(before, start, ByteWords(head + steps[..i]))
      {
        b.AppendByte(steps[i], before, start, head + steps[..i]);
        assert head + steps[..i + 1] == head + steps[..i] + [steps[i]];
      }
      assert head + steps[..78] == Payload(StepMotor(counter, steps));
      b.FinishFrame(DelayWord(timing.stepMotor), before, start, 81, Payload(StepMotor(counter, steps)));
    }

    method BroadcastForceDemand(b: ModbusBuffer, counter: Byte, valves: Byte,
                                saa: Saa, daaPrimary: Daa, daaSecondary: Daa)
      requires b.Room(248)
      modifies b`index, b.data
      ensures b.index == old(b.index) + 248
      ensures b.data[..] == Splice(old(b.data[..]), old(b.index),
                Words(timing, ForceDemand(counter, valves, saa, daaPrimary, daaSecondary)))
    {
      ghost var before, start := b.data[..], b.index;
      ghost var head: seq<Byte> := [249, 75, counter, valves];
      assert before == Splice(before, start, ByteWords([]));
      b.AppendByte(249, before, start, []);
      b.AppendByte(75, before, start, [] + [249]);
      b.AppendByte(counter, before, start, [] + [249] + [75]);
      b.AppendByte(valves, before, start, [] + [249] + [75] + [counter]);
      assert head == [] + [249] + [75] + [counter] + [valves];
      b.AppendI24s(saa, before, start, head);
      b.AppendI24Pairs(daaPrimary, daaSecondary, before, start, head + I24s(saa));
      ghost var payload := Payload(ForceDemand(counter, valves, saa, daaPrimary, daaSecondary));
      assert payload == head + I24s(saa) + I24Pairs(daaPrimary, daaSecondary, 32);
      b.FinishFrame(DelayWord(timing.forceDemand), before, start, 244, payload);
    }
  }
}
