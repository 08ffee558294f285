/** The raw accelerometer recording: three bytes a sample in the file, decoded by a separate tool. */
module RawDump {
  import opened FixedPoint
  import opened Modbus

  const BlockSize := 800

  const AccelerometerType := FxpType(true, 24, 5)

  // ----- words in memory ------------------------------------------------------------------------------------

  /** The bytes of a word as a little-endian machine keeps them, lowest first. */
  function Bytes(n: nat, count: nat): (bs: seq<Byte>)
    ensures |bs| == count
  {
    if count == 0 then [] else [n % 256] + Bytes(n / 256, count - 1)
  }

  function FromBytes(bs: seq<Byte>): nat {
    if bs == [] then 0 else bs[0] + 256 * FromBytes(bs[1..])
  }

  function Reversed(bs: seq<Byte>): (r: seq<Byte>)
    ensures |r| == |bs| && forall k :: 0 <= k < |bs| ==> r[k] == bs[|bs| - 1 - k]
  {
    if bs == [] then [] else Reversed(bs[1..]) + [bs[0]]
  }

  lemma {:induction false} FromBytesBound(bs: seq<Byte>)
    ensures FromBytes(bs) < Pow2(8 * |bs|)
  {
    if bs != [] {
      FromBytesBound(bs[1..]);
      var p := Pow2(8 * (|bs| - 1));
      assert Pow2(8 * |bs|) == 256 * p by { EightTimes(8 * (|bs| - 1)); }
    }
  }

  lemma EightTimes(n: nat)
    ensures Pow2(n + 8) == 256 * Pow2(n)
  {
    assert Pow2(n + 2) == 4 * Pow2(n) by { assert Pow2(n + 1) == 2 * Pow2(n); }
    assert Pow2(n + 4) == 4 * Pow2(n + 2) by { assert Pow2(n + 3) == 2 * Pow2(n + 2); }
    assert Pow2(n + 6) == 4 * Pow2(n + 4) by { assert Pow2(n + 5) == 2 * Pow2(n + 4); }
    assert Pow2(n + 8) == 4 * Pow2(n + 6) by { assert Pow2(n + 7) == 2 * Pow2(n + 6); }
  }

  lemma {:induction false} BytesRoundTrip(bs: seq<Byte>)
    ensures Bytes(FromBytes(bs), |bs|) == bs
  {
    if bs != [] {
      BytesRoundTrip(bs[1..]);
      Digits(bs[0], FromBytes(bs[1..]));
      assert bs == [bs[0]] + bs[1..];
    }
  }

  lemma Digits(b: Byte, rest: nat)
    ensures (b + 256 * rest) % 256 == b && (b + 256 * rest) / 256 == rest
  {
  }

  /** The two conversions between host order and big endian are one and the same swap. */
  function Swap(n: Word64): Word64 {
    var bs := Reversed(Bytes(n, 8));
    FromBytesBound(bs);
    Pow2Of64();
    FromBytes(bs)
  }

  // ----- recording ------------------------------------------------------------------------------------------

  /** The three bytes of a sample. */
  function Packed(n: Word64): (bs: seq<Byte>)
    ensures |bs| == 3
  {
    Bytes(Swap(n), 8)[5..]
  }

  function PackedAll(ws: seq<Word64>): (bs: seq<Byte>)
    ensures |bs| == 3 * |ws|
  {
    if ws == [] then [] else PackedAll(ws[..|ws| - 1]) + Packed(ws[|ws| - 1])
  }

  /** One block from the FIFO: every word is swapped in place, and its last three bytes are copied out. */
  method DumpBlock(raw: array<Word64>, data: array<Byte>)
    requires raw.Length == BlockSize && data.Length == 3 * BlockSize
    modifies raw, data
    ensures data[..] == PackedAll(old(raw[..]))
    ensures forall k :: 0 <= k < BlockSize ==> raw[k] == Swap(old(raw[k]))
  {
    hide Swap, Packed;
    for i := 0 to BlockSize
      invariant data[..3 * i] == PackedAll(old(raw[..i]))
      invariant forall k :: 0 <= k < BlockSize ==> raw[k] == if k < i then Swap(old(raw[k])) else old(raw[k])
    {
      raw[i] := Swap(raw[i]);
      var memory := Bytes(raw[i], 8);
      assert memory[5..] == Packed(old(raw[i])) by { PackedIs(old(raw[i])); }
      ghost var before := data[..3 * i];
      for k := 0 to 3
        invariant data[..3 * i + k] == before + memory[5..5 + k]
        invariant forall k :: 0 <= k < BlockSize ==> raw[k] == if k < i + 1 then Swap(old(raw[k])) else old(raw[k])
      {
        data[3 * i + k] := memory[5 + k];
        assert data[..3 * i + k + 1] == data[..3 * i + k] + [memory[5 + k]];
      }
      assert data[..3 * (i + 1)] == before + memory[5..];
      assert old(raw[..i + 1])[..i] == old(raw[..i]);
    }
    assert data[..3 * BlockSize] == data[..] && old(raw[..BlockSize]) == old(raw[..]);
  }

  lemma PackedIs(n: Word64)
    ensures Packed(n) == Bytes(Swap(n), 8)[5..]
  {
  }

  /** Blocks written one after another are one longer recording. */
  lemma {:induction false} PackedConcat(a: seq<Word64>, b: seq<Word64>)
    ensures PackedAll(a + b) == PackedAll(a) + PackedAll(b)
  {
    hide Packed;
    if b == [] {
      assert a + b == a;
    } else {
      var n := |b| - 1;
      assert (a + b)[..|a + b| - 1] == a + b[..n];
      PackedConcat(a, b[..n]);
    }
  }

  lemma {:induction false} PackedAt(ws: seq<Word64>, k: nat)
    requires k < |ws|
    ensures PackedAll(ws)[3 * k..3 * k + 3] == Packed(ws[k])
  {
    hide Packed;
    var n := |ws| - 1;
    if k < n {
      PackedAt(ws[..n], k);
    }
  }

  // ----- decoding -------------------------------------------------------------------------------------------

  type Stale = s: seq<Byte> | |s| == 5 witness [0, 0, 0, 0, 0]

  /** The number printed for three bytes read over the end of a word whose other bytes were left as they were. */
  function Decoded(stale: Stale, bs: seq<Byte>): real
    requires |bs| == 3
  {
    FromBytesBound(stale + bs);
    Pow2Of64();
    FromFxp(AccelerometerType, Swap(FromBytes(stale + bs)))
  }

  /** Swapping a word in memory leaves the bytes in reverse order. */
  lemma SwapOf(bs: seq<Byte>)
    requires |bs| == 8
    ensures FromBytes(bs) < TwoTo64 && Swap(FromBytes(bs)) == FromBytes(Reversed(bs))
  {
    FromBytesBound(bs);
    Pow2Of64();
    BytesRoundTrip(bs);
  }

  /** A word is its low three bytes and the rest. */
  lemma LowBytes(n: nat, b0: Byte, b1: Byte, b2: Byte, rest: nat)
    requires n == b0 + 256 * (b1 + 256 * (b2 + 256 * rest))
    ensures Low(n, 24) == b0 + 256 * (b1 + 256 * b2)
  {
    hide Low;
    assert Pow2(24) == 0x100_0000 by { EightTimes(0); EightTimes(8); EightTimes(16); }
    LowUnique(n, 24, rest, b0 + 256 * (b1 + 256 * b2));
  }

  lemma FirstThree(bs: seq<Byte>)
    requires |bs| >= 3
    ensures FromBytes(bs) == bs[0] + 256 * (bs[1] + 256 * (bs[2] + 256 * FromBytes(bs[3..])))
  {
    assert bs[1..][1..] == bs[2..] && bs[2..][1..] == bs[3..];
  }

  /** Reading back: the low 24 bits of the recorded word, whatever the stale bytes. */
  lemma UnpackedLow(n: Word64, stale: Stale)
    ensures var m := FromBytes(stale + Packed(n)); m < TwoTo64 && Low(Swap(m), 24) == Low(n, 24)
  {
    hide Low, Swap, FromBytes;
    var b, memory := Bytes(n, 8), stale + Packed(n);
    PackedBytes(n);
    SwapOf(memory);
    var back := Reversed(memory);
    FirstThree(back);
    LowBytes(FromBytes(back), back[0], back[1], back[2], FromBytes(back[3..]));
    LowOfBytes(n);
  }

  lemma PackedBytes(n: Word64)
    ensures Packed(n) == [n / 256 / 256 % 256, n / 256 % 256, n % 256]
  {
    var b := Bytes(n, 8);
    BytesRoundTrip(Reversed(b));
    assert Packed(n) == Reversed(b)[5..];
    assert b == [n % 256] + Bytes(n / 256, 7);
    assert Bytes(n / 256, 7) == [n / 256 % 256] + Bytes(n / 256 / 256, 6);
    assert Bytes(n / 256 / 256, 6)[0] == n / 256 / 256 % 256;
  }

  lemma LowOfBytes(n: nat)
    ensures Low(n, 24) == n % 256 + 256 * (n / 256 % 256 + 256 * (n / 256 / 256 % 256))
  {
    LowBytes(n, n % 256, n / 256 % 256, n / 256 / 256 % 256, n / 256 / 256 / 256);
  }

  /** The numbers printed for a file; what is left after the last whole sample is dropped. */
  function Values(file: seq<Byte>, stale: nat -> Stale): (vs: seq<real>)
    ensures |vs| == |file| / 3
  {
    seq(|file| / 3, k requires 0 <= k < |file| / 3 => Decoded(stale(k), file[3 * k..3 * k + 3]))
  }

  /** Recording any words and decoding the file gives the numbers the words stand for, in order, whatever the
      unread bytes hold. */
  lemma RawDumpRoundTrip(ws: seq<Word64>, stale: nat -> Stale)
    ensures Values(PackedAll(ws), stale) == seq(|ws|, k requires 0 <= k < |ws| => FromFxp(AccelerometerType, ws[k]))
  {
    hide PackedAll, Packed, FromFxp, Decoded;
    var file := PackedAll(ws);
    forall k | 0 <= k < |ws|
      ensures Values(file, stale)[k] == FromFxp(AccelerometerType, ws[k])
    {
      PackedAt(ws, k);
      SampleRoundTrip(ws[k], stale(k));
    }
  }

  lemma SampleRoundTrip(n: Word64, stale: Stale)
    ensures Decoded(stale, Packed(n)) == FromFxp(AccelerometerType, n)
  {
    hide Packed, Low, FromFxp, Swap, FromBytes, Delta, Value, Pow2;
    UnpackedLow(n, stale);
    FromFxpMeans(AccelerometerType, n);
    FromFxpMeans(AccelerometerType, Swap(FromBytes(stale + Packed(n))));
  }

  /** What is printed for a sample: its low 24 bits, as a signed number, in units of 2 to the power of -19. */
  lemma SampleValue(n: Word64, stale: Stale)
    ensures var low := n % 0x100_0000;
            Decoded(stale, Packed(n)) * 524288.0 == (if low >= 0x80_0000 then low - 0x100_0000 else low) as real
  {
    hide Decoded, Packed, Low, FromFxp, Delta, Pow2;
    SampleRoundTrip(n, stale);
    FromFxpMeans(AccelerometerType, n);
    DeltaExactly(AccelerometerType);
    LowOf24(n);
    PowersOf24();
    var v := Value(AccelerometerType, Low(n, 24)) as real;
    Scale(Delta(AccelerometerType), v);
  }

  lemma Scale(d: real, v: real)
    requires d * 524288.0 == 1.0
    ensures (d * v) * 524288.0 == v
  {
    assert (d * v) * 524288.0 == (d * 524288.0) * v;
  }

  lemma LowOf24(n: Word64)
    ensures Low(n, 24) == n % 0x100_0000
  {
    hide Low, Pow2;
    PowersOf24();
    LowUnique(n, 24, n / 0x100_0000, n % 0x100_0000);
  }

  lemma PowersOf24()
    ensures Pow2(24) == 0x100_0000 && Pow2(23) == 0x80_0000 && Pow2(19) == 0x8_0000
  {
    hide Pow2;
    Pow2Of4();
    Pow2Sum(1, 1);
    Pow2Sum(1, 2);
    Pow2Sum(4, 4);
    Pow2Sum(8, 8);
    Pow2Sum(16, 3);
    Pow2Sum(4, 3);
    Pow2Sum(16, 7);
    Pow2Sum(16, 8);
  }

  datatype Token = Number(value: real) | Comma | NewLine

  /** Rows of eight numbers. */
  function Printed(vs: seq<real>): (ts: seq<Token>)
    ensures |ts| == 2 * |vs|
  {
    if vs == [] then []
    else Printed(vs[..|vs| - 1]) + [Number(vs[|vs| - 1]), if |vs| % 8 == 0 then NewLine else Comma]
  }

  lemma {:induction false} RowsOfEight(vs: seq<real>, k: nat)
    requires k < |vs|
    ensures Printed(vs)[2 * k] == Number(vs[k])
    ensures Printed(vs)[2 * k + 1] == if k % 8 == 7 then NewLine else Comma
  {
    var n := |vs| - 1;
    if k < n {
      RowsOfEight(vs[..n], k);
    }
  }

  /** The decoding loop over one file. */
  method DecodeFile(file: seq<Byte>, stale: nat -> Stale) returns (out: seq<Token>)
    ensures out == Printed(Values(file, stale))
  {
    hide Decoded;
    out := [];
    var at, column := 0, 0;
    ghost var n := 0;
    while at + 3 <= |file|
      invariant at == 3 * n <= |file| && column == n % 8
      invariant out == Printed(Values(file, stale)[..n])
    {
      var value := Decoded(stale(at / 3), file[at..at + 3]);
      out := out + [Number(value)];
      at := at + 3;
      column := column + 1;
      if column == 8 {
        out := out + [NewLine];
        column := 0;
      } else {
        out := out + [Comma];
      }
      assert Values(file, stale)[..n + 1][..n] == Values(file, stale)[..n];
      n := n + 1;
    }
    assert Values(file, stale)[..n] == Values(file, stale);
  }
}
