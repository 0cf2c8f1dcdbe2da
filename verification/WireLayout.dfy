/** Messages byte by byte: what goes over the wire, and what a receiver makes of any bytes. */
module WireLayout {
  import opened ByteOrder
  import opened Wire

  /** Four bytes as an unsigned number, the most significant one first or last. */
  function Unsigned(big: bool, w: seq<Byte>): int
    requires |w| == 4
  {
    if big then w[3] as int + 0x100 * w[2] as int + 0x1_0000 * w[1] as int + 0x100_0000 * w[0] as int
    else w[0] as int + 0x100 * w[1] as int + 0x1_0000 * w[2] as int + 0x100_0000 * w[3] as int
  }

  lemma WordBytes(big: bool, n: int)
    requires Int32(n)
    ensures Unsigned(big, Word(big, n)) == if n < 0 then n + 0x1_0000_0000 else n
  {
    var u := if n < 0 then n + 0x1_0000_0000 else n;
    Digits(u);
    var w := LittleEndian(n);
    assert w[0] == u % 256 && w[1] == u / 256 % 256 && w[2] == u / 0x1_0000 % 256 && w[3] == u / 0x100_0000 % 256;
    assert u / 0x100_0000 < 256;
  }

  /** The header of a time-data message as it is sent: "TLM_0101", the kind, the byte order mark,
      two bytes of padding, then size, interface and parameter in the byte order of the sender. */
  lemma HeaderSent(big: bool, interfaceID: int, samples: seq<RawSample>, parameterID: seq<Byte>, padding: seq<Byte>)
    requires |parameterID| == 4 && |padding| == 2 && Int32(interfaceID) && Int32(32 * |samples|)
    ensures
      var h := TimeDataHeader(big, interfaceID, |samples|, parameterID, padding);
      && Value(big, h.dataSize) == 32 * |samples|
      && var b := Sent(big, h, Packed(big, samples));
      && |b| == 24 + 32 * |samples| && b[24..] == Packed(big, samples)
      && b[..12] == [84, 76, 77, 95, 48, 49, 48, 49, 1, if big then 1 else 0] + padding
      && Unsigned(big, b[12..16]) == 32 * |samples|
      && Unsigned(big, b[16..20]) == (if interfaceID < 0 then interfaceID + 0x1_0000_0000 else interfaceID)
      && b[20..24] == parameterID
  {
    var h := TimeDataHeader(big, interfaceID, |samples|, parameterID, padding);
    var data := Packed(big, samples);
    ValueOfWord(big, 32 * |samples|);
    WordBytes(big, 32 * |samples|);
    WordBytes(big, interfaceID);
    assert data[..|data|] == data;
    assert Sent(big, h, data) == Bytes(h) + data;
    HeaderRoundTrip(h, data);
  }

  /** A double in memory, byte by byte. */
  lemma DoubleBytes(big: bool, d: Double, j: nat)
    requires j < 8
    ensures InMemory(big, d)[j] == d[if big then 7 - j else j]
  {
  }

  /** The samples as they are sent: time, position, velocity and wave of one after the other. */
  lemma {:induction false} SampleSent(big: bool, samples: seq<RawSample>, k: nat, j: nat)
    requires k < |samples| && j < 8
    ensures
      var b, at := Packed(big, samples), if big then 7 - j else j;
      && b[32 * k + j] == samples[k].time[at] && b[32 * k + 8 + j] == samples[k].position[at]
      && b[32 * k + 16 + j] == samples[k].velocity[at] && b[32 * k + 24 + j] == samples[k].wave[at]
  {
    if k == 0 {
      FirstSent(big, samples[0], Packed(big, samples[1..]), j);
    } else {
      SampleSent(big, samples[1..], k - 1, j);
      Behind(SampleBytes(big, samples[0]), Packed(big, samples[1..]), 32 * (k - 1) + j);
    }
  }

  lemma FirstSent(big: bool, s: RawSample, tail: seq<Byte>, j: nat)
    requires j < 8
    ensures
      var b, at := SampleBytes(big, s) + tail, if big then 7 - j else j;
      b[j] == s.time[at] && b[8 + j] == s.position[at] && b[16 + j] == s.velocity[at] && b[24 + j] == s.wave[at]
  {
    DoubleBytes(big, s.time, j);
    DoubleBytes(big, s.position, j);
    DoubleBytes(big, s.velocity, j);
    DoubleBytes(big, s.wave, j);
    FirstSample(InMemory(big, s.time), InMemory(big, s.position), InMemory(big, s.velocity), InMemory(big, s.wave),
                tail, j);
  }

  lemma Behind(head: seq<Byte>, tail: seq<Byte>, i: nat)
    requires |head| == 32 && i + 24 < |tail|
    ensures
      var all := head + tail;
      && all[32 + i] == tail[i] && all[40 + i] == tail[8 + i]
      && all[48 + i] == tail[16 + i] && all[56 + i] == tail[24 + i]
  {
  }

  lemma FirstSample(a: seq<Byte>, b: seq<Byte>, c: seq<Byte>, d: seq<Byte>, tail: seq<Byte>, j: nat)
    requires |a| == |b| == |c| == |d| == 8 && j < 8
    ensures
      var all := a + b + c + d + tail;
      all[j] == a[j] && all[8 + j] == b[j] && all[16 + j] == c[j] && all[24 + j] == d[j]
  {
  }

  /** What a receiver makes of the bytes that have arrived, whatever they are. The size is read in
      the byte order that the mark in the header names. */
  lemma WhatIsTaken(big: bool, stream: seq<Byte>)
    ensures Taken(big, stream) == Closed <==> stream == []
    ensures 0 < |stream| < 24 ==> Taken(big, stream) == Waiting
    ensures |stream| >= 24 ==>
      var size := Value(stream[9] != 0, stream[12..16]);
      if stream[..8] != [84, 76, 77, 95, 48, 49, 48, 49] then Taken(big, stream) == WrongSignature
      else if size < 0 then Taken(big, stream) == NegativeSize
      else if |stream| < 24 + size then Taken(big, stream) == Waiting
      else
        && Taken(big, stream).Got? && Taken(big, stream).data == stream[24..24 + size]
        && Taken(big, stream).rest == stream[24 + size..]
        && Value(big, Taken(big, stream).header.interfaceID) == Value(stream[9] != 0, stream[16..20])
        && Taken(big, stream).header.parameterID == stream[20..24]
  {
    if |stream| >= 24 {
      var h := HeaderOf(stream);
      assert h.prefix[..8] == stream[..8] && h.prefix[9] == stream[9];
      ValueSwapped(!big, h.dataSize);
      ValueSwapped(!big, h.interfaceID);
    }
  }

  /** The sign of a number is the highest bit of its four bytes. */
  lemma ValueIs(big: bool, w: seq<Byte>)
    requires |w| == 4
    ensures
      var u := Unsigned(big, w);
      Value(big, w) == if u < 0x8000_0000 then u else u - 0x1_0000_0000
  {
  }
}
