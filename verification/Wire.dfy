/** Messages on the wire: a header of fixed layout whose sizes and identities are in the
    byte order named by the header itself, followed by samples in that same order. */
module Wire {
  import opened ByteOrder

  // ---- 32-bit integers ----

  predicate Int32(n: int) {
    -0x8000_0000 <= n < 0x8000_0000
  }

  /** Two's complement, least significant byte first. */
  function LittleEndian(n: int): (w: seq<Byte>)
    ensures |w| == 4
  {
    var u := if n < 0 then n + 0x1_0000_0000 else n;
    [u % 256, u / 256 % 256, u / 0x1_0000 % 256, u / 0x100_0000 % 256]
  }

  /** The bytes of an integer in the memory of a host. */
  function Word(big: bool, n: int): (w: seq<Byte>)
    ensures |w| == 4
  {
    if big then Reversed(LittleEndian(n)) else LittleEndian(n)
  }

  function FromLittleEndian(w: seq<Byte>): int
    requires |w| == 4
  {
    var u := w[0] as int + 256 * (w[1] as int) + 0x1_0000 * (w[2] as int) + 0x100_0000 * (w[3] as int);
    if u < 0x8000_0000 then u else u - 0x1_0000_0000
  }

  /** What a host reads from four bytes of its memory, in two's complement. */
  function Value(big: bool, w: seq<Byte>): int
    requires |w| == 4
  {
    FromLittleEndian(if big then Reversed(w) else w)
  }

  lemma Digits(n: int)
    requires 0 <= n < 0x1_0000_0000
    ensures n % 256 + 256 * (n / 256 % 256) + 0x1_0000 * (n / 0x1_0000 % 256) + 0x100_0000 * (n / 0x100_0000 % 256) == n
  {
    assert n / 0x1_0000 == n / 256 / 256;
    assert n / 0x100_0000 == n / 256 / 256 / 256;
  }

  /** Writing an integer and reading it back on a host of the same byte order. */
  lemma ValueOfWord(big: bool, n: int)
    requires Int32(n)
    ensures Value(big, Word(big, n)) == n
  {
    ReversedTwice(LittleEndian(n));
    Digits(if n < 0 then n + 0x1_0000_0000 else n);
  }

  /** Reading the swapped bytes on a host of the other byte order. */
  lemma ValueSwapped(big: bool, w: seq<Byte>)
    requires |w| == 4
    ensures Value(!big, Reversed(w)) == Value(big, w)
  {
    ReversedTwice(w);
  }

  // ---- headers ----

  const SIGNATURE: seq<Byte> := [84, 76, 77, 95, 48, 49, 48, 49]
  const TIME_DATA: Byte := 1
  const HEADER_SIZE := 24

  /** The header by its parts: signature, kind, byte order mark and padding in `prefix`,
      then three integers. */
  datatype Header = Header(prefix: seq<Byte>, dataSize: seq<Byte>, interfaceID: seq<Byte>, parameterID: seq<Byte>)

  predicate Laid(h: Header) {
    |h.prefix| == 12 && |h.dataSize| == 4 && |h.interfaceID| == 4 && |h.parameterID| == 4
  }

  function Bytes(h: Header): seq<Byte> {
    h.prefix + h.dataSize + h.interfaceID + h.parameterID
  }

  function HeaderOf(b: seq<Byte>): (h: Header)
    requires |b| >= HEADER_SIZE
    ensures Laid(h)
  {
    Header(b[..12], b[12..16], b[16..20], b[20..24])
  }

  lemma HeaderRoundTrip(h: Header, rest: seq<Byte>)
    requires Laid(h)
    ensures HeaderOf(Bytes(h) + rest) == h && (Bytes(h) + rest)[HEADER_SIZE..] == rest
  {
    var b := Bytes(h) + rest;
    assert b[..12] == h.prefix && b[12..16] == h.dataSize && b[16..20] == h.interfaceID && b[20..24] == h.parameterID;
  }

  /** The header was written on a host with the most significant byte first. */
  predicate FromBig(h: Header)
    requires Laid(h)
  {
    h.prefix[9] != 0
  }

  /** Size and interface identity swapped when the header is from a host of the other
      byte order. The parameter identity is never swapped. */
  function Adjusted(big: bool, h: Header): (r: Header)
    requires Laid(h)
    ensures Laid(r) && FromBig(r) == FromBig(h)
  {
    if big != FromBig(h) then h.(dataSize := Reversed(h.dataSize), interfaceID := Reversed(h.interfaceID)) else h
  }

  /** The bytes a host of the given byte order sends for a message in its memory. */
  function Sent(big: bool, h: Header, data: seq<Byte>): seq<Byte>
    requires Laid(h) && Value(big, h.dataSize) <= |data|
  {
    Bytes(Adjusted(big, h)) + if Value(big, h.dataSize) > 0 then data[..Value(big, h.dataSize)] else []
  }

  /** `Waiting` stands for a receiver that does not return because bytes are missing: it
      blocks while the socket is open, and asks again and again once that is closed. */
  datatype Received =
    | Closed
    | Waiting
    | WrongSignature
    | NegativeSize
    | Got(header: Header, data: seq<Byte>, rest: seq<Byte>)

  /** What a host of the given byte order makes of the bytes that have arrived. */
  function Taken(big: bool, stream: seq<Byte>): Received {
    if stream == [] then Closed
    else if |stream| < HEADER_SIZE then Waiting
    else
      var h := Adjusted(big, HeaderOf(stream));
      var size := Value(big, h.dataSize);
      if h.prefix[..8] != SIGNATURE then WrongSignature
      else if size < 0 then NegativeSize
      else if HEADER_SIZE + size > |stream| then Waiting
      else Got(h, stream[HEADER_SIZE..HEADER_SIZE + size], stream[HEADER_SIZE + size..])
  }

  /** Any host reads off the wire the message that any other host has sent, up to the byte
      order of the integers, and leaves later messages untouched. */
  lemma SendThenReceive(from: bool, to: bool, h: Header, data: seq<Byte>, rest: seq<Byte>)
    requires Laid(h) && 0 <= Value(from, h.dataSize) <= |data| && h.prefix[..8] == SIGNATURE
    ensures
      var got := Taken(to, Sent(from, h, data) + rest);
      && got.Got? && got.rest == rest && got.data == data[..Value(from, h.dataSize)]
      && Laid(got.header) && got.header.prefix == h.prefix && got.header.parameterID == h.parameterID
      && got.header == Adjusted(to, Adjusted(from, h))
      && Value(to, got.header.dataSize) == Value(from, h.dataSize)
      && Value(to, got.header.interfaceID) == Value(from, h.interfaceID)
  {
    var size := Value(from, h.dataSize);
    var g := Adjusted(from, h);
    assert Sent(from, h, data) == Bytes(g) + data[..size];
    var body := data[..size] + rest;
    var stream := Sent(from, h, data) + rest;
    assert stream == Bytes(g) + body;
    HeaderRoundTrip(g, body);
    AdjustTwice(from, to, h);
    assert body[..size] == data[..size] && body[size..] == rest;
    assert stream[HEADER_SIZE..HEADER_SIZE + size] == stream[HEADER_SIZE..][..size];
    assert stream[HEADER_SIZE + size..] == stream[HEADER_SIZE..][size..];
  }

  lemma AdjustTwice(from: bool, to: bool, h: Header)
    requires Laid(h)
    ensures
      var r := Adjusted(to, Adjusted(from, h));
      && r.prefix == h.prefix && r.parameterID == h.parameterID
      && Value(to, r.dataSize) == Value(from, h.dataSize)
      && Value(to, r.interfaceID) == Value(from, h.interfaceID)
  {
    ReversedTwice(h.dataSize);
    ReversedTwice(h.interfaceID);
    ValueSwapped(from, h.dataSize);
    ValueSwapped(from, h.interfaceID);
  }

  // ---- samples ----

  /** A double, by its bytes from the least significant one on. */
  type Double = d: seq<Byte> | |d| == 8 witness [0, 0, 0, 0, 0, 0, 0, 0]

  datatype RawSample = RawSample(time: Double, position: Double, velocity: Double, wave: Double)

  const DOUBLE_SIZE := 8
  const SAMPLE_SIZE := 32

  function InMemory(big: bool, d: Double): (b: seq<Byte>)
    ensures |b| == DOUBLE_SIZE
  {
    if big then Reversed(d) else d
  }

  function SampleBytes(big: bool, s: RawSample): (b: seq<Byte>)
    ensures |b| == SAMPLE_SIZE
  {
    InMemory(big, s.time) + InMemory(big, s.position) + InMemory(big, s.velocity) + InMemory(big, s.wave)
  }

  /** Samples in the memory of a host. */
  function Packed(big: bool, samples: seq<RawSample>): (b: seq<Byte>)
    ensures |b| == SAMPLE_SIZE * |samples|
  {
    if samples == [] then [] else SampleBytes(big, samples[0]) + Packed(big, samples[1..])
  }

  function SampleOf(big: bool, b: seq<Byte>): RawSample
    requires |b| == SAMPLE_SIZE
  {
    RawSample(InMemory(big, b[..8]), InMemory(big, b[8..16]), InMemory(big, b[16..24]), InMemory(big, b[24..]))
  }

  function Parsed(big: bool, b: seq<Byte>): seq<RawSample> {
    if |b| < SAMPLE_SIZE then [] else [SampleOf(big, b[..SAMPLE_SIZE])] + Parsed(big, b[SAMPLE_SIZE..])
  }

  /** The samples that a host reads from a message. */
  function Unpacked(big: bool, h: Header, data: seq<Byte>): seq<RawSample>
    requires Laid(h)
  {
    Parsed(big, if big != FromBig(h) then Swapped(data, DOUBLE_SIZE, |data| / DOUBLE_SIZE) else data)
  }

  lemma SampleRoundTrip(big: bool, s: RawSample)
    ensures SampleOf(big, SampleBytes(big, s)) == s
  {
    var b := SampleBytes(big, s);
    assert b[..8] == InMemory(big, s.time) && b[8..16] == InMemory(big, s.position);
    assert b[16..24] == InMemory(big, s.velocity) && b[24..] == InMemory(big, s.wave);
    ReversedTwice(s.time);
    ReversedTwice(s.position);
    ReversedTwice(s.velocity);
    ReversedTwice(s.wave);
  }

  lemma {:induction false} ParsedPacked(big: bool, samples: seq<RawSample>)
    ensures Parsed(big, Packed(big, samples)) == samples
  {
    if samples != [] {
      var head, tail := SampleBytes(big, samples[0]), Packed(big, samples[1..]);
      assert (head + tail)[..SAMPLE_SIZE] == head && (head + tail)[SAMPLE_SIZE..] == tail;
      SampleRoundTrip(big, samples[0]);
      ParsedPacked(big, samples[1..]);
    }
  }

  lemma SwapHead(d: Double, big: bool, tail: seq<Byte>, items: nat)
    requires DOUBLE_SIZE * items <= |tail|
    ensures Swapped(InMemory(big, d) + tail, DOUBLE_SIZE, items + 1)
         == InMemory(!big, d) + Swapped(tail, DOUBLE_SIZE, items)
  {
    SwapNext([], InMemory(big, d), tail, items + 1);
    ReversedTwice(d);
    assert forall s: seq<Byte> :: [] + s == s;
  }

  lemma Nested(a: seq<Byte>, b: seq<Byte>, c: seq<Byte>, d: seq<Byte>, tail: seq<Byte>)
    ensures a + b + c + d + tail == a + (b + (c + (d + tail)))
  {
  }

  lemma SwapSample(big: bool, s: RawSample, tail: seq<Byte>, n: nat)
    requires DOUBLE_SIZE * n <= |tail|
    ensures Swapped(SampleBytes(big, s) + tail, DOUBLE_SIZE, n + 4)
         == SampleBytes(!big, s) + Swapped(tail, DOUBLE_SIZE, n)
  {
    var w := InMemory(big, s.wave) + tail;
    var v := InMemory(big, s.velocity) + w;
    var p := InMemory(big, s.position) + v;
    SwapHead(s.wave, big, tail, n);
    SwapHead(s.velocity, big, w, n + 1);
    SwapHead(s.position, big, v, n + 2);
    SwapHead(s.time, big, p, n + 3);
    Nested(InMemory(big, s.time), InMemory(big, s.position), InMemory(big, s.velocity), InMemory(big, s.wave), tail);
    Nested(InMemory(!big, s.time), InMemory(!big, s.position), InMemory(!big, s.velocity), InMemory(!big, s.wave),
           Swapped(tail, DOUBLE_SIZE, n));
  }

  /** Swapping packed samples double by double turns them into the other byte order. */
  lemma {:induction false} SwappedPacked(big: bool, samples: seq<RawSample>)
    ensures Swapped(Packed(big, samples), DOUBLE_SIZE, 4 * |samples|) == Packed(!big, samples)
  {
    if samples != [] {
      SwappedPacked(big, samples[1..]);
      SwapSample(big, samples[0], Packed(big, samples[1..]), 4 * |samples[1..]|);
    }
  }

  /** The header of a time-data message as its sender fills it in. */
  function TimeDataHeader(big: bool, interfaceID: int, count: nat, parameterID: seq<Byte>,
                          padding: seq<Byte>): (h: Header)
    requires |parameterID| == 4 && |padding| == 2
    ensures Laid(h) && FromBig(h) == big && h.prefix[..8] == SIGNATURE
  {
    Header(SIGNATURE + [TIME_DATA, if big then 1 else 0] + padding,
           Word(big, SAMPLE_SIZE * count), Word(big, interfaceID), parameterID)
  }

  function Readdressed(big: bool, h: Header, interfaceID: int): (r: Header)
    requires Laid(h)
    ensures Laid(r)
  {
    h.(interfaceID := Word(big, interfaceID))
  }

  /** For every combination of byte orders of the sender, the manager and the receiver, the
      receiver gets the samples, their size and the identity the manager put in. */
  lemma RelayIsNeutral(sender: bool, manager: bool, receiver: bool, source: int, dest: int,
                       samples: seq<RawSample>, parameterID: seq<Byte>, padding: seq<Byte>,
                       later: seq<Byte>, last: seq<Byte>)
    requires |parameterID| == 4 && |padding| == 2
    requires Int32(source) && Int32(dest) && Int32(SAMPLE_SIZE * |samples|)
    ensures
      var h := TimeDataHeader(sender, source, |samples|, parameterID, padding);
      && Value(sender, h.dataSize) == |Packed(sender, samples)|
      && var m := Taken(manager, Sent(sender, h, Packed(sender, samples)) + later);
      && m.Got? && Value(manager, m.header.interfaceID) == source && m.rest == later
      && Value(manager, m.header.dataSize) == |m.data|
      && var g := Readdressed(manager, m.header, dest);
      && var r := Taken(receiver, Sent(manager, g, m.data) + last);
      && r.Got? && Value(receiver, r.header.interfaceID) == dest && r.rest == last
      && Value(receiver, r.header.dataSize) == SAMPLE_SIZE * |samples| == |r.data|
      && Unpacked(receiver, r.header, r.data) == samples
  {
    var h := TimeDataHeader(sender, source, |samples|, parameterID, padding);
    var data := Packed(sender, samples);
    ValueOfWord(sender, SAMPLE_SIZE * |samples|);
    ValueOfWord(sender, source);
    SendThenReceive(sender, manager, h, data, later);
    assert data[..|data|] == data;
    var m := Taken(manager, Sent(sender, h, data) + later);
    var g := Readdressed(manager, m.header, dest);
    ValueOfWord(manager, dest);
    SendThenReceive(manager, receiver, g, data, last);
    UnpackedPacked(sender, receiver, g, samples);
  }

  lemma UnpackedPacked(sender: bool, receiver: bool, h: Header, samples: seq<RawSample>)
    requires Laid(h) && FromBig(h) == sender
    ensures Unpacked(receiver, h, Packed(sender, samples)) == samples
  {
    SwappedPacked(sender, samples);
    ParsedPacked(receiver, samples);
    assert |Packed(sender, samples)| / DOUBLE_SIZE == 4 * |samples|;
  }

  // ---- the communication functions ----

  /** A connected socket: bytes that have arrived and bytes that were sent. */
  class Socket {
    var incoming: seq<Byte>
    var outgoing: seq<Byte>

    /** Gives some of the bytes that have arrived, possibly fewer than asked for. */
    method Recv(max: nat) returns (got: seq<Byte>)
      modifies this`incoming
      ensures got + incoming == old(incoming) && |got| <= max
      ensures got == [] ==> max == 0 || old(incoming) == []
    {
      if max == 0 || incoming == [] {
        return [];
      }
      var n: nat :| 1 <= n <= max && n <= |incoming|;
      got, incoming := incoming[..n], incoming[n..];
    }

    method Send(bytes: seq<Byte>)
      modifies this`outgoing
      ensures outgoing == old(outgoing) + bytes
    {
      outgoing := outgoing + bytes;
    }
  }

  /** Receives `count` bytes into a buffer, in as many pieces as it takes, or as many as
      there are. */
  method ReceiveAll(socket: Socket, buff: array<Byte>, count: nat) returns (bcount: nat)
    requires count <= buff.Length
    modifies socket`incoming, buff
    ensures bcount == if count <= |old(socket.incoming)| then count else |old(socket.incoming)|
    ensures buff[..bcount] == old(socket.incoming)[..bcount] && socket.incoming == old(socket.incoming)[bcount..]
  {
    bcount := 0;
    while bcount < count
      invariant bcount <= count && buff[..bcount] + socket.incoming == old(socket.incoming)
      decreases count - bcount
    {
      var got := socket.Recv(count - bcount);
      if got == [] {
        break;
      }
      ghost var before := buff[..bcount];
      Store(buff, bcount, got);
      assert before + got + socket.incoming == before + (got + socket.incoming);
      bcount := bcount + |got|;
    }
  }

  method Store(buff: array<Byte>, at: nat, bytes: seq<Byte>)
    requires at + |bytes| <= buff.Length
    modifies buff
    ensures buff[..at + |bytes|] == old(buff[..at]) + bytes
  {
    forall k | 0 <= k < |bytes| {
      buff[at + k] := bytes[k];
    }
  }

  /** A message in memory. The data buffer may be larger than the message needs. */
  class TLMMessage {
    var header: array<Byte>
    var data: array<Byte>

    ghost predicate Valid()
      reads this
    {
      header.Length == HEADER_SIZE && header != data
    }

    ghost function Head(): (h: Header)
      requires Valid()
      reads this, header
    {
      HeaderOf(header[..])
    }

    constructor ()
      ensures Valid() && fresh(header) && fresh(data)
    {
      header := new Byte[HEADER_SIZE](_ => 0);
      data := new Byte[0];
    }

    /** Makes room for the data and receives it. */
    method ReceiveData(socket: Socket, size: nat) returns (complete: bool)
      requires Valid()
      modifies this`data, data, socket`incoming
      ensures Valid() && size <= data.Length && (data == old(data) || fresh(data))
      ensures complete <==> size <= |old(socket.incoming)|
      ensures complete ==>
        data[..size] == old(socket.incoming)[..size] && socket.incoming == old(socket.incoming)[size..]
    {
      complete := true;
      if size > 0 {
        if data.Length < size {
          data := new Byte[size];
        }
        var bcount := ReceiveAll(socket, data, size);
        complete := bcount == size;
      }
    }

    method SetHeader(h: Header)
      requires Valid() && Laid(h)
      modifies header
      ensures Head() == h
    {
      HeaderRoundTrip(h, []);
      Store(header, 0, Bytes(h));
      assert header[..] == header[..|Bytes(h)|] == Bytes(h) + [];
    }

    /** Fixes the byte order of size and identity in place. */
    method Adjust(big: bool)
      requires Valid()
      modifies header
      ensures Head() == Adjusted(big, old(Head()))
    {
      if big != (header[9] != 0) {
        ghost var b := header[..];
        SwapField(header, 12);
        ghost var c := header[..];
        SwapField(header, 16);
        FieldsSwapped(b, c, header[..]);
      }
    }
  }

  lemma FieldsSwapped(b: seq<Byte>, c: seq<Byte>, d: seq<Byte>)
    requires |b| == |c| == |d| == HEADER_SIZE
    requires c == b[..12] + Reversed(b[12..16]) + b[16..] && d == c[..16] + Reversed(c[16..20]) + c[20..]
    ensures HeaderOf(d) == HeaderOf(b).(dataSize := Reversed(b[12..16]), interfaceID := Reversed(b[16..20]))
  {
    assert c[16..20] == b[16..20] && c[20..] == b[20..] && c[12..16] == Reversed(b[12..16]);
    assert d[..12] == b[..12] && d[12..16] == c[12..16] && d[16..20] == Reversed(c[16..20]) && d[20..24] == b[20..24];
  }

  /** Swaps four bytes of a buffer. */
  method SwapField(b: array<Byte>, at: nat)
    requires at + 4 <= b.Length
    modifies b
    ensures b[..] == old(b[..at]) + Reversed(old(b[at..at + 4])) + old(b[at + 4..])
  {
    ghost var rest := b[at..];
    ByteSwap(b, at, 4, 1);
    assert Swapped(rest[4..], 4, 0) == rest[4..];
    assert Swapped(rest, 4, 1) == Reversed(rest[..4]) + rest[4..];
  }

  method SendMessage(big: bool, mess: TLMMessage, socket: Socket)
    requires mess.Valid() && Value(big, mess.Head().dataSize) <= mess.data.Length
    modifies mess.header, socket`outgoing
    ensures socket.outgoing == old(socket.outgoing) + Sent(big, old(mess.Head()), mess.data[..])
    ensures mess.Head() == Adjusted(big, old(mess.Head()))
  {
    var dataSize := Value(big, mess.header[12..16]);
    mess.Adjust(big);
    socket.Send(mess.header[..]);
    if dataSize > 0 {
      socket.Send(mess.data[..dataSize]);
    }
  }

  /** Reads one message from a socket: the message, or that the socket is closed, that the
      message is incomplete, or that its signature or size is wrong, which ends the program. */
  method ReceiveMessage(big: bool, mess: TLMMessage, socket: Socket) returns (r: Received)
    requires mess.Valid()
    modifies mess, mess.header, mess.data, socket`incoming
    ensures mess.Valid() && r == Taken(big, old(socket.incoming))
    ensures r.Got? ==>
      && mess.Head() == r.header && |r.data| <= mess.data.Length && mess.data[..|r.data|] == r.data
      && socket.incoming == r.rest
  {
    ghost var stream := socket.incoming;
    var bcount := ReceiveAll(socket, mess.header, HEADER_SIZE);
    if bcount == 0 {
      return Closed;
    }
    if bcount < HEADER_SIZE {
      return Waiting;
    }
    HeaderPrefix(stream, mess.header[..]);
    if mess.header[..8] != SIGNATURE {
      return WrongSignature;
    }
    mess.Adjust(big);
    var size := Value(big, mess.header[12..16]);
    if size < 0 {
      return NegativeSize;
    }
    var complete := mess.ReceiveData(socket, size);
    if !complete {
      return Waiting;
    }
    BodySlice(stream, size);
    r := Got(HeaderOf(mess.header[..]), mess.data[..size], socket.incoming);
  }

  lemma HeaderPrefix(stream: seq<Byte>, head: seq<Byte>)
    requires |stream| >= HEADER_SIZE == |head| && head == stream[..HEADER_SIZE]
    ensures HeaderOf(head) == HeaderOf(stream) && head[..8] == HeaderOf(stream).prefix[..8]
  {
  }

  lemma BodySlice(stream: seq<Byte>, size: nat)
    requires HEADER_SIZE + size <= |stream|
    ensures stream[HEADER_SIZE..][..size] == stream[HEADER_SIZE..HEADER_SIZE + size]
    ensures stream[HEADER_SIZE..][size..] == stream[HEADER_SIZE + size..]
  {
  }

  /** Fills in a message with samples. */
  method PackTimeDataMessage1D(big: bool, interfaceID: int, samples: seq<RawSample>, mess: TLMMessage)
    requires mess.Valid() && Int32(SAMPLE_SIZE * |samples|) && Int32(interfaceID)
    requires mess.header[..8] == SIGNATURE
    modifies mess, mess.header
    ensures mess.Valid() && mess.data[..] == Packed(big, samples)
    ensures mess.Head() == TimeDataHeader(big, interfaceID, |samples|,
                                          old(mess.header[20..24]), old(mess.header[10..12]))
  {
    var b := Packed(big, samples);
    var h := TimeDataHeader(big, interfaceID, |samples|, mess.header[20..24], mess.header[10..12]);
    mess.SetHeader(h);
    mess.data := new Byte[|b|];
    Store(mess.data, 0, b);
    assert mess.data[..] == mess.data[..|b|];
  }

  /** Appends the samples of a message to a queue. */
  method UnpackTimeDataMessage1D(big: bool, mess: TLMMessage, data: seq<RawSample>) returns (r: seq<RawSample>)
    requires mess.Valid() && 0 <= Value(big, mess.Head().dataSize) <= mess.data.Length
    modifies mess.data
    ensures r == data + Unpacked(big, mess.Head(), old(mess.data[..Value(big, mess.Head().dataSize)]))
  {
    var size := Value(big, mess.header[12..16]);
    SwapBody(big, mess, size);
    ghost var body := mess.data[..size];
    r := data;
    var i, next := 0, 0;
    while i < size / SAMPLE_SIZE
      invariant i <= size / SAMPLE_SIZE && next == SAMPLE_SIZE * i && mess.data[..size] == body
      invariant r + Parsed(big, body[next..]) == data + Parsed(big, body)
    {
      ParsedNext(big, body, next);
      SliceOfPrefix(mess.data[..], size, next);
      var sample := SampleOf(big, mess.data[next..next + SAMPLE_SIZE]);
      ghost var later := Parsed(big, body[next + SAMPLE_SIZE..]);
      assert r + ([sample] + later) == (r + [sample]) + later;
      r := r + [sample];
      i, next := i + 1, next + SAMPLE_SIZE;
    }
  }

  lemma SliceOfPrefix(d: seq<Byte>, size: nat, k: nat)
    requires k + SAMPLE_SIZE <= size <= |d|
    ensures d[..size][k..k + SAMPLE_SIZE] == d[k..k + SAMPLE_SIZE]
  {
  }

  lemma ParsedNext(big: bool, b: seq<Byte>, k: nat)
    requires k + SAMPLE_SIZE <= |b|
    ensures Parsed(big, b[k..]) == [SampleOf(big, b[k..k + SAMPLE_SIZE])] + Parsed(big, b[k + SAMPLE_SIZE..])
  {
    assert b[k..][..SAMPLE_SIZE] == b[k..k + SAMPLE_SIZE] && b[k..][SAMPLE_SIZE..] == b[k + SAMPLE_SIZE..];
  }

  /** Brings the samples of a message to the byte order of the host. */
  method SwapBody(big: bool, mess: TLMMessage, size: nat)
    requires mess.Valid() && size <= mess.data.Length
    modifies mess.data
    ensures mess.data[..size] ==
      if big != FromBig(mess.Head()) then Swapped(old(mess.data[..size]), DOUBLE_SIZE, size / DOUBLE_SIZE)
      else old(mess.data[..size])
  {
    if big != (mess.header[9] != 0) {
      ghost var body, rest := mess.data[..size], mess.data[size..];
      assert mess.data[0..] == body + rest;
      ByteSwap(mess.data, 0, DOUBLE_SIZE, size / DOUBLE_SIZE);
      SwappedPrefix(body, rest, DOUBLE_SIZE, size / DOUBLE_SIZE);
    }
  }
}
