/**
 WebSocket frames and the text reader of the app-server transport (internal/appserver/client.go),
 after sections 5.2, 5.3 and 5.5 of RFC 6455.
 */
module WebSocket {
  import opened Options
  import opened ByteStrings

  type Key = k: seq<Byte> | |k| == 4 witness [0, 0, 0, 0]

  const MAX_PAYLOAD: nat := 128 * 1024 * 1024

  // The reader refuses longer payloads; Go cannot hold one of 2^64 bytes.
  const LENGTH_LIMIT: nat := 0x1_0000_0000_0000_0000

  const TEXT: Byte := 0x1
  const CLOSE: Byte := 0x8
  const PING: Byte := 0x9
  const PONG: Byte := 0xA

  // ---- Big-endian lengths ----

  function BigEndian(n: nat, width: nat): (bytes: seq<Byte>)
    ensures |bytes| == width
  {
    if width == 0 then [] else BigEndian(n / 256, width - 1) + [n % 256]
  }

  function FromBigEndian(bytes: seq<Byte>): nat {
    if bytes == [] then 0
    else FromBigEndian(bytes[..|bytes| - 1]) * 256 + bytes[|bytes| - 1] as int
  }

  function Pow256(width: nat): nat {
    if width == 0 then 1 else 256 * Pow256(width - 1)
  }

  lemma {:induction false} BigEndianRoundTrip(n: nat, width: nat)
    requires n < Pow256(width)
    ensures FromBigEndian(BigEndian(n, width)) == n
  {
    if width == 0 {
    } else {
      BigEndianRoundTrip(n / 256, width - 1);
      var bytes := BigEndian(n, width);
      assert bytes[..|bytes| - 1] == BigEndian(n / 256, width - 1);
    }
  }

  lemma {:induction false} FromBigEndianBound(bytes: seq<Byte>)
    ensures FromBigEndian(bytes) < Pow256(|bytes|)
  {
    if bytes == [] {
    } else {
      FromBigEndianBound(bytes[..|bytes| - 1]);
    }
  }

  lemma Pow256Values()
    ensures Pow256(2) == 0x1_0000 && Pow256(8) == LENGTH_LIMIT
  {
    assert Pow256(4) == 0x1_0000_0000;
    assert Pow256(6) == 0x1_0000_0000_0000;
  }

  // ---- Encoding ----

  function LengthField(n: nat): (bytes: seq<Byte>)
    ensures |bytes| == if n <= 125 then 1 else if n <= 0xFFFF then 3 else 9
  {
    if n <= 125 then [n]
    else if n <= 0xFFFF then [126] + BigEndian(n, 2)
    else [127] + BigEndian(n, 8)
  }

  function MaskBit(field: seq<Byte>, mask: Option<Key>): (bytes: seq<Byte>)
    requires |field| > 0
    ensures |bytes| == |field|
  {
    if mask.Some? then [SetHighBit(field[0])] + field[1..] else field
  }

  function MaskKey(mask: Option<Key>): seq<Byte> {
    if mask.Some? then mask.value else []
  }

  function Header(opcode: Byte, n: nat, mask: Option<Key>): seq<Byte> {
    [SetHighBit(opcode)] + MaskBit(LengthField(n), mask) + MaskKey(mask)
  }

  function Mask(payload: seq<Byte>, mask: Option<Key>): (masked: seq<Byte>)
    ensures |masked| == |payload|
  {
    if mask.Some? then seq(|payload|, i requires 0 <= i < |payload| => Xor(payload[i], mask.value[i % 4]))
    else payload
  }

  function EncodeFrame(opcode: Byte, payload: seq<Byte>, mask: Option<Key>): seq<Byte> {
    Header(opcode, |payload|, mask) + Mask(payload, mask)
  }

  // ---- Decoding ----

  datatype ReadError = Eof | UnexpectedEof | Fragmented | TooLarge(length: nat)

  datatype ReadResult = Frame(opcode: Byte, payload: seq<Byte>, consumed: nat) | Bad(error: ReadError)

  /** io.ReadFull of `n` bytes at `pos`: the bytes, or which end of file it met. */
  datatype Chunk = Bytes(bytes: seq<Byte>) | Short(error: ReadError)

  function ReadFullAt(data: seq<Byte>, pos: nat, n: nat): (r: Chunk)
    requires pos <= |data|
    ensures r.Bytes? <==> n <= |data| - pos
    ensures r.Bytes? ==> r.bytes == data[pos..pos + n]
  {
    if n <= |data| - pos then Bytes(data[pos..pos + n])
    else if pos == |data| then Short(Eof)
    else Short(UnexpectedEof)
  }

  function ExtraLength(first: Byte): nat {
    if Low7(first) == 126 then 2 else if Low7(first) == 127 then 8 else 0
  }

  datatype LengthResult = Length(n: nat) | NoLength(error: ReadError)

  /** The payload length whose first byte is `first` and whose further bytes, if any, start at `pos`. */
  function LengthAt(data: seq<Byte>, pos: nat, first: Byte): LengthResult
    requires pos <= |data|
  {
    var extra := ExtraLength(first);
    if extra == 0 then Length(Low7(first))
    else
      var field := ReadFullAt(data, pos, extra);
      if field.Short? then NoLength(field.error) else Length(FromBigEndian(field.bytes))
  }

  /** The key, if any, and the payload at `pos`, for a frame that began at `begin`. */
  function BodyAt(data: seq<Byte>, begin: nat, pos: nat, opcode: Byte, isMasked: bool, length: nat): (r: ReadResult)
    requires begin <= pos <= |data|
    ensures r.Frame? ==> pos - begin <= r.consumed <= |data| - begin
  {
    if length > MAX_PAYLOAD then Bad(TooLarge(length))
    else
      var key := ReadFullAt(data, pos, if isMasked then 4 else 0);
      if key.Short? then Bad(key.error)
      else
        var payload := ReadFullAt(data, pos + |key.bytes|, length);
        if payload.Short? then Bad(payload.error)
        else Frame(opcode, Mask(payload.bytes, if isMasked then Some(key.bytes) else None),
                   pos + |key.bytes| + length - begin)
  }

  function DecodeAt(data: seq<Byte>, pos: nat): (r: ReadResult)
    requires pos <= |data|
    ensures r.Frame? ==> 2 <= r.consumed <= |data| - pos
  {
    var header := ReadFullAt(data, pos, 2);
    if header.Short? then Bad(header.error)
    else
      var first, second := data[pos], data[pos + 1];
      if !HighBit(first) then Bad(Fragmented)
      else
        match LengthAt(data, pos + 2, second)
        case NoLength(error) => Bad(error)
        case Length(length) =>
          BodyAt(data, pos, pos + 2 + ExtraLength(second), Low4(first), HighBit(second), length)
  }

  // ---- Round trip ----

  lemma MaskTwice(payload: seq<Byte>, mask: Option<Key>)
    ensures Mask(Mask(payload, mask), mask) == payload
  {
    forall i | 0 <= i < |payload|
      ensures Mask(Mask(payload, mask), mask)[i] == payload[i]
    {
      if mask.Some? {
        XorTwice(payload[i], mask.value[i % 4]);
      }
    }
  }

  /** The first length byte says how the length is written and whether a mask follows. */
  lemma LengthByte(n: nat, mask: Option<Key>)
    ensures var b := MaskBit(LengthField(n), mask)[0];
            && (HighBit(b) <==> mask.Some?)
            && ExtraLength(b) == |LengthField(n)| - 1
            && (n <= 125 ==> Low7(b) == n)
  {
    if n <= 125 {
    }
  }

  lemma LengthBytes(n: nat, mask: Option<Key>)
    requires 125 < n < LENGTH_LIMIT
    ensures FromBigEndian(MaskBit(LengthField(n), mask)[1..]) == n
  {
    Pow256Values();
    var width := |LengthField(n)| - 1;
    assert MaskBit(LengthField(n), mask)[1..] == BigEndian(n, width);
    BigEndianRoundTrip(n, width);
  }

  lemma Middle(a: seq<Byte>, b: seq<Byte>, c: seq<Byte>)
    ensures (a + b + c)[|a|..|a| + |b|] == b
  {
  }

  lemma Layout(before: seq<Byte>, first: Byte, field: seq<Byte>, key: seq<Byte>, masked: seq<Byte>, rest: seq<Byte>)
    ensures var data := before + ([first] + field + key + masked) + rest;
            var start := |before| + 1 + |field|;
            && data[|before|] == first
            && data[|before| + 1..start] == field
            && data[start..start + |key|] == key
            && data[start + |key|..start + |key| + |masked|] == masked
  {
    var data := before + ([first] + field + key + masked) + rest;
    assert data == (before + [first]) + field + (key + masked + rest);
    Middle(before + [first], field, key + masked + rest);
    assert data == (before + [first] + field) + key + (masked + rest);
    Middle(before + [first] + field, key, masked + rest);
    assert data == (before + [first] + field + key) + masked + rest;
    Middle(before + [first] + field + key, masked, rest);
  }

  lemma FrameParts(opcode: Byte, payload: seq<Byte>, mask: Option<Key>)
    ensures EncodeFrame(opcode, payload, mask)
            == [SetHighBit(opcode)] + MaskBit(LengthField(|payload|), mask) + MaskKey(mask) + Mask(payload, mask)
  {
  }

  /** What the reader makes of a first byte, a length field, a key and a body that it finds at `pos`. */
  lemma DecodeLayout(data: seq<Byte>, pos: nat, field: seq<Byte>, mask: Option<Key>, masked: seq<Byte>)
    requires |field| > 0 && pos + 1 + |field| + |MaskKey(mask)| + |masked| <= |data|
    requires HighBit(data[pos])
    requires data[pos + 1..pos + 1 + |field|] == field
    requires data[pos + 1 + |field|..pos + 1 + |field| + |MaskKey(mask)|] == MaskKey(mask)
    requires data[pos + 1 + |field| + |MaskKey(mask)|..pos + 1 + |field| + |MaskKey(mask)| + |masked|] == masked
    requires HighBit(field[0]) <==> mask.Some?
    requires ExtraLength(field[0]) == |field| - 1
    requires |masked| == if |field| == 1 then Low7(field[0]) else FromBigEndian(field[1..])
    ensures DecodeAt(data, pos)
            == if |masked| <= MAX_PAYLOAD
               then Frame(Low4(data[pos]), Mask(masked, mask), 1 + |field| + |MaskKey(mask)| + |masked|)
               else Bad(TooLarge(|masked|))
  {
    hide Mask, FromBigEndian, LengthAt, BodyAt;
    assert data[pos + 1] == field[0];
    assert data[pos + 2..pos + 1 + |field|] == field[1..];
    LengthLayout(data, pos, field, |masked|);
    BodyLayout(data, pos, pos + 1 + |field|, Low4(data[pos]), mask, masked);
  }

  lemma LengthLayout(data: seq<Byte>, pos: nat, field: seq<Byte>, n: nat)
    requires |field| > 0 && pos + 1 + |field| <= |data|
    requires data[pos + 2..pos + 1 + |field|] == field[1..]
    requires ExtraLength(field[0]) == |field| - 1
    requires n == if |field| == 1 then Low7(field[0]) else FromBigEndian(field[1..])
    ensures LengthAt(data, pos + 2, field[0]) == Length(n)
  {
    hide FromBigEndian;
  }

  lemma BodyLayout(data: seq<Byte>, start: nat, pos: nat, opcode: Byte, mask: Option<Key>, masked: seq<Byte>)
    requires start <= pos && pos + |MaskKey(mask)| + |masked| <= |data|
    requires data[pos..pos + |MaskKey(mask)|] == MaskKey(mask)
    requires data[pos + |MaskKey(mask)|..pos + |MaskKey(mask)| + |masked|] == masked
    ensures BodyAt(data, start, pos, opcode, mask.Some?, |masked|)
            == if |masked| <= MAX_PAYLOAD
               then Frame(opcode, Mask(masked, mask), pos - start + |MaskKey(mask)| + |masked|)
               else Bad(TooLarge(|masked|))
  {
    hide Mask;
  }

  /**
   Whatever follows a written frame, the reader takes exactly the bytes of the frame and returns its
   payload and the low four bits of its opcode; it refuses the frame only for being too long.
   */
  lemma DecodeEncode(before: seq<Byte>, opcode: Byte, payload: seq<Byte>, mask: Option<Key>, rest: seq<Byte>)
    requires |payload| < LENGTH_LIMIT
    ensures var frame := EncodeFrame(opcode, payload, mask);
            DecodeAt(before + frame + rest, |before|)
            == if |payload| <= MAX_PAYLOAD then Frame(Low4(opcode), payload, |frame|) else Bad(TooLarge(|payload|))
  {
    hide Mask, FromBigEndian, BigEndian, DecodeAt, LengthField, MaskBit, MaskKey, EncodeFrame, Header, ExtraLength;
    var n := |payload|;
    var field := MaskBit(LengthField(n), mask);
    var key := MaskKey(mask);
    var masked := Mask(payload, mask);
    var frame := EncodeFrame(opcode, payload, mask);
    FrameParts(opcode, payload, mask);
    LengthByte(n, mask);
    if n > 125 {
      LengthBytes(n, mask);
    }
    MaskTwice(payload, mask);
    var data := before + frame + rest;
    var pos := |before|;
    Layout(before, SetHighBit(opcode), field, key, masked, rest);
    DecodeLayout(data, pos, field, mask, masked);
  }

  /** No frame the reader accepts for the same message is shorter: lengths are written minimally. */
  lemma EncodingIsMinimal(data: seq<Byte>, pos: nat)
    requires pos <= |data| && DecodeAt(data, pos).Frame?
    ensures var f := DecodeAt(data, pos);
            var mask := if HighBit(data[pos + 1]) then Some([0, 0, 0, 0]) else None;
            |EncodeFrame(f.opcode, f.payload, mask)| <= f.consumed
  {
    hide LengthAt, LengthField, EncodeFrame, MaskBit, Mask;
    var f := DecodeAt(data, pos);
    var length := LengthAt(data, pos + 2, data[pos + 1]).n;
    ShortestLength(data, pos + 2, data[pos + 1]);
    var mask := if HighBit(data[pos + 1]) then Some([0, 0, 0, 0]) else None;
    FrameParts(f.opcode, f.payload, mask);
    assert |f.payload| == length;
  }

  lemma ShortestLength(data: seq<Byte>, pos: nat, first: Byte)
    requires pos <= |data| && LengthAt(data, pos, first).Length?
    ensures |LengthField(LengthAt(data, pos, first).n)| <= 1 + ExtraLength(first)
  {
    hide FromBigEndian;
    var extra := ExtraLength(first);
    if extra == 0 {
    } else if extra == 2 {
      Pow256Values();
      FromBigEndianBound(data[pos..pos + 2]);
    }
  }

  // ---- The frame writer and reader ----

  /** The loop that masks a payload into a fresh buffer. */
  method MaskCopy(payload: seq<Byte>, key: Key) returns (masked: seq<Byte>)
    ensures masked == Mask(payload, Some(key))
  {
    var buffer := new Byte[|payload|];
    var i := 0;
    while i < |payload|
      invariant 0 <= i <= |payload|
      invariant forall k | 0 <= k < i :: buffer[k] == Xor(payload[k], key[k % 4])
    {
      buffer[i] := Xor(payload[i], key[i % 4]);
      i := i + 1;
    }
    masked := buffer[..];
    assert masked == Mask(payload, Some(key));
  }

  lemma LengthFieldBytes(n: nat)
    ensures n <= 125 ==> LengthField(n) == [n]
    ensures 125 < n <= 0xFFFF ==> LengthField(n) == [126, n / 256 % 256, n % 256]
    ensures n > 0xFFFF ==> LengthField(n) == [127] + BigEndian(n, 8)
  {
    assert BigEndian(n / 256, 1) == [n / 256 % 256];
  }

  lemma SetMaskBit(first: Byte, field: seq<Byte>, key: Key)
    requires |field| > 0
    ensures var header := [first] + field;
            header[1 := SetHighBit(header[1])] + key == [first] + MaskBit(field, Some(key)) + MaskKey(Some(key))
  {
    assert ([first] + field)[1 := SetHighBit(field[0])] == [first] + MaskBit(field, Some(key));
  }

  /** The header up to the mask bit: each length form is appended as the source appends it. */
  method WriteLength(opcode: Byte, n: nat) returns (header: seq<Byte>)
    ensures header == [SetHighBit(opcode)] + LengthField(n)
  {
    hide BigEndian, LengthField;
    LengthFieldBytes(n);
    header := [SetHighBit(opcode)];
    if n <= 125 {
      header := header + [n];
    } else if n <= 0xFFFF {
      header := header + [126, n / 256 % 256, n % 256];
    } else {
      header := header + [127];
      var length := BigEndian(n, 8);
      header := header + length;
    }
  }

  /** writeWebSocketFrame; `mask` is the key drawn when masking. */
  method WriteFrame(opcode: Byte, payload: seq<Byte>, mask: Option<Key>) returns (written: seq<Byte>)
    ensures written == EncodeFrame(opcode, payload, mask)
  {
    hide Mask, LengthField, EncodeFrame, Header;
    FrameParts(opcode, payload, mask);
    var header := WriteLength(opcode, |payload|);
    if mask.None? {
      NoMask(payload);
      return header + payload;
    }
    SetMaskBit(SetHighBit(opcode), LengthField(|payload|), mask.value);
    header := header[1 := SetHighBit(header[1])];
    header := header + mask.value;
    var masked := MaskCopy(payload, mask.value);
    return header + masked;
  }

  lemma NoMask(payload: seq<Byte>)
    ensures Mask(payload, None) == payload
  {
  }

  class Reader {
    const data: seq<Byte>
    var pos: nat

    constructor (data: seq<Byte>)
      ensures this.data == data && pos == 0
    {
      this.data := data;
      pos := 0;
    }

    ghost predicate Valid()
      reads this
    {
      pos <= |data|
    }

    method ReadFull(n: nat) returns (chunk: Chunk)
      requires Valid()
      modifies this
      ensures Valid()
      ensures chunk == ReadFullAt(data, old(pos), n)
      ensures pos == if chunk.Bytes? then old(pos) + n else |data|
    {
      chunk := ReadFullAt(data, pos, n);
      pos := if chunk.Bytes? then pos + n else |data|;
    }

    method ReadLength(first: Byte) returns (r: LengthResult)
      requires Valid()
      modifies this
      ensures Valid()
      ensures r == LengthAt(data, old(pos), first)
      ensures r.Length? ==> pos == old(pos) + ExtraLength(first)
    {
      hide FromBigEndian;
      if Low7(first) == 126 {
        var field := ReadFull(2);
        if field.Short? {
          return NoLength(field.error);
        }
        return Length(FromBigEndian(field.bytes));
      } else if Low7(first) == 127 {
        var field := ReadFull(8);
        if field.Short? {
          return NoLength(field.error);
        }
        return Length(FromBigEndian(field.bytes));
      }
      return Length(Low7(first));
    }

    method ReadBody(begin: nat, opcode: Byte, isMasked: bool, length: nat) returns (r: ReadResult)
      requires Valid() && begin <= pos
      modifies this
      ensures Valid()
      ensures r == BodyAt(data, begin, old(pos), opcode, isMasked, length)
      ensures r.Frame? ==> pos == begin + r.consumed
    {
      if length > MAX_PAYLOAD {
        return Bad(TooLarge(length));
      }
      if !isMasked {
        var raw := ReadFull(length);
        if raw.Short? {
          return Bad(raw.error);
        }
        return Frame(opcode, raw.bytes, pos - begin);
      }
      var key := ReadFull(4);
      if key.Short? {
        return Bad(key.error);
      }
      var raw := ReadFull(length);
      if raw.Short? {
        return Bad(raw.error);
      }
      var payload := Unmask(raw.bytes, key.bytes);
      return Frame(opcode, payload, pos - begin);
    }

    /** readWebSocketFrame */
    method ReadFrame() returns (r: ReadResult)
      requires Valid()
      modifies this
      ensures Valid()
      ensures r == DecodeAt(data, old(pos))
      ensures r.Frame? ==> pos == old(pos) + r.consumed
    {
      hide LengthAt, BodyAt;
      var begin := pos;
      var header := ReadFull(2);
      if header.Short? {
        return Bad(header.error);
      }
      if !HighBit(header.bytes[0]) {
        return Bad(Fragmented);
      }
      var length := ReadLength(header.bytes[1]);
      if length.NoLength? {
        return Bad(length.error);
      }
      r := ReadBody(begin, Low4(header.bytes[0]), HighBit(header.bytes[1]), length.n);
    }
  }

  /** The loop that unmasks a payload where it stands. */
  method Unmask(payload: seq<Byte>, key: Key) returns (plain: seq<Byte>)
    ensures plain == Mask(payload, Some(key))
  {
    var buffer := new Byte[|payload|](i requires 0 <= i < |payload| => payload[i]);
    var i := 0;
    while i < buffer.Length
      invariant 0 <= i <= buffer.Length
      invariant forall k | 0 <= k < i :: buffer[k] == Xor(payload[k], key[k % 4])
      invariant forall k | i <= k < buffer.Length :: buffer[k] == payload[k]
    {
      buffer[i] := Xor(buffer[i], key[i % 4]);
      i := i + 1;
    }
    plain := buffer[..];
    assert plain == Mask(payload, Some(key));
  }

  // ---- Reading texts ----

  datatype Outcome = Text(payload: seq<Byte>) | End(error: ReadError)

  /** What one ReadText does: the pings it answers, how it ends, and where it leaves the reader. */
  datatype TextRead = TextRead(pings: seq<seq<Byte>>, outcome: Outcome, next: nat)

  function ReadTextAt(data: seq<Byte>, pos: nat): (r: TextRead)
    requires pos <= |data|
    ensures r.outcome.Text? ==> pos + 2 <= r.next <= |data|
    decreases |data| - pos
  {
    match DecodeAt(data, pos)
    case Bad(error) => TextRead([], End(error), pos)
    case Frame(opcode, payload, consumed) =>
      if opcode == TEXT then TextRead([], Text(payload), pos + consumed)
      else if opcode == CLOSE then TextRead([], End(Eof), pos + consumed)
      else
        var later := ReadTextAt(data, pos + consumed);
        if opcode == PING then later.(pings := [payload] + later.pings) else later
  }

  /** The frames written to answer pings, masked with the keys drawn from number `n` on. */
  function Pongs(pings: seq<seq<Byte>>, keys: nat -> Key, n: nat): seq<Byte> {
    if pings == [] then []
    else EncodeFrame(PONG, pings[0], Some(keys(n))) + Pongs(pings[1..], keys, n + 1)
  }

  lemma {:induction false} PongsAppend(pings: seq<seq<Byte>>, more: seq<seq<Byte>>, keys: nat -> Key, n: nat)
    ensures Pongs(pings + more, keys, n) == Pongs(pings, keys, n) + Pongs(more, keys, n + |pings|)
  {
    hide EncodeFrame;
    if pings == [] {
      assert pings + more == more;
    } else {
      PongsAppend(pings[1..], more, keys, n + 1);
      assert (pings + more)[1..] == pings[1..] + more;
    }
  }

  lemma PongsOne(payload: seq<Byte>, keys: nat -> Key, n: nat)
    ensures Pongs([], keys, n) == []
    ensures Pongs([payload], keys, n) == EncodeFrame(PONG, payload, Some(keys(n)))
  {
    assert [payload][1..] == [];
  }

  class Transport {
    const reader: Reader
    const keys: nat -> Key
    var drawn: nat
    var written: seq<Byte>

    constructor (reader: Reader, keys: nat -> Key)
      ensures this.reader == reader && this.keys == keys && drawn == 0 && written == []
    {
      this.reader := reader;
      this.keys := keys;
      drawn, written := 0, [];
    }

    /** ReadText: pings are answered with their own payload before the next text is returned. */
    method ReadText() returns (outcome: Outcome)
      requires reader.Valid()
      modifies this, reader
      ensures reader.Valid()
      ensures var r := ReadTextAt(reader.data, old(reader.pos));
              && outcome == r.outcome
              && (outcome.Text? ==> reader.pos == r.next)
              && written == old(written) + Pongs(r.pings, keys, old(drawn))
              && drawn == old(drawn) + |r.pings|
    {
      hide DecodeAt, EncodeFrame, Pongs;
      ghost var start := reader.pos;
      PongsOne([], keys, drawn);
      ghost var answered: seq<seq<Byte>> := [];
      while true
        invariant reader.Valid() && start <= reader.pos
        invariant var later := ReadTextAt(reader.data, reader.pos);
                  ReadTextAt(reader.data, start) == later.(pings := answered + later.pings)
        invariant written == old(written) + Pongs(answered, keys, old(drawn))
        invariant drawn == old(drawn) + |answered|
        decreases |reader.data| - reader.pos
      {
        ghost var here := ReadTextAt(reader.data, reader.pos);
        assert answered + [] == answered;
        var frame := reader.ReadFrame();
        if frame.Bad? {
          return End(frame.error);
        }
        if frame.opcode == TEXT {
          return Text(frame.payload);
        } else if frame.opcode == CLOSE {
          return End(Eof);
        } else if frame.opcode == PING {
          var pong := WriteFrame(PONG, frame.payload, Some(keys(drawn)));
          written := written + pong;
          drawn := drawn + 1;
          ghost var later := ReadTextAt(reader.data, reader.pos);
          PongsAppend(answered, [frame.payload], keys, old(drawn));
          PongsOne(frame.payload, keys, old(drawn) + |answered|);
          assert answered + here.pings == (answered + [frame.payload]) + later.pings;
          answered := answered + [frame.payload];
        }
      }
    }
  }

  // ---- Whole sessions ----

  datatype Action = Pong(payload: seq<Byte>) | Message(payload: seq<Byte>) | Stop(error: ReadError)

  function PongActions(pings: seq<seq<Byte>>): seq<Action> {
    seq(|pings|, i requires 0 <= i < |pings| => Pong(pings[i]))
  }

  /** What repeated ReadText calls do until one ends with an error. */
  function Session(data: seq<Byte>, pos: nat): seq<Action>
    requires pos <= |data|
    decreases |data| - pos
  {
    var r := ReadTextAt(data, pos);
    PongActions(r.pings)
    + match r.outcome
      case Text(payload) => [Message(payload)] + Session(data, r.next)
      case End(error) => [Stop(error)]
  }

  datatype Sent = Sent(opcode: Byte, payload: seq<Byte>, mask: Option<Key>)

  predicate Acceptable(frame: Sent) {
    Low4(frame.opcode) == frame.opcode && |frame.payload| <= MAX_PAYLOAD
  }

  function EncodeAll(frames: seq<Sent>): seq<Byte> {
    if frames == [] then []
    else EncodeFrame(frames[0].opcode, frames[0].payload, frames[0].mask) + EncodeAll(frames[1..])
  }

  /** What a reader should do with the frames: texts out, pings answered, all else passed over, up to a close. */
  function Expected(frames: seq<Sent>): seq<Action> {
    if frames == [] then [Stop(Eof)]
    else if frames[0].opcode == TEXT then [Message(frames[0].payload)] + Expected(frames[1..])
    else if frames[0].opcode == CLOSE then [Stop(Eof)]
    else if frames[0].opcode == PING then [Pong(frames[0].payload)] + Expected(frames[1..])
    else Expected(frames[1..])
  }

  lemma SessionStep(data: seq<Byte>, pos: nat)
    requires pos <= |data|
    ensures Session(data, pos)
            == match DecodeAt(data, pos)
               case Bad(error) => [Stop(error)]
               case Frame(opcode, payload, consumed) =>
                 if opcode == TEXT then [Message(payload)] + Session(data, pos + consumed)
                 else if opcode == CLOSE then [Stop(Eof)]
                 else if opcode == PING then [Pong(payload)] + Session(data, pos + consumed)
                 else Session(data, pos + consumed)
  {
    hide DecodeAt;
    var f := DecodeAt(data, pos);
    assert PongActions([]) == [];
    if f.Frame? && f.opcode == PING {
      var later := ReadTextAt(data, pos + f.consumed);
      assert PongActions([f.payload] + later.pings) == [Pong(f.payload)] + PongActions(later.pings);
    }
  }

  /**
   Reading any concatenation of written frames yields the text payloads in order up to the first
   close frame, and answers every ping with one pong of the same payload before the next text.
   */
  lemma {:induction false} SessionReadsFrames(before: seq<Byte>, frames: seq<Sent>)
    requires forall f | f in frames :: Acceptable(f)
    ensures Session(before + EncodeAll(frames), |before|) == Expected(frames)
    decreases |frames|
  {
    hide DecodeAt, EncodeFrame;
    var data := before + EncodeAll(frames);
    SessionStep(data, |before|);
    if frames == [] {
      NothingToDecode(data);
    } else {
      var f := frames[0];
      assert Acceptable(f);
      var frame := EncodeFrame(f.opcode, f.payload, f.mask);
      assert data == before + frame + EncodeAll(frames[1..]);
      DecodeEncode(before, f.opcode, f.payload, f.mask, EncodeAll(frames[1..]));
      SessionReadsFrames(before + frame, frames[1..]);
    }
  }

  lemma NothingToDecode(data: seq<Byte>)
    ensures DecodeAt(data, |data|) == Bad(Eof)
  {
  }
}
