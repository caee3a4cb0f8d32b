/**
 Frames byte by byte: what is written and read agrees with the picture of a frame in section 5.2 and
 the masking of section 5.3 of RFC 6455.
 */
module WireFormat {
  import opened Options
  import opened ByteStrings
  import opened WebSocket

  // ---- Exclusive or, bit by bit ----

  /** Bit `i` of a number, 0 being the lowest */
  function Bit(x: nat, i: nat): nat {
    if i == 0 then x % 2 else Bit(x / 2, i - 1)
  }

  lemma {:induction false} BitsOfXor(a: nat, k: nat, n: nat, i: nat)
    requires i < n
    ensures Bit(XorBits(a, k, n), i) == (Bit(a, i) + Bit(k, i)) % 2
  {
    hide XorBits;
    XorBitsStep(a, k, n);
    LowestBit(XorBits(a / 2, k / 2, n - 1), (a + k) % 2);
    if i == 0 {
      SumOfBits(a, k);
    } else {
      BitsOfXor(a / 2, k / 2, n - 1, i - 1);
    }
  }

  lemma SumOfBits(a: nat, k: nat)
    ensures (a + k) % 2 == (a % 2 + k % 2) % 2
  {
  }

  /** A bit of the exclusive or is set exactly when it is set in one of the two bytes and not in both. */
  lemma XorIsBitwise(a: Byte, k: Byte, i: nat)
    requires i < 8
    ensures Bit(Xor(a, k), i) == 1 <==> Bit(a, i) != Bit(k, i)
  {
    BitsOfXor(a, k, 8, i);
    BitIsBit(a, i);
    BitIsBit(k, i);
  }

  lemma {:induction false} BitIsBit(x: nat, i: nat)
    ensures Bit(x, i) in {0, 1}
  {
    if i == 0 {
    } else {
      BitIsBit(x / 2, i - 1);
    }
  }

  // ---- Lengths, highest byte first ----

  lemma TwoBytes(b: seq<Byte>)
    requires |b| == 2
    ensures FromBigEndian(b) == b[0] as int * 256 + b[1] as int
  {
    assert b[..1] == [b[0]] && b[..1][..0] == [];
    assert FromBigEndian(b[..1]) == FromBigEndian([]) * 256 + b[0] as int;
  }

  function Weighted(b: seq<Byte>): nat
    requires |b| == 8
  {
    b[0] as int * 0x100_0000_0000_0000 + b[1] as int * 0x1_0000_0000_0000 + b[2] as int * 0x100_0000_0000
    + b[3] as int * 0x1_0000_0000 + b[4] as int * 0x100_0000 + b[5] as int * 0x1_0000 + b[6] as int * 0x100
    + b[7] as int
  }

  lemma MoreBytes(b: seq<Byte>, n: nat)
    requires 0 < n <= |b|
    ensures FromBigEndian(b[..n]) == FromBigEndian(b[..n - 1]) * 256 + b[n - 1] as int
  {
    assert b[..n][..n - 1] == b[..n - 1];
  }

  lemma EightBytes(b: seq<Byte>)
    requires |b| == 8
    ensures FromBigEndian(b) == Weighted(b)
  {
    hide FromBigEndian;
    assert FromBigEndian(b[..0]) == 0 by { NoBytes(b); }
    MoreBytes(b, 1);
    MoreBytes(b, 2);
    MoreBytes(b, 3);
    MoreBytes(b, 4);
    MoreBytes(b, 5);
    MoreBytes(b, 6);
    MoreBytes(b, 7);
    MoreBytes(b, 8);
    assert b[..8] == b;
  }

  lemma NoBytes(b: seq<Byte>)
    ensures FromBigEndian(b[..0]) == 0
  {
    assert b[..0] == [];
  }

  // ---- What is written ----

  /** How many bytes follow the second one for a length of `n` bytes */
  function LengthBytes(n: nat): nat {
    if n <= 125 then 0 else if n <= 65_535 then 2 else 8
  }

  /** Bytes two to ten hold the length, as far as the second one leaves it to them. */
  predicate ShowsLength(f: seq<Byte>, n: nat)
    requires |f| >= 2 + LengthBytes(n)
  {
    var second := f[1] % 128;
    if n <= 125 then second == n
    else if n <= 65_535 then second == 126 && f[2] as int * 256 + f[3] as int == n
    else second == 127 && Weighted(f[2..10]) == n
  }

  /**
   A frame: the final bit with the opcode, the mask bit with the length, the longer length, the key, and
   each octet of the payload combined with the octet of the key at its index modulo four.
   */
  lemma FrameOnTheWire(opcode: Byte, payload: seq<Byte>, mask: Option<Key>)
    requires opcode < 128 && |payload| < LENGTH_LIMIT
    ensures var f, n := EncodeFrame(opcode, payload, mask), |payload|;
            var key := 2 + LengthBytes(n);
            var start := if mask.Some? then key + 4 else key;
            && |f| == start + n
            && f[0] == 128 + opcode
            && (f[1] >= 128 <==> mask.Some?)
            && ShowsLength(f, n)
            && (mask.Some? ==> f[key..key + 4] == mask.value)
            && forall i | 0 <= i < n ::
                 f[start + i] == if mask.Some? then Xor(payload[i], mask.value[i % 4]) else payload[i]
  {
    hide ShowsLength, Xor, LengthField, MaskBit, Mask;
    var f, n := EncodeFrame(opcode, payload, mask), |payload|;
    var field, body := LengthField(n), Mask(payload, mask);
    var marked, key := MaskBit(field, mask), MaskKey(mask);
    Parts(SetHighBit(opcode), marked, key, body, f);
    MarkedIs(field, mask);
    MaskedIs(payload, mask);
    assert forall i | 1 <= i < |field| :: f[1 + i] == marked[i];
    assert f[1] == f[1 + 0] == marked[0];
    FieldShows(f, field, n, mask);
    assert forall i | 0 <= i < n :: f[1 + |marked| + |key| + i] == body[i];
  }

  lemma MarkedIs(field: seq<Byte>, mask: Option<Key>)
    requires |field| > 0
    ensures var marked := MaskBit(field, mask);
            && marked[0] == (if mask.Some? then SetHighBit(field[0]) else field[0])
            && forall i | 1 <= i < |field| :: marked[i] == field[i]
  {
  }

  lemma MaskedIs(payload: seq<Byte>, mask: Option<Key>)
    ensures forall i | 0 <= i < |payload| ::
              Mask(payload, mask)[i] == if mask.Some? then Xor(payload[i], mask.value[i % 4]) else payload[i]
  {
    hide Xor;
  }

  lemma Parts(first: Byte, field: seq<Byte>, key: seq<Byte>, body: seq<Byte>, f: seq<Byte>)
    requires f == [first] + field + key + body
    ensures |f| == 1 + |field| + |key| + |body| && f[0] == first
    ensures forall i | 0 <= i < |field| :: f[1 + i] == field[i]
    ensures f[1 + |field|..1 + |field| + |key|] == key
    ensures forall i | 0 <= i < |body| :: f[1 + |field| + |key| + i] == body[i]
  {
  }

  lemma FieldShows(f: seq<Byte>, field: seq<Byte>, n: nat, mask: Option<Key>)
    requires n < LENGTH_LIMIT && field == LengthField(n) && |f| >= 1 + |field|
    requires f[1] == if mask.Some? then SetHighBit(field[0]) else field[0]
    requires forall i | 1 <= i < |field| :: f[1 + i] == field[i]
    ensures ShowsLength(f, n) && (f[1] >= 128 <==> mask.Some?)
  {
    hide BigEndian, FromBigEndian, Weighted;
    Pow256Values();
    if n <= 125 {
    } else if n <= 65_535 {
      BigEndianRoundTrip(n, 2);
      var bytes := BigEndian(n, 2);
      TwoBytes(bytes);
      assert field == [126] + bytes;
      assert f[1 + 1] == field[1] == bytes[0] && f[1 + 2] == field[2] == bytes[1];
    } else {
      BigEndianRoundTrip(n, 8);
      var bytes := BigEndian(n, 8);
      EightBytes(bytes);
      assert field == [127] + bytes;
      forall i | 0 <= i < 8 ensures f[2..10][i] == bytes[i] {
        assert f[1 + (i + 1)] == field[i + 1];
      }
      assert f[2..10] == bytes && field[0] == 127;
    }
  }

  // ---- What is read ----

  /** The length that the bytes at `pos` announce, if they are all there */
  function Announced(data: seq<Byte>, pos: nat): Option<nat>
    requires pos + 2 <= |data|
  {
    var second := data[pos + 1] % 128;
    if second <= 125 then Some(second)
    else if second == 126 then
      if pos + 4 <= |data| then Some(data[pos + 2] as int * 256 + data[pos + 3] as int) else None
    else if pos + 10 <= |data| then Some(Weighted(data[pos + 2..pos + 10])) else None
  }

  function AnnouncedBytes(second: Byte): nat {
    if second % 128 <= 125 then 0 else if second % 128 == 126 then 2 else 8
  }

  /**
   What the reader makes of the bytes at `pos`, whatever they are: without the final bit it gives up;
   above 128 MiB too; otherwise it takes as many bytes as announced, in any of the three length forms,
   and combines each with the octet of the key at its index modulo four.
   */
  lemma ReadFromTheWire(data: seq<Byte>, pos: nat)
    requires pos + 2 <= |data|
    ensures var r, n := DecodeAt(data, pos), Announced(data, pos);
            var masked := data[pos + 1] >= 128;
            var key := pos + 2 + AnnouncedBytes(data[pos + 1]);
            var start := if masked then key + 4 else key;
            && (data[pos] < 128 <==> r == Bad(Fragmented))
            && (data[pos] >= 128 && n.Some? && n.value > 134_217_728 <==> r.Bad? && r.error.TooLarge?)
            && (r.Bad? && r.error.TooLarge? ==> r.error.length == n.value)
            && (r.Frame? <==> data[pos] >= 128 && n.Some? && n.value <= 134_217_728 && start + n.value <= |data|)
            && (r.Frame? ==>
                  && r.opcode == data[pos] % 16 && r.consumed == start + n.value - pos && |r.payload| == n.value
                  && forall i | 0 <= i < n.value ::
                       r.payload[i] == if masked then Xor(data[start + i], data[key + i % 4]) else data[start + i])
  {
    hide Xor, Announced, LengthAt, BodyAt, ExtraLength, AnnouncedBytes, DecodeAt;
    var second := data[pos + 1];
    DecodeSteps(data, pos);
    LengthIsAnnounced(data, pos);
    if data[pos] >= 128 && Announced(data, pos).Some? {
      var key, n := pos + 2 + AnnouncedBytes(second), Announced(data, pos).value;
      LengthIsThere(data, pos);
      if n <= MAX_PAYLOAD {
        BodyIs(data, pos, key, data[pos] % 16, second >= 128, n);
      } else {
        LongBodyIs(data, pos, key, data[pos] % 16, second >= 128, n);
      }
    }
  }

  lemma DecodeSteps(data: seq<Byte>, pos: nat)
    requires pos + 2 <= |data|
    ensures data[pos] < 128 ==> DecodeAt(data, pos) == Bad(Fragmented)
    ensures data[pos] >= 128 ==>
              match LengthAt(data, pos + 2, data[pos + 1])
              case NoLength(error) => DecodeAt(data, pos) == Bad(error)
              case Length(n) =>
                && pos + 2 + ExtraLength(data[pos + 1]) <= |data|
                && DecodeAt(data, pos) == BodyAt(data, pos, pos + 2 + ExtraLength(data[pos + 1]), data[pos] % 16,
                                                 data[pos + 1] >= 128, n)
  {
    hide FromBigEndian, BodyAt;
  }

  lemma LengthIsThere(data: seq<Byte>, pos: nat)
    requires pos + 2 <= |data| && Announced(data, pos).Some?
    ensures pos + 2 + AnnouncedBytes(data[pos + 1]) <= |data|
  {
    hide Weighted;
  }

  lemma LongBodyIs(data: seq<Byte>, begin: nat, key: nat, opcode: Byte, masked: bool, n: nat)
    requires begin <= key <= |data| && n > 134_217_728
    ensures BodyAt(data, begin, key, opcode, masked, n) == Bad(TooLarge(n))
  {
  }

  lemma LengthIsAnnounced(data: seq<Byte>, pos: nat)
    requires pos + 2 <= |data|
    ensures ExtraLength(data[pos + 1]) == AnnouncedBytes(data[pos + 1])
    ensures var r := LengthAt(data, pos + 2, data[pos + 1]);
            if Announced(data, pos).Some? then r == Length(Announced(data, pos).value)
            else r.NoLength? && !r.error.TooLarge? && !r.error.Fragmented?
  {
    hide FromBigEndian, Weighted;
    var extra := ExtraLength(data[pos + 1]);
    if extra > 0 && pos + 2 + extra <= |data| {
      var bytes := data[pos + 2..pos + 2 + extra];
      if extra == 2 {
        TwoBytes(bytes);
      } else {
        EightBytes(bytes);
      }
    }
  }

  lemma BodyIs(data: seq<Byte>, begin: nat, key: nat, opcode: Byte, masked: bool, n: nat)
    requires begin <= key <= |data| && n <= 134_217_728
    ensures var r := BodyAt(data, begin, key, opcode, masked, n);
            var start := if masked then key + 4 else key;
            && (r.Frame? <==> start + n <= |data|)
            && (r.Bad? ==> !r.error.TooLarge? && !r.error.Fragmented?)
            && (r.Frame? ==>
                  && r.opcode == opcode && r.consumed == start + n - begin && |r.payload| == n
                  && forall i | 0 <= i < n ::
                       r.payload[i] == if masked then Xor(data[start + i], data[key + i % 4]) else data[start + i])
  {
    hide Xor;
  }

  // ---- Ends of the stream ----

  /** A stream that ends where something is to be read has ended; one that ends within has broken off. */
  function EndAt(data: seq<Byte>, pos: nat): ReadError {
    if pos == |data| then Eof else UnexpectedEof
  }

  /** How the reader reports that the bytes of a frame are not all there. */
  lemma ShortFrameIs(data: seq<Byte>, pos: nat)
    requires pos <= |data|
    ensures pos + 2 > |data| ==> DecodeAt(data, pos) == Bad(EndAt(data, pos))
    ensures pos + 2 <= |data| && data[pos] >= 128 && Announced(data, pos) == None ==>
              DecodeAt(data, pos) == Bad(EndAt(data, pos + 2))
    ensures pos + 2 <= |data| && data[pos] >= 128 && Announced(data, pos).Some?
            && Announced(data, pos).value <= 134_217_728 ==>
              var n, key := Announced(data, pos).value, pos + 2 + AnnouncedBytes(data[pos + 1]);
              var start := if data[pos + 1] >= 128 then key + 4 else key;
              && key <= |data|
              && (start > |data| ==> DecodeAt(data, pos) == Bad(EndAt(data, key)))
              && (start <= |data| < start + n ==> DecodeAt(data, pos) == Bad(EndAt(data, start)))
  {
    hide FromBigEndian, Weighted, Xor;
    if pos + 2 <= |data| {
      LengthIsAnnounced(data, pos);
    }
  }

  // ---- Texts ----

  /**
   What is done with a frame, by its opcode: 1 is a text and returned, 8 ends the session, 9 is answered
   with its payload, and any other is passed over.
   */
  lemma FrameIsRead(data: seq<Byte>, pos: nat)
    requires pos <= |data|
    ensures var frame, r := DecodeAt(data, pos), ReadTextAt(data, pos);
            && (frame.Bad? ==> r.outcome == End(frame.error) && r.pings == [])
            && (frame.Frame? ==>
                  var later := pos + frame.consumed;
                  if frame.opcode == 1 then r == TextRead([], Text(frame.payload), later)
                  else if frame.opcode == 8 then r == TextRead([], End(Eof), later)
                  else
                    && r.outcome == ReadTextAt(data, later).outcome && r.next == ReadTextAt(data, later).next
                    && r.pings == (if frame.opcode == 9 then [frame.payload] else []) + ReadTextAt(data, later).pings)
  {
    hide DecodeAt;
  }

  /** A ping is answered by a frame with opcode 10. */
  lemma PongIs(payload: seq<Byte>, key: Key, keys: nat -> Key, n: nat)
    requires keys(n) == key
    ensures Pongs([payload], keys, n) == EncodeFrame(10, payload, Some(key))
  {
    PongsOne(payload, keys, n);
  }
}
