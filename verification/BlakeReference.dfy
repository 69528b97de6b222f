/** What BLAKE is by definition (section 2.1.3 of the BLAKE SHA-3 proposal): compression folded over the
    padded message with a counter of message bits, and that the streaming form computes it. */
module BlakeReference {
  import opened Bits
  import opened Blake
  import opened Arith

  // ---------------------------------------------------------------- the definition

  /** The least number of zero bits that makes the padded message fill whole blocks. */
  function PadZeros<H>(v: Variant<H>, l: nat): (d: nat)
    requires Standard(v)
    ensures (l + 2 + d + 8 * LengthBytes(v)) % (8 * v.block) == 0 && d < 8 * v.block
  {
    (8 * v.block - (l + 2 + 8 * LengthBytes(v)) % (8 * v.block)) % (8 * v.block)
  }

  /** A one, zeros, the tag bit and the length follow the message. */
  function PaddedBits<H>(v: Variant<H>, bits: seq<bool>): (r: seq<bool>)
    requires Standard(v)
  {
    bits + [true] + ZeroBits(PadZeros(v, |bits|)) + [v.tag] + BitsOf(BigEndian(|bits|, LengthBytes(v)))
  }

  /** The counter of a block that ends after `end` bytes: the message bits so far, or zero if the block holds none. */
  function Counter<H>(v: Variant<H>, l: nat, end: nat): (c: nat)
  {
    if 8 * end >= l + 8 * v.block then 0 else if 8 * end <= l then 8 * end else l
  }

  /** Compression folded over the blocks of `data`, for a message of `l` bits. */
  function Fold<H>(v: Variant<H>, iv: H, data: seq<Byte>, l: nat): (h: H)
    requires v.word > 0 && v.block > 0 && |data| % v.block == 0
    decreases |data|
  {
    if data == [] then iv else
      Arith.LastBlock(|data|, v.block);
      var before := |data| - v.block;
      var c := Counter(v, l, |data|);
      v.compress(Fold(v, iv, data[..before], l), data[before..], c % v.word, (c / v.word) % v.word)
  }

  // ---------------------------------------------------------------- the counter words

  ghost predicate Counts<H>(v: Variant<H>, s: State<H>, c: nat)
    requires v.word > 0
  {
    s.t0 == c % v.word && s.t1 == (c / v.word) % v.word
  }

  lemma CompressedCounts<H>(v: Variant<H>, s: State<H>, c: nat)
    requires Standard(v) && Counts(v, s, c)
    ensures Counts(v, Compressed(v, s), c + 8 * v.block)
  {
    Arith.SmallMod(s.t0 + 8 * v.block, v.word);
    Arith.AddCarry(c, 8 * v.block, v.word);
    Arith.ModSucc(c / v.word, v.word);
  }

  /** The words written for a block without message bits wrap around to zero. */
  lemma ResetCounts<H>(v: Variant<H>, s: State<H>)
    requires Standard(v) && s.t0 == v.word - 8 * v.block && s.t1 == v.word - 1
    ensures Counts(v, Compressed(v, s), 0)
  {
  }

  /** Subtracting before adding gives the exact bit count of the message, across a carry too. */
  lemma RewoundCounts<H>(v: Variant<H>, s: State<H>, n: nat, c: nat)
    requires Standard(v) && |s.buf| < v.block && n < 8 && Counts(v, s, c) && c % (8 * v.block) == 0
    requires |s.buf| > 0 || n > 0
    ensures Counts(v, Compressed(v, Rewound(v, s, n)), c + 8 * |s.buf| + n)
  {
    var w, k, bits := v.word, 8 * v.block, 8 * |s.buf| + n;
    var m := if v.block == 64 then 0x80_0000 else 0x40_0000_0000_0000;
    assert w == m * k;
    Arith.ModOfMultiple(c, w, k, m);
    Arith.MultipleBelow(s.t0, w, k, m);
    Arith.AddCarry(c, bits, w);
    if s.t0 == 0 {
      RewoundFromZero(v, s, n);
    } else {
      RewoundWithin(v, s, n);
    }
  }

  lemma RewoundFromZero<H>(v: Variant<H>, s: State<H>, n: nat)
    requires Standard(v) && |s.buf| < v.block && n < 8 && (|s.buf| > 0 || n > 0) && s.t0 == 0 && s.t1 < v.word
    ensures var r := Compressed(v, Rewound(v, s, n));
            r.t0 == 8 * |s.buf| + n && r.t1 == s.t1
  {
    var w, k, bits := v.word, 8 * v.block, 8 * |s.buf| + n;
    Arith.SmallMod(w - k + bits, w);
    Arith.SmallMod(w + bits, w);
    BackAndForth(s.t1, w);
  }

  lemma RewoundWithin<H>(v: Variant<H>, s: State<H>, n: nat)
    requires Standard(v) && |s.buf| < v.block && n < 8 && (|s.buf| > 0 || n > 0)
    requires 8 * v.block <= s.t0 <= v.word - 8 * v.block
    ensures var r := Compressed(v, Rewound(v, s, n));
            r.t0 == s.t0 + 8 * |s.buf| + n && r.t1 == s.t1
  {
    var w, k, bits := v.word, 8 * v.block, 8 * |s.buf| + n;
    Arith.SmallMod(s.t0 + w - (k - bits), w);
    Arith.SmallMod(s.t0 + bits, w);
  }

  lemma BackAndForth(t: nat, w: nat)
    requires 1 < w && t < w
    ensures ((t + w - 1) % w + 1) % w == t
  {
    Arith.SmallMod(t + w - 1, w);
    Arith.SmallMod((t + w - 1) % w + 1, w);
  }

  // ---------------------------------------------------------------- the message

  /** What the context holds after the bytes of `msg`: the compressed blocks, the rest and the exact count. */
  ghost predicate Holds<H>(v: Variant<H>, iv: H, s: State<H>, msg: seq<Byte>, l: nat)
    requires Standard(v)
  {
    && |s.buf| < v.block
    && |s.buf| <= |msg|
    && var full := |msg| - |s.buf|;
    && full % v.block == 0
    && s.buf == msg[full..]
    && s.h == Fold(v, iv, msg[..full], l)
    && Counts(v, s, 8 * full)
  }

  lemma {:induction false} AbsorbHolds<H>(v: Variant<H>, iv: H, msg: seq<Byte>, l: nat)
    requires Standard(v) && 8 * |msg| <= l
    ensures Holds(v, iv, Absorb(v, State(iv, 0, 0, []), msg), msg, l)
  {
    if msg != [] {
      var last := |msg| - 1;
      AbsorbHolds(v, iv, msg[..last], l);
      PushHolds(v, iv, Absorb(v, State(iv, 0, 0, []), msg[..last]), msg, l);
    }
  }

  lemma PushHolds<H>(v: Variant<H>, iv: H, s: State<H>, msg: seq<Byte>, l: nat)
    requires Standard(v) && msg != [] && 8 * |msg| <= l && Holds(v, iv, s, msg[..|msg| - 1], l)
    ensures Holds(v, iv, Push(v, s, msg[|msg| - 1]), msg, l)
  {
    hide Counts, Fold, Compressed, Counter;
    var last := |msg| - 1;
    var full := last - |s.buf|;
    var t := s.(buf := s.buf + [msg[last]]);
    SuffixGrows(msg, full);
    SameCounts(v, s, t, 8 * full);
    if |t.buf| == v.block {
      MessageCounter(v, l, |msg|);
      CompressBlock(v, iv, t, msg, full, l, 8 * |msg|);
      assert msg[..|msg|] == msg && msg[|msg|..] == [];
    }
  }

  lemma MessageCounter<H>(v: Variant<H>, l: nat, end: nat)
    requires Standard(v) && 8 * end <= l
    ensures Counter(v, l, end) == 8 * end
  {
  }

  lemma SameCounts<H>(v: Variant<H>, s: State<H>, t: State<H>, c: nat)
    requires v.word > 0 && s.t0 == t.t0 && s.t1 == t.t1 && Counts(v, s, c)
    ensures Counts(v, t, c)
  {
  }

  /** Compressing the block that completes `data` under its counter extends the fold. */
  lemma CompressBlock<H>(v: Variant<H>, iv: H, t: State<H>, data: seq<Byte>, full: nat, l: nat, c: nat)
    requires Standard(v) && |data| == full + v.block && full % v.block == 0
    requires t.buf == data[full..] && t.h == Fold(v, iv, data[..full], l)
    requires c == Counter(v, l, |data|)
    requires Counts(v, Compressed(v, t), c) || (c == 8 * |data| && Counts(v, t, 8 * full))
    ensures |data| % v.block == 0 && Counts(v, Compressed(v, t), c)
    ensures Compressed(v, t).h == Fold(v, iv, data, l) && Compressed(v, t).buf == []
  {
    if full > 0 {
      Arith.LastBlock(full, v.block);
    }
    if !Counts(v, Compressed(v, t), c) {
      CompressedCounts(v, t, 8 * full);
    }
  }

  // ---------------------------------------------------------------- the padding, bit by bit

  lemma TailBits(ub: Byte, n: nat)
    requires n < 8
    ensures BitsOfByte(TailByte(ub, n)) == BitsOfByte(ub)[..n] + [true] + ZeroBits(7 - n)
  {
    var z: Byte := 0x80 >> n;
    if n == 0 {
      assert z == 0x80;
    } else if n == 1 {
      assert z == 0x40;
    } else if n == 2 {
      assert z == 0x20;
    } else if n == 3 {
      assert z == 0x10;
    } else if n == 4 {
      assert z == 8;
    } else if n == 5 {
      assert z == 4;
    } else if n == 6 {
      assert z == 2;
    } else {
      assert z == 1;
    }
  }

  /** The tag bit ored into the tail byte itself, when nothing but the tag fits after it. */
  lemma TaggedTailBits<H>(v: Variant<H>, ub: Byte, n: nat)
    requires n < 7
    ensures BitsOfByte(TailByte(ub, n) | TagByte(v)) == BitsOfByte(ub)[..n] + [true] + ZeroBits(6 - n) + [v.tag]
  {
    hide TailByte;
    TailBits(ub, n);
    var b := TailByte(ub, n);
    assert !BitsOfByte(b)[7] by {
      assert (BitsOfByte(ub)[..n] + [true] + ZeroBits(7 - n))[7] == ZeroBits(7 - n)[6 - n];
    }
    TagBits(v, b);
    assert BitsOfByte(b)[..7] == BitsOfByte(ub)[..n] + [true] + ZeroBits(6 - n);
  }

  lemma TagBits<H>(v: Variant<H>, b: Byte)
    requires b & 1 == 0
    ensures BitsOfByte(b | TagByte(v)) == BitsOfByte(b)[..7] + [v.tag]
  {
  }

  /** Everything between the message and the length, when it fits in the block with the tail. */
  lemma BodyBits<H>(v: Variant<H>, ub: Byte, n: nat, from: nat, length: seq<Byte>)
    requires Standard(v) && n < 8 && from < v.block - LengthBytes(v) && |length| == LengthBytes(v)
    requires 8 * (v.block - LengthBytes(v) - from) >= n + 2
    ensures BitsOf(LastBytes(v, [TailByte(ub, n)], from, length)) ==
            BitsOfByte(ub)[..n] + [true] + ZeroBits(8 * (v.block - LengthBytes(v) - from) - n - 2) + [v.tag] +
              BitsOf(length)
  {
    hide BitsOfByte, BitsOf, TailByte, LastBytes, TaggedZeros, ZeroBits;
    if v.block - LengthBytes(v) - from == 1 {
      ShortBits(v, ub, n, from, length);
    } else {
      LongBits(v, ub, n, from, length);
    }
  }

  lemma ShortBits<H>(v: Variant<H>, ub: Byte, n: nat, from: nat, length: seq<Byte>)
    requires Standard(v) && from + 1 == v.block - LengthBytes(v) && |length| == LengthBytes(v) && n <= 6
    ensures BitsOf(LastBytes(v, [TailByte(ub, n)], from, length)) ==
            BitsOfByte(ub)[..n] + [true] + ZeroBits(6 - n) + [v.tag] + BitsOf(length)
  {
    hide BitsOfByte, BitsOf, TailByte, LastBytes, TaggedZeros, ZeroBits;
    var tail := TailByte(ub, n);
    ShortShape(v, tail, from, length);
    BitsOfAppend([tail | TagByte(v)], length);
    BitsOfOne(tail | TagByte(v));
    TaggedTailBits(v, ub, n);
  }

  lemma LongBits<H>(v: Variant<H>, ub: Byte, n: nat, from: nat, length: seq<Byte>)
    requires Standard(v) && from + 1 < v.block - LengthBytes(v) && |length| == LengthBytes(v) && n < 8
    ensures BitsOf(LastBytes(v, [TailByte(ub, n)], from, length)) ==
            BitsOfByte(ub)[..n] + [true] + ZeroBits(8 * (v.block - LengthBytes(v) - from) - n - 2) + [v.tag] +
              BitsOf(length)
  {
    hide BitsOfByte, BitsOf, TailByte, LastBytes, TaggedZeros, ZeroBits;
    var tail := TailByte(ub, n);
    var room := v.block - LengthBytes(v) - from;
    LongShape(v, tail, from, length);
    BitsOfAppend([tail] + TaggedZeros(v, room - 1), length);
    BitsOfAppend([tail], TaggedZeros(v, room - 1));
    BitsOfOne(tail);
    TailBits(ub, n);
    TaggedZerosBits(v, room - 1);
    ZeroBitsAppend(7 - n, 8 * (room - 1) - 1);
    Regrouped(BitsOfByte(ub)[..n] + [true], ZeroBits(7 - n), ZeroBits(8 * (room - 1) - 1), [v.tag], BitsOf(length));
  }

  lemma Regrouped<T>(head: seq<T>, a: seq<T>, b: seq<T>, c: seq<T>, d: seq<T>)
    ensures ((head + a) + (b + c)) + d == head + (a + b) + c + d
  {
  }

  lemma ShortShape<H>(v: Variant<H>, tail: Byte, from: nat, length: seq<Byte>)
    requires Standard(v) && from + 1 == v.block - LengthBytes(v) && |length| == LengthBytes(v)
    ensures LastBytes(v, [tail], from, length) == [tail | TagByte(v)] + length
  {
    var body := [tail] + ZeroBytes(0);
    assert body == [tail];
  }

  lemma LongShape<H>(v: Variant<H>, tail: Byte, from: nat, length: seq<Byte>)
    requires Standard(v) && from + 1 < v.block - LengthBytes(v) && |length| == LengthBytes(v)
    ensures LastBytes(v, [tail], from, length) == [tail] + TaggedZeros(v, v.block - LengthBytes(v) - from - 1) + length
  {
    var room := v.block - LengthBytes(v) - from;
    var body := [tail] + ZeroBytes(room - 1);
    assert body[room - 1] | TagByte(v) == TagByte(v);
    assert body[room - 1 := TagByte(v)] == [tail] + TaggedZeros(v, room - 1);
  }

  function TaggedZeros<H>(v: Variant<H>, n: nat): (r: seq<Byte>)
    requires n > 0
    ensures |r| == n
  {
    ZeroBytes(n - 1) + [TagByte(v)]
  }

  lemma TaggedZerosBits<H>(v: Variant<H>, n: nat)
    requires n > 0
    ensures BitsOf(TaggedZeros(v, n)) == ZeroBits(8 * n - 1) + [v.tag]
  {
    BitsOfAppend(ZeroBytes(n - 1), [TagByte(v)]);
    BitsOfZeros(n - 1);
    BitsOfOne(TagByte(v));
    TagBits(v, 0);
    assert BitsOfByte(0)[..7] == ZeroBits(7);
    assert ZeroBits(8 * n - 1) == ZeroBits(8 * (n - 1)) + ZeroBits(7);
  }

  lemma EmptyShape<H>(v: Variant<H>, length: seq<Byte>)
    requires Standard(v) && |length| == LengthBytes(v)
    ensures LastBytes(v, [], 0, length) == TaggedZeros(v, v.block - LengthBytes(v)) + length
  {
    var room := v.block - LengthBytes(v);
    var body := [] + ZeroBytes(room);
    assert body[room - 1] | TagByte(v) == TagByte(v);
    assert body[room - 1 := TagByte(v)] == TaggedZeros(v, room);
  }

  /** The same over two blocks, when the length no longer fits behind the tail. */
  lemma TailAndZeros(ub: Byte, n: nat, gap: nat)
    requires n < 8
    ensures BitsOf([TailByte(ub, n)] + ZeroBytes(gap)) == BitsOfByte(ub)[..n] + [true] + ZeroBits(7 - n + 8 * gap)
  {
    hide BitsOfByte, BitsOf, TailByte, ZeroBits, ZeroBytes;
    BitsOfAppend([TailByte(ub, n)], ZeroBytes(gap));
    BitsOfOne(TailByte(ub, n));
    TailBits(ub, n);
    BitsOfZeros(gap);
    ZeroBitsAppend(7 - n, 8 * gap);
  }

  lemma SpilledBits<H>(v: Variant<H>, ub: Byte, n: nat, from: nat, length: seq<Byte>)
    requires Standard(v) && n < 8 && from < v.block && |length| == LengthBytes(v)
    ensures BitsOf([TailByte(ub, n)] + ZeroBytes(v.block - from - 1) + LastBytes(v, [], 0, length)) ==
            BitsOfByte(ub)[..n] + [true] + ZeroBits(8 * (2 * v.block - LengthBytes(v) - from) - n - 2) + [v.tag] +
              BitsOf(length)
  {
    hide BitsOfByte, BitsOf, TailByte, TaggedZeros, ZeroBits, LastBytes, ZeroBytes;
    var gap := v.block - from - 1;
    var room := v.block - LengthBytes(v);
    var spilled := [TailByte(ub, n)] + ZeroBytes(gap);
    EmptyShape(v, length);
    BitsOfAppend(spilled, TaggedZeros(v, room) + length);
    BitsOfAppend(TaggedZeros(v, room), length);
    TailAndZeros(ub, n, gap);
    TaggedZerosBits(v, room);
    ZeroBitsAppend(7 - n + 8 * gap, 8 * room - 1);
    var head := BitsOfByte(ub)[..n] + [true];
    Regrouped(head, ZeroBits(7 - n + 8 * gap), ZeroBits(8 * room - 1), [v.tag], BitsOf(length));
  }

  /** The two words of the length field are the message length, modulo the size of the field. */
  lemma LengthIsMessageLength<H>(v: Variant<H>, s: State<H>, n: nat, c: nat)
    requires Standard(v) && |s.buf| < v.block && n < 8 && Counts(v, s, c) && c % (8 * v.block) == 0
    ensures LengthField(v, s, n) == BigEndian(c + 8 * |s.buf| + n, LengthBytes(v))
  {
    hide BigEndian, Pow;
    var w, bits := v.word, 8 * |s.buf| + n;
    var half := LengthBytes(v) / 2;
    WordSize(v);
    NoCarry(v, s, c, bits);
    var l := c + bits;
    assert l == (l / w) * w + l % w;
    BigEndianSplit(l / w, l % w, half, half);
    BigEndianTruncates(l / w, half);
  }

  lemma WordSize<H>(v: Variant<H>)
    requires Standard(v)
    ensures v.word == Pow(256, LengthBytes(v) / 2) && LengthBytes(v) / 2 + LengthBytes(v) / 2 == LengthBytes(v)
  {
    assert Pow(256, 2) == 0x1_0000;
    assert Pow(256, 4) == 0x1_0000_0000;
    assert Pow(256, 6) == 0x1_0000_0000_0000;
    assert Pow(256, 8) == 0x1_0000_0000_0000_0000;
  }

  /** The bits waiting in the buffer never carry into the second word. */
  lemma NoCarry<H>(v: Variant<H>, s: State<H>, c: nat, bits: nat)
    requires Standard(v) && Counts(v, s, c) && c % (8 * v.block) == 0 && bits < 8 * v.block
    ensures (s.t0 + bits) % v.word == (c + bits) % v.word && s.t1 == ((c + bits) / v.word) % v.word
  {
    var w, k := v.word, 8 * v.block;
    var m := if v.block == 64 then 0x80_0000 else 0x40_0000_0000_0000;
    assert w == m * k;
    Arith.ModOfMultiple(c, w, k, m);
    Arith.MultipleBelow(s.t0, w, k, m);
    Arith.AddCarry(c, bits, w);
    Arith.SmallMod(s.t0 + bits, w);
  }

  // ---------------------------------------------------------------- the digest

  /** The digest by definition: compression folded over the bytes of the padded message. */
  ghost predicate IsDigest<H>(v: Variant<H>, iv: H, bits: seq<bool>, h: H)
    requires Standard(v)
  {
    exists padded :: Pads(v, bits, padded) && h == Fold(v, iv, padded, |bits|)
  }

  ghost predicate Pads<H>(v: Variant<H>, bits: seq<bool>, padded: seq<Byte>)
    requires Standard(v)
  {
    |padded| % v.block == 0 && BitsOf(padded) == PaddedBits(v, bits)
  }

  /** The definition determines the digest. */
  lemma DigestUnique<H>(v: Variant<H>, iv: H, bits: seq<bool>, h: H, k: H)
    requires Standard(v) && IsDigest(v, iv, bits, h) && IsDigest(v, iv, bits, k)
    ensures h == k
  {
    var p :| Pads(v, bits, p) && h == Fold(v, iv, p, |bits|);
    var q :| Pads(v, bits, q) && k == Fold(v, iv, q, |bits|);
    BitsInjective(p, q);
  }

  /** The bytes closing appends to the message. */
  ghost function Closing<H>(v: Variant<H>, s: State<H>, ub: Byte, n: nat): (r: seq<Byte>)
    requires Standard(v) && |s.buf| < v.block && n < 8
  {
    var length := LengthField(v, s, n);
    if 8 * |s.buf| + n <= 8 * (v.block - LengthBytes(v)) - 2 then LastBytes(v, [TailByte(ub, n)], |s.buf|, length)
    else [TailByte(ub, n)] + ZeroBytes(v.block - |s.buf| - 1) + LastBytes(v, [], 0, length)
  }

  lemma ClosingBits<H>(v: Variant<H>, s: State<H>, msg: seq<Byte>, ub: Byte, n: nat)
    requires Standard(v) && |s.buf| < v.block && n < 8 && |s.buf| <= |msg|
    requires (|msg| - |s.buf|) % v.block == 0 && Counts(v, s, 8 * (|msg| - |s.buf|))
    ensures |msg + Closing(v, s, ub, n)| % v.block == 0
    ensures var l := 8 * |msg| + n;
      BitsOf(Closing(v, s, ub, n)) ==
      BitsOfByte(ub)[..n] + [true] + ZeroBits(PadZeros(v, l)) + [v.tag] + BitsOf(BigEndian(l, LengthBytes(v)))
  {
    hide BitsOf, BitsOfByte, TailByte, LastBytes, LengthField, ZeroBits, PadZeros, Counts, BigEndian, ZeroBytes;
    var full := |msg| - |s.buf|;
    var l := 8 * |msg| + n;
    var length := LengthField(v, s, n);
    Arith.Scaled(full, v.block, 8);
    LengthIsMessageLength(v, s, n, 8 * full);
    if 8 * |s.buf| + n <= 8 * (v.block - LengthBytes(v)) - 2 {
      BodyBits(v, ub, n, |s.buf|, length);
      PadZerosIs(v, l, full, 1);
      Arith.MultiplePlus(full, v.block, 1);
    } else {
      SpilledBits(v, ub, n, |s.buf|, length);
      PadZerosIs(v, l, full, 2);
      Arith.MultiplePlus(full, v.block, 2);
    }
  }

  lemma ClosingPads<H>(v: Variant<H>, s: State<H>, msg: seq<Byte>, ub: Byte, n: nat)
    requires Standard(v) && |s.buf| < v.block && n < 8 && |s.buf| <= |msg|
    requires (|msg| - |s.buf|) % v.block == 0 && Counts(v, s, 8 * (|msg| - |s.buf|))
    ensures Pads(v, MessageBits(msg, ub, n), msg + Closing(v, s, ub, n))
  {
    hide BitsOf, BitsOfByte, ZeroBits, PadZeros, Counts, BigEndian, PaddedBits, Closing;
    ClosingBits(v, s, msg, ub, n);
    BitsOfAppend(msg, Closing(v, s, ub, n));
    PaddedBitsAre(v, msg, ub, n, PadZeros(v, 8 * |msg| + n));
  }

  lemma PaddedBitsAre<H>(v: Variant<H>, msg: seq<Byte>, ub: Byte, n: nat, zeros: nat)
    requires Standard(v) && n < 8 && zeros == PadZeros(v, 8 * |msg| + n)
    ensures PaddedBits(v, MessageBits(msg, ub, n)) ==
            BitsOf(msg) + (BitsOfByte(ub)[..n] + [true] + ZeroBits(zeros) + [v.tag] +
              BitsOf(BigEndian(8 * |msg| + n, LengthBytes(v))))
  {
    hide BitsOf, BitsOfByte, ZeroBits, PadZeros, BigEndian;
  }

  /** The zeros written are the fewest that complete the last block. */
  lemma PadZerosIs<H>(v: Variant<H>, l: nat, full: nat, blocks: nat)
    requires Standard(v) && full % v.block == 0
    requires l + 2 + 8 * LengthBytes(v) <= 8 * (full + blocks * v.block) < l + 2 + 8 * LengthBytes(v) + 8 * v.block
    ensures PadZeros(v, l) == 8 * (full + blocks * v.block) - (l + 2 + 8 * LengthBytes(v))
  {
    Arith.ScaledSum(full, v.block, blocks);
    Arith.PadTo(l + 2 + 8 * LengthBytes(v), 8 * v.block, full / v.block + blocks);
  }

  /** The block that `first` completes is compressed under the counter of the reference. */
  lemma FirstFolds<H>(v: Variant<H>, iv: H, s: State<H>, msg: seq<Byte>, n: nat, first: seq<Byte>)
    requires Standard(v) && n < 8 && Holds(v, iv, s, msg, 8 * |msg| + n) && |first| == v.block - |s.buf|
    ensures |msg + first| % v.block == 0
    ensures var c := Absorb(v, Rewound(v, s, n), first);
      c.h == Fold(v, iv, msg + first, 8 * |msg| + n) && c.buf == []
  {
    hide Absorb, Fold, Counts, Compressed, Rewound, Counter;
    var l := 8 * |msg| + n;
    var full := |msg| - |s.buf|;
    var one := msg + first;
    RewoundKeeps(v, s, n);
    AbsorbFilled(v, Rewound(v, s, n), first);
    var t := Rewound(v, s, n).(buf := s.buf + first);
    FirstCounter(v, s, n, full, t);
    assert one[..full] == msg[..full] && one[full..] == t.buf;
    CompressBlock(v, iv, t, one, full, l, Counter(v, l, full + v.block));
  }

  /** A block of padding alone is compressed under the counter 0. */
  lemma SecondFolds<H>(v: Variant<H>, iv: H, c: State<H>, one: seq<Byte>, last: seq<Byte>, l: nat)
    requires Standard(v) && |one| % v.block == 0 && l <= 8 * |one| && |last| == v.block
    requires c.h == Fold(v, iv, one, l) && c.buf == []
    ensures |one + last| % v.block == 0
    ensures Absorb(v, c.(t0 := v.word - 8 * v.block, t1 := v.word - 1), last).h == Fold(v, iv, one + last, l)
  {
    hide Absorb, Fold, Counts, Compressed, Counter;
    var reset := c.(t0 := v.word - 8 * v.block, t1 := v.word - 1);
    AbsorbFilled(v, reset, last);
    assert reset.buf + last == last;
    var u := reset.(buf := last);
    ResetCounts(v, u);
    PaddingCounter(v, l, |one + last|);
    assert (one + last)[|one|..] == last && (one + last)[..|one|] == one;
    CompressBlock(v, iv, u, one + last, |one|, l, 0);
  }

  /** Closing compresses exactly the blocks of the padded message, each under the counter it must have. */
  lemma ClosedFolds<H>(v: Variant<H>, iv: H, s: State<H>, msg: seq<Byte>, ub: Byte, n: nat)
    requires Standard(v) && n < 8 && Holds(v, iv, s, msg, 8 * |msg| + n)
    ensures |msg + Closing(v, s, ub, n)| % v.block == 0
    ensures Closed(v, s, ub, n) == Fold(v, iv, msg + Closing(v, s, ub, n), 8 * |msg| + n)
  {
    hide Absorb, TailByte, LastBytes, LengthField, Fold, Counts, Rewound, ZeroBytes;
    if 8 * |s.buf| + n <= 8 * (v.block - LengthBytes(v)) - 2 {
      FirstFolds(v, iv, s, msg, n, Closing(v, s, ub, n));
    } else {
      var first := [TailByte(ub, n)] + ZeroBytes(v.block - |s.buf| - 1);
      var last := LastBytes(v, [], 0, LengthField(v, s, n));
      FirstFolds(v, iv, s, msg, n, first);
      SecondFolds(v, iv, Absorb(v, Rewound(v, s, n), first), msg + first, last, 8 * |msg| + n);
      assert msg + Closing(v, s, ub, n) == (msg + first) + last;
    }
  }

  lemma RewoundKeeps<H>(v: Variant<H>, s: State<H>, n: nat)
    requires Standard(v) && |s.buf| < v.block && n < 8
    ensures Rewound(v, s, n).h == s.h && Rewound(v, s, n).buf == s.buf
  {
  }

  lemma PaddingCounter<H>(v: Variant<H>, l: nat, end: nat)
    requires 8 * end >= l + 8 * v.block
    ensures Counter(v, l, end) == 0
  {
  }

  /** The first block closed counts all message bits, or none if it has none of them. */
  lemma FirstCounter<H>(v: Variant<H>, s: State<H>, n: nat, full: nat, t: State<H>)
    requires Standard(v) && |s.buf| < v.block && n < 8 && full % v.block == 0 && Counts(v, s, 8 * full)
    requires t == Rewound(v, s, n).(buf := t.buf)
    ensures Counts(v, Compressed(v, t), Counter(v, 8 * (full + |s.buf|) + n, full + v.block))
  {
    if |s.buf| == 0 && n == 0 {
      ResetCounts(v, t);
    } else {
      Arith.Scaled(full, v.block, 8);
      RewoundCounts(v, s, n, 8 * full);
    }
  }

  /** Whatever the message, the tail bits and the way the message was cut, the result is the digest. */
  lemma ClosedIsDigest<H>(v: Variant<H>, iv: H, msg: seq<Byte>, ub: Byte, n: nat)
    requires Standard(v) && n < 8
    ensures |Absorb(v, State(iv, 0, 0, []), msg).buf| < v.block
    ensures IsDigest(v, iv, MessageBits(msg, ub, n), Closed(v, Absorb(v, State(iv, 0, 0, []), msg), ub, n))
  {
    hide Absorb, Closed, Closing, Fold, MessageBits, PaddedBits;
    var s := Absorb(v, State(iv, 0, 0, []), msg);
    AbsorbHolds(v, iv, msg, 8 * |msg| + n);
    ClosedFolds(v, iv, s, msg, ub, n);
    ClosingPads(v, s, msg, ub, n);
  }

  /** Init, any number of updates, close: the digest of the message the pieces make up. */
  method Hash<H>(v: Variant<H>, iv: H, chunks: seq<seq<Byte>>, ub: Byte, n: nat) returns (digest: H)
    requires Standard(v) && n < 8
    ensures IsDigest(v, iv, MessageBits(Joined(chunks), ub, n), digest)
  {
    hide Absorb, Closed, MessageBits, IsDigest;
    var sc := new Context(v, iv);
    ghost var init := sc.Abs();
    AbsorbNothing(v, init);
    for i := 0 to |chunks|
      invariant sc.Valid() && sc.v == v && fresh(sc) && fresh(sc.buf)
      invariant sc.Abs() == Absorb(v, init, Joined(chunks[..i]))
    {
      AbsorbAppend(v, init, Joined(chunks[..i]), chunks[i]);
      assert chunks[..i + 1][..i] == chunks[..i];
      sc.Update(chunks[i]);
    }
    assert chunks[..|chunks|] == chunks;
    ClosedIsDigest(v, iv, Joined(chunks), ub, n);
    digest := sc.Close(ub, n);
  }
}
