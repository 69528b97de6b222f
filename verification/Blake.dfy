/** The streaming form of BLAKE (src/blake.c), both word sizes, with the compression function abstract:
    buffering, the counter kept in two words, and the closing tricks on that counter. */
module Blake {
  import opened Bits

  /** One of the four variants: block and word size, the bit that ends the padding (set for the full
      output size), and the compression of a block into a chaining value under a two-word counter. */
  datatype Variant<!H> = Variant(block: nat, word: nat, tag: bool, compress: (H, seq<Byte>, nat, nat) -> H)

  /** 64-byte blocks with 32-bit words (224, 256), or 128-byte blocks with 64-bit words (384, 512). */
  predicate Standard<H>(v: Variant<H>)
  {
    || (v.block == 64 && v.word == 0x1_0000_0000)
    || (v.block == 128 && v.word == 0x1_0000_0000_0000_0000)
  }

  /** Chaining value, counter words and the bytes waiting in the buffer. */
  datatype State<H> = State(h: H, t0: nat, t1: nat, buf: seq<Byte>)

  // ---------------------------------------------------------------- one byte at a time

  /** Compressing a full buffer: the counter advances by a block first. */
  function Compressed<H>(v: Variant<H>, s: State<H>): (r: State<H>)
    requires v.word > 0
  {
    var t0 := (s.t0 + 8 * v.block) % v.word;
    var t1 := if t0 < 8 * v.block then (s.t1 + 1) % v.word else s.t1;
    State(v.compress(s.h, s.buf, t0, t1), t0, t1, [])
  }

  function Push<H>(v: Variant<H>, s: State<H>, b: Byte): (r: State<H>)
    requires v.word > 0
  {
    var t := s.(buf := s.buf + [b]);
    if |t.buf| == v.block then Compressed(v, t) else t
  }

  /** Absorbing bytes one by one: what every way of splitting the message must agree with. */
  function Absorb<H>(v: Variant<H>, s: State<H>, data: seq<Byte>): (r: State<H>)
    requires v.word > 0
  {
    if data == [] then s else Push(v, Absorb(v, s, data[..|data| - 1]), data[|data| - 1])
  }

  lemma {:induction false} AbsorbAppend<H>(v: Variant<H>, s: State<H>, a: seq<Byte>, b: seq<Byte>)
    requires v.word > 0
    ensures Absorb(v, s, a + b) == Absorb(v, Absorb(v, s, a), b)
  {
    if b == [] {
      assert a + b == a;
    } else {
      var last := |b| - 1;
      assert (a + b)[..|a| + last] == a + b[..last];
      AbsorbAppend(v, s, a, b[..last]);
    }
  }

  /** Bytes that do not fill the buffer are only stored. */
  lemma {:induction false} AbsorbStored<H>(v: Variant<H>, s: State<H>, data: seq<Byte>)
    requires v.word > 0 && |s.buf| + |data| < v.block
    ensures Absorb(v, s, data) == s.(buf := s.buf + data)
  {
    if data == [] {
      assert s.buf + data == s.buf;
    } else {
      var last := |data| - 1;
      AbsorbStored(v, s, data[..last]);
      assert s.buf + data == s.buf + data[..last] + [data[last]];
    }
  }

  /** Bytes that exactly fill the buffer lead to one compression. */
  lemma AbsorbFilled<H>(v: Variant<H>, s: State<H>, data: seq<Byte>)
    requires v.word > 0 && |s.buf| + |data| == v.block && data != []
    ensures Absorb(v, s, data) == Compressed(v, s.(buf := s.buf + data))
  {
    var last := |data| - 1;
    AbsorbStored(v, s, data[..last]);
    assert s.buf + data == s.buf + data[..last] + [data[last]];
  }

  // ---------------------------------------------------------------- the context

  class Context<H> {
    const v: Variant<H>
    var h: H
    var T0: nat
    var T1: nat
    var buf: array<Byte>
    var ptr: nat

    ghost predicate Valid()
      reads this
    {
      Standard(v) && buf.Length == v.block && ptr < v.block
    }

    ghost function Abs(): State<H>
      requires Valid()
      reads this, buf
    {
      State(h, T0, T1, buf[..ptr])
    }

    constructor (v: Variant<H>, iv: H)
      requires Standard(v)
      ensures Valid() && this.v == v && fresh(buf) && Abs() == State(iv, 0, 0, [])
    {
      this.v := v;
      h := iv;
      T0, T1, ptr := 0, 0, 0;
      buf := new Byte[v.block];
    }

    /** `blake32` and `blake64`: stores what does not fill the buffer, otherwise compresses block by block. */
    method Update(data: seq<Byte>)
      requires Valid()
      modifies this, buf
      ensures Valid() && buf == old(buf) && Abs() == Absorb(v, old(Abs()), data)
    {
      hide Absorb, Compressed;
      ghost var s := Abs();
      if |data| < v.block - ptr {
        AbsorbStored(v, s, data);
        Copy(data);
        return;
      }
      var done := 0;
      AbsorbNothing(v, s);
      while done < |data|
        invariant Valid() && buf == old(buf) && 0 <= done <= |data|
        invariant Abs() == Absorb(v, s, data[..done])
        decreases |data| - done
      {
        var clen := if v.block - ptr > |data| - done then |data| - done else v.block - ptr;
        var chunk := data[done..done + clen];
        AbsorbAppend(v, s, data[..done], chunk);
        assert data[..done] + chunk == data[..done + clen];
        ghost var before := Abs();
        if ptr + clen == v.block {
          AbsorbFilled(v, before, chunk);
        } else {
          AbsorbStored(v, before, chunk);
        }
        Copy(chunk);
        if ptr == v.block {
          CompressBuffer(before.(buf := before.buf + chunk));
        }
        done := done + clen;
      }
      assert data[..done] == data;
    }

    /** `blake32_close` and `blake64_close`, up to writing out the chaining value. */
    method Close(ub: Byte, n: nat) returns (digest: H)
      requires Valid() && n < 8
      modifies this, buf
      ensures Valid() && digest == Closed(v, old(Abs()), ub, n)
    {
      hide Absorb, LastBytes, TailByte, BigEndian;
      ghost var s := Abs();
      var bitLen := 8 * ptr + n;
      var start := ptr;
      var length := BigEndian(T1, LengthBytes(v) / 2) + BigEndian((T0 + bitLen) % v.word, LengthBytes(v) / 2);
      if ptr == 0 && n == 0 {
        T0, T1 := v.word - 8 * v.block, v.word - 1;
      } else if T0 == 0 {
        T0, T1 := (v.word - 8 * v.block + bitLen) % v.word, (T1 + v.word - 1) % v.word;
      } else {
        T0 := (T0 + v.word - (8 * v.block - bitLen)) % v.word;
      }
      assert Abs() == Rewound(v, s, n);
      if bitLen <= 8 * (v.block - LengthBytes(v)) - 2 {
        var u := LastBytes(v, [TailByte(ub, n)], start, length);
        Update(u);
      } else {
        var u := [TailByte(ub, n)] + ZeroBytes(v.block - start - 1);
        Update(u);
        T0, T1 := v.word - 8 * v.block, v.word - 1;
        u := LastBytes(v, [], 0, length);
        Update(u);
      }
      digest := h;
    }

    /** The `memcpy` into the buffer, which may fill it. */
    method Copy(chunk: seq<Byte>)
      requires Standard(v) && buf.Length == v.block && ptr + |chunk| <= v.block
      modifies `ptr, buf
      ensures ptr == old(ptr) + |chunk| && buf[..ptr] == old(buf[..ptr]) + chunk
    {
      forall i | 0 <= i < |chunk| {
        buf[ptr + i] := chunk[i];
      }
      ptr := ptr + |chunk|;
    }

    method CompressBuffer(ghost s: State<H>)
      requires Standard(v) && buf.Length == v.block && ptr == v.block
      requires s == State(h, T0, T1, buf[..])
      modifies `h, `T0, `T1, `ptr
      ensures Valid() && Abs() == Compressed(v, s)
    {
      T0 := (T0 + 8 * v.block) % v.word;
      if T0 < 8 * v.block {
        T1 := (T1 + 1) % v.word;
      }
      h := v.compress(h, buf[..], T0, T1);
      ptr := 0;
    }
  }

  lemma AbsorbNothing<H>(v: Variant<H>, s: State<H>)
    requires v.word > 0
    ensures Absorb(v, s, []) == s
  {
  }

  // ---------------------------------------------------------------- closing

  /** Bytes of the message length at the end of the padding: 8 or 16. */
  function LengthBytes<H>(v: Variant<H>): (n: nat)
  {
    v.block / 8
  }

  /** The last partial byte: its `n` leading bits, then a one, then zeros. */
  function TailByte(ub: Byte, n: nat): (b: Byte)
    requires n < 8
  {
    var z: Byte := 0x80 >> n;
    (ub & (0 - z)) | z
  }

  /** The counter set back so that the addition of a block yields the number of message bits, or zero
      when the block to come holds none. */
  function Rewound<H>(v: Variant<H>, s: State<H>, n: nat): (r: State<H>)
    requires Standard(v) && |s.buf| < v.block && n < 8
  {
    var bitLen := 8 * |s.buf| + n;
    if |s.buf| == 0 && n == 0 then s.(t0 := v.word - 8 * v.block, t1 := v.word - 1)
    else if s.t0 == 0 then s.(t0 := (v.word - 8 * v.block + bitLen) % v.word, t1 := (s.t1 + v.word - 1) % v.word)
    else s.(t0 := (s.t0 + v.word - (8 * v.block - bitLen)) % v.word)
  }

  function TagByte<H>(v: Variant<H>): (b: Byte)
  {
    if v.tag then 1 else 0
  }

  /** The end of the last block: zeros from `from`, the tag bit ored into the byte before the length. */
  function LastBytes<H>(v: Variant<H>, first: seq<Byte>, from: nat, length: seq<Byte>): (r: seq<Byte>)
    requires Standard(v) && from < v.block - LengthBytes(v) && |first| <= 1 && |length| == LengthBytes(v)
    ensures |r| == v.block - from
  {
    var room := v.block - LengthBytes(v) - from;
    var body := first + ZeroBytes(room - |first|);
    body[room - 1 := body[room - 1] | TagByte(v)] + length
  }

  /** The length field: the two counter words advanced by the bits in the buffer. */
  function LengthField<H>(v: Variant<H>, s: State<H>, n: nat): (r: seq<Byte>)
    requires Standard(v)
    ensures |r| == LengthBytes(v)
  {
    var tl := (s.t0 + 8 * |s.buf| + n) % v.word;
    BigEndian(s.t1, LengthBytes(v) / 2) + BigEndian(tl, LengthBytes(v) / 2)
  }

  /** The chaining value `blake32_close` and `blake64_close` end with. */
  function Closed<H>(v: Variant<H>, s: State<H>, ub: Byte, n: nat): (h: H)
    requires Standard(v) && |s.buf| < v.block && n < 8
  {
    var ptr := |s.buf|;
    var bitLen := 8 * ptr + n;
    var rewound := Rewound(v, s, n);
    if bitLen <= 8 * (v.block - LengthBytes(v)) - 2 then
      Absorb(v, rewound, LastBytes(v, [TailByte(ub, n)], ptr, LengthField(v, s, n))).h
    else
      var middle := Absorb(v, rewound, [TailByte(ub, n)] + ZeroBytes(v.block - ptr - 1));
      var reset := middle.(t0 := v.word - 8 * v.block, t1 := v.word - 1);
      Absorb(v, reset, LastBytes(v, [], 0, LengthField(v, s, n))).h
  }
}
