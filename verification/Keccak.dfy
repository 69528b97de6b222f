/** The streaming form of Keccak (src/keccak.c): absorbing through a buffer into a state with complemented
    lanes, and closing. The definition is the sponge of section 4 of FIPS 202 with the padding 10*1. */
module Keccak {
  import opened Bits
  import opened KeccakF
  import Arith

  // ---------------------------------------------------------------- bytes, bits and lanes

  /** The bits of a byte, least significant first. */
  function LowBits(b: Byte): (r: seq<bool>)
    ensures |r| == 8
  {
    [b & 1 != 0, b & 2 != 0, b & 4 != 0, b & 8 != 0, b & 0x10 != 0, b & 0x20 != 0, b & 0x40 != 0, b & 0x80 != 0]
  }

  function LowBitsOf(s: seq<Byte>): (r: seq<bool>)
    ensures |r| == 8 * |s|
  {
    if s == [] then [] else LowBitsOf(s[..|s| - 1]) + LowBits(s[|s| - 1])
  }

  lemma {:induction false} LowBitsAppend(s: seq<Byte>, t: seq<Byte>)
    ensures LowBitsOf(s + t) == LowBitsOf(s) + LowBitsOf(t)
  {
    if t == [] {
      assert s + t == s;
    } else {
      var last := |t| - 1;
      assert (s + t)[..|s| + last] == s + t[..last];
      LowBitsAppend(s, t[..last]);
    }
  }

  lemma {:induction false} LowBitsOfZeros(n: nat)
    ensures LowBitsOf(ZeroBytes(n)) == ZeroBits(8 * n)
  {
    if n > 0 {
      LowBitsOfZeros(n - 1);
      assert ZeroBytes(n)[..n - 1] == ZeroBytes(n - 1);
      assert LowBits(0) == ZeroBits(8);
      assert ZeroBits(8 * n) == ZeroBits(8 * (n - 1)) + ZeroBits(8);
    }
  }

  lemma LowBitsOfOne(b: Byte)
    ensures LowBitsOf([b]) == LowBits(b)
  {
    assert [b][..0] == [];
  }

  /** The state as it lies in memory: lane (x, y) at `x + 5 * y`. */
  type Wide = w: seq<Lane> | |w| == 25 witness seq(25, _ => ZeroBits(64))

  function FromWide(w: Wide): (a: Lanes)
  {
    Lanes(w[0], w[5], w[10], w[15], w[20], w[1], w[6], w[11], w[16], w[21], w[2], w[7], w[12], w[17], w[22],
          w[3], w[8], w[13], w[18], w[23], w[4], w[9], w[14], w[19], w[24])
  }

  function ToWide(a: Lanes): (w: Wide)
  {
    [a.a00, a.a10, a.a20, a.a30, a.a40, a.a01, a.a11, a.a21, a.a31, a.a41, a.a02, a.a12, a.a22, a.a32, a.a42,
     a.a03, a.a13, a.a23, a.a33, a.a43, a.a04, a.a14, a.a24, a.a34, a.a44]
  }

  /** The six lanes complemented in memory. */
  predicate Complemented(i: nat)
  {
    i == 1 || i == 2 || i == 8 || i == 12 || i == 17 || i == 20
  }

  function Stored(w: Wide): (r: Wide)
  {
    seq(25, i requires 0 <= i < 25 => if Complemented(i) then Not(w[i]) else w[i])
  }

  lemma StoredIsMasked(w: Wide)
    ensures FromWide(Stored(w)) == Masked(FromWide(w))
  {
  }

  lemma StoredTwice(w: Wide)
    ensures Stored(Stored(w)) == w
  {
    hide Not;
    forall i | 0 <= i < 25
      ensures Not(Not(w[i])) == w[i]
    {
      NotNot(w[i]);
    }
  }

  lemma WideTwice(a: Lanes)
    ensures FromWide(ToWide(a)) == a
  {
  }

  lemma LanesTwice(w: Wide)
    ensures ToWide(FromWide(w)) == w
  {
  }

  // ---------------------------------------------------------------- the sponge

  /** A block xored into the first lanes. */
  function Xored(w: Wide, block: seq<Byte>): (r: Wide)
  {
    seq(25, i requires 0 <= i < 25 =>
      if 8 * i + 8 <= |block| then Xor(w[i], LowBitsOf(block[8 * i..8 * i + 8])) else w[i])
  }

  function Absorbed(w: Wide, block: seq<Byte>): (r: Wide)
  {
    ToWide(Permute(FromWide(Xored(w, block))))
  }

  function Zero(): (w: Wide)
  {
    seq(25, _ => ZeroBits(64))
  }

  /** The state after the blocks of `data`. */
  function Sponge(lim: nat, data: seq<Byte>): (w: Wide)
    requires lim > 0 && |data| % lim == 0
    decreases |data|
  {
    if data == [] then Zero() else
      Arith.LastBlock(|data|, lim);
      Absorbed(Sponge(lim, data[..|data| - lim]), data[|data| - lim..])
  }

  /** The least number of zero bits between the two ones. */
  function PadZeros(lim: nat, l: nat): (q: nat)
    requires lim > 0
  {
    (8 * lim - (l + 2) % (8 * lim)) % (8 * lim)
  }

  ghost predicate Pads(lim: nat, bits: seq<bool>, padded: seq<Byte>)
    requires lim > 0
  {
    && |padded| % lim == 0
    && LowBitsOf(padded) == bits + [true] + ZeroBits(PadZeros(lim, |bits|)) + [true]
  }

  function AllBits(w: Wide): (r: seq<bool>)
    ensures |r| == 1600
  {
    Leading(w, |w|)
  }

  function Leading(w: Wide, n: nat): (r: seq<bool>)
    requires n <= 25
    ensures |r| == 64 * n
  {
    if n == 0 then [] else Leading(w, n - 1) + w[n - 1]
  }

  /** The first `d` bytes of the state. */
  function Squeezed(w: Wide, d: nat): (digest: seq<bool>)
    requires d <= 200
  {
    AllBits(w)[..8 * d]
  }

  /** The digest of `d` bytes by definition, as a bit string. */
  ghost predicate IsDigest(lim: nat, d: nat, bits: seq<bool>, digest: seq<bool>)
    requires lim > 0 && d <= 200
  {
    exists padded :: Pads(lim, bits, padded) && digest == Squeezed(Sponge(lim, padded), d)
  }

  // ---------------------------------------------------------------- one byte at a time

  /** Plain state and the bytes waiting in the buffer. */
  datatype State = State(w: Wide, buf: seq<Byte>)

  function Push(lim: nat, s: State, b: Byte): (r: State)
  {
    var buf := s.buf + [b];
    if |buf| == lim then State(Absorbed(s.w, buf), []) else State(s.w, buf)
  }

  function Absorb(lim: nat, s: State, data: seq<Byte>): (r: State)
  {
    if data == [] then s else Push(lim, Absorb(lim, s, data[..|data| - 1]), data[|data| - 1])
  }

  lemma {:induction false} AbsorbAppend(lim: nat, s: State, a: seq<Byte>, b: seq<Byte>)
    ensures Absorb(lim, s, a + b) == Absorb(lim, Absorb(lim, s, a), b)
  {
    if b == [] {
      assert a + b == a;
    } else {
      var last := |b| - 1;
      assert (a + b)[..|a| + last] == a + b[..last];
      AbsorbAppend(lim, s, a, b[..last]);
    }
  }

  lemma {:induction false} AbsorbStored(lim: nat, s: State, data: seq<Byte>)
    requires |s.buf| + |data| < lim
    ensures Absorb(lim, s, data) == State(s.w, s.buf + data)
  {
    if data == [] {
      assert s.buf + data == s.buf;
    } else {
      var last := |data| - 1;
      AbsorbStored(lim, s, data[..last]);
      assert s.buf + data == s.buf + data[..last] + [data[last]];
    }
  }

  lemma AbsorbFilled(lim: nat, s: State, data: seq<Byte>)
    requires |s.buf| + |data| == lim && data != []
    ensures Absorb(lim, s, data) == State(Absorbed(s.w, s.buf + data), [])
  {
    hide Absorbed;
    var last := |data| - 1;
    AbsorbStored(lim, s, data[..last]);
    assert s.buf + data == s.buf + data[..last] + [data[last]];
  }

  lemma AbsorbNothing(lim: nat, s: State)
    ensures Absorb(lim, s, []) == s
  {
  }

  /** The whole blocks are in the state, the rest is in the buffer. */
  ghost predicate Holds(lim: nat, s: State, msg: seq<Byte>)
    requires lim > 0
  {
    && |s.buf| < lim
    && |s.buf| <= |msg|
    && (|msg| - |s.buf|) % lim == 0
    && s.buf == msg[|msg| - |s.buf|..]
    && s.w == Sponge(lim, msg[..|msg| - |s.buf|])
  }

  lemma {:induction false} AbsorbHolds(lim: nat, msg: seq<Byte>)
    requires lim > 0
    ensures Holds(lim, Absorb(lim, State(Zero(), []), msg), msg)
  {
    hide Zero, Absorbed;
    if msg != [] {
      var last := |msg| - 1;
      AbsorbHolds(lim, msg[..last]);
      PushHolds(lim, Absorb(lim, State(Zero(), []), msg[..last]), msg);
    }
  }

  lemma PushHolds(lim: nat, s: State, msg: seq<Byte>)
    requires lim > 0 && msg != [] && Holds(lim, s, msg[..|msg| - 1])
    ensures Holds(lim, Push(lim, s, msg[|msg| - 1]), msg)
  {
    hide Zero, Absorbed;
    var last := |msg| - 1;
    var full := last - |s.buf|;
    assert msg[..last][..full] == msg[..full];
    assert s.buf + [msg[last]] == msg[full..];
    if |s.buf| + 1 == lim {
      Arith.MultiplePlus(full, lim, 1);
      assert msg[..|msg|] == msg && msg[..full] == msg[..|msg| - lim] && msg[|msg|..] == [];
    }
  }

  // ---------------------------------------------------------------- the context

  /** Rate and digest size in bytes: the four variants. */
  predicate Standard(lim: nat, d: nat)
  {
    lim + 2 * d == 200 && (d == 28 || d == 32 || d == 48 || d == 64)
  }

  class Context {
    const lim: nat
    const d: nat
    var wide: array<Lane>
    var buf: array<Byte>
    var ptr: nat

    ghost predicate Valid()
      reads this
    {
      Standard(lim, d) && wide.Length == 25 && buf.Length == lim && ptr < lim
    }

    /** The plain state: what is in memory, its six lanes complemented back, and the buffer. */
    ghost function Abs(): State
      requires Valid()
      reads this, wide, buf
    {
      State(Stored(wide[..]), buf[..ptr])
    }

    /** `keccak_init` for a digest of `outSize` bits. */
    constructor (outSize: nat)
      requires outSize == 224 || outSize == 256 || outSize == 384 || outSize == 512
      ensures Valid() && fresh(wide) && fresh(buf) && d == outSize / 8 && Abs() == State(Zero(), [])
    {
      hide Stored, Zero, Not, Complemented;
      lim, d := 200 - outSize / 4, outSize / 8;
      wide := new Lane[25](_ => ZeroBits(64));
      buf := new Byte[200 - outSize / 4];
      ptr := 0;
      new;
      Reset();
    }

    /** The bytes that end the message: the delimiter, zeros, and the closing bit of the last byte. */
    method Padding(ub: Byte, n: nat) returns (tmp: seq<Byte>)
      requires Valid() && n < 8
      ensures tmp == Closing(lim, ptr, ub, n)
    {
      hide EndByte;
      var eb := EndByte(ub, n);
      if ptr == lim - 1 {
        if n == 7 {
          tmp := [eb] + ZeroBytes(lim - 1) + [0x80];
        } else {
          tmp := [eb | 0x80];
        }
      } else {
        tmp := [eb] + ZeroBytes(lim - ptr - 2) + [0x80];
      }
    }

    /** The loop that writes whole lanes out, cut to the size of the digest. */
    method Output() returns (digest: seq<bool>)
      requires Valid()
      ensures digest == Squeezed(wide[..], d)
    {
      hide Squeezed, Leading;
      ghost var w := wide[..];
      NextLane(w, 0);
      digest := [];
      var j := 0;
      while j < d
        invariant 0 <= j <= d + 7 && j % 8 == 0 && digest == Leading(w, j / 8)
      {
        NextLane(w, j / 8);
        digest := digest + wide[j / 8];
        j := j + 8;
      }
      LeadingPrefix(w, j / 8, d);
      digest := digest[..8 * d];
    }

    /** `DEFCLOSE`: pads, absorbs, complements the six lanes back, copies out and starts again. */
    method Close(ub: Byte, n: nat) returns (digest: seq<bool>)
      requires Valid() && n < 8
      modifies this, wide, buf
      ensures Valid() && wide == old(wide) && buf == old(buf) && Abs() == State(Zero(), [])
      ensures digest == Squeezed(Absorb(lim, old(Abs()), Closing(lim, old(ptr), ub, n)).w, d)
    {
      hide Absorb, Closing, Squeezed, Stored, Zero;
      var tmp := Padding(ub, n);
      Update(tmp);
      var w := Stored(wide[..]);
      forall i | 0 <= i < 25 {
        wide[i] := w[i];
      }
      assert wide[..] == w;
      digest := Output();
      ptr := 0;
      Reset();
    }

    method Reset()
      requires wide.Length == 25
      modifies wide
      ensures Stored(wide[..]) == Zero()
    {
      hide Not;
      forall i | 0 <= i < 25 {
        wide[i] := if Complemented(i) then Not(ZeroBits(64)) else ZeroBits(64);
      }
      NotNot(ZeroBits(64));
    }

    /** `keccak_core`. */
    method Update(data: seq<Byte>)
      requires Valid()
      modifies this, wide, buf
      ensures Valid() && wide == old(wide) && buf == old(buf) && Abs() == Absorb(lim, old(Abs()), data)
    {
      hide Absorb, Absorbed, Stored;
      ghost var s := Abs();
      if |data| < lim - ptr {
        AbsorbStored(lim, s, data);
        Copy(data);
        return;
      }
      var done := 0;
      AbsorbNothing(lim, s);
      while done < |data|
        invariant Valid() && wide == old(wide) && buf == old(buf) && 0 <= done <= |data|
        invariant Abs() == Absorb(lim, s, data[..done])
        decreases |data| - done
      {
        var clen := if lim - ptr > |data| - done then |data| - done else lim - ptr;
        var chunk := data[done..done + clen];
        AbsorbAppend(lim, s, data[..done], chunk);
        assert data[..done] + chunk == data[..done + clen];
        ghost var before := Abs();
        if ptr + clen == lim {
          AbsorbFilled(lim, before, chunk);
        } else {
          AbsorbStored(lim, before, chunk);
        }
        Copy(chunk);
        if ptr == lim {
          AbsorbBuffer(before.buf + chunk);
        }
        done := done + clen;
      }
      assert data[..done] == data;
    }

    method Copy(chunk: seq<Byte>)
      requires Standard(lim, d) && wide.Length == 25 && buf.Length == lim && ptr + |chunk| <= lim
      modifies `ptr, buf
      ensures ptr == old(ptr) + |chunk| && buf[..ptr] == old(buf[..ptr]) + chunk
      ensures wide[..] == old(wide[..])
    {
      forall i | 0 <= i < |chunk| {
        buf[ptr + i] := chunk[i];
      }
      ptr := ptr + |chunk|;
    }

    /** `INPUT_BUF` and the permutation, on the lanes as stored. */
    method AbsorbBuffer(ghost block: seq<Byte>)
      requires Standard(lim, d) && wide.Length == 25 && buf.Length == lim && ptr == lim && block == buf[..]
      modifies `ptr, wide
      ensures Valid() && ptr == 0 && Stored(wide[..]) == Absorbed(Stored(old(wide[..])), block)
    {
      hide Permute, Masked, Stored, FromWide, ToWide, Xored;
      ghost var w := wide[..];
      Input(block);
      var a := FastPermute(FromWide(wide[..]));
      var r := ToWide(a);
      forall i | 0 <= i < 25 {
        wide[i] := r[i];
      }
      ptr := 0;
      assert wide[..] == r;
      AbsorbedStored(w, block);
    }

    method Input(ghost block: seq<Byte>)
      requires Standard(lim, d) && wide.Length == 25 && buf.Length == lim && block == buf[..]
      modifies wide
      ensures wide[..] == Xored(old(wide[..]), block)
    {
      hide Xor, LowBitsOf;
      var j := 0;
      while j < lim
        invariant 0 <= j <= lim && j % 8 == 0
        invariant forall i :: 0 <= i < 25 ==>
          wide[i] == if 8 * i + 8 <= j then Xor(old(wide[i]), LowBitsOf(block[8 * i..8 * i + 8])) else old(wide[i])
      {
        var lane := LowBitsOf(buf[j..j + 8]);
        assert buf[j..j + 8] == block[j..j + 8];
        wide[j / 8] := Xor(wide[j / 8], lane);
        j := j + 8;
      }
    }
  }

  /** Xoring and permuting the stored lanes is absorbing into the plain ones. */
  lemma AbsorbedStored(w: Wide, block: seq<Byte>)
    ensures Stored(ToWide(Masked(Permute(Masked(FromWide(Xored(w, block))))))) == Absorbed(Stored(w), block)
  {
    hide Permute, Masked, Stored, FromWide, ToWide, Xored;
    XoredStored(w, block);
    StoredIsMasked(Xored(w, block));
    var p := Permute(FromWide(Xored(Stored(w), block)));
    WideTwice(p);
    StoredIsMasked(ToWide(p));
    LanesTwice(Stored(ToWide(p)));
    StoredTwice(ToWide(p));
  }

  lemma XoredStored(w: Wide, block: seq<Byte>)
    ensures Xored(Stored(w), block) == Stored(Xored(w, block))
  {
    hide Xor, Not, LowBitsOf;
    forall i | 0 <= i < 25 && 8 * i + 8 <= |block|
      ensures Xor(Not(w[i]), LowBitsOf(block[8 * i..8 * i + 8])) == Not(Xor(w[i], LowBitsOf(block[8 * i..8 * i + 8])))
    {
      XorNot(w[i], LowBitsOf(block[8 * i..8 * i + 8]));
    }
  }

  // ---------------------------------------------------------------- closing

  /** The tail bits in the low positions, then a one. */
  function EndByte(ub: Byte, n: nat): (b: Byte)
    requires n < 8
  {
    (((0x100 as bv16) | (ub as bv16)) >> (8 - n)) as Byte
  }

  /** The bytes appended to the message. */
  function Closing(lim: nat, ptr: nat, ub: Byte, n: nat): (r: seq<Byte>)
    requires n < 8 && ptr < lim
  {
    if ptr == lim - 1 then
      if n == 7 then [EndByte(ub, n)] + ZeroBytes(lim - 1) + [0x80] else [EndByte(ub, n) | 0x80]
    else [EndByte(ub, n)] + ZeroBytes(lim - ptr - 2) + [0x80]
  }

  lemma NextLane(w: Wide, n: nat)
    requires n < 25
    ensures Leading(w, n + 1) == Leading(w, n) + w[n] && Leading(w, 0) == []
  {
  }

  lemma {:induction false} LeadingPrefix(w: Wide, n: nat, d: nat)
    requires n <= 25 && d <= 8 * n
    ensures Leading(w, n)[..8 * d] == Squeezed(w, d)
    decreases 25 - n
  {
    hide Leading;
    if n < 25 {
      NextLane(w, n);
      LeadingPrefix(w, n + 1, d);
    }
  }

  // ---------------------------------------------------------------- the padding, bit by bit

  /** The message bits: whole bytes, then the leading `n` bits of the last one, lowest first. */
  function MessageBits(msg: seq<Byte>, ub: Byte, n: nat): (bits: seq<bool>)
    requires n < 8
    ensures |bits| == 8 * |msg| + n
  {
    LowBitsOf(msg) + LowBits(ub)[8 - n..]
  }

  lemma EndBits(ub: Byte, n: nat)
    requires n < 8
    ensures LowBits(EndByte(ub, n)) == LowBits(ub)[8 - n..] + [true] + ZeroBits(7 - n)
  {
    if n < 4 {
      EndBitsFew(ub, n);
    } else if n < 6 {
      EndBitsMany(ub, n);
    } else {
      EndBitsMost(ub, n);
    }
  }

  lemma EndBitsFew(ub: Byte, n: nat)
    requires n < 4
    ensures LowBits(EndByte(ub, n)) == LowBits(ub)[8 - n..] + [true] + ZeroBits(7 - n)
  {
    hide EndByte;
    EndByteIs(ub, n);
    if n == 0 {
      assert LowBits(EndByte(ub, n)) == LowBits(ub)[8..] + [true] + ZeroBits(7);
    } else if n == 1 {
      assert LowBits(EndByte(ub, n)) == LowBits(ub)[7..] + [true] + ZeroBits(6);
    } else if n == 2 {
      assert LowBits(EndByte(ub, n)) == LowBits(ub)[6..] + [true] + ZeroBits(5);
    } else {
      assert LowBits(EndByte(ub, n)) == LowBits(ub)[5..] + [true] + ZeroBits(4);
    }
  }

  lemma EndBitsMany(ub: Byte, n: nat)
    requires 4 <= n < 6
    ensures LowBits(EndByte(ub, n)) == LowBits(ub)[8 - n..] + [true] + ZeroBits(7 - n)
  {
    hide EndByte;
    EndByteIs(ub, n);
    if n == 4 {
      assert LowBits(EndByte(ub, n)) == LowBits(ub)[4..] + [true] + ZeroBits(3);
    } else {
      assert LowBits(EndByte(ub, n)) == LowBits(ub)[3..] + [true] + ZeroBits(2);
    }
  }

  lemma EndBitsMost(ub: Byte, n: nat)
    requires 6 <= n < 8
    ensures LowBits(EndByte(ub, n)) == LowBits(ub)[8 - n..] + [true] + ZeroBits(7 - n)
  {
    hide EndByte;
    EndByteIs(ub, n);
    if n == 6 {
      assert LowBits(EndByte(ub, n)) == LowBits(ub)[2..] + [true] + ZeroBits(1);
    } else {
      assert LowBits(EndByte(ub, n)) == LowBits(ub)[1..] + [true] + ZeroBits(0);
    }
  }

  lemma EndByteIs(ub: Byte, n: nat)
    requires n < 8
    ensures n == 0 ==> EndByte(ub, n) == 1
    ensures n == 1 ==> EndByte(ub, n) == 2 | (ub >> 7)
    ensures n == 2 ==> EndByte(ub, n) == 4 | (ub >> 6)
    ensures n == 3 ==> EndByte(ub, n) == 8 | (ub >> 5)
    ensures n == 4 ==> EndByte(ub, n) == 0x10 | (ub >> 4)
    ensures n == 5 ==> EndByte(ub, n) == 0x20 | (ub >> 3)
    ensures n == 6 ==> EndByte(ub, n) == 0x40 | (ub >> 2)
    ensures n == 7 ==> EndByte(ub, n) == 0x80 | (ub >> 1)
  {
    if n == 0 {
      assert EndByte(ub, n) == (((0x100 as bv16) | (ub as bv16)) >> 8) as Byte;
    } else if n == 1 {
      assert EndByte(ub, n) == (((0x100 as bv16) | (ub as bv16)) >> 7) as Byte;
    } else if n == 2 {
      assert EndByte(ub, n) == (((0x100 as bv16) | (ub as bv16)) >> 6) as Byte;
    } else if n == 3 {
      assert EndByte(ub, n) == (((0x100 as bv16) | (ub as bv16)) >> 5) as Byte;
    } else if n == 4 {
      assert EndByte(ub, n) == (((0x100 as bv16) | (ub as bv16)) >> 4) as Byte;
    } else if n == 5 {
      assert EndByte(ub, n) == (((0x100 as bv16) | (ub as bv16)) >> 3) as Byte;
    } else if n == 6 {
      assert EndByte(ub, n) == (((0x100 as bv16) | (ub as bv16)) >> 2) as Byte;
    } else {
      assert EndByte(ub, n) == (((0x100 as bv16) | (ub as bv16)) >> 1) as Byte;
    }
  }

  lemma TopBit(b: Byte)
    requires b & 0x80 == 0
    ensures LowBits(b | 0x80) == LowBits(b)[..7] + [true]
  {
  }

  /** Tail, ones and zeros of the closing bytes: `zeros` zero bits between two ones. */
  ghost function Framed(ub: Byte, n: nat, zeros: nat): (r: seq<bool>)
    requires n < 8
  {
    LowBits(ub)[8 - n..] + [true] + ZeroBits(zeros) + [true]
  }

  lemma EndAndTopBits(ub: Byte, n: nat)
    requires n < 7
    ensures LowBitsOf([EndByte(ub, n) | 0x80]) == Framed(ub, n, 6 - n)
  {
    hide EndByte;
    var b := EndByte(ub, n);
    EndBits(ub, n);
    assert !LowBits(b)[7] by {
      assert (LowBits(ub)[8 - n..] + [true] + ZeroBits(7 - n))[7] == ZeroBits(7 - n)[6 - n];
    }
    TopBit(b);
    LowBitsOfOne(b | 0x80);
    assert LowBits(b)[..7] == LowBits(ub)[8 - n..] + [true] + ZeroBits(6 - n);
  }

  lemma EndZerosTopBits(ub: Byte, n: nat, k: nat)
    requires n < 8
    ensures LowBitsOf([EndByte(ub, n)] + ZeroBytes(k) + [0x80]) == Framed(ub, n, 14 - n + 8 * k)
  {
    hide EndByte, LowBits, LowBitsOf, ZeroBits;
    LowBitsAppend([EndByte(ub, n)] + ZeroBytes(k), [0x80]);
    LowBitsAppend([EndByte(ub, n)], ZeroBytes(k));
    LowBitsOfOne(EndByte(ub, n));
    LowBitsOfOne(0x80);
    EndBits(ub, n);
    LowBitsOfZeros(k);
    HighBit();
    ZeroBitsAppend(7 - n, 8 * k);
    ZeroBitsAppend(7 - n + 8 * k, 7);
  }

  lemma HighBit()
    ensures LowBits(0x80) == ZeroBits(7) + [true]
  {
  }

  lemma ClosingBits(lim: nat, ptr: nat, ub: Byte, n: nat)
    requires n < 8 && ptr < lim
    ensures var blocks := if ptr == lim - 1 && n == 7 then 2 else 1;
            && |Closing(lim, ptr, ub, n)| == blocks * lim - ptr
            && LowBitsOf(Closing(lim, ptr, ub, n)) == Framed(ub, n, 8 * (blocks * lim - ptr) - n - 2)
  {
    hide EndByte, LowBitsOf, Framed;
    if ptr == lim - 1 && n < 7 {
      EndAndTopBits(ub, n);
    } else if ptr == lim - 1 {
      EndZerosTopBits(ub, n, lim - 1);
    } else {
      EndZerosTopBits(ub, n, lim - ptr - 2);
    }
  }

  /** The zeros written are the fewest that complete the last block. */
  lemma PadZerosIs(lim: nat, l: nat, full: nat, blocks: nat)
    requires lim > 0 && full % lim == 0
    requires l + 2 <= 8 * (full + blocks * lim) < l + 2 + 8 * lim
    ensures PadZeros(lim, l) == 8 * (full + blocks * lim) - (l + 2)
  {
    Arith.ScaledSum(full, lim, blocks);
    Arith.PadTo(l + 2, 8 * lim, full / lim + blocks);
  }

  lemma ClosingPads(lim: nat, msg: seq<Byte>, ptr: nat, ub: Byte, n: nat)
    requires n < 8 && ptr < lim && ptr <= |msg| && (|msg| - ptr) % lim == 0
    ensures Pads(lim, MessageBits(msg, ub, n), msg + Closing(lim, ptr, ub, n))
  {
    hide LowBitsOf, LowBits, ZeroBits, Closing, PadZeros;
    var blocks := if ptr == lim - 1 && n == 7 then 2 else 1;
    var closing := Closing(lim, ptr, ub, n);
    ClosingBits(lim, ptr, ub, n);
    LowBitsAppend(msg, closing);
    var full := |msg| - ptr;
    assert blocks * lim == if blocks == 2 then lim + lim else lim;
    PadZerosIs(lim, 8 * |msg| + n, full, blocks);
    Arith.MultiplePlus(full, lim, blocks);
    var zeros := 8 * (blocks * lim - ptr) - n - 2;
    assert LowBitsOf(msg) + Framed(ub, n, zeros) == MessageBits(msg, ub, n) + [true] + ZeroBits(zeros) + [true];
  }

  // ---------------------------------------------------------------- the digest

  lemma {:induction false} LowBitsInjective(p: seq<Byte>, q: seq<Byte>)
    requires LowBitsOf(p) == LowBitsOf(q)
    ensures p == q
  {
    assert |p| == |q|;
    if p != [] {
      var last := |p| - 1;
      assert LowBitsOf(p)[..8 * last] == LowBitsOf(p[..last]) && LowBitsOf(q)[..8 * last] == LowBitsOf(q[..last]);
      assert LowBitsOf(p)[8 * last..] == LowBits(p[last]) && LowBitsOf(q)[8 * last..] == LowBits(q[last]);
      LowBitsInjective(p[..last], q[..last]);
      LowByteInjective(p[last], q[last]);
      assert p == p[..last] + [p[last]] && q == q[..last] + [q[last]];
    }
  }

  lemma LowByteInjective(a: Byte, b: Byte)
    requires LowBits(a) == LowBits(b)
    ensures a == b
  {
    assert forall i :: 0 <= i < 8 ==> LowBits(a)[i] == LowBits(b)[i];
    assert LowBits(a)[0] == LowBits(b)[0] && LowBits(a)[1] == LowBits(b)[1];
    assert LowBits(a)[2] == LowBits(b)[2] && LowBits(a)[3] == LowBits(b)[3];
    assert LowBits(a)[4] == LowBits(b)[4] && LowBits(a)[5] == LowBits(b)[5];
    assert LowBits(a)[6] == LowBits(b)[6] && LowBits(a)[7] == LowBits(b)[7];
  }

  /** The definition determines the digest. */
  lemma DigestUnique(lim: nat, d: nat, bits: seq<bool>, a: seq<bool>, b: seq<bool>)
    requires lim > 0 && d <= 200 && IsDigest(lim, d, bits, a) && IsDigest(lim, d, bits, b)
    ensures a == b
  {
    hide Sponge, Squeezed, LowBitsOf;
    var p :| Pads(lim, bits, p) && a == Squeezed(Sponge(lim, p), d);
    var q :| Pads(lim, bits, q) && b == Squeezed(Sponge(lim, q), d);
    LowBitsInjective(p, q);
  }

  /** Absorbing the closing bytes leaves the sponge of the padded message. */
  lemma ClosedHolds(lim: nat, msg: seq<Byte>, ptr: nat, ub: Byte, n: nat)
    requires n < 8 && ptr < lim && Holds(lim, Absorb(lim, State(Zero(), []), msg), msg)
    requires ptr == |Absorb(lim, State(Zero(), []), msg).buf|
    ensures |msg + Closing(lim, ptr, ub, n)| % lim == 0
    ensures Absorb(lim, Absorb(lim, State(Zero(), []), msg), Closing(lim, ptr, ub, n)).w ==
      Sponge(lim, msg + Closing(lim, ptr, ub, n))
  {
    hide Absorb, Absorbed, Zero, Closing, Sponge;
    var init := State(Zero(), []);
    var data := msg + Closing(lim, ptr, ub, n);
    ClosingPads(lim, msg, ptr, ub, n);
    AbsorbAppend(lim, init, msg, Closing(lim, ptr, ub, n));
    AbsorbHolds(lim, data);
    var rest := |Absorb(lim, init, data).buf|;
    SameRemainder(|data|, |data| - rest, lim);
    assert data[..|data|] == data;
  }

  lemma SameRemainder(a: nat, b: nat, lim: nat)
    requires lim > 0 && a % lim == 0 && b % lim == 0 && b <= a < b + lim
    ensures a == b
  {
    assert a == (a / lim) * lim && b == (b / lim) * lim;
    assert (a / lim - b / lim) * lim == a - b;
    Arith.MulAtLeast(a / lim - b / lim, lim);
  }

  /** Init, any number of updates, close: the digest of the message the pieces make up. */
  method Hash(outSize: nat, chunks: seq<seq<Byte>>, ub: Byte, n: nat) returns (digest: seq<bool>)
    requires outSize == 224 || outSize == 256 || outSize == 384 || outSize == 512
    requires n < 8
    ensures IsDigest(200 - outSize / 4, outSize / 8, MessageBits(Joined(chunks), ub, n), digest)
  {
    hide Absorb, Absorbed, Closing, MessageBits, Squeezed, Zero, Sponge, Permute;
    var kc := new Context(outSize);
    ghost var init := kc.Abs();
    AbsorbNothing(kc.lim, init);
    for i := 0 to |chunks|
      invariant kc.Valid() && fresh(kc) && fresh(kc.buf) && fresh(kc.wide)
      invariant kc.Abs() == Absorb(kc.lim, init, Joined(chunks[..i]))
    {
      AbsorbAppend(kc.lim, init, Joined(chunks[..i]), chunks[i]);
      assert chunks[..i + 1][..i] == chunks[..i];
      kc.Update(chunks[i]);
    }
    assert chunks[..|chunks|] == chunks;
    ghost var msg := Joined(chunks);
    AbsorbHolds(kc.lim, msg);
    ClosingPads(kc.lim, msg, kc.ptr, ub, n);
    ClosedHolds(kc.lim, msg, kc.ptr, ub, n);
    digest := kc.Close(ub, n);
  }
}
