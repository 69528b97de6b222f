/** Bytes as bits, most significant first, and big-endian numbers: shared by the hash models. */
module Bits {
  import opened Arith
  import opened Digits

  type Byte = bv8

  /** The bits of a byte, most significant first. */
  function BitsOfByte(b: Byte): (r: seq<bool>)
    ensures |r| == 8
  {
    [b & 0x80 != 0, b & 0x40 != 0, b & 0x20 != 0, b & 0x10 != 0, b & 8 != 0, b & 4 != 0, b & 2 != 0, b & 1 != 0]
  }

  function BitsOf(s: seq<Byte>): (r: seq<bool>)
    ensures |r| == 8 * |s|
  {
    if s == [] then [] else BitsOf(s[..|s| - 1]) + BitsOfByte(s[|s| - 1])
  }

  function ZeroBits(n: nat): (r: seq<bool>)
    ensures |r| == n && forall i :: 0 <= i < n ==> !r[i]
  {
    seq(n, _ => false)
  }

  function ZeroBytes(n: nat): (r: seq<Byte>)
    ensures |r| == n && forall i :: 0 <= i < n ==> r[i] == 0
  {
    seq(n, _ => 0)
  }

  /** The message bits: whole bytes and the leading bits of a last partial byte. */
  function MessageBits(msg: seq<Byte>, ub: Byte, n: nat): (bits: seq<bool>)
    requires n < 8
    ensures |bits| == 8 * |msg| + n
  {
    BitsOf(msg) + BitsOfByte(ub)[..n]
  }

  lemma ZeroBitsAppend(m: nat, n: nat)
    ensures ZeroBits(m + n) == ZeroBits(m) + ZeroBits(n)
  {
  }

  /** The message that pieces make up. */
  function Joined(chunks: seq<seq<Byte>>): (r: seq<Byte>)
  {
    if chunks == [] then [] else Joined(chunks[..|chunks| - 1]) + chunks[|chunks| - 1]
  }

  lemma {:induction false} BitsOfAppend(s: seq<Byte>, t: seq<Byte>)
    ensures BitsOf(s + t) == BitsOf(s) + BitsOf(t)
  {
    if t == [] {
      assert s + t == s;
    } else {
      var last := |t| - 1;
      assert (s + t)[..|s| + last] == s + t[..last];
      BitsOfAppend(s, t[..last]);
    }
  }

  lemma {:induction false} BitsOfZeros(n: nat)
    ensures BitsOf(ZeroBytes(n)) == ZeroBits(8 * n)
  {
    if n > 0 {
      BitsOfZeros(n - 1);
      assert ZeroBytes(n)[..n - 1] == ZeroBytes(n - 1);
      assert BitsOfByte(0) == ZeroBits(8);
      assert ZeroBits(8 * n) == ZeroBits(8 * (n - 1)) + ZeroBits(8);
    }
  }

  lemma BitsOfOne(b: Byte)
    ensures BitsOf([b]) == BitsOfByte(b)
  {
    assert [b][..0] == [];
  }

  lemma {:induction false} BitsInjective(p: seq<Byte>, q: seq<Byte>)
    requires BitsOf(p) == BitsOf(q)
    ensures p == q
  {
    assert |p| == |q|;
    if p != [] {
      var last := |p| - 1;
      assert BitsOf(p)[..8 * last] == BitsOf(p[..last]) && BitsOf(q)[..8 * last] == BitsOf(q[..last]);
      assert BitsOf(p)[8 * last..] == BitsOfByte(p[last]) && BitsOf(q)[8 * last..] == BitsOfByte(q[last]);
      BitsInjective(p[..last], q[..last]);
      ByteInjective(p[last], q[last]);
      assert p == p[..last] + [p[last]] && q == q[..last] + [q[last]];
    }
  }

  lemma ByteInjective(a: Byte, b: Byte)
    requires BitsOfByte(a) == BitsOfByte(b)
    ensures a == b
  {
    assert forall i :: 0 <= i < 8 ==> BitsOfByte(a)[i] == BitsOfByte(b)[i];
    assert BitsOfByte(a)[0] == BitsOfByte(b)[0] && BitsOfByte(a)[1] == BitsOfByte(b)[1];
    assert BitsOfByte(a)[2] == BitsOfByte(b)[2] && BitsOfByte(a)[3] == BitsOfByte(b)[3];
    assert BitsOfByte(a)[4] == BitsOfByte(b)[4] && BitsOfByte(a)[5] == BitsOfByte(b)[5];
    assert BitsOfByte(a)[6] == BitsOfByte(b)[6] && BitsOfByte(a)[7] == BitsOfByte(b)[7];
  }

  function ByteOf(x: nat): (b: Byte)
    requires x < 256
  {
    x as Byte
  }

  function Value(b: Byte): (x: nat)
    ensures x < 256
  {
    b as nat
  }

  lemma ByteOfValue(b: Byte)
    ensures ByteOf(Value(b)) == b
  {
  }

  /** A number as `n` bytes, most significant first; higher digits are dropped. */
  function BigEndian(x: nat, n: nat): (r: seq<Byte>)
    ensures |r| == n
  {
    if n == 0 then [] else BigEndian(x / 256, n - 1) + [ByteOf(x % 256)]
  }

  lemma LowDigit(h: nat, lo: nat)
    ensures (256 * h + lo) / 256 == h + lo / 256 && (256 * h + lo) % 256 == lo % 256
  {
  }

  lemma NextDigit(x: nat, n: nat)
    requires n > 0
    ensures BigEndian(x, n) == BigEndian(x / 256, n - 1) + [ByteOf(x % 256)] && Pow(256, n) == 256 * Pow(256, n - 1)
  {
  }

  /** Two words one after the other are the number they make up. */
  lemma {:induction false} BigEndianSplit(hi: nat, lo: nat, n: nat, m: nat)
    requires lo < Pow(256, n)
    ensures BigEndian(hi * Pow(256, n) + lo, m + n) == BigEndian(hi, m) + BigEndian(lo, n)
  {
    hide BigEndian;
    var x := hi * Pow(256, n) + lo;
    if n == 0 {
      assert BigEndian(hi, m) + [] == BigEndian(hi, m);
    } else {
      hide Pow;
      var p := Pow(256, n - 1);
      NextDigit(x, m + n);
      NextDigit(lo, n);
      assert x == 256 * (hi * p) + lo;
      LowDigit(hi * p, lo);
      BigEndianSplit(hi, lo / 256, n - 1, m);
    }
  }

  lemma BigEndianTruncates(x: nat, n: nat)
    ensures BigEndian(x, n) == BigEndian(x % Pow(256, n), n)
  {
    hide Pow, BigEndian;
    var p := Pow(256, n);
    assert x == (x / p) * p + x % p;
    BigEndianSplit(x / p, x % p, n, 0);
    assert BigEndian(x / p, 0) + BigEndian(x % p, n) == BigEndian(x % p, n);
  }

  function Values(s: seq<Byte>): (r: seq<nat>)
    ensures |r| == |s| && AreDigits(256, r)
  {
    seq(|s|, i requires 0 <= i < |s| => Value(s[i]))
  }

  /** The number that bytes make up, most significant first. */
  function Number(s: seq<Byte>): (x: nat)
  {
    Num(256, Values(s))
  }

  lemma NumberOfAppend(s: seq<Byte>, b: Byte)
    ensures Number(s + [b]) == 256 * Number(s) + Value(b)
  {
    hide Num, Value;
    NumAppend(256, Values(s), Value(b));
    assert Values(s + [b]) == Values(s) + [Value(b)];
  }

  lemma NumberBound(s: seq<Byte>)
    ensures Number(s) < Pow(256, |s|)
  {
    hide Num, Value;
    NumBound(256, Values(s));
  }

  lemma {:induction false} BigEndianOfNumber(s: seq<Byte>)
    ensures BigEndian(Number(s), |s|) == s
  {
    hide Value, ByteOf, BigEndian, Number;
    if s != [] {
      var last := |s| - 1;
      var h, l := Number(s[..last]), Value(s[last]);
      assert s == s[..last] + [s[last]];
      NumberOfAppend(s[..last], s[last]);
      BigEndianOfNumber(s[..last]);
      LowDigit(h, l);
      NextDigit(256 * h + l, |s|);
      ByteOfValue(s[last]);
    }
  }

  lemma NumberOfNothing()
    ensures Number([]) == 0
  {
  }

  /** Appending a byte to a number short of four bytes stays within 32 bits. */
  lemma ShiftIn(s: seq<Byte>, b: Byte)
    requires |s| < 4
    ensures (Number(s) * 256) % 0x1_0000_0000 + Value(b) == Number(s + [b])
  {
    hide Number, Value;
    NumberBound(s);
    NumberOfAppend(s, b);
    assert Pow(256, 0) == 1 && Pow(256, 1) == 256 && Pow(256, 2) == 0x1_0000 && Pow(256, 3) == 0x100_0000;
    assert Number(s) * 256 < 0x1_0000_0000;
  }

  /** What remains of a growing message after its first `k` elements grows with it. */
  lemma SuffixGrows<T>(msg: seq<T>, k: nat)
    requires k < |msg|
    ensures msg[..|msg| - 1][k..] + [msg[|msg| - 1]] == msg[k..]
    ensures msg[..|msg| - 1][..k] == msg[..k]
  {
  }
}
