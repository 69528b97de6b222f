/** Big numbers (src/bignum.h) over OpenSSL's MPI byte format: a length, then the magnitude most significant byte
    first, whose top bit is the sign. Byte vectors, and the compact form of targets. */
module Bignum {
  import opened Digits
  import opened Wrappers
  import opened Arith

  // ---------------------------------------------------------------- the MPI format

  /** The bytes after the length: an extra zero keeps a set top bit from being the sign. */
  function ToMpi(n: int): (body: seq<nat>)
    ensures AreDigits(256, body)
  {
    var m := Rep(256, if n < 0 then -n else n);
    if m == [] then []
    else
      var body := if m[0] >= 128 then [0] + m else m;
      if n < 0 then body[0 := body[0] + 128] else body
  }

  function FromMpi(body: seq<nat>): (n: int)
  {
    if body == [] then 0
    else if body[0] >= 128 then 0 - Num(256, body[0 := body[0] - 128])
    else Num(256, body)
  }

  lemma MpiRoundTrip(n: int)
    ensures FromMpi(ToMpi(n)) == n
  {
    hide Num, Rep;
    var a := if n < 0 then -n else n;
    var m := Rep(256, a);
    NumOfRep(256, a);
    NumPadded(256, 1, m);
    assert Zeros(1) + m == [0] + m;
    if m != [] {
      var body := if m[0] >= 128 then [0] + m else m;
      assert body[0 := body[0] + 128][0 := body[0]] == body;
    }
  }

  /** A size converted to `int`. */
  function ToInt32(x: nat): (n: int)
    ensures -0x8000_0000 <= n < 0x8000_0000 && n <= x
  {
    var w := x % 0x1_0000_0000;
    if w < 0x8000_0000 then w else w - 0x1_0000_0000
  }

  /** `BN_mpi2bn` on the bytes `d`, told that there are `n` of them: nothing if the length field disagrees. */
  function Mpi2bn(d: seq<nat>, n: int): (r: Option<int>)
    requires n <= |d|
  {
    if n < 4 || Num(256, d[..4]) + 4 != n then None else Some(FromMpi(d[4..n]))
  }

  /** How many bytes are taken of a vector of `size` bytes, after both its length field and the `int` have
      wrapped around; none if the `int` is negative or too small. */
  function SizeTaken(size: nat): (w: Option<nat>)
    ensures w.Some? ==> w.value <= size
  {
    var w := size % 0x1_0000_0000;
    if w + 4 < 0x8000_0000 then Some(w) else None
  }

  lemma LengthsAgree(size: nat)
    ensures SizeTaken(size).Some? ==> ToInt32(size + 4) == SizeTaken(size).value + 4
    ensures SizeTaken(size).None? ==> ToInt32(size + 4) < 4
  {
    var w := size % 0x1_0000_0000;
    var q := size / 0x1_0000_0000;
    if w + 4 < 0x1_0000_0000 {
      DivModUnique(size + 4, 0x1_0000_0000, q, w + 4);
    } else {
      DivModUnique(size + 4, 0x1_0000_0000, q + 1, w + 4 - 0x1_0000_0000);
    }
  }

  function Reversed(s: seq<nat>): (r: seq<nat>)
    ensures |r| == |s|
  {
    seq(|s|, i requires 0 <= i < |s| => s[|s| - 1 - i])
  }

  lemma ReversedTwice(s: seq<nat>)
    ensures Reversed(Reversed(s)) == s
  {
  }

  /** What `getvch` gives, `setvch` takes back. */
  lemma VchRoundTrip(n: int)
    ensures FromMpi(Reversed(Reversed(ToMpi(n)))) == n
  {
    MpiRoundTrip(n);
    ReversedTwice(ToMpi(n));
  }

  // ---------------------------------------------------------------- the compact form

  /** The first three bytes, zeros standing in for missing ones. */
  function Leading(body: seq<nat>): (x: nat)
  {
    Num(256, (body + Zeros(3))[..3])
  }

  function Compact(n: int): (c: nat)
    ensures c < 0x1_0000_0000
  {
    LeadingBytes(ToMpi(n));
    (|ToMpi(n)| % 256) * 0x100_0000 + Leading(ToMpi(n))
  }

  /** The bytes a compact value stands for. */
  function CompactBody(c: nat): (body: seq<nat>)
    requires c < 0x1_0000_0000
    ensures |body| == c / 0x100_0000
  {
    var size := c / 0x100_0000;
    ([(c / 0x1_0000) % 256, (c / 0x100) % 256, c % 256] + Zeros(size))[..size]
  }

  function Expanded(c: nat): (n: int)
    requires c < 0x1_0000_0000
  {
    FromMpi(CompactBody(c))
  }

  lemma TakenRead(d: seq<nat>, body: seq<nat>)
    requires |d| == |body| + 4 && d[4..] == body && Num(256, d[..4]) == |body| % 0x1_0000_0000
    ensures Mpi2bn(d, ToInt32(|d|)) ==
      match SizeTaken(|body|) case None => None case Some(w) => Some(FromMpi(body[..w]))
  {
    hide FromMpi, Num, ToInt32;
    LengthsAgree(|body|);
    if SizeTaken(|body|).Some? {
      var w := SizeTaken(|body|).value;
      assert d[4..w + 4] == body[..w];
    }
  }

  lemma SmallRead(d: seq<nat>, body: seq<nat>)
    requires |d| == |body| + 4 && d[4..] == body && Num(256, d[..4]) == |body| < 256
    ensures Mpi2bn(d, ToInt32(|d|)) == Some(FromMpi(body))
  {
    hide FromMpi, Num, ToInt32, Mpi2bn;
    SmallMod(|body|, 0x1_0000_0000);
    TakenRead(d, body);
    assert body[..|body|] == body;
  }

  // ---------------------------------------------------------------- the number object

  class BigNum {
    var v: int

    constructor (v: int)
      ensures this.v == v
    {
      this.v := v;
    }

    /** `setvch`: from bytes, least significant first. A vector too long for the `int` length is ignored, or
        cut where the length has wrapped around. */
    method SetVch(vch: seq<nat>)
      modifies this
      ensures var w := SizeTaken(|vch|); v == if w.Some? then FromMpi(Reversed(vch)[..w.value]) else old(v)
    {
      hide FromMpi, Num, SizeTaken;
      var nSize := |vch| % 0x1_0000_0000;
      var vch2 := new nat[|vch| + 4];
      vch2[0], vch2[1], vch2[2], vch2[3] :=
        (nSize / 0x100_0000) % 256, (nSize / 0x1_0000) % 256, (nSize / 0x100) % 256, nSize % 256;
      forall i | 0 <= i < |vch| {
        vch2[4 + i] := vch[|vch| - 1 - i];
      }
      HeaderIs(vch2[..4], nSize);
      assert vch2[..][..4] == vch2[..4];
      assert vch2[..][4..] == Reversed(vch);
      TakenRead(vch2[..], Reversed(vch));
      var n := Mpi2bn(vch2[..], ToInt32(vch2.Length));
      if n.Some? {
        v := n.value;
      }
    }

    /** `getvch`. */
    method GetVch() returns (vch: seq<nat>)
      ensures vch == Reversed(ToMpi(v))
    {
      hide ToMpi;
      var nSize := 4 + |ToMpi(v)|;
      if nSize <= 4 {
        return [];
      }
      vch := Reversed(ToMpi(v));
    }

    method SetCompact(nCompact: nat)
      requires nCompact < 0x1_0000_0000
      modifies this
      ensures v == Expanded(nCompact)
    {
      hide FromMpi, Num, Mpi2bn, ToInt32;
      var nSize := nCompact / 0x100_0000;
      assert nSize < 256;
      var vch := new nat[4 + nSize](_ => 0);
      vch[3] := nSize;
      if nSize >= 1 {
        vch[4] := (nCompact / 0x1_0000) % 256;
      }
      if nSize >= 2 {
        vch[5] := (nCompact / 0x100) % 256;
      }
      if nSize >= 3 {
        vch[6] := nCompact % 256;
      }
      assert vch[0] == 0 && vch[1] == 0 && vch[2] == 0 && vch[3] == nSize;
      SmallHeader(vch[..4]);
      assert vch[..][..4] == vch[..4];
      assert vch[..][4..] == CompactBody(nCompact);
      SmallRead(vch[..], CompactBody(nCompact));
      var n := Mpi2bn(vch[..], ToInt32(vch.Length));
      if n.Some? {
        v := n.value;
      }
    }

    method GetCompact() returns (nCompact: nat)
      ensures nCompact == Compact(v)
    {
      hide ToMpi;
      var body := ToMpi(v);
      var nSize := |body|;
      nCompact := (nSize % 256) * 0x100_0000;
      LeadingBytes(body);
      if nSize >= 1 {
        nCompact := nCompact + body[0] * 0x1_0000;
      }
      if nSize >= 2 {
        nCompact := nCompact + body[1] * 0x100;
      }
      if nSize >= 3 {
        nCompact := nCompact + body[2];
      }
    }
  }

  lemma ThreeDigits(s: seq<nat>)
    requires |s| == 3
    ensures Num(256, s) == s[0] * 0x1_0000 + s[1] * 0x100 + s[2]
  {
    NumAppend(256, s[..2], s[2]);
    NumAppend(256, s[..1], s[1]);
    NumAppend(256, [], s[0]);
    assert s == s[..2] + [s[2]] && s[..2] == s[..1] + [s[1]] && s[..1] == [] + [s[0]];
  }

  lemma FourBytes(n: nat)
    requires n < 0x1_0000_0000
    ensures ((n / 0x100_0000 % 256 * 0x1_0000 + n / 0x1_0000 % 256 * 0x100) + n / 0x100 % 256) * 256 + n % 256 == n
  {
    assert n / 0x1_0000 == n / 0x100 / 256 && n / 0x100_0000 == n / 0x1_0000 / 256 && n / 0x100_0000 < 256;
  }

  lemma HeaderIs(s: seq<nat>, n: nat)
    requires |s| == 4 && n < 0x1_0000_0000
    requires s[0] == (n / 0x100_0000) % 256 && s[1] == (n / 0x1_0000) % 256 && s[2] == (n / 0x100) % 256 &&
      s[3] == n % 256
    ensures Num(256, s) == n
  {
    hide Num;
    NumAppend(256, s[..3], s[3]);
    assert s == s[..3] + [s[3]];
    ThreeDigits(s[..3]);
    FourBytes(n);
  }

  lemma SmallHeader(s: seq<nat>)
    requires |s| == 4 && s[0] == 0 && s[1] == 0 && s[2] == 0
    ensures Num(256, s) == s[3]
  {
    hide Num;
    NumAppend(256, s[..3], s[3]);
    assert s == s[..3] + [s[3]];
    ThreeDigits(s[..3]);
  }

  lemma LeadingBytes(body: seq<nat>)
    ensures Leading(body) == (if |body| >= 1 then body[0] * 0x1_0000 else 0) +
                             (if |body| >= 2 then body[1] * 0x100 else 0) +
                             (if |body| >= 3 then body[2] else 0)
  {
    ThreeDigits((body + Zeros(3))[..3]);
  }

  // ---------------------------------------------------------------- what compacting loses

  /** The weight of the third byte: 1 while everything fits in three bytes. */
  function Unit(n: nat): (p: nat)
    ensures p > 0
  {
    var size := |ToMpi(n)|;
    if size <= 3 then 1 else Pow(256, size - 3)
  }

  /** The size of a number in bytes, sign bit included, by its magnitude. */
  lemma SizeBounds(n: nat)
    requires n > 0
    ensures var size := |ToMpi(n)|;
            && size >= 1 && n < 128 * Pow(256, size - 1)
            && (size >= 2 ==> n >= 128 * Pow(256, size - 2))
  {
    hide Rep, Num, Pow;
    var m := Rep(256, n);
    var k := |m|;
    NumOfRep(256, n);
    NumSplit(256, m, 1);
    assert m[..1] == [] + [m[0]];
    NumAppend(256, [], m[0]);
    NumNothing(256);
    NumBound(256, m[1..]);
    var p := Pow(256, k - 1);
    assert m[0] * p <= n < m[0] * p + p;
    assert (m[0] + 1) * p == m[0] * p + p;
    PowStep(256, k - 1);
    if m[0] >= 128 {
      Arith.MulMonotone(128, m[0], p);
      Arith.MulMonotone(m[0] + 1, 256, p);
    } else {
      Arith.MulMonotone(m[0] + 1, 128, p);
      Arith.MulMonotone(1, m[0], p);
      if k >= 2 {
        PowStep(256, k - 2);
      }
    }
  }

  /** A larger number is not shorter. */
  lemma SizeMonotone(n: nat, m: nat)
    requires n <= m
    ensures |ToMpi(n)| <= |ToMpi(m)|
  {
    hide Pow, ToMpi;
    if n == 0 {
      NothingToMpi();
    } else {
      SizeBounds(n);
      SizeBounds(m);
      var a, b := |ToMpi(n)|, |ToMpi(m)|;
      if a > b {
        PowMonotone(b - 1, a - 2);
      }
    }
  }

  lemma NothingToMpi()
    ensures ToMpi(0) == []
  {
  }

  lemma {:induction false} PowMonotone(a: nat, b: nat)
    requires a <= b
    ensures Pow(256, a) <= Pow(256, b)
  {
    if a < b {
      PowMonotone(a, b - 1);
    }
  }

  /** The three leading bytes are the number in units of the third. */
  lemma LeadingIs(n: nat)
    ensures var size := |ToMpi(n)|;
            && (size >= 3 ==> Leading(ToMpi(n)) == n / Unit(n))
            && (size == 2 ==> Leading(ToMpi(n)) == n * 0x100)
            && (size == 1 ==> Leading(ToMpi(n)) == n * 0x1_0000)
            && (size == 0 ==> Leading(ToMpi(n)) == 0 && n == 0)
            && Leading(ToMpi(n)) < 0x80_0000
  {
    hide Num, Pow, Rep, ToMpi;
    var body := ToMpi(n);
    BodyIs(n);
    LeadingBytes(body);
    if |body| >= 3 {
      NumSplit(256, body, 3);
      NumBound(256, body[3..]);
      ThreeDigits(body[..3]);
      PowStep(256, 0);
      Arith.DivModUnique(n, Unit(n), Num(256, body[..3]), Num(256, body[3..]));
    } else {
      ShortNum(body);
    }
  }

  lemma ShortNum(body: seq<nat>)
    requires |body| <= 2
    ensures Num(256, body) == if |body| == 0 then 0 else if |body| == 1 then body[0] else body[0] * 256 + body[1]
  {
    if |body| == 2 {
      assert body[..1] == [body[0]] && [body[0]][..0] == [];
    } else if |body| == 1 {
      assert body[..0] == [];
    }
  }

  lemma BodyIs(n: nat)
    ensures Num(256, ToMpi(n)) == n && (ToMpi(n) != [] ==> ToMpi(n)[0] < 128)
  {
    hide Num, Rep;
    var m := Rep(256, n);
    NumOfRep(256, n);
    NumPadded(256, 1, m);
    assert Zeros(1) + m == [0] + m;
    NumNothing(256);
  }

  lemma CompactSum(n: nat)
    requires |ToMpi(n)| < 256
    ensures Compact(n) == |ToMpi(n)| * 0x100_0000 + Leading(ToMpi(n))
  {
    hide ToMpi, Leading;
  }

  /** Expanding a compacted number cuts it off below the third byte. */
  lemma ExpandedCompact(n: nat)
    requires |ToMpi(n)| < 256
    ensures Expanded(Compact(n)) == (n / Unit(n)) * Unit(n)
  {
    hide Num, Pow, ToMpi, Leading, CompactBody, Compact, Unit;
    var body := ToMpi(n);
    var size := |body|;
    CompactSum(n);
    LeadingIs(n);
    LeadingBytes(body);
    BodyIs(n);
    ToMpiDigits(n);
    var lead := (body + Zeros(3))[..3];
    CompactBytes(size, lead[0], lead[1], lead[2]);
    var cut := CompactBody(Compact(n));
    UnitIs(n);
    if size <= 3 {
      assert cut == body;
    } else {
      assert cut == body[..3] + Zeros(size - 3);
      NumCut(body[..3], size - 3);
      LeadingOfThree(body);
    }
  }

  lemma ToMpiDigits(n: int)
    ensures AreDigits(256, ToMpi(n))
  {
  }

  lemma UnitIs(n: nat)
    ensures |ToMpi(n)| <= 3 ==> Unit(n) == 1 && (n / Unit(n)) * Unit(n) == n
    ensures |ToMpi(n)| > 3 ==> Unit(n) == Pow(256, |ToMpi(n)| - 3)
  {
    hide ToMpi;
  }

  lemma LeadingOfThree(body: seq<nat>)
    requires |body| >= 3
    ensures Leading(body) == Num(256, body[..3])
  {
    assert (body + Zeros(3))[..3] == body[..3];
  }

  /** The bytes put into a compact value come out again. */
  lemma CompactBytes(size: nat, b2: nat, b1: nat, b0: nat)
    requires size < 256 && b2 < 256 && b1 < 256 && b0 < 256
    ensures var c := size * 0x100_0000 + b2 * 0x1_0000 + b1 * 0x100 + b0;
            c < 0x1_0000_0000 && CompactBody(c) == ([b2, b1, b0] + Zeros(size))[..size]
  {
    var c := size * 0x100_0000 + b2 * 0x1_0000 + b1 * 0x100 + b0;
    Arith.DivModUnique(c, 0x100_0000, size, b2 * 0x1_0000 + b1 * 0x100 + b0);
    Arith.DivModUnique(c, 0x1_0000, size * 256 + b2, b1 * 0x100 + b0);
    Arith.DivModUnique(size * 256 + b2, 256, size, b2);
    Arith.DivModUnique(c, 0x100, (size * 256 + b2) * 256 + b1, b0);
    Arith.DivModUnique((size * 256 + b2) * 256 + b1, 256, size * 256 + b2, b1);
  }

  lemma NumCut(s: seq<nat>, k: nat)
    requires |s| == 3
    ensures Num(256, s + Zeros(k)) == Num(256, s) * Pow(256, k)
  {
    hide Num, Pow;
    var cut := s + Zeros(k);
    NumSplit(256, cut, 3);
    assert cut[..3] == s && cut[3..] == Zeros(k) + [];
    NumPadded(256, k, []);
    NumNothing(256);
  }

  /** Compacting keeps at least fifteen significant bits. */
  lemma CompactError(n: nat)
    requires |ToMpi(n)| < 256
    ensures var v := Expanded(Compact(n));
            v <= n && (n > 0 ==> (n - v) * 0x8000 < n)
  {
    hide Pow, ToMpi, Compact, Expanded;
    ExpandedCompact(n);
    var u := Unit(n);
    assert n == (n / u) * u + n % u;
    if n > 0 {
      LeadingAtLeast(n);
      if |ToMpi(n)| > 3 {
        assert (n / u) * u >= 0x8000 * u;
      }
    }
  }

  lemma LeadingAtLeast(n: nat)
    requires n > 0
    ensures |ToMpi(n)| > 3 ==> n / Unit(n) >= 0x8000
    ensures |ToMpi(n)| <= 3 ==> Unit(n) == 1
  {
    hide ToMpi, Pow;
    SizeBounds(n);
    var size := |ToMpi(n)|;
    if size > 3 {
      PowStep(256, size - 3);
      var u := Unit(n);
      assert n >= 0x8000 * u;
      Arith.DivMonotone(0x8000 * u, n, u);
      Arith.DivModUnique(0x8000 * u, u, 0x8000, 0);
    }
  }

  lemma SameUnit(n: nat, m: nat)
    requires |ToMpi(n)| == |ToMpi(m)|
    ensures Unit(n) == Unit(m)
  {
    hide ToMpi, Pow;
  }

  lemma CompactMonotone(n: nat, m: nat)
    requires n <= m && |ToMpi(m)| < 256
    ensures Compact(n) <= Compact(m)
  {
    hide ToMpi, Leading, Compact, Unit;
    SizeMonotone(n, m);
    CompactSum(n);
    CompactSum(m);
    LeadingIs(n);
    LeadingIs(m);
    if |ToMpi(n)| == |ToMpi(m)| && |ToMpi(n)| >= 3 {
      SameUnit(n, m);
      Arith.DivMonotone(n, m, Unit(n));
    }
  }

  /** What was expanded from a compact form compacts to the same form again. */
  lemma CompactAgain(n: nat)
    requires |ToMpi(n)| < 256
    ensures Expanded(Compact(n)) >= 0 && Compact(Expanded(Compact(n))) == Compact(n)
  {
    hide ToMpi, Leading, Pow, Expanded, Compact, Unit;
    ExpandedCompact(n);
    UnitIs(n);
    var u := Unit(n);
    var v := (n / u) * u;
    if |ToMpi(n)| > 3 {
      SameSize(n, v);
      SameUnit(n, v);
      CompactSum(n);
      CompactSum(v);
      LeadingIs(n);
      LeadingIs(v);
      Arith.MultipleQuotient(n / u, u);
    }
  }

  lemma SameSize(n: nat, v: nat)
    requires |ToMpi(n)| > 3 && v == (n / Unit(n)) * Unit(n)
    ensures |ToMpi(v)| == |ToMpi(n)|
  {
    hide ToMpi, Pow;
    var u, size := Unit(n), |ToMpi(n)|;
    assert n == (n / u) * u + n % u;
    SizeMonotone(v, n);
    if n == 0 {
      NothingToMpi();
    } else {
      LeadingAtLeast(n);
      PowStep(256, size - 3);
      assert v >= 0x8000 * u == 128 * Pow(256, size - 2);
      if |ToMpi(v)| < size {
        SizeBounds(v);
        PowMonotone(|ToMpi(v)| - 1, size - 2);
      }
    }
  }

  /** Every 256-bit number has a compact form of 32 bits. */
  lemma Fits(n: nat)
    requires n < Pow(256, 32)
    ensures |ToMpi(n)| < 256
  {
    hide ToMpi, Pow;
    if n == 0 {
      NothingToMpi();
    } else {
      SizeBounds(n);
      var size := |ToMpi(n)|;
      if size >= 256 {
        PowMonotone(32, size - 2);
      }
    }
  }
}
